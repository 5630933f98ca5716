/**
 * Runs that are built event by event: a receiver takes a block, the sender gets the ACK and sends the next block, and
 * so on. The sender may be whole rounds of 65535 blocks ahead of the receiver without either of them noticing.
 */
module Volleys {
  import opened Basics
  import opened BlockNumbers
  import opened MemoryFiles
  import opened Packets
  import opened Operations
  import opened Senders
  import opened Receivers
  import opened Transfers
  import opened Opening
  import opened Honesty

  // Reachable systems

  /** Where a run can go on from, it can go on by an event that keeps the order and duplicates nothing. */
  ghost predicate Closed(reach: System -> bool) {
    forall sys, event :: reach(sys) && Enabled(sys, event) && InOrderOnce(sys, event) ==> reach(Step(sys, event))
  }

  lemma Onward(reach: System -> bool, sys: System, event: Event)
    requires Closed(reach) && reach(sys) && Enabled(sys, event) && InOrderOnce(sys, event)
    ensures reach(Step(sys, event))
  {
  }

  // One volley

  /** The datagram of a block, as the sender has sent it. */
  function BlockDatagram(plan: Plan, index: nat): Datagram
    requires index >= 1
  {
    Datagram(Data(Number(index), Block(plan.file, plan.size, index)), index)
  }

  /** The log of the sender has each of the first blocks once, from position `first` on. */
  predicate BlocksLogged(plan: Plan, log: seq<Datagram>, first: nat, count: nat) {
    |log| == first + count && forall i :: first <= i < |log| ==> log[i] == BlockDatagram(plan, i - first + 1)
  }

  /** Whole rounds do not show in the numbers. */
  predicate WholeRounds(ahead: nat) {
    ahead % PERIOD == 0
  }

  /**
   * The receiver waits for block `turn`; the sender, which is `ahead` blocks further, has just sent its block, and has
   * seen all answers.
   */
  ghost predicate Volley(plan: Plan, sys: System, first: nat, ahead: nat, turn: nat) {
    && Honest(plan, sys) && plan.usable && plan.size >= 1 && plan.bufferSize > 3
    && WholeRounds(ahead) && turn >= 1
    && sys.sender.Open() && sys.sender.blocksSent == ahead + turn
    && (if turn == 1 then sys.sender.lastReceivedBlockNumber != 1
        else sys.sender.lastReceivedBlockNumber == Number(turn - 1))
    && sys.receiver.Open() && |sys.receiver.delivered| == turn - 1
    && BlocksLogged(plan, sys.toReceiver, first, ahead + turn)
    && sys.nextToSender <= |sys.toSender|
  }

  lemma RoundsApart(ahead: nat, turn: nat)
    requires WholeRounds(ahead) && turn >= 1
    ensures Number(ahead + turn) == Number(turn)
  {
    SameNumber(turn, ahead + turn);
  }

  /** A block has been delivered and acknowledged, and a short one has ended the transfer of the receiver. */
  predicate HasTaken(size: nat, r: ReceiverState, next: ReceiverState, turn: nat, data: Bytes) {
    && next.delivered == r.delivered + [data] && next.dally == r.dally
    && next.op.sent == r.op.sent + [Acknowledgement(Number(turn))]
    && (if |data| == size then next.Open()
        else if r.dally then next.Open() && next.op.timer == DallyTimer
        else next.op.completions == [Successful])
  }

  /** The receiver takes a block with the awaited number that is not longer than the agreed size. */
  lemma AwaitedTaken(plan: Plan, r: ReceiverState, turn: nat, data: Bytes)
    requires r.Open() && |r.delivered| == turn - 1 && turn >= 1 && r.lastReceivedBlockNumber == Number(turn - 1)
    requires r.receiveDataSize == plan.size && |data| <= plan.size
    ensures HasTaken(plan.size, r, r.OnPacket(Some(Data(Number(turn), data))), turn, data)
  {
    NextNumber(turn - 1);
    NumberInWindow(turn - 1, turn);
    var called := r.(op := r.op.Received());
    assert called.OnData(Number(turn), data) == WithBlock(called, data).AcknowledgeLast(|data|);
  }

  /** A block that the sender has sent and the receiver takes for the awaited one. */
  predicate InTurn(ahead: nat, turn: nat, index: nat) {
    1 <= index <= ahead + turn && Number(index) == Number(turn)
  }

  /** What the receiver is given at a position of the log. */
  lemma BlockArrives(plan: Plan, sys: System, first: nat, ahead: nat, turn: nat, index: nat)
    requires plan.Sound() && Volley(plan, sys, first, ahead, turn) && InTurn(ahead, turn, index)
    ensures first + index - 1 < |sys.toReceiver|
    ensures var data := Block(plan.file, plan.size, index);
            Seen(sys.toReceiver[first + index - 1].packet, plan.bufferSize) == Some(Data(Number(turn), data))
  {
    var position := first + index - 1;
    assert sys.toReceiver[position] == BlockDatagram(plan, index);
    assert FromSender(plan, sys.toReceiver[position], sys.sender.blocksSent);
    DatagramSeen(plan, sys.toReceiver[position], sys.sender.blocksSent);
  }

  /** What a taken block changes in the system. */
  ghost predicate BlockStep(
    plan: Plan, sys: System, next: System, first: nat, turn: nat, index: nat)
    requires index >= 1
  {
    && next.sender == sys.sender && next.toReceiver == sys.toReceiver
    && next.nextToReceiver == first + index && next.nextToSender == sys.nextToSender
    && next.toSender == sys.toSender + [Datagram(Acknowledgement(Number(turn)), turn)]
    && HasTaken(plan.size, sys.receiver, next.receiver, turn, Block(plan.file, plan.size, index))
  }

  lemma TakenLogged(plan: Plan, sys: System, next: ReceiverState, first: nat, turn: nat, index: nat)
    requires index >= 1 && turn >= 1 && |sys.receiver.delivered| == turn - 1
    requires HasTaken(plan.size, sys.receiver, next, turn, Block(plan.file, plan.size, index))
    ensures BlockStep(
              plan, sys, WithReceiver(sys.(nextToReceiver := first + index), next), first, turn, index)
  {
    assert Tagged(Since(sys.receiver.op, next.op), |next.delivered|) == [Datagram(Acknowledgement(Number(turn)), turn)];
  }

  /** The receiver takes the block at a position of the log. */
  lemma BlockTaken(plan: Plan, sys: System, first: nat, turn: nat, index: nat)
    requires index >= 1 && turn >= 1 && first + index - 1 < |sys.toReceiver|
    requires sys.receiver.Open() && |sys.receiver.delivered| == turn - 1
    requires sys.receiver.lastReceivedBlockNumber == Number(turn - 1) && sys.receiver.receiveDataSize == plan.size
    requires Seen(sys.toReceiver[first + index - 1].packet, sys.receiver.op.bufferSize) ==
      Some(Data(Number(turn), Block(plan.file, plan.size, index)))
    ensures BlockStep(plan, sys, Step(sys, Event.ToReceiver(first + index - 1)), first, turn, index)
  {
    var data := Block(plan.file, plan.size, index);
    AwaitedTaken(plan, sys.receiver, turn, data);
    ReceiverStep(sys, first + index - 1, Some(Data(Number(turn), data)));
    TakenLogged(plan, sys, sys.receiver.OnPacket(Some(Data(Number(turn), data))), first, turn, index);
  }

  lemma VolleyReceiver(plan: Plan, sys: System, first: nat, ahead: nat, turn: nat)
    requires Volley(plan, sys, first, ahead, turn)
    ensures sys.receiver.lastReceivedBlockNumber == Number(turn - 1) && sys.receiver.receiveDataSize == plan.size
    ensures sys.receiver.op.bufferSize == plan.bufferSize
  {
  }

  /** The receiver takes its block, or one that is whole rounds before or behind it. */
  lemma VolleyTaken(plan: Plan, sys: System, first: nat, ahead: nat, turn: nat, index: nat)
    requires plan.Sound() && Volley(plan, sys, first, ahead, turn) && InTurn(ahead, turn, index)
    ensures first + index - 1 < |sys.toReceiver|
    ensures BlockStep(plan, sys, Step(sys, Event.ToReceiver(first + index - 1)), first, turn, index)
  {
    VolleyReceiver(plan, sys, first, ahead, turn);
    BlockArrives(plan, sys, first, ahead, turn, index);
    BlockTaken(plan, sys, first, turn, index);
  }

  lemma VolleyHonest(plan: Plan, sys: System, first: nat, ahead: nat, turn: nat, index: nat)
    requires plan.Sound() && Volley(plan, sys, first, ahead, turn) && InTurn(ahead, turn, index)
    ensures Honest(plan, Step(sys, Event.ToReceiver(first + index - 1)))
  {
    StepHonest(plan, sys, Event.ToReceiver(first + index - 1));
  }

  /** While the receiver stays open, its answer is under way. */
  lemma BlockAnswered(plan: Plan, sys: System, next: System, first: nat, ahead: nat, turn: nat, index: nat)
    requires Volley(plan, sys, first, ahead, turn) && index >= 1 && next.receiver.Open()
    requires Honest(plan, next) && BlockStep(plan, sys, next, first, turn, index)
    ensures Answered(plan, next, first, ahead, turn)
  {
  }

  /** The sender gets the ACK of its block and sends the next one. */
  lemma CurrentAcknowledged(plan: Plan, s: SenderState)
    requires plan.Sound() && plan.usable && SenderHonest(plan, s) && s.Open() && s.blocksSent >= 1
    requires s.lastReceivedBlockNumber != s.lastTransmittedBlockNumber && !LastBlockReached(plan, s.blocksSent)
    ensures var next := s.OnPacket(Some(Acknowledgement(s.lastTransmittedBlockNumber)));
            var index := s.blocksSent + 1;
            && next.Open() && next.blocksSent == index
            && next.lastReceivedBlockNumber == s.lastTransmittedBlockNumber
            && next.op.sent == s.op.sent + [Data(Number(index), Block(plan.file, plan.size, index))]
  {
    SendDataResult(
      plan, s.(op := s.op.Received(), lastReceivedBlockNumber := s.lastTransmittedBlockNumber));
  }

  /** The answer has arrived at the receiver's side of the log, and the sender has not seen it yet. */
  ghost predicate Answered(plan: Plan, sys: System, first: nat, ahead: nat, turn: nat) {
    && Honest(plan, sys) && plan.usable && plan.size >= 1 && plan.bufferSize > 3
    && WholeRounds(ahead) && turn >= 1
    && sys.sender.Open() && sys.sender.blocksSent == ahead + turn
    && (if turn == 1 then sys.sender.lastReceivedBlockNumber != 1
        else sys.sender.lastReceivedBlockNumber == Number(turn - 1))
    && sys.receiver.Open() && |sys.receiver.delivered| == turn
    && BlocksLogged(plan, sys.toReceiver, first, ahead + turn)
    && sys.nextToSender < |sys.toSender|
    && sys.toSender[|sys.toSender| - 1] == Datagram(Acknowledgement(Number(turn)), turn)
  }

  lemma AnswerAcknowledges(plan: Plan, s: SenderState, ahead: nat, turn: nat)
    requires plan.Sound() && plan.usable && plan.size >= 1 && SenderHonest(plan, s) && s.Open()
    requires WholeRounds(ahead) && turn >= 1 && s.blocksSent == ahead + turn < BlockCount(|plan.file|, plan.size)
    requires if turn == 1 then s.lastReceivedBlockNumber != 1 else s.lastReceivedBlockNumber == Number(turn - 1)
    ensures var next := s.OnPacket(Some(Acknowledgement(Number(turn))));
            && next.Open() && next.blocksSent == ahead + turn + 1 && next.lastReceivedBlockNumber == Number(turn)
            && next.op.sent == s.op.sent + [BlockDatagram(plan, ahead + turn + 1).packet]
  {
    RoundsApart(ahead, turn);
    NumberInWindow(turn - 1, turn);
    assert s.lastTransmittedBlockNumber == Number(turn);
    CurrentAcknowledged(plan, s);
  }

  lemma BlockLogged(plan: Plan, sys: System, next: SenderState, first: nat, count: nat, seen: nat)
    requires BlocksLogged(plan, sys.toReceiver, first, count) && next.blocksSent == count + 1
    requires next.op.sent == sys.sender.op.sent + [BlockDatagram(plan, count + 1).packet]
    ensures BlocksLogged(plan, WithSender(sys.(nextToSender := seen), next).toReceiver, first, count + 1)
  {
    assert Tagged(Since(sys.sender.op, next.op), next.blocksSent) == [BlockDatagram(plan, count + 1)];
  }

  /** The sender has sent the next block. */
  lemma NextVolley(plan: Plan, sys: System, next: SenderState, first: nat, ahead: nat, turn: nat)
    requires Answered(plan, sys, first, ahead, turn)
    requires next.Open() && next.blocksSent == ahead + turn + 1 && next.lastReceivedBlockNumber == Number(turn)
    requires next.op.sent == sys.sender.op.sent + [BlockDatagram(plan, ahead + turn + 1).packet]
    requires Honest(plan, WithSender(sys.(nextToSender := |sys.toSender|), next))
    ensures Volley(plan, WithSender(sys.(nextToSender := |sys.toSender|), next), first, ahead, turn + 1)
  {
    BlockLogged(plan, sys, next, first, ahead + turn, |sys.toSender|);
  }

  /** What the sender sees of the last answer. */
  lemma AnswerArrives(plan: Plan, sys: System, first: nat, ahead: nat, turn: nat)
    requires plan.Sound() && Answered(plan, sys, first, ahead, turn)
    ensures var position, answer := |sys.toSender| - 1, Some(Acknowledgement(Number(turn)));
            && Step(sys, Event.ToSender(position)) ==
                 WithSender(sys.(nextToSender := |sys.toSender|), sys.sender.OnPacket(answer))
            && Honest(plan, Step(sys, Event.ToSender(position)))
  {
    var position := |sys.toSender| - 1;
    assert FromReceiver(plan, sys.toSender[position], sys.receiver);
    AnswerSeen(plan, sys.toSender[position], sys.receiver);
    ToSenderHonest(plan, sys, position);
    SenderStep(sys, position, Some(Acknowledgement(Number(turn))));
  }

  /** The ACK of the awaited block is taken for the ACK of the block that is whole rounds ahead. */
  lemma AnswerTaken(plan: Plan, sys: System, first: nat, ahead: nat, turn: nat)
    requires plan.Sound() && Answered(plan, sys, first, ahead, turn)
    requires ahead + turn < BlockCount(|plan.file|, plan.size)
    ensures var next := Step(sys, Event.ToSender(|sys.toSender| - 1));
            && Volley(plan, next, first, ahead, turn + 1)
            && next.receiver == sys.receiver && next.nextToReceiver == sys.nextToReceiver
  {
    AnswerArrives(plan, sys, first, ahead, turn);
    AnswerAcknowledges(plan, sys.sender, ahead, turn);
    NextVolley(plan, sys, sys.sender.OnPacket(Some(Acknowledgement(Number(turn)))), first, ahead, turn);
  }

  lemma BlockStepTakes(plan: Plan, sys: System, next: System, first: nat, turn: nat, index: nat)
    requires index >= 1 && BlockStep(plan, sys, next, first, turn, index)
    ensures next.receiver.delivered == sys.receiver.delivered + [Block(plan.file, plan.size, index)]
    ensures |Block(plan.file, plan.size, index)| < plan.size ==>
      if next.receiver.Open() then next.receiver.op.timer == DallyTimer
      else next.receiver.op.completions == [Successful]
    ensures |Block(plan.file, plan.size, index)| == plan.size || sys.receiver.dally ==> next.receiver.Open()
    ensures next.receiver.dally == sys.receiver.dally
  {
  }

  /** The receiver takes one more block. */
  lemma TakeBlock(
    plan: Plan, reach: System -> bool, sys: System, first: nat, ahead: nat, turn: nat, index: nat)
    returns (next: System)
    requires plan.Sound() && Closed(reach) && reach(sys)
    requires Volley(plan, sys, first, ahead, turn) && index in {turn, ahead + turn}
    requires sys.nextToReceiver < first + index
    ensures reach(next) && Honest(plan, next) && BlockStep(plan, sys, next, first, turn, index)
  {
    RoundsApart(ahead, turn);
    VolleyTaken(plan, sys, first, ahead, turn, index);
    VolleyHonest(plan, sys, first, ahead, turn, index);
    Onward(reach, sys, Event.ToReceiver(first + index - 1));
    return Step(sys, Event.ToReceiver(first + index - 1));
  }

  /** The sender takes the answer and sends the next block. */
  lemma TakeAnswer(plan: Plan, reach: System -> bool, sys: System, first: nat, ahead: nat, turn: nat)
    returns (next: System)
    requires plan.Sound() && Closed(reach) && reach(sys) && Answered(plan, sys, first, ahead, turn)
    requires ahead + turn < BlockCount(|plan.file|, plan.size)
    ensures reach(next) && Volley(plan, next, first, ahead, turn + 1)
    ensures next.receiver == sys.receiver && next.nextToReceiver == sys.nextToReceiver
  {
    AnswerTaken(plan, sys, first, ahead, turn);
    Onward(reach, sys, Event.ToSender(|sys.toSender| - 1));
    return Step(sys, Event.ToSender(|sys.toSender| - 1));
  }

  /** One round: a full block is taken, and the next one is sent. */
  lemma Round(
    plan: Plan, reach: System -> bool, sys: System, first: nat, ahead: nat, turn: nat, index: nat)
    returns (next: System)
    requires plan.Sound() && Closed(reach) && reach(sys)
    requires Volley(plan, sys, first, ahead, turn) && index in {turn, ahead + turn}
    requires sys.nextToReceiver < first + index && ahead + turn < BlockCount(|plan.file|, plan.size)
    ensures reach(next) && Volley(plan, next, first, ahead, turn + 1) && next.nextToReceiver == first + index
    ensures next.receiver.delivered == sys.receiver.delivered + [Block(plan.file, plan.size, index)]
    ensures next.receiver.dally == sys.receiver.dally
  {
    ShortBlock(plan.file, plan.size, index);
    var taken := TakeBlock(plan, reach, sys, first, ahead, turn, index);
    BlockStepTakes(plan, sys, taken, first, turn, index);
    BlockAnswered(plan, sys, taken, first, ahead, turn, index);
    next := TakeAnswer(plan, reach, taken, first, ahead, turn);
  }
}
