/**
 * Runs over a network that reorders at will, in which a block of an earlier round of 65535 comes back and is taken for
 * the awaited one.
 */
module Stragglers {
  import opened Basics
  import opened BlockNumbers
  import opened MemoryFiles
  import opened Packets
  import opened Negotiation
  import opened Operations
  import opened Senders
  import opened Receivers
  import opened Transfers
  import opened Opening
  import opened Honesty
  import opened Lockstep
  import opened Volleys
  import opened Overruns
  import opened Progress

  /** Where a run can go on from, it can go on by any event. */
  ghost predicate ClosedUnderAll(reach: System -> bool) {
    forall sys, event :: reach(sys) && Enabled(sys, event) ==> reach(Step(sys, event))
  }

  lemma Anyhow(reach: System -> bool, sys: System, event: Event)
    requires ClosedUnderAll(reach) && reach(sys) && Enabled(sys, event)
    ensures reach(Step(sys, event))
  {
  }

  // To the first block

  lemma FirstBlockComing(plan: Plan, sys: System)
    requires plan.Sound() && InLockstep(plan, sys) && BlockComing(plan, sys) && sys.sender.blocksSent == 1
    ensures Right(plan, sys, sys.nextToReceiver, 0, 1)
  {
    var first := sys.nextToReceiver;
    assert FromSender(plan, sys.toReceiver[first], sys.sender.blocksSent);
    FirstLogged(plan, sys.toReceiver[first], sys.sender.blocksSent);
    assert sys.receiver.delivered == [];
    assert sys.sender.lastReceivedBlockNumber != 1;
    assert BlocksLogged(plan, sys.toReceiver, first, 1);
    RightFromStart(plan, sys, first);
  }

  lemma FirstLogged(plan: Plan, datagram: Datagram, reached: nat)
    requires FromSender(plan, datagram, reached) && datagram.index == 1 && !datagram.packet.Error?
    ensures datagram == BlockDatagram(plan, 1)
  {
  }

  lemma RightFromStart(plan: Plan, sys: System, first: nat)
    requires Honest(plan, sys) && plan.usable && plan.size >= 1 && plan.bufferSize > 3
    requires sys.sender.Open() && sys.sender.blocksSent == 1 && sys.sender.lastReceivedBlockNumber != 1
    requires sys.receiver.Open() && sys.receiver.delivered == []
    requires BlocksLogged(plan, sys.toReceiver, first, 1)
    requires sys.nextToReceiver == first && sys.nextToSender <= |sys.toSender|
    ensures Right(plan, sys, first, 0, 1)
  {
    assert Blocks(plan.file, plan.size, 0) == [];
  }

  lemma ToFirstBlock(plan: Plan, reach: System -> bool, sys: System) returns (first: nat, end: System)
    requires plan.Sound() && ClosedUnderAll(reach) && reach(sys) && OnCourse(plan, sys) && JustOpened(plan, sys)
    ensures reach(end) && Right(plan, end, first, 0, 1) && end.receiver.dally == sys.receiver.dally
  {
    end := sys;
    if sys.sender.blocksSent == 0 {
      if BlockComing(plan, sys) {
        BlockArrivesSmoothly(plan, end);
        Anyhow(reach, end, Event.ToReceiver(end.nextToReceiver));
        StepKeepsDally(end, Event.ToReceiver(end.nextToReceiver));
        end := Step(end, Event.ToReceiver(end.nextToReceiver));
      }
      AnswerArrivesSmoothly(plan, end);
      Anyhow(reach, end, Event.ToSender(end.nextToSender));
      StepKeepsDally(end, Event.ToSender(end.nextToSender));
      end := Step(end, Event.ToSender(end.nextToSender));
    }
    FirstBlockComing(plan, end);
    first := end.nextToReceiver;
  }

  lemma DallyConstant(r: ReceiverState, packet: Option<Packet>)
    ensures r.OnPacket(packet).dally == r.dally
  {
    if packet.Some? && packet.value.OptionsAcknowledgement? && r.op.role == Client && r.lastReceivedBlockNumber == 0 {
      var verdict := CheckOack(r.configuration, r.SizeRule(), packet.value.options);
      assert r.OnPacket(packet) == r.(op := r.op.Received()).OnVerdict(verdict);
    }
  }

  lemma StepKeepsDally(sys: System, event: Event)
    ensures Step(sys, event).receiver.dally == sys.receiver.dally
  {
    if event.ToReceiver? && Enabled(sys, event) && sys.receiver.Open() {
      DallyConstant(sys.receiver, Seen(sys.toReceiver[event.position].packet, sys.receiver.op.bufferSize));
    }
  }

  // At the end of the sender

  /** The sender takes the answer to its last block. */
  lemma LastAnswerTaken(plan: Plan, sys: System, first: nat, turn: nat)
    requires plan.Sound() && Answered(plan, sys, first, 0, turn) && turn >= BlockCount(|plan.file|, plan.size)
    ensures var next := Step(sys, Event.ToSender(|sys.toSender| - 1));
            && Successful in next.sender.op.completions
            && next.receiver == sys.receiver && next.toReceiver == sys.toReceiver && Honest(plan, next)
  {
    AnswerArrives(plan, sys, first, 0, turn);
    LastAcknowledged(plan, sys.sender, turn);
  }

  lemma LastAcknowledged(plan: Plan, s: SenderState, turn: nat)
    requires plan.size >= 1 && SenderHonest(plan, s) && s.Open() && turn >= 1 && s.blocksSent == turn
    requires turn >= BlockCount(|plan.file|, plan.size)
    requires if turn == 1 then s.lastReceivedBlockNumber != 1 else s.lastReceivedBlockNumber == Number(turn - 1)
    ensures var next := s.OnPacket(Some(Acknowledgement(Number(turn))));
            Successful in next.op.completions && next.op.sent == s.op.sent
  {
    NumberInWindow(turn - 1, turn);
  }

  /** Something longer than the file is neither a prefix of it nor the file. */
  predicate TooMuch(file: Bytes, blocks: seq<Bytes>) {
    |Flatten(blocks)| > |file|
  }

  lemma OneBlockTooMuch(file: Bytes, size: nat, count: nat, block: Bytes)
    requires size >= 1 && count + 1 >= BlockCount(|file|, size)
    requires |block| == size || (block != [] && count >= BlockCount(|file|, size))
    ensures TooMuch(file, Blocks(file, size, count) + [block])
  {
    FlattenPrefix(file, size, Blocks(file, size, count));
    FlattenMore(Blocks(file, size, count), block);
    CursorNearEnd(|file|, size, count);
    CursorAtEnd(|file|, size, count);
  }

  // A file of more than one round

  /** The last block is replaced by the full one that lies a round before it. */
  lemma LastBlockReplaced(plan: Plan, reach: System -> bool, sys: System, first: nat) returns (end: System)
    requires plan.Sound() && plan.size >= 1 && ClosedUnderAll(reach) && reach(sys) && Right(plan, sys, first, 0, 1)
    requires BlockCount(|plan.file|, plan.size) > PERIOD
    ensures reach(end) && Successful in end.sender.op.completions && TooMuch(plan.file, end.receiver.delivered)
  {
    var turn := BlockCount(|plan.file|, plan.size);
    var index := turn - PERIOD;
    end := RightRounds(plan, reach, sys, first, 0, turn);
    SameNumber(index, turn);
    ShortBlock(plan.file, plan.size, index);
    OneBlockTooMuch(plan.file, plan.size, turn - 1, Block(plan.file, plan.size, index));
    end := TakeStraggler(plan, reach, end, first, turn, index);
    end := Finish(plan, reach, end, first, turn);
  }

  /** The receiver takes a full block with the awaited number. */
  lemma TakeStraggler(plan: Plan, reach: System -> bool, sys: System, first: nat, turn: nat, index: nat)
    returns (next: System)
    requires plan.Sound() && ClosedUnderAll(reach) && reach(sys) && Volley(plan, sys, first, 0, turn)
    requires InTurn(0, turn, index) && |Block(plan.file, plan.size, index)| == plan.size
    ensures reach(next) && Answered(plan, next, first, 0, turn)
    ensures next.receiver.delivered == sys.receiver.delivered + [Block(plan.file, plan.size, index)]
  {
    VolleyTaken(plan, sys, first, 0, turn, index);
    VolleyHonest(plan, sys, first, 0, turn, index);
    next := Step(sys, Event.ToReceiver(first + index - 1));
    Anyhow(reach, sys, Event.ToReceiver(first + index - 1));
    BlockStepTakes(plan, sys, next, first, turn, index);
    BlockAnswered(plan, sys, next, first, 0, turn, index);
  }

  lemma Finish(plan: Plan, reach: System -> bool, sys: System, first: nat, turn: nat) returns (end: System)
    requires plan.Sound() && ClosedUnderAll(reach) && reach(sys) && Answered(plan, sys, first, 0, turn)
    requires turn >= BlockCount(|plan.file|, plan.size)
    ensures reach(end) && Successful in end.sender.op.completions && Honest(plan, end)
    ensures end.receiver == sys.receiver && end.toReceiver == sys.toReceiver
  {
    LastAnswerTaken(plan, sys, first, turn);
    Anyhow(reach, sys, Event.ToSender(|sys.toSender| - 1));
    return Step(sys, Event.ToSender(|sys.toSender| - 1));
  }

  // A receiver that dallies

  lemma LoggedSeen(plan: Plan, sys: System, first: nat, count: nat, index: nat)
    requires plan.Sound() && Honest(plan, sys) && plan.bufferSize > 3
    requires BlocksLogged(plan, sys.toReceiver, first, count) && 1 <= index <= count
    ensures first + index - 1 < |sys.toReceiver|
    ensures Seen(sys.toReceiver[first + index - 1].packet, plan.bufferSize) ==
      Some(Data(Number(index), Block(plan.file, plan.size, index)))
    ensures Agreed(plan, sys.receiver)
  {
    var position := first + index - 1;
    assert sys.toReceiver[position] == BlockDatagram(plan, index);
    assert FromSender(plan, sys.toReceiver[position], sys.sender.blocksSent);
    DatagramSeen(plan, sys.toReceiver[position], sys.sender.blocksSent);
  }

  /** The receiver has taken the first blocks and is still open; they can all come again. */
  ghost predicate Swallowed(plan: Plan, sys: System, first: nat, count: nat, taken: nat) {
    && Honest(plan, sys) && plan.usable && plan.size >= 1 && plan.bufferSize > 3
    && BlocksLogged(plan, sys.toReceiver, first, count)
    && sys.receiver.Open() && sys.receiver.dally
    && sys.receiver.delivered == Blocks(plan.file, plan.size, taken)
  }

  lemma SwallowStep(plan: Plan, sys: System, first: nat, taken: nat, index: nat) returns (next: System)
    requires index >= 1 && first + index - 1 < |sys.toReceiver|
    requires sys.receiver.Open() && |sys.receiver.delivered| == taken && sys.receiver.dally
    requires sys.receiver.lastReceivedBlockNumber == Number(taken) && sys.receiver.receiveDataSize == plan.size
    requires Seen(sys.toReceiver[first + index - 1].packet, sys.receiver.op.bufferSize) ==
      Some(Data(Number(taken + 1), Block(plan.file, plan.size, index)))
    ensures next == Step(sys, Event.ToReceiver(first + index - 1))
    ensures BlockStep(plan, sys, next, first, taken + 1, index) && next.receiver.Open() && next.receiver.dally
  {
    next := Step(sys, Event.ToReceiver(first + index - 1));
    BlockTaken(plan, sys, first, taken + 1, index);
    BlockStepTakes(plan, sys, next, first, taken + 1, index);
  }

  lemma SwallowedReceiver(plan: Plan, sys: System, first: nat, count: nat, taken: nat)
    requires Swallowed(plan, sys, first, count, taken)
    ensures sys.receiver.lastReceivedBlockNumber == Number(taken) && |sys.receiver.delivered| == taken
    ensures sys.receiver.op.bufferSize == plan.bufferSize
  {
  }

  lemma SwallowsNext(
    plan: Plan, reach: System -> bool, sys: System, first: nat, count: nat, taken: nat, index: nat)
    returns (next: System)
    requires plan.Sound() && ClosedUnderAll(reach) && reach(sys) && Swallowed(plan, sys, first, count, taken)
    requires 1 <= index <= count && Number(index) == Number(taken + 1)
    ensures reach(next) && Honest(plan, next) && BlockStep(plan, sys, next, first, taken + 1, index)
    ensures next.receiver.Open() && next.receiver.dally
  {
    var event := Event.ToReceiver(first + index - 1);
    LoggedSeen(plan, sys, first, count, index);
    SwallowedReceiver(plan, sys, first, count, taken);
    next := SwallowStep(plan, sys, first, taken, index);
    Anyhow(reach, sys, event);
    StepHonest(plan, sys, event);
  }

  /** A receiver that dallies swallows empty blocks after the last one. */
  lemma {:induction false} SwallowAll(plan: Plan, reach: System -> bool, sys: System, count: nat, taken: nat)
    returns (end: System)
    requires plan.Sound() && ClosedUnderAll(reach) && reach(sys) && Swallowed(plan, sys, 0, count, 0) && taken <= count
    ensures reach(end) && Swallowed(plan, end, 0, count, taken)
  {
    if taken == 0 {
      return sys;
    }
    var before := SwallowAll(plan, reach, sys, count, taken - 1);
    end := SwallowsNext(plan, reach, before, 0, count, taken - 1, taken);
    BlocksFurther(plan.file, plan.size, taken - 1);
  }

  /** After a whole round the first block comes again. */
  lemma FirstBlockAgain(plan: Plan, reach: System -> bool, sys: System, first: nat, count: nat) returns (end: System)
    requires plan.Sound() && ClosedUnderAll(reach) && reach(sys) && Swallowed(plan, sys, first, count, PERIOD)
    requires plan.file != [] && BlockCount(|plan.file|, plan.size) <= PERIOD && count >= 1
    ensures reach(end) && TooMuch(plan.file, end.receiver.delivered) && end.sender == sys.sender
  {
    SameNumber(1, PERIOD + 1);
    end := SwallowsNext(plan, reach, sys, first, count, PERIOD, 1);
    assert Cursor(|plan.file|, plan.size, 1) == Min(Cursor(|plan.file|, plan.size, 0) + plan.size, |plan.file|);
    OneBlockTooMuch(plan.file, plan.size, PERIOD, Block(plan.file, plan.size, 1));
  }

  /** A file of exactly one round: the sender has succeeded, and the receiver takes the first block once more. */
  lemma RoundAgain(plan: Plan, reach: System -> bool, sys: System, first: nat) returns (end: System)
    requires plan.Sound() && plan.size >= 1 && ClosedUnderAll(reach) && reach(sys) && Right(plan, sys, first, 0, 1)
    requires sys.receiver.dally && BlockCount(|plan.file|, plan.size) == PERIOD
    ensures reach(end) && Successful in end.sender.op.completions && TooMuch(plan.file, end.receiver.delivered)
  {
    var turn := PERIOD;
    var before := RightRounds(plan, reach, sys, first, 0, turn);
    RoundsApart(0, turn);
    var taken := TakeBlock(plan, reach, before, first, 0, turn, turn);
    BlockStepTakes(plan, before, taken, first, turn, turn);
    BlockAnswered(plan, before, taken, first, 0, turn, turn);
    BlocksFurther(plan.file, plan.size, turn - 1);
    end := Finish(plan, reach, taken, first, turn);
    end := FirstBlockAgain(plan, reach, end, first, turn);
  }
}
