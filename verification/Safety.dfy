/**
 * Safety over every network that keeps datagrams within a window of 65535 blocks: whatever is lost, repeated or
 * reordered, the delivered blocks are the first blocks of the file, and success on either side means the whole file.
 */
module Safety {
  import opened Basics
  import opened BlockNumbers
  import opened MemoryFiles
  import opened OptionLists
  import opened Packets
  import opened Negotiation
  import opened Operations
  import opened Senders
  import opened Receivers
  import opened Transfers
  import opened Opening
  import opened Honesty

  // The invariant

  /** The whole file has been delivered. */
  ghost predicate Complete(plan: Plan, r: ReceiverState) {
    plan.usable && plan.size >= 1 && |r.delivered| >= BlockCount(|plan.file|, plan.size)
  }

  /** The delivered blocks are the first ones of the file, and a receiver at its end has them all. */
  ghost predicate Delivered(plan: Plan, r: ReceiverState, reached: nat) {
    && |r.delivered| <= reached
    && (forall i :: 0 <= i < |r.delivered| ==> r.delivered[i] == Block(plan.file, plan.size, i + 1))
    && (r.Open() && r.op.timer == DallyTimer ==> Complete(plan, r))
    && (Successful in r.op.completions ==> Complete(plan, r))
  }

  ghost predicate ReceiverSafe(plan: Plan, r: ReceiverState, reached: nat) {
    ReceiverHonest(plan, r) && Delivered(plan, r, reached) && (reached >= 1 ==> Agreed(plan, r))
  }

  ghost predicate Safe(plan: Plan, sys: System) {
    && Honest(plan, sys)
    && Delivered(plan, sys.receiver, sys.sender.blocksSent)
    && (Successful in sys.sender.op.completions ==> Complete(plan, sys.receiver))
  }

  // The receiver

  predicate BlockInWindow(r: ReceiverState, index: nat) {
    |r.delivered| + 1 - PERIOD < index < Max(|r.delivered|, 1) + PERIOD
  }

  /** Inside the window the 16-bit comparisons tell the last block, the next block and all others apart. */
  lemma BlockToldApart(r: ReceiverState, index: nat)
    requires r.lastReceivedBlockNumber == Number(|r.delivered|) && index >= 1 && BlockInWindow(r, index)
    ensures Number(index) == r.lastReceivedBlockNumber <==> index == |r.delivered|
    ensures Number(index) == Next(r.lastReceivedBlockNumber) <==> index == |r.delivered| + 1
  {
    NextNumber(|r.delivered|);
    NumberInWindow(index, |r.delivered| + 1);
    if r.delivered != [] {
      NumberInWindow(index, |r.delivered|);
    }
  }

  lemma AcknowledgedDelivered(plan: Plan, r: ReceiverState, reached: nat, index: nat)
    requires plan.Sound() && plan.usable && r.Open() && r.receiveDataSize == plan.size && index == |r.delivered| >= 1
    requires |r.delivered| <= reached
    requires forall i :: 0 <= i < |r.delivered| ==> r.delivered[i] == Block(plan.file, plan.size, i + 1)
    ensures Delivered(plan, r.AcknowledgeLast(|Block(plan.file, plan.size, index)|), reached)
  {
    ShortBlock(plan.file, plan.size, index);
  }

  lemma NextTaken(r: ReceiverState, data: Bytes)
    requires r.lastReceivedBlockNumber == Number(|r.delivered|) && |data| <= r.receiveDataSize
    ensures r.OnData(Next(r.lastReceivedBlockNumber), data) == WithBlock(r, data).AcknowledgeLast(|data|)
  {
  }

  lemma OtherRefused(r: ReceiverState, block: uint16, data: Bytes)
    requires r.Open() && block !in {r.lastReceivedBlockNumber, Next(r.lastReceivedBlockNumber)}
    ensures r.OnData(block, data) == r.Abort(ILLEGAL_OPERATION, "Block Number not expected", TransferError)
  {
  }

  /** The last block, which comes again. */
  lemma LastBlockAgain(plan: Plan, r: ReceiverState, reached: nat, index: nat)
    requires plan.Sound() && plan.usable && r.Open() && r.receiveDataSize == plan.size
    requires Delivered(plan, r, reached) && index == |r.delivered| >= 1 && Number(index) == r.lastReceivedBlockNumber
    ensures var next := r.OnData(Number(index), Block(plan.file, plan.size, index));
            Delivered(plan, next, reached) && next.delivered == r.delivered
  {
    var data := Block(plan.file, plan.size, index);
    AcknowledgedDelivered(plan, r, reached, index);
    assert r.OnData(Number(index), data) == r.AcknowledgeLast(|data|);
  }

  /** The block that the receiver waits for. */
  lemma NextBlockTaken(plan: Plan, r: ReceiverState, reached: nat, index: nat)
    requires plan.Sound() && plan.usable && r.Open() && r.receiveDataSize == plan.size
    requires Delivered(plan, r, reached) && index == |r.delivered| + 1 <= reached
    requires r.lastReceivedBlockNumber == Number(|r.delivered|) && Number(index) == Next(r.lastReceivedBlockNumber)
    ensures var data := Block(plan.file, plan.size, index);
            var next := r.OnData(Number(index), data);
            Delivered(plan, next, reached) && next.delivered == r.delivered + [data]
  {
    var data := Block(plan.file, plan.size, index);
    NextTaken(r, data);
    AcknowledgedDelivered(plan, WithBlock(r, data), reached, index);
    assert WithBlock(r, data).AcknowledgeLast(|data|).delivered == r.delivered + [data];
  }

  /** A block with any other number. */
  lemma OtherBlockEnds(plan: Plan, r: ReceiverState, reached: nat, block: uint16, data: Bytes)
    requires r.Open() && Delivered(plan, r, reached)
    requires block !in {r.lastReceivedBlockNumber, Next(r.lastReceivedBlockNumber)}
    ensures var next := r.OnData(block, data);
            Delivered(plan, next, reached) && next.delivered == r.delivered && next.op.completions == [TransferError]
  {
    OtherRefused(r, block, data);
  }

  /**
   * The receiver takes a block of the window as the next one exactly if it is, acknowledges the last one again, and
   * ends on every other one.
   */
  lemma BlockDelivered(plan: Plan, r: ReceiverState, reached: nat, index: nat)
    requires plan.Sound() && plan.usable && ReceiverCore(plan, r) && r.Open() && Agreed(plan, r)
    requires Delivered(plan, r, reached) && 1 <= index <= reached && BlockInWindow(r, index)
    ensures var data := Block(plan.file, plan.size, index);
            var next := r.OnData(Number(index), data);
            && Delivered(plan, next, reached)
            && next.delivered == (if index == |r.delivered| + 1 then r.delivered + [data] else r.delivered)
            && (index !in {|r.delivered|, |r.delivered| + 1} ==> next.op.completions == [TransferError])
  {
    BlockToldApart(r, index);
    if index == |r.delivered| {
      LastBlockAgain(plan, r, reached, index);
    } else if index == |r.delivered| + 1 {
      NextBlockTaken(plan, r, reached, index);
    } else {
      OtherBlockEnds(plan, r, reached, Number(index), Block(plan.file, plan.size, index));
    }
  }

  /** An OACK delivers nothing, and does not end a transfer with success. */
  lemma OackDelivers(plan: Plan, r: ReceiverState, reached: nat, options: Options)
    requires Delivered(plan, r, reached) && r.Open()
    ensures Delivered(plan, r.OnOptionsAcknowledgement(options), reached)
  {
    if r.lastReceivedBlockNumber == 0 {
      var verdict := CheckOack(r.configuration, r.SizeRule(), options);
      assert r.OnOptionsAcknowledgement(options) == r.OnVerdict(verdict);
    }
  }

  /** A packet without data delivers nothing. */
  lemma NothingDelivered(plan: Plan, r: ReceiverState, reached: nat, packet: Option<Packet>)
    requires Delivered(plan, r, reached) && r.Open()
    requires packet.Some? ==> packet.value.Error? || packet.value.OptionsAcknowledgement?
    ensures Delivered(plan, r.OnPacket(packet), reached)
  {
    if packet.Some? && packet.value.OptionsAcknowledgement? && r.op.role == Client {
      OackDelivers(plan, r.(op := r.op.Received()), reached, packet.value.options);
    }
  }

  lemma TimeoutDelivered(plan: Plan, r: ReceiverState, reached: nat)
    requires Delivered(plan, r, reached) && r.Open()
    ensures Delivered(plan, r.OnTimeout(), reached)
  {
  }

  /** A datagram of the sender that reaches an open receiver. */
  lemma ReceivedDelivered(plan: Plan, r: ReceiverState, reached: nat, datagram: Datagram)
    requires plan.Sound() && ReceiverSafe(plan, r, reached) && r.Open() && FromSender(plan, datagram, reached)
    requires datagram.packet.Data? ==> BlockInWindow(r, datagram.index)
    ensures Delivered(plan, r.OnPacket(Seen(datagram.packet, plan.bufferSize)), reached)
  {
    var seen := Seen(datagram.packet, plan.bufferSize);
    DatagramSeen(plan, datagram, reached);
    match seen {
      case Some(Data(_, _)) => BlockDelivered(plan, r.(op := r.op.Received()), reached, datagram.index);
      case _ => NothingDelivered(plan, r, reached, seen);
    }
  }

  // The sender

  /** Inside the window the number of an ACK tells its index; 0 is never used again. */
  lemma AnswerToldApart(reached: nat, index: nat)
    requires index <= reached + 1 && reached < Max(index, 1) + PERIOD
    ensures Number(index) == Number(reached) <==> index == reached
  {
    if index >= 1 {
      NumberInWindow(index, reached);
    }
  }

  /**
   * An ACK of the window moves the sender on, or ends it with success, only if it is for the current block, and ends
   * it with success only if the receiver has the whole file.
   */
  lemma AcknowledgementCompletes(plan: Plan, s: SenderState, r: ReceiverState, index: nat)
    requires plan.Sound() && SenderHonest(plan, s) && s.Open()
    requires index <= |r.delivered| <= s.blocksSent && s.blocksSent < Max(index, 1) + PERIOD
    ensures var next := s.OnPacket(Some(Acknowledgement(Number(index))));
            && (next.blocksSent != s.blocksSent || Successful in next.op.completions ==> index == s.blocksSent)
            && (Successful in next.op.completions ==> Complete(plan, r))
  {
    AnswerToldApart(s.blocksSent, index);
  }

  lemma NoSuccessWithoutAcknowledgement(s: SenderState, packet: Option<Packet>)
    requires s.Open() && (packet.Some? ==> packet.value.Error? || packet.value.OptionsAcknowledgement?)
    ensures Successful !in s.OnPacket(packet).op.completions
  {
    if packet.Some? && packet.value.OptionsAcknowledgement? && s.op.role == Client {
      var called := s.(op := s.op.Received());
      if s.lastReceivedBlockNumber == 0xFFFF {
        var verdict := CheckOack(s.configuration, s.SizeRule(), packet.value.options);
        assert s.OnPacket(packet) == called.OnVerdict(verdict);
      }
    }
  }

  /** A datagram of the receiver that reaches an open sender. */
  lemma AnsweredCompletes(plan: Plan, s: SenderState, r: ReceiverState, datagram: Datagram)
    requires plan.Sound() && SenderHonest(plan, s) && s.Open() && FromReceiver(plan, datagram, r)
    requires |r.delivered| <= s.blocksSent
    requires datagram.packet.Acknowledgement? ==> s.blocksSent < Max(datagram.index, 1) + PERIOD
    ensures var next := s.OnPacket(Seen(datagram.packet, DEFAULT_MAX_PACKET_SIZE));
            Successful in next.op.completions ==> Complete(plan, r)
  {
    var seen := Seen(datagram.packet, DEFAULT_MAX_PACKET_SIZE);
    AnswerSeen(plan, datagram, r);
    match seen {
      case Some(Acknowledgement(_)) => AcknowledgementCompletes(plan, s, r, datagram.index);
      case _ => NoSuccessWithoutAcknowledgement(s, seen);
    }
  }

  // Both

  /** What every handler of the receiver keeps inside the window. */
  ghost predicate ReceiverMoves(plan: Plan, r: ReceiverState, next: ReceiverState, reached: nat) {
    ReceiverGoesOn(plan, r, next) && Delivered(plan, next, reached)
  }

  ghost predicate SenderMoves(plan: Plan, s: SenderState, next: SenderState, r: ReceiverState) {
    && SenderGoesOn(plan, s, next)
    && (next.blocksSent >= 1 ==> Agreed(plan, r))
    && (Successful in next.op.completions ==> Complete(plan, r))
  }

  lemma ReceivedMoves(plan: Plan, r: ReceiverState, reached: nat, datagram: Datagram)
    requires plan.Sound() && ReceiverSafe(plan, r, reached) && r.Open() && FromSender(plan, datagram, reached)
    requires datagram.packet.Data? ==> BlockInWindow(r, datagram.index)
    ensures ReceiverMoves(plan, r, r.OnPacket(Seen(datagram.packet, plan.bufferSize)), reached)
  {
    ReceivedDelivered(plan, r, reached, datagram);
    ReceivedGoesOn(plan, r, reached, datagram);
  }

  lemma AnsweredMoves(plan: Plan, s: SenderState, r: ReceiverState, datagram: Datagram)
    requires plan.Sound() && SenderHonest(plan, s) && s.Open() && FromReceiver(plan, datagram, r)
    requires |r.delivered| <= s.blocksSent && (s.blocksSent >= 1 ==> Agreed(plan, r))
    requires datagram.packet.Acknowledgement? ==> s.blocksSent < Max(datagram.index, 1) + PERIOD
    ensures SenderMoves(plan, s, s.OnPacket(Seen(datagram.packet, DEFAULT_MAX_PACKET_SIZE)), r)
  {
    AnsweredGoesOn(plan, s, r, datagram);
    AnsweredCompletes(plan, s, r, datagram);
    if s.blocksSent == 0 {
      NewBlockAgreed(plan, s, r, datagram);
    }
  }

  lemma TimeoutMovesReceiver(plan: Plan, r: ReceiverState, reached: nat)
    requires ReceiverSafe(plan, r, reached) && r.Open()
    ensures r.op.timer != FirstTimer ==> ReceiverMoves(plan, r, r.OnTimeout(), reached)
    ensures r.op.timer == FirstTimer ==> ReceiverHonest(plan, r.OnTimeout()) && Delivered(plan, r.OnTimeout(), reached)
  {
    TimeoutGoesOnReceiver(plan, r);
    TimeoutDelivered(plan, r, reached);
  }

  lemma TimeoutMovesSender(plan: Plan, s: SenderState, r: ReceiverState)
    requires SenderHonest(plan, s) && s.Open() && (s.blocksSent >= 1 ==> Agreed(plan, r))
    ensures s.op.timer != FirstTimer ==> SenderMoves(plan, s, s.OnTimeout(), r)
    ensures s.op.timer == FirstTimer ==>
      SenderHonest(plan, s.OnTimeout()) && s.OnTimeout().blocksSent == s.blocksSent
      && Successful !in s.OnTimeout().op.completions
  {
    TimeoutGoesOnSender(plan, s);
  }

  // The composed system

  lemma ReceiverStepSafe(plan: Plan, sys: System, next: ReceiverState, seen: nat)
    requires Safe(plan, sys) && ReceiverMoves(plan, sys.receiver, next, sys.sender.blocksSent)
    ensures Safe(plan, WithReceiver(sys.(nextToReceiver := seen), next))
  {
    ReceiverStepHonest(plan, sys, next, seen);
  }

  lemma SenderStepSafe(plan: Plan, sys: System, next: SenderState, seen: nat)
    requires Safe(plan, sys) && SenderMoves(plan, sys.sender, next, sys.receiver)
    ensures Safe(plan, WithSender(sys.(nextToSender := seen), next))
  {
    SenderStepHonest(plan, sys, next, seen);
  }

  lemma ToReceiverSafe(plan: Plan, sys: System, position: nat)
    requires plan.Sound() && Safe(plan, sys) && position < |sys.toReceiver| && InWindow(sys, Event.ToReceiver(position))
    ensures Safe(plan, Step(sys, Event.ToReceiver(position)))
  {
    var r, datagram := sys.receiver, sys.toReceiver[position];
    if r.Open() {
      ReceivedMoves(plan, r, sys.sender.blocksSent, datagram);
      ReceiverStepSafe(plan, sys, r.OnPacket(Seen(datagram.packet, plan.bufferSize)), position + 1);
    }
  }

  lemma ToSenderSafe(plan: Plan, sys: System, position: nat)
    requires plan.Sound() && Safe(plan, sys) && position < |sys.toSender| && InWindow(sys, Event.ToSender(position))
    ensures Safe(plan, Step(sys, Event.ToSender(position)))
  {
    var s, r, datagram := sys.sender, sys.receiver, sys.toSender[position];
    if s.Open() {
      AnsweredMoves(plan, s, r, datagram);
      SenderStepSafe(plan, sys, s.OnPacket(Seen(datagram.packet, DEFAULT_MAX_PACKET_SIZE)), position + 1);
    }
  }

  lemma StepSafe(plan: Plan, sys: System, event: Event)
    requires plan.Sound() && Safe(plan, sys) && InWindow(sys, event)
    ensures Safe(plan, Step(sys, event))
  {
    if Enabled(sys, event) {
      match event
      case ToReceiver(position) => ToReceiverSafe(plan, sys, position);
      case ToSender(position) => ToSenderSafe(plan, sys, position);
      case SenderTimeout =>
        TimeoutMovesSender(plan, sys.sender, sys.receiver);
        StepHonest(plan, sys, event);
      case ReceiverTimeout =>
        TimeoutMovesReceiver(plan, sys.receiver, sys.sender.blocksSent);
        StepHonest(plan, sys, event);
    }
  }

  // The start

  lemma OpenedSafe(plan: Plan, setup: Setup, reply: Reply)
    requires plan.Sound() && Follows(plan, setup, reply) && setup.repeatedRequests <= setup.clientRetries
    ensures Safe(plan, Opened(setup, reply))
  {
    OpenedHonest(plan, setup, reply);
    StartedSafe(plan, Opened(setup, reply));
  }

  lemma StartedSafe(plan: Plan, sys: System)
    requires Honest(plan, sys) && JustStarted(sys)
    ensures Safe(plan, sys)
  {
  }

  lemma InitSafe(setup: Setup)
    requires setup.Proper()
    ensures PlanOf(setup).Sound() && PlanOf(setup).file == setup.file && Safe(PlanOf(setup), Init(setup))
  {
    InitHonest(setup);
    StartedSafe(PlanOf(setup), Init(setup));
  }

  // The theorems

  lemma {:induction false} RunSafe(plan: Plan, sys: System, events: seq<Event>)
    requires plan.Sound() && Safe(plan, sys) && Schedule(InWindow, sys, events)
    ensures Safe(plan, Run(sys, events))
  {
    if events != [] {
      var front, last := events[..|events| - 1], events[|events| - 1];
      RunSafe(plan, sys, front);
      StepSafe(plan, Run(sys, front), last);
    }
  }

  /** Success of either side means that the whole file has been delivered. */
  predicate WholeOnSuccess(file: Bytes, sys: System) {
    Successful in sys.sender.op.completions || Successful in sys.receiver.op.completions ==>
      Flatten(sys.receiver.delivered) == file
  }

  lemma SafeDelivers(plan: Plan, sys: System)
    requires plan.Sound() && Safe(plan, sys)
    ensures Flatten(sys.receiver.delivered) <= plan.file && WholeOnSuccess(plan.file, sys)
  {
    FlattenPrefix(plan.file, plan.size, sys.receiver.delivered);
    if Complete(plan, sys.receiver) {
      CursorAtEnd(|plan.file|, plan.size, |sys.receiver.delivered|);
    }
  }

  /**
   * In every run over a network that loses, repeats and reorders datagrams within the window, what was delivered is a
   * prefix of the file, for every file, every configuration and both directions. If either side reports success, it
   * is the whole file.
   */
  lemma SafeUnderReordering(setup: Setup, events: seq<Event>)
    requires setup.Proper() && Schedule(InWindow, Init(setup), events)
    ensures var end := Run(Init(setup), events);
            Flatten(end.receiver.delivered) <= setup.file && WholeOnSuccess(setup.file, end)
  {
    InitSafe(setup);
    RunSafe(PlanOf(setup), Init(setup), events);
    SafeDelivers(PlanOf(setup), Run(Init(setup), events));
  }
}
