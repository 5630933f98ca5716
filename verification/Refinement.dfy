/**
 * The operations compare 16-bit block numbers. Within the window of 65535 blocks they behave, event for event, like
 * a stop-and-wait protocol that compares unbounded block indices.
 */
module Refinement {
  import opened Basics
  import opened BlockNumbers
  import opened MemoryFiles
  import opened OptionLists
  import opened Packets
  import opened Negotiation
  import opened Operations
  import opened Senders
  import opened Receivers
  import opened Transfers
  import opened Opening
  import opened Honesty
  import opened Safety
  import opened Lockstep
  import opened Aborts

  // The ideal protocol

  /** The block after the last one is new, the last one is a repetition, and every other block is an error. */
  function IdealOnData(r: ReceiverState, index: nat, data: Bytes): ReceiverState {
    if index == |r.delivered| then
      r.AcknowledgeLast(|data|)
    else if index != |r.delivered| + 1 then
      r.Abort(ILLEGAL_OPERATION, "Block Number not expected", TransferError)
    else if |data| > r.receiveDataSize then
      r.Abort(ILLEGAL_OPERATION, "Too much data", TransferError)
    else
      r.(delivered := r.delivered + [data], lastReceivedBlockNumber := Number(|r.delivered| + 1))
      .AcknowledgeLast(|data|)
  }

  /** The answer for the current block moves on, the one before is a repetition, and every other is an error. */
  function IdealOnAcknowledgement(s: SenderState, index: nat): SenderState {
    if index == s.blocksSent - 1 then
      s.Receive()
    else if index != s.blocksSent then
      s.Abort(ILLEGAL_OPERATION, "Wrong block number", TransferError)
    else
      var acknowledged := s.(lastReceivedBlockNumber := Number(index));
      if s.lastDataPacketTransmitted then acknowledged.Completed(s.op.Finish(Successful, None))
      else acknowledged.SendData().Receive()
  }

  /** An OACK is taken before the first block. */
  function IdealOnOackReceiver(r: ReceiverState, options: Options): ReceiverState {
    if r.delivered != [] then r.Abort(ILLEGAL_OPERATION, "OACK must occur after RRQ", TransferError)
    else r.OnVerdict(CheckOack(r.configuration, r.SizeRule(), options))
  }

  function IdealOnOackSender(s: SenderState, options: Options): SenderState {
    if s.blocksSent != 0 then s.Abort(ILLEGAL_OPERATION, "OACK must occur after WRQ", TransferError)
    else s.OnVerdict(CheckOack(s.configuration, s.SizeRule(), options))
  }

  function IdealReceiverPacket(r: ReceiverState, packet: Option<Packet>, index: nat): ReceiverState {
    match packet
    case Some(Data(_, data)) => IdealOnData(r.(op := r.op.Received()), index, data)
    case Some(OptionsAcknowledgement(options)) =>
      if r.op.role == Client then IdealOnOackReceiver(r.(op := r.op.Received()), options) else r.OnPacket(packet)
    case _ => r.OnPacket(packet)
  }

  function IdealSenderPacket(s: SenderState, packet: Option<Packet>, index: nat): SenderState {
    match packet
    case Some(Acknowledgement(_)) => IdealOnAcknowledgement(s.(op := s.op.Received()), index)
    case Some(OptionsAcknowledgement(options)) =>
      if s.op.role == Client then IdealOnOackSender(s.(op := s.op.Received()), options) else s.OnPacket(packet)
    case _ => s.OnPacket(packet)
  }

  /** Like `Step`, but no 16-bit block number decides anything: datagrams are told apart by their indices. */
  ghost function IdealStep(sys: System, event: Event): System {
    if !Enabled(sys, event) then sys else
    match event
    case ToReceiver(position) =>
      var seen, datagram := sys.(nextToReceiver := position + 1), sys.toReceiver[position];
      if !sys.receiver.Open() then seen
      else
        WithReceiver(
          seen,
          IdealReceiverPacket(sys.receiver, Seen(datagram.packet, sys.receiver.op.bufferSize), datagram.index))
    case ToSender(position) =>
      var seen, datagram := sys.(nextToSender := position + 1), sys.toSender[position];
      if !sys.sender.Open() then seen
      else
        WithSender(
          seen, IdealSenderPacket(sys.sender, Seen(datagram.packet, sys.sender.op.bufferSize), datagram.index))
    case _ => Step(sys, event)
  }

  ghost function IdealRun(sys: System, events: seq<Event>): System {
    if events == [] then sys else IdealStep(IdealRun(sys, events[..|events| - 1]), events[|events| - 1])
  }

  // Agreement of both protocols

  /** The 16-bit field for the last ACK is the one that belongs to the block of the sender. */
  predicate Tracks(plan: Plan, s: SenderState) {
    s.Open() ==> s.lastReceivedBlockNumber == Previous(plan, s.blocksSent)
  }

  /** An OACK reaches a client that has already sent a block, and whose 16-bit field does not show it. */
  predicate OackTakenAgain(sys: System, event: Event) {
    OackAgain(sys, event) && sys.sender.lastReceivedBlockNumber == 0xFFFF
  }

  predicate InWindowOackOnce(sys: System, event: Event) {
    InWindow(sys, event) && !OackTakenAgain(sys, event)
  }

  lemma SameReceiver(plan: Plan, r: ReceiverState, reached: nat, datagram: Datagram)
    requires plan.Sound() && ReceiverSafe(plan, r, reached) && FromSender(plan, datagram, reached)
    requires datagram.packet.Data? ==> BlockInWindow(r, datagram.index)
    ensures var seen := Seen(datagram.packet, plan.bufferSize);
            r.OnPacket(seen) == IdealReceiverPacket(r, seen, datagram.index)
  {
    DatagramSeen(plan, datagram, reached);
    match datagram.packet
    case Data(_, _) => BlockToldApart(r, datagram.index);
    case OptionsAcknowledgement(options) => SameOackReceiver(plan, r, options);
    case Error(_, _) =>
  }

  lemma SameOackReceiver(plan: Plan, r: ReceiverState, options: Options)
    requires ReceiverCore(plan, r)
    ensures r.OnPacket(Some(OptionsAcknowledgement(options))) ==
      IdealReceiverPacket(r, Some(OptionsAcknowledgement(options)), 0)
  {
    var called := r.(op := r.op.Received());
    if r.op.role == Client {
      assert r.OnPacket(Some(OptionsAcknowledgement(options))) == called.OnOptionsAcknowledgement(options);
    }
  }

  lemma SameSender(plan: Plan, s: SenderState, r: ReceiverState, datagram: Datagram)
    requires plan.Sound() && SenderHonest(plan, s) && s.Open() && FromReceiver(plan, datagram, r) && Tracks(plan, s)
    requires |r.delivered| <= s.blocksSent
    requires datagram.packet.Acknowledgement? ==> s.blocksSent < Max(datagram.index, 1) + PERIOD
    requires datagram.packet.OptionsAcknowledgement? ==> s.blocksSent == 0 || s.lastReceivedBlockNumber != 0xFFFF
    ensures var seen := Seen(datagram.packet, DEFAULT_MAX_PACKET_SIZE);
            s.OnPacket(seen) == IdealSenderPacket(s, seen, datagram.index)
  {
    AnswerSeen(plan, datagram, r);
    match datagram.packet
    case Acknowledgement(_) => SameAcknowledgement(plan, s, datagram.index);
    case OptionsAcknowledgement(options) => SameOackSender(plan, s, options);
    case Error(_, _) =>
  }

  lemma SameAcknowledgement(plan: Plan, s: SenderState, index: nat)
    requires SenderHonest(plan, s) && s.Open() && Tracks(plan, s)
    requires plan.direction == Write && plan.oack != map[] ==> index >= 1
    requires index <= s.blocksSent && s.blocksSent < Max(index, 1) + PERIOD
    ensures s.OnPacket(Some(Acknowledgement(Number(index)))) ==
      IdealSenderPacket(s, Some(Acknowledgement(Number(index))), index)
  {
    AnswerToldApart(s.blocksSent, index);
    if s.blocksSent >= 1 {
      AnswerToldApart(s.blocksSent - 1, index);
    }
  }

  lemma SameOackSender(plan: Plan, s: SenderState, options: Options)
    requires SenderHonest(plan, s) && s.Open() && Tracks(plan, s)
    requires s.blocksSent == 0 || s.lastReceivedBlockNumber != 0xFFFF
    ensures s.OnPacket(Some(OptionsAcknowledgement(options))) ==
      IdealSenderPacket(s, Some(OptionsAcknowledgement(options)), 0)
  {
    var called := s.(op := s.op.Received());
    if s.op.role == Client {
      assert s.OnPacket(Some(OptionsAcknowledgement(options))) == called.OnOptionsAcknowledgement(options);
    }
  }

  lemma AcknowledgementTracks(plan: Plan, s: SenderState, index: nat)
    requires s.Open() && Tracks(plan, s) && (plan.direction == Write && plan.oack != map[] ==> index >= 1)
    ensures Tracks(plan, IdealOnAcknowledgement(s, index))
  {
  }

  lemma OptionsTrack(plan: Plan, s: SenderState, options: Options)
    requires s.Open() && Tracks(plan, s)
    requires plan.direction == Write && plan.oack != map[]
    ensures Tracks(plan, IdealOnOackSender(s, options))
  {
  }

  lemma SenderTracks(plan: Plan, s: SenderState, r: ReceiverState, datagram: Datagram)
    requires plan.Sound() && SenderHonest(plan, s) && s.Open() && FromReceiver(plan, datagram, r) && Tracks(plan, s)
    ensures Tracks(plan, IdealSenderPacket(s, Seen(datagram.packet, DEFAULT_MAX_PACKET_SIZE), datagram.index))
  {
    AnswerSeen(plan, datagram, r);
    match datagram.packet
    case Acknowledgement(_) => AcknowledgementTracks(plan, s.(op := s.op.Received()), datagram.index);
    case OptionsAcknowledgement(options) => OptionsTrack(plan, s.(op := s.op.Received()), options);
    case Error(_, _) =>
  }

  lemma StepRefines(plan: Plan, sys: System, event: Event)
    requires plan.Sound() && Safe(plan, sys) && Tracks(plan, sys.sender) && InWindowOackOnce(sys, event)
    ensures Step(sys, event) == IdealStep(sys, event) && Tracks(plan, Step(sys, event).sender)
  {
    match event
    case ToReceiver(position) =>
      if position < |sys.toReceiver| && sys.receiver.Open() {
        SameReceiver(plan, sys.receiver, sys.sender.blocksSent, sys.toReceiver[position]);
      }
    case ToSender(position) =>
      if position < |sys.toSender| && sys.sender.Open() {
        SameSender(plan, sys.sender, sys.receiver, sys.toSender[position]);
        SenderTracks(plan, sys.sender, sys.receiver, sys.toSender[position]);
      }
    case _ =>
  }

  // Where they part

  /** The client has gone on with a block where the ideal one has ended. */
  predicate Parted(sys: System, ideal: System) {
    !ideal.sender.Open() && ideal.sender.blocksSent < sys.sender.blocksSent
  }

  /** An OACK that is taken again sets off a block; the ideal client ends. */
  lemma StepParts(plan: Plan, sys: System, event: Event)
    requires plan.Sound() && Safe(plan, sys) && OackTakenAgain(sys, event)
    ensures Parted(Step(sys, event), IdealStep(sys, event))
  {
    var s, datagram := sys.sender, sys.toSender[event.position];
    assert FromReceiver(plan, datagram, sys.receiver);
    AnswerSeen(plan, datagram, sys.receiver);
    var verdict := CheckOack(plan.client, plan.rule, plan.oack);
    assert s.OnPacket(Some(OptionsAcknowledgement(plan.oack))) == s.(op := s.op.Received()).OnVerdict(verdict);
  }

  lemma BlocksSentGrows(s: SenderState, packet: Option<Packet>)
    ensures s.blocksSent <= s.OnPacket(packet).blocksSent
  {
    if packet.Some? && packet.value.OptionsAcknowledgement? && s.op.role == Client
       && s.lastReceivedBlockNumber == 0xFFFF {
      var verdict := CheckOack(s.configuration, s.SizeRule(), packet.value.options);
      assert s.OnPacket(packet) == s.(op := s.op.Received()).OnVerdict(verdict);
    }
  }

  lemma StayParted(sys: System, ideal: System, event: Event)
    requires Parted(sys, ideal)
    ensures Parted(Step(sys, event), IdealStep(ideal, event))
  {
    if event.ToSender? && Enabled(sys, event) && sys.sender.Open() {
      BlocksSentGrows(sys.sender, Seen(sys.toSender[event.position].packet, sys.sender.op.bufferSize));
    }
  }

  lemma {:induction false} RunRefines(plan: Plan, sys: System, events: seq<Event>)
    requires plan.Sound() && Safe(plan, sys) && Tracks(plan, sys.sender) && Schedule(InWindow, sys, events)
    ensures Safe(plan, Run(sys, events))
    ensures if Schedule(InWindowOackOnce, sys, events)
            then Run(sys, events) == IdealRun(sys, events) && Tracks(plan, Run(sys, events).sender)
            else Parted(Run(sys, events), IdealRun(sys, events))
  {
    if events != [] {
      var front, last := events[..|events| - 1], events[|events| - 1];
      RunRefines(plan, sys, front);
      var now := Run(sys, front);
      StepSafe(plan, now, last);
      if !Schedule(InWindowOackOnce, sys, front) {
        StayParted(now, IdealRun(sys, front), last);
      } else if OackTakenAgain(now, last) {
        StepParts(plan, now, last);
      } else {
        StepRefines(plan, now, last);
      }
    }
  }

  lemma OpenedTracks(plan: Plan, setup: Setup, reply: Reply)
    requires plan.Sound() && Follows(plan, setup, reply) && setup.repeatedRequests <= setup.clientRetries
    ensures Tracks(plan, Opened(setup, reply).sender)
  {
    if reply.refusal.None? {
      if setup.direction == Read {
        ReadOpened(plan, setup, reply);
      } else {
        WriteOpened(plan, setup, reply);
      }
    } else {
      OpenedWriteHonest(plan, setup, reply);
    }
  }

  /**
   * In every run that keeps datagrams in the window, with losses, repetitions and reorderings, the 16-bit protocol is
   * in the state of the protocol with unbounded indices exactly if no OACK was taken a second time.
   */
  lemma SixteenBitsSuffice(setup: Setup, events: seq<Event>)
    requires setup.Proper() && Schedule(InWindow, Init(setup), events)
    ensures Run(Init(setup), events) == IdealRun(Init(setup), events)
      <==> Schedule(InWindowOackOnce, Init(setup), events)
  {
    InitSafe(setup);
    PlanFollows(setup);
    OpenedTracks(PlanOf(setup), setup, setup.Reply());
    RunRefines(PlanOf(setup), Init(setup), events);
  }

  lemma {:induction false} OackNeverAgain(plan: Plan, sys: System, events: seq<Event>)
    requires plan.Sound() && Safe(plan, sys) && Schedule(InWindow, sys, events)
    requires plan.direction == Read || plan.oack == map[]
    ensures Schedule(InWindowOackOnce, sys, events)
  {
    if events != [] {
      var front, last := events[..|events| - 1], events[|events| - 1];
      OackNeverAgain(plan, sys, front);
      RunSafe(plan, sys, front);
      var now := Run(sys, front);
      if last.ToSender? && last.position < |now.toSender| {
        assert FromReceiver(plan, now.toSender[last.position], now.receiver);
      }
    }
  }

  /** For reads, and for writes without options, the window is all that is needed. */
  lemma SixteenBitsSufficeInWindow(setup: Setup, events: seq<Event>)
    requires setup.Proper() && Schedule(InWindow, Init(setup), events)
    requires setup.direction == Read || !SendsOack(setup)
    ensures Run(Init(setup), events) == IdealRun(Init(setup), events)
  {
    InitSafe(setup);
    PlanFollows(setup);
    if setup.direction == Write && !ReplyRefused(setup) {
      OackSent(setup);
    }
    OackNeverAgain(PlanOf(setup), Init(setup), events);
    SixteenBitsSuffice(setup, events);
  }

  /**
   * The window cannot be wider: a block that is 65535 blocks older than the one the receiver waits for is delivered
   * in its place.
   */
  lemma WindowIsTight(plan: Plan, r: ReceiverState, reached: nat, index: nat)
    requires plan.Sound() && plan.usable && ReceiverSafe(plan, r, reached) && r.Open() && Agreed(plan, r)
    requires index >= 1 && |r.delivered| + 1 == index + PERIOD
    ensures var data := Block(plan.file, plan.size, index);
            && r.OnPacket(Some(Data(Number(index), data))).delivered == r.delivered + [data]
            && IdealReceiverPacket(r, Some(Data(Number(index), data)), index).delivered == r.delivered
  {
    SameNumber(index, |r.delivered| + 1);
    NumberInWindow(index, |r.delivered|);
    NextNumber(|r.delivered|);
    NextBlockDelivered(r.(op := r.op.Received()), Block(plan.file, plan.size, index));
    OtherBlockRefused(r.(op := r.op.Received()), index, Block(plan.file, plan.size, index));
  }

  lemma NextBlockDelivered(r: ReceiverState, data: Bytes)
    requires |data| <= r.receiveDataSize
    ensures r.OnData(Next(r.lastReceivedBlockNumber), data).delivered == r.delivered + [data]
  {
  }

  lemma OtherBlockRefused(r: ReceiverState, index: nat, data: Bytes)
    requires index !in {|r.delivered|, |r.delivered| + 1}
    ensures IdealOnData(r, index, data).delivered == r.delivered
  {
  }
}
