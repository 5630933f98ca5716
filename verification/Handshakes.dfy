/**
 * The first packets of a transfer between both sides: the request that the client sends is the one that the server
 * decodes, and both sides come to use the same timeout.
 */
module Handshakes {
  import opened Basics
  import opened OptionLists
  import opened Packets
  import opened Negotiation
  import opened Operations
  import opened Senders
  import opened Receivers
  import opened Lifecycles
  import opened Transfers
  import opened Opening
  import opened Honesty
  import opened Wire
  import opened Starts

  // The request

  function ClientOf(direction: Direction, sys: System): OperationState {
    if direction == Read then sys.receiver.op else sys.sender.op
  }

  function ServerOf(direction: Direction, sys: System): OperationState {
    if direction == Read then sys.sender.op else sys.receiver.op
  }

  /** What the file handler says of its size, if it says anything. */
  function SizeOfFile(setup: Setup): Option<uint64> {
    if setup.suppliesSize && |setup.file| < UINT64_LIMIT then Some(|setup.file|) else None
  }

  /** The request by its fields. */
  function RequestOf(setup: Setup): Request {
    Request(
      setup.filename, setup.mode,
      Added(
        map[], if setup.client.blockSize.Some? then Some(setup.client.blockSize.value) else None,
        if setup.client.timeout.Some? then Some(setup.client.timeout.value % 65536) else None,
        if !setup.client.handleTransferSize then None
        else if setup.direction == Read then Some(0) else SizeOfFile(setup)))
  }

  function PacketOf(setup: Setup): Packet {
    if setup.direction == Read then ReadRequest(RequestOf(setup)) else WriteRequest(RequestOf(setup))
  }

  lemma {:induction false} RepeatSends(op: OperationState, times: nat)
    requires op.completions == [] && op.stored.Some? && op.timer != DallyTimer && op.counter + times <= op.retries + 1
    ensures var later := Repeat(op, times);
            later == op.(sent := op.sent + Copies(op.stored.value, times), counter := op.counter + times)
  {
    if times > 0 {
      RepeatSends(op, times - 1);
      var packet := op.stored.value;
      assert op.sent + Copies(packet, times - 1) + [packet] == op.sent + Copies(packet, times);
    } else {
      assert op.sent + Copies(op.stored.value, 0) == op.sent;
    }
  }

  /** The client has sent nothing but the request: an RRQ for a read, a WRQ for a write, and its repetitions. */
  lemma ClientSendsRequest(setup: Setup)
    requires setup.Proper()
    ensures setup.RequestPacket() == PacketOf(setup)
    ensures ClientOf(setup.direction, Init(setup)).sent == Copies(PacketOf(setup), setup.repeatedRequests + 1)
    ensures ClientOf(setup.direction, Init(setup)).role == Client
    ensures ClientOf(setup.direction, Init(setup)).counter == setup.repeatedRequests + 1
  {
    RequestHolds(map[], setup.client, setup.OfferedSize());
    OpenedClientSends(setup, setup.Reply());
  }

  lemma OpenedClientSends(setup: Setup, reply: Reply)
    requires setup.repeatedRequests <= setup.clientRetries
    ensures var op := ClientOf(setup.direction, Opened(setup, reply));
            && op.sent == Copies(PacketOf(setup), setup.repeatedRequests + 1)
            && op.role == Client && op.counter == setup.repeatedRequests + 1 && op.receiveTimeout == 2
  {
    var packet := PacketOf(setup);
    assert [packet] + Copies(packet, setup.repeatedRequests) == Copies(packet, setup.repeatedRequests + 1);
    if setup.direction == Read {
      ReadRequested(
        setup.clientRetries, DEFAULT_TIMEOUT, BufferSize(setup.client), setup.client, setup.dally, setup.accepts,
        setup.filename, setup.mode, map[]);
      var idle := Idle(Client, setup.clientRetries, DEFAULT_TIMEOUT, BufferSize(setup.client));
      RepeatSends(
        RequestRead(idle, setup.client, setup.dally, setup.accepts, setup.filename, setup.mode, map[]).op,
        setup.repeatedRequests);
    } else {
      WriteRequested(
        setup.clientRetries, DEFAULT_TIMEOUT, DEFAULT_MAX_PACKET_SIZE, setup.client, setup.file, setup.FileSize(),
        setup.filename, setup.mode, map[]);
      var idle := Idle(Client, setup.clientRetries, DEFAULT_TIMEOUT, DEFAULT_MAX_PACKET_SIZE);
      RepeatSends(
        RequestWrite(idle, setup.client, setup.file, setup.FileSize(), setup.filename, setup.mode, map[]).op,
        setup.repeatedRequests);
    }
  }

  /** A number that the server takes from the request, if it is in the range of the option. */
  function InLimits(value: Option<uint64>, min: uint64, max: uint64): Option<uint64> {
    if value.Some? && min <= value.value <= max then value else None
  }

  /**
   * The bytes of that request fit into a datagram, reach the handler of the server for its kind with the same fields,
   * and the server understands the options as they were configured.
   */
  lemma ServerTakesRequest(setup: Setup)
    requires setup.Proper()
    ensures var request := RequestOf(setup);
            var raw := Encode(PacketOf(setup));
            && |raw| <= 516 && raw[0] == 0 && raw[1] == (if setup.direction == Read then 1 else 2)
            && Dispatch(Truncated(raw, 516)) == Some(PacketOf(setup))
            && DecodeOptions(request.options).known ==
                 ClientOptions(
                   InLimits(WireBlockSize(setup.client), 8, 65464), InLimits(WireTimeout(setup.client), 1, 255),
                   if !setup.client.handleTransferSize then None
                   else if setup.direction == Read then Some(0) else SizeOfFile(setup))
            && setup.RequestedOptions() == DecodeOptions(request.options).known
  {
    var packet := PacketOf(setup);
    ClientSendsRequest(setup);
    EncodedByOpcode(packet);
    OptionsFit(setup);
    RoundTrip(packet);
    RequestDecoded(setup.client, setup.OfferedSize());
    RequestArrives(setup);
  }

  lemma OptionsFit(setup: Setup)
    ensures Printable(RequestOf(setup).options)
    ensures RequestOf(setup).options == RequestOptions(map[], setup.client, setup.OfferedSize())
  {
    NumberedOnWire(WireBlockSize(setup.client), WireTimeout(setup.client), WireSize(setup.client, setup.OfferedSize()));
    RequestHolds(map[], setup.client, setup.OfferedSize());
    AddedToNothing(setup);
  }

  lemma AddedToNothing(setup: Setup)
    ensures RequestOf(setup).options ==
      Numbered(WireBlockSize(setup.client), WireTimeout(setup.client), WireSize(setup.client, setup.OfferedSize()))
  {
    var options :=
      Numbered(WireBlockSize(setup.client), WireTimeout(setup.client), WireSize(setup.client, setup.OfferedSize()));
    assert options + map[] == options;
  }

  /**
   * Unless the server refuses, its OACK says the smaller block size, the timeout of the client, and the size of the
   * file, each exactly if both sides are configured for it and the value can be used.
   */
  lemma OackSays(setup: Setup)
    requires setup.Proper() && !ReplyRefused(setup)
    ensures var c, s, oack := setup.client, setup.server, Oack(setup);
            && oack.Keys <= {BLKSIZE, TIMEOUT, TSIZE}
            && NumberAt(oack, BLKSIZE) ==
                 (if c.blockSize.Some? && 8 <= c.blockSize.value <= 65464 && s.blockSize.Some?
                  then Some(Min(c.blockSize.value, s.blockSize.value)) else None)
            && NumberAt(oack, TIMEOUT) ==
                 (if c.timeout.Some? && s.timeout.Some? && 1 <= c.timeout.value % 65536 <= 255
                     && c.timeout.value % 65536 <= s.timeout.value
                  then Some(c.timeout.value % 65536) else None)
            && NumberAt(oack, TSIZE) ==
                 (if c.handleTransferSize && s.handleTransferSize then SizeOfFile(setup) else None)
  {
    ReplyAnswers(setup);
    NumberedEntries(
      setup.Reply().dataSize,
      if NegotiateTimeout(setup.client, setup.server) then Some(SecondsOnWire(setup.client.timeout.value)) else None,
      AnsweredSize(setup.client, setup.server, setup.FileSize()));
  }

  // The timeout

  /** The timeout of the client, as the server takes it from the request, if both sides negotiate it; otherwise 2. */
  function AgreedTimeout(setup: Setup): int {
    if NegotiateTimeout(setup.client, setup.server) then setup.client.timeout.value % 65536 else 2
  }

  lemma AnswersTimeout(setup: Setup, reply: Reply, size: Option<uint64>)
    requires Answers(setup.client, setup.server, reply, size)
    ensures reply.timeout.GetOr(2) == AgreedTimeout(setup)
    ensures reply.options == map[] ==> AgreedTimeout(setup) == 2
    ensures var verdict := CheckOack(setup.client, ClientRule(setup), reply.options);
            reply.options != map[] && verdict.refusal.None? ==> verdict.timeout.GetOr(2) == AgreedTimeout(setup)
  {
    if reply.options == map[] {
      EmptyAnswer(setup.client, setup.server, reply, size);
    } else {
      AnswerAccepted(setup.client, setup.server, ClientRule(setup), reply, size);
    }
  }

  /** What the reply and the plan say of the timeout. */
  ghost predicate PlansTimeout(plan: Plan, seconds: int) {
    && (plan.oack == map[] ==> seconds == 2)
    && (plan.oack != map[] && plan.usable ==>
          CheckOack(plan.client, plan.rule, plan.oack).timeout.GetOr(2) == seconds)
  }

  lemma ReplyTimeout(setup: Setup)
    requires setup.Proper() && !ReplyRefused(setup)
    ensures setup.Reply().timeout.GetOr(2) == AgreedTimeout(setup)
    ensures PlanOf(setup).Sound() && PlansTimeout(PlanOf(setup), AgreedTimeout(setup))
  {
    ReplyAnswers(setup);
    PlanSound(setup);
    AnswersTimeout(setup, setup.Reply(), AnsweredSize(setup.client, setup.server, setup.FileSize()));
  }

  /** The server works with the agreed timeout, the client does as soon as it has gone on. */
  ghost predicate Timed(plan: Plan, sys: System, seconds: int) {
    if plan.direction == Read then
      && sys.sender.op.receiveTimeout == seconds
      && (sys.receiver.Open() ==> sys.receiver.op.receiveTimeout == if sys.receiver.oackReceived then seconds else 2)
    else
      && sys.receiver.op.receiveTimeout == seconds
      && (sys.sender.Open() ==> sys.sender.op.receiveTimeout == if sys.sender.blocksSent >= 1 then seconds else 2)
  }

  // One event

  lemma ReceiverKeepsTimeout(r: ReceiverState, packet: Option<Packet>)
    requires packet.Some? && packet.value.OptionsAcknowledgement? ==> r.op.role == Server
    ensures var next := r.OnPacket(packet);
            next.op.receiveTimeout == r.op.receiveTimeout && next.oackReceived == r.oackReceived
  {
    if packet.Some? && packet.value.Data? {
      DataKeepsTimeout(r.(op := r.op.Received()), packet.value.block, packet.value.data);
    }
  }

  lemma DataKeepsTimeout(r: ReceiverState, block: uint16, data: Bytes)
    ensures var next := r.OnData(block, data);
            next.op.receiveTimeout == r.op.receiveTimeout && next.oackReceived == r.oackReceived
  {
  }

  lemma SenderKeepsTimeout(s: SenderState, packet: Option<Packet>)
    requires packet.Some? && packet.value.OptionsAcknowledgement? ==> s.op.role == Server
    ensures var next := s.OnPacket(packet);
            next.op.receiveTimeout == s.op.receiveTimeout && s.blocksSent <= next.blocksSent <= s.blocksSent + 1
  {
  }

  lemma ReaderTakesTimeout(plan: Plan, r: ReceiverState, seconds: int)
    requires plan.Sound() && plan.direction == Read && plan.oack != map[] && PlansTimeout(plan, seconds)
    requires ReceiverHonest(plan, r) && r.Open()
    requires r.op.receiveTimeout == if r.oackReceived then seconds else 2
    ensures var next := r.OnPacket(Some(OptionsAcknowledgement(plan.oack)));
            next.Open() ==> next.oackReceived && next.op.receiveTimeout == seconds
  {
    var verdict := CheckOack(plan.client, plan.rule, plan.oack);
    if r.lastReceivedBlockNumber == 0 {
      assert r.OnPacket(Some(OptionsAcknowledgement(plan.oack))) == r.(op := r.op.Received()).OnVerdict(verdict);
    }
  }

  lemma WriterTakesTimeout(plan: Plan, s: SenderState, seconds: int)
    requires plan.Sound() && plan.direction == Write && plan.oack != map[] && PlansTimeout(plan, seconds)
    requires SenderHonest(plan, s) && s.Open()
    requires s.op.receiveTimeout == if s.blocksSent >= 1 then seconds else 2
    ensures var next := s.OnPacket(Some(OptionsAcknowledgement(plan.oack)));
            next.Open() ==> next.blocksSent >= 1 && next.op.receiveTimeout == seconds
  {
    var verdict := CheckOack(plan.client, plan.rule, plan.oack);
    if s.lastReceivedBlockNumber == 0xFFFF {
      assert s.OnPacket(Some(OptionsAcknowledgement(plan.oack))) == s.(op := s.op.Received()).OnVerdict(verdict);
    }
  }

  lemma ReceivedTimed(plan: Plan, sys: System, position: nat, seconds: int)
    requires plan.Sound() && Honest(plan, sys) && PlansTimeout(plan, seconds) && Timed(plan, sys, seconds)
    requires position < |sys.toReceiver| && sys.receiver.Open()
    ensures var next := sys.receiver.OnPacket(Seen(sys.toReceiver[position].packet, plan.bufferSize));
            if plan.direction == Write then next.op.receiveTimeout == seconds
            else next.Open() ==> next.op.receiveTimeout == if next.oackReceived then seconds else 2
  {
    var datagram := sys.toReceiver[position];
    var seen := Seen(datagram.packet, plan.bufferSize);
    assert FromSender(plan, datagram, sys.sender.blocksSent);
    DatagramSeen(plan, datagram, sys.sender.blocksSent);
    if seen.Some? && seen.value.OptionsAcknowledgement? {
      ReaderTakesTimeout(plan, sys.receiver, seconds);
    } else {
      ReceiverKeepsTimeout(sys.receiver, seen);
    }
  }

  lemma AnsweredTimed(plan: Plan, sys: System, position: nat, seconds: int)
    requires plan.Sound() && Honest(plan, sys) && PlansTimeout(plan, seconds) && Timed(plan, sys, seconds)
    requires position < |sys.toSender| && sys.sender.Open()
    ensures var next := sys.sender.OnPacket(Seen(sys.toSender[position].packet, DEFAULT_MAX_PACKET_SIZE));
            if plan.direction == Read then next.op.receiveTimeout == seconds
            else next.Open() ==> next.op.receiveTimeout == if next.blocksSent >= 1 then seconds else 2
  {
    var datagram := sys.toSender[position];
    var seen := Seen(datagram.packet, DEFAULT_MAX_PACKET_SIZE);
    assert FromReceiver(plan, datagram, sys.receiver);
    AnswerSeen(plan, datagram, sys.receiver);
    if seen.Some? && seen.value.OptionsAcknowledgement? {
      WriterTakesTimeout(plan, sys.sender, seconds);
    } else {
      SenderKeepsTimeout(sys.sender, seen);
      if plan.direction == Write && plan.oack != map[] && sys.sender.blocksSent == 0 {
        FirstAnswerTimed(plan, sys, position);
      }
    }
  }

  /** What is no OACK makes a writing client go on only if no option was agreed on, or it has taken the OACK before. */
  lemma FirstAnswerTimed(plan: Plan, sys: System, position: nat)
    requires plan.Sound() && Honest(plan, sys) && plan.direction == Write && plan.oack != map[]
    requires position < |sys.toSender| && sys.sender.Open() && sys.sender.blocksSent == 0
    requires !sys.toSender[position].packet.OptionsAcknowledgement?
    ensures !sys.sender.OnPacket(Seen(sys.toSender[position].packet, DEFAULT_MAX_PACKET_SIZE)).Open()
  {
    assert FromReceiver(plan, sys.toSender[position], sys.receiver);
    AnswerSeen(plan, sys.toSender[position], sys.receiver);
  }

  lemma ToReceiverTimed(plan: Plan, sys: System, position: nat, seconds: int)
    requires plan.Sound() && Honest(plan, sys) && PlansTimeout(plan, seconds) && Timed(plan, sys, seconds)
    requires position < |sys.toReceiver|
    ensures Timed(plan, Step(sys, Event.ToReceiver(position)), seconds)
  {
    if sys.receiver.Open() {
      ReceivedTimed(plan, sys, position, seconds);
      ReceiverStep(sys, position, Seen(sys.toReceiver[position].packet, plan.bufferSize));
    }
  }

  lemma ToSenderTimed(plan: Plan, sys: System, position: nat, seconds: int)
    requires plan.Sound() && Honest(plan, sys) && PlansTimeout(plan, seconds) && Timed(plan, sys, seconds)
    requires position < |sys.toSender|
    ensures Timed(plan, Step(sys, Event.ToSender(position)), seconds)
  {
    if sys.sender.Open() {
      AnsweredTimed(plan, sys, position, seconds);
      SenderStep(sys, position, Seen(sys.toSender[position].packet, DEFAULT_MAX_PACKET_SIZE));
    }
  }

  lemma TimeoutTimed(plan: Plan, sys: System, event: Event, seconds: int)
    requires Timed(plan, sys, seconds) && event in {SenderTimeout, ReceiverTimeout}
    ensures Timed(plan, Step(sys, event), seconds)
  {
  }

  lemma StepTimed(plan: Plan, sys: System, event: Event, seconds: int)
    requires plan.Sound() && Honest(plan, sys) && PlansTimeout(plan, seconds) && Timed(plan, sys, seconds)
    ensures Timed(plan, Step(sys, event), seconds)
  {
    if Enabled(sys, event) {
      match event
      case ToReceiver(position) => ToReceiverTimed(plan, sys, position, seconds);
      case ToSender(position) => ToSenderTimed(plan, sys, position, seconds);
      case _ => TimeoutTimed(plan, sys, event, seconds);
    }
  }

  lemma {:induction false} RunTimed(rule: Rule, plan: Plan, sys: System, events: seq<Event>, seconds: int)
    requires plan.Sound() && Honest(plan, sys) && PlansTimeout(plan, seconds) && Timed(plan, sys, seconds)
    requires Schedule(rule, sys, events)
    ensures Honest(plan, Run(sys, events)) && Timed(plan, Run(sys, events), seconds)
  {
    if events != [] {
      var front, last := events[..|events| - 1], events[|events| - 1];
      RunTimed(rule, plan, sys, front, seconds);
      StepHonest(plan, Run(sys, front), last);
      StepTimed(plan, Run(sys, front), last, seconds);
    }
  }

  // The start

  lemma OpenedTimed(plan: Plan, setup: Setup, reply: Reply, seconds: int)
    requires setup.repeatedRequests <= setup.clientRetries && plan.direction == setup.direction
    requires reply.refusal.None? && reply.timeout.GetOr(2) == seconds
    ensures Timed(plan, Opened(setup, reply), seconds)
  {
    OpenedClientSends(setup, reply);
    OpenedServerTimed(setup, reply, seconds);
  }

  lemma OpenedServerTimed(setup: Setup, reply: Reply, seconds: int)
    requires reply.refusal.None? && reply.timeout.GetOr(2) == seconds
    ensures var sys := Opened(setup, reply);
            if setup.direction == Read then sys.sender.op.receiveTimeout == seconds && !sys.receiver.oackReceived
            else sys.receiver.op.receiveTimeout == seconds && sys.sender.blocksSent == 0
  {
    if setup.direction == Read {
      ReadBegins(
        Idle(Server, setup.serverRetries, DEFAULT_TIMEOUT, DEFAULT_MAX_PACKET_SIZE), setup.server, setup.file, reply);
    } else {
      WriteBegins(
        Idle(Server, setup.serverRetries, DEFAULT_TIMEOUT, BufferSize(setup.server)), setup.server, setup.dally,
        setup.accepts, reply);
    }
  }

  /** The client of a read has taken the OACK or a block, that of a write has sent a block. */
  predicate HasGoneOn(direction: Direction, sys: System) {
    if direction == Read then sys.receiver.oackReceived || sys.receiver.delivered != [] else sys.sender.blocksSent >= 1
  }

  lemma TimedMeans(plan: Plan, sys: System, seconds: int)
    requires Honest(plan, sys) && PlansTimeout(plan, seconds) && Timed(plan, sys, seconds)
    ensures ServerOf(plan.direction, sys).receiveTimeout == seconds
    ensures ClientOf(plan.direction, sys).Open() && HasGoneOn(plan.direction, sys) ==>
      ClientOf(plan.direction, sys).receiveTimeout == seconds
  {
  }

  /**
   * Unless the server refuses: over any network and in every state of every run, it works with the timeout that the
   * client has asked for, if both sides are configured to negotiate it, and otherwise with its own; and as soon as the
   * client has gone on, it works with the same one.
   */
  lemma TimeoutAgreed(rule: Rule, setup: Setup, events: seq<Event>)
    requires setup.Proper() && !ReplyRefused(setup) && Schedule(rule, Init(setup), events)
    ensures var end := Run(Init(setup), events);
            var client, server := ClientOf(setup.direction, end), ServerOf(setup.direction, end);
            && server.receiveTimeout == AgreedTimeout(setup)
            && (client.Open() && HasGoneOn(setup.direction, end) ==> client.receiveTimeout == server.receiveTimeout)
  {
    var plan, seconds := PlanOf(setup), AgreedTimeout(setup);
    ReplyTimeout(setup);
    PlanFollows(setup);
    InitHonest(setup);
    OpenedTimed(plan, setup, setup.Reply(), seconds);
    RunTimed(rule, plan, Init(setup), events, seconds);
    TimedMeans(plan, Run(Init(setup), events), seconds);
  }
}
