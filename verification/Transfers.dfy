/**
 * One client operation and one server operation that exchange datagrams over an unreliable network.
 *
 * Everything that is sent towards the other operation is kept in a log. The network may deliver any logged datagram
 * at any time; what a real network does is a rule on which positions of the log are delivered when. Skipping a
 * position is a loss, returning to a position is a duplicate, going backwards is a reordering.
 */
module Transfers {
  import opened Basics
  import opened BlockNumbers
  import opened OptionLists
  import opened Packets
  import opened Negotiation
  import opened Operations
  import opened Senders
  import opened Receivers

  const DEFAULT_TIMEOUT := 2

  datatype Direction = Read | Write

  /**
   * The parameters of a transfer: the file and whether its handler supplies the size, the configurations, whether the
   * handler of the receiving side accepts a transfer size, and how often the client had repeated its request when
   * the server operation started.
   */
  datatype Setup = Setup(
    direction: Direction,
    filename: Bytes,
    mode: TransferMode,
    file: Bytes,
    suppliesSize: bool,
    accepts: bool,
    dally: bool,
    client: Configuration,
    server: Configuration,
    clientRetries: uint16,
    serverRetries: uint16,
    repeatedRequests: nat)
  {
    function FileSize(): Option<uint64> {
      if suppliesSize && |file| < UINT64_LIMIT then Some(|file|) else None
    }

    function OfferedSize(): Option<uint64> {
      if direction == Read then Some(0) else FileSize()
    }

    /** The request of the client as a packet. */
    function RequestPacket(): Packet {
      var request := Request(filename, mode, RequestOptions(map[], client, OfferedSize()));
      if direction == Read then ReadRequest(request) else WriteRequest(request)
    }

    /** The options the server takes out of the datagram of the request. */
    ghost function RequestedOptions(): ClientOptions {
      match Dispatch(Truncated(Encode(RequestPacket()), DEFAULT_MAX_PACKET_SIZE))
      case Some(ReadRequest(request)) => DecodeOptions(request.options).known
      case Some(WriteRequest(request)) => DecodeOptions(request.options).known
      case _ => ClientOptions(None, None, None)
    }

    ghost function Reply(): Reply {
      if direction == Read then ReadReply(server, RequestedOptions(), map[], FileSize())
      else WriteReply(server, RequestedOptions(), map[], accepts)
    }

    /** The request fits into a datagram the server receives. */
    ghost predicate Proper() {
      && NulFree(filename)
      && |Encode(RequestPacket())| <= DEFAULT_MAX_PACKET_SIZE
      && repeatedRequests <= clientRetries
    }
  }

  /** A packet under way; `index` is the block the sending operation had reached. No operation ever sees it. */
  datatype Datagram = Datagram(packet: Packet, index: nat)

  datatype System = System(
    sender: SenderState,
    receiver: ReceiverState,
    toReceiver: seq<Datagram>,
    toSender: seq<Datagram>,
    nextToReceiver: nat,
    nextToSender: nat)

  datatype Event = ToReceiver(position: nat) | ToSender(position: nat) | SenderTimeout | ReceiverTimeout

  function Tagged(packets: seq<Packet>, index: nat): (datagrams: seq<Datagram>)
    ensures |datagrams| == |packets|
  {
    seq(|packets|, i requires 0 <= i < |packets| => Datagram(packets[i], index))
  }

  /** What an operation has sent since an earlier state. */
  function Since(before: OperationState, after: OperationState): seq<Packet> {
    if |before.sent| <= |after.sent| then after.sent[|before.sent|..] else []
  }

  /** The packet an operation sees: the bytes, cut off at the size of its receive buffer, and decoded. */
  ghost function Seen(packet: Packet, bufferSize: nat): Option<Packet> {
    Dispatch(Truncated(Encode(packet), bufferSize))
  }

  ghost function Init(setup: Setup): System {
    Opened(setup, setup.Reply())
  }

  /** The server operation has started with a reply to the options; the client waits for its first answer. */
  function Opened(setup: Setup, reply: Reply): System {
    if setup.direction == Read then
      var idle := Idle(Client, setup.clientRetries, DEFAULT_TIMEOUT, BufferSize(setup.client));
      var receiver :=
        RequestRead(idle, setup.client, setup.dally, setup.accepts, setup.filename, setup.mode, map[]);
      var sender := StartRead(
        Idle(Server, setup.serverRetries, DEFAULT_TIMEOUT, DEFAULT_MAX_PACKET_SIZE), setup.server, setup.file,
        reply);
      System(
        sender, receiver.(op := Repeat(receiver.op, setup.repeatedRequests)),
        Tagged(sender.op.sent, sender.blocksSent), [], 0, 0)
    else
      var idle := Idle(Client, setup.clientRetries, DEFAULT_TIMEOUT, DEFAULT_MAX_PACKET_SIZE);
      var sender :=
        RequestWrite(idle, setup.client, setup.file, setup.FileSize(), setup.filename, setup.mode, map[]);
      var receiver := StartWrite(
        Idle(Server, setup.serverRetries, DEFAULT_TIMEOUT, BufferSize(setup.server)), setup.server, setup.dally,
        setup.accepts, reply);
      System(
        sender.(op := Repeat(sender.op, setup.repeatedRequests)), receiver,
        [], Tagged(receiver.op.sent, 0), 0, 0)
  }

  /** A completed operation has closed its socket: it receives nothing and has no timer. */
  predicate Enabled(sys: System, event: Event) {
    match event
    case ToReceiver(position) => position < |sys.toReceiver|
    case ToSender(position) => position < |sys.toSender|
    case SenderTimeout => sys.sender.Open()
    case ReceiverTimeout => sys.receiver.Open()
  }

  function WithSender(sys: System, sender: SenderState): System {
    sys.(sender := sender, toReceiver := sys.toReceiver + Tagged(Since(sys.sender.op, sender.op), sender.blocksSent))
  }

  function WithReceiver(sys: System, receiver: ReceiverState): System {
    sys.(
      receiver := receiver,
      toSender := sys.toSender + Tagged(Since(sys.receiver.op, receiver.op), |receiver.delivered|))
  }

  /** A repeated request goes to the port of the server, not to the operation, and so does not enter a log. */
  ghost function Step(sys: System, event: Event): System {
    if !Enabled(sys, event) then sys else
    match event
    case ToReceiver(position) =>
      var seen := sys.(nextToReceiver := position + 1);
      if !sys.receiver.Open() then seen
      else
        WithReceiver(seen, sys.receiver.OnPacket(Seen(sys.toReceiver[position].packet, sys.receiver.op.bufferSize)))
    case ToSender(position) =>
      var seen := sys.(nextToSender := position + 1);
      if !sys.sender.Open() then seen
      else
        WithSender(seen, sys.sender.OnPacket(Seen(sys.toSender[position].packet, sys.sender.op.bufferSize)))
    case SenderTimeout =>
      if sys.sender.op.timer == FirstTimer then sys.(sender := sys.sender.OnTimeout())
      else WithSender(sys, sys.sender.OnTimeout())
    case ReceiverTimeout =>
      if sys.receiver.op.timer == FirstTimer then sys.(receiver := sys.receiver.OnTimeout())
      else WithReceiver(sys, sys.receiver.OnTimeout())
  }

  lemma ReceiverStep(sys: System, position: nat, seen: Option<Packet>)
    requires position < |sys.toReceiver| && sys.receiver.Open()
    requires Seen(sys.toReceiver[position].packet, sys.receiver.op.bufferSize) == seen
    ensures Step(sys, Event.ToReceiver(position)) ==
      WithReceiver(sys.(nextToReceiver := position + 1), sys.receiver.OnPacket(seen))
  {
  }

  lemma SenderStep(sys: System, position: nat, seen: Option<Packet>)
    requires position < |sys.toSender| && sys.sender.Open()
    requires Seen(sys.toSender[position].packet, sys.sender.op.bufferSize) == seen
    ensures Step(sys, Event.ToSender(position)) ==
      WithSender(sys.(nextToSender := position + 1), sys.sender.OnPacket(seen))
  {
  }

  // Networks

  type Rule = (System, Event) -> bool

  /** Any logged datagram arrives at any time. */
  predicate AnyOrder(sys: System, event: Event) {
    true
  }

  /** Datagrams stay in order; they may be lost and duplicated. */
  predicate InOrder(sys: System, event: Event) {
    match event
    case ToReceiver(position) => position + 1 >= sys.nextToReceiver
    case ToSender(position) => position + 1 >= sys.nextToSender
    case _ => true
  }

  /** Datagrams stay in order; they may be lost but not duplicated. */
  predicate InOrderOnce(sys: System, event: Event) {
    match event
    case ToReceiver(position) => position >= sys.nextToReceiver
    case ToSender(position) => position >= sys.nextToSender
    case _ => true
  }

  /**
   * Datagrams come in any order and any number of times, but a DATA or ACK that reaches an open operation is less
   * than 65535 blocks away from what the operation can take. Nothing else looks like ACK 0, and a receiver without a
   * block cannot repeat block 0.
   */
  predicate InWindow(sys: System, event: Event) {
    match event
    case ToReceiver(position) =>
      position < |sys.toReceiver| && sys.receiver.Open() && sys.toReceiver[position].packet.Data? ==>
        var last, index := |sys.receiver.delivered|, sys.toReceiver[position].index;
        last + 1 - PERIOD < index < Max(last, 1) + PERIOD
    case ToSender(position) =>
      position < |sys.toSender| && sys.sender.Open() && sys.toSender[position].packet.Acknowledgement? ==>
        sys.sender.blocksSent < Max(sys.toSender[position].index, 1) + PERIOD
    case _ => true
  }

  ghost function Run(sys: System, events: seq<Event>): System {
    if events == [] then sys else Step(Run(sys, events[..|events| - 1]), events[|events| - 1])
  }

  /** Every event of the run can happen, and the network follows the rule. */
  ghost predicate Schedule(rule: Rule, sys: System, events: seq<Event>) {
    events == [] ||
    (var front, last := events[..|events| - 1], events[|events| - 1];
     && Schedule(rule, sys, front)
     && Enabled(Run(sys, front), last)
     && rule(Run(sys, front), last))
  }
}
