/**
 * The Sorcerer's Apprentice (section 4.2.3.1 of RFC 1123): an answer that arrives twice must not make the sender
 * send a block twice. Here a sender that takes no OACK is exposed to any bytes at any time.
 */
module Apprentice {
  import opened Basics
  import opened BlockNumbers
  import opened MemoryFiles
  import opened OptionLists
  import opened Packets
  import opened Negotiation
  import opened Operations
  import opened Senders
  import opened Lifecycles

  /** Every packet as often in a row as its count says. */
  function Stretch(packets: seq<Packet>, counts: seq<nat>): seq<Packet>
    requires |packets| == |counts|
  {
    if packets == [] then []
    else
      var last := |packets| - 1;
      Stretch(packets[..last], counts[..last]) + Copies(packets[last], counts[last])
  }

  /** Each of the packets has been sent at least once and at most once more often than it may be repeated, in order. */
  ghost predicate Paced(sent: seq<Packet>, packets: seq<Packet>, counts: seq<nat>, retries: nat) {
    && |counts| == |packets|
    && (forall i :: 0 <= i < |counts| ==> 1 <= counts[i] <= retries + 1)
    && sent == Stretch(packets, counts)
  }

  /** What opens the transfer, and the first blocks of the file. */
  function Originals(opening: seq<Packet>, file: Bytes, size: nat, count: nat): (packets: seq<Packet>)
    ensures |packets| == |opening| + count
  {
    opening + seq(count, i requires 0 <= i < count => Data(Number(i + 1), Block(file, size, i + 1)))
  }

  /** The OACK of a server, if there is one. */
  function Opening(oack: Options): seq<Packet> {
    if oack == map[] then [] else [OptionsAcknowledgement(oack)]
  }

  lemma OneMoreOriginal(opening: seq<Packet>, file: Bytes, size: nat, count: nat)
    ensures Originals(opening, file, size, count + 1) ==
      Originals(opening, file, size, count) + [Data(Number(count + 1), Block(file, size, count + 1))]
  {
  }

  function Expirations(inputs: seq<Input>): nat {
    if inputs == [] then 0
    else Expirations(inputs[..|inputs| - 1]) + if inputs[|inputs| - 1].Expires? then 1 else 0
  }

  lemma StretchMore(packets: seq<Packet>, counts: seq<nat>, packet: Packet)
    requires |packets| == |counts|
    ensures Stretch(packets + [packet], counts + [1]) == Stretch(packets, counts) + [packet]
  {
    assert (packets + [packet])[..|packets|] == packets && (counts + [1])[..|counts|] == counts;
  }

  lemma StretchLast(packets: seq<Packet>, counts: seq<nat>)
    requires |packets| == |counts| >= 1
    ensures var last := |packets| - 1;
            Stretch(packets, counts[last := counts[last] + 1]) == Stretch(packets, counts) + [packets[last]]
  {
    var last := |packets| - 1;
    assert counts[last := counts[last] + 1][..last] == counts[..last];
    assert Copies(packets[last], counts[last] + 1) == Copies(packets[last], counts[last]) + [packets[last]];
  }

  lemma OneMoreTimes(most: nat, count: nat)
    requires count >= 1
    ensures most * (count - 1) + most == most * count
  {
  }

  lemma {:induction false} StretchLength(packets: seq<Packet>, counts: seq<nat>, most: nat)
    requires |packets| == |counts| && forall i :: 0 <= i < |counts| ==> 1 <= counts[i] <= most
    ensures |packets| <= |Stretch(packets, counts)| <= most * |packets|
  {
    if packets != [] {
      StretchLength(packets[..|packets| - 1], counts[..|packets| - 1], most);
      OneMoreTimes(most, |packets|);
    }
  }

  /** If nothing is sent twice, what is sent are the packets themselves. */
  lemma {:induction false} StretchOnce(packets: seq<Packet>, counts: seq<nat>)
    requires |packets| == |counts| && forall i :: 0 <= i < |counts| ==> 1 <= counts[i]
    requires |Stretch(packets, counts)| == |packets|
    ensures Stretch(packets, counts) == packets
  {
    if packets != [] {
      var last := |packets| - 1;
      StretchAtLeast(packets[..last], counts[..last]);
      StretchOnce(packets[..last], counts[..last]);
      assert Copies(packets[last], 1) == [packets[last]];
      assert packets[..last] + [packets[last]] == packets;
    }
  }

  lemma {:induction false} StretchAtLeast(packets: seq<Packet>, counts: seq<nat>)
    requires |packets| == |counts| && forall i :: 0 <= i < |counts| ==> 1 <= counts[i]
    ensures |packets| <= |Stretch(packets, counts)|
  {
    if packets != [] {
      StretchAtLeast(packets[..|packets| - 1], counts[..|packets| - 1]);
    }
  }

  // One handler

  /** A server, or a client that accepts no OACK: nothing but ACKs moves it on. */
  predicate Steady(s: SenderState) {
    s.op.role == Client ==> !TakesOack(s.configuration, s.SizeRule())
  }

  /** The acknowledgement of the current block, which is not the last one. */
  predicate MovesOn(s: SenderState, packet: Option<Packet>) {
    && packet.Some? && packet.value.Acknowledgement?
    && packet.value.block != s.lastReceivedBlockNumber && packet.value.block == s.lastTransmittedBlockNumber
    && !s.lastDataPacketTransmitted
  }

  /** Nothing but perhaps a final ERROR has been sent. */
  predicate NoNewBlock(s: SenderState, next: SenderState) {
    && next.blocksSent == s.blocksSent && next.file == s.file
    && (next.Open() ==> next.transmitDataSize == s.transmitDataSize)
    && (next.op.sent == s.op.sent
        || (!next.Open() && next.op.stored.Some? && next.op.stored.value.Error?
            && next.op.sent == s.op.sent + [next.op.stored.value]))
  }

  lemma AcknowledgementReaction(s: SenderState, block: uint16)
    requires s.Open() && !MovesOn(s, Some(Acknowledgement(block)))
    ensures var next := s.OnAcknowledgement(block);
            NoNewBlock(s, next) && (next.Open() ==> next == s.Receive())
  {
  }

  lemma OackReaction(s: SenderState, options: Options)
    requires s.Open() && s.op.role == Client && Steady(s)
    ensures var next := s.OnPacket(Some(OptionsAcknowledgement(options)));
            NoNewBlock(s, next) && !next.Open()
  {
    var verdict := CheckOack(s.configuration, s.SizeRule(), options);
    OackAcceptance(s.configuration, s.SizeRule(), options);
    if AcceptableOack(s.configuration, s.SizeRule(), options) {
      NoOackTaken(s.configuration, s.SizeRule(), options);
    }
    if s.lastReceivedBlockNumber == 0xFFFF {
      assert s.OnPacket(Some(OptionsAcknowledgement(options))) == s.(op := s.op.Received()).OnVerdict(verdict);
      RefusalReaction(s, verdict);
    }
  }

  lemma RefusalReaction(s: SenderState, verdict: Verdict)
    requires s.Open() && verdict.refusal.Some?
    ensures var next := s.(op := s.op.Received()).OnVerdict(verdict);
            NoNewBlock(s, next) && !next.Open()
  {
  }

  /**
   * For any packet: the sender sends the next block if it is the acknowledgement of the current one, and otherwise
   * nothing, or an ERROR at its end.
   */
  lemma Reaction(s: SenderState, packet: Option<Packet>)
    requires s.Open() && Steady(s)
    ensures MovesOn(s, packet) ==>
      s.OnPacket(packet) ==
        s.(op := s.op.Received(), lastReceivedBlockNumber := s.lastTransmittedBlockNumber).SendData().Receive()
    ensures !MovesOn(s, packet) ==>
      NoNewBlock(s, s.OnPacket(packet))
      && (s.OnPacket(packet).Open() ==> s.OnPacket(packet) == s.(op := s.op.Received()).Receive())
  {
    if packet.Some? && packet.value.Acknowledgement? && !MovesOn(s, packet) {
      AcknowledgementReaction(s.(op := s.op.Received()), packet.value.block);
    } else if packet.Some? && packet.value.OptionsAcknowledgement? && s.op.role == Client {
      OackReaction(s, packet.value.options);
    }
  }

  /** The sender is at its block in the file. */
  ghost predicate AtBlock(s: SenderState) {
    && Steady(s) && s.op.Live() && s.transmitDataSize >= 1
    && s.lastTransmittedBlockNumber == Number(s.blocksSent)
    && s.position == Cursor(|s.file|, s.transmitDataSize, s.blocksSent)
    && (s.lastDataPacketTransmitted <==> s.blocksSent >= BlockCount(|s.file|, s.transmitDataSize))
    && s.blocksSent <= BlockCount(|s.file|, s.transmitDataSize)
  }

  /** The originals end with the stored packet, which has been sent `counter` times. */
  ghost predicate PacedTo(op: OperationState, originals: seq<Packet>, counts: seq<nat>) {
    && Paced(op.sent, originals, counts, op.retries)
    && originals != [] && op.stored == Some(originals[|originals| - 1])
    && counts[|counts| - 1] == op.counter
  }

  lemma PacedAgain(op: OperationState, originals: seq<Packet>, counts: seq<nat>)
    requires op.Live() && PacedTo(op, originals, counts) && op.Timeout().Open()
    ensures PacedTo(op.Timeout(), originals, counts[|counts| - 1 := op.counter + 1])
  {
    StretchLast(originals, counts);
  }

  lemma NewBlockReached(s: SenderState)
    requires AtBlock(s) && !s.lastDataPacketTransmitted
    ensures var acknowledged := s.(op := s.op.Received(), lastReceivedBlockNumber := s.lastTransmittedBlockNumber);
            var index := s.blocksSent + 1;
            var next := acknowledged.SendData().Receive();
            && AtBlock(next)
            && next.blocksSent == index && next.file == s.file && next.transmitDataSize == s.transmitDataSize
            && next.op ==
                 s.op.Received().Send(Data(Number(index), Block(s.file, s.transmitDataSize, index))).Await(ReceiveTimer)
  {
    var acknowledged := s.(op := s.op.Received(), lastReceivedBlockNumber := s.lastTransmittedBlockNumber);
    NextBlock(acknowledged);
    SendDataHandled(acknowledged);
  }

  // Whole lives

  /**
   * Everything sent: the originals, each in its number, and at the end of a failed operation an ERROR. A repetition
   * costs an expired timer.
   */
  ghost predicate Account(
    op: OperationState, originals: seq<Packet>, counts: seq<nat>, complaint: seq<Packet>, expirations: nat)
  {
    && |counts| == |originals|
    && Paced(Stretch(originals, counts), originals, counts, op.retries)
    && op.sent == Stretch(originals, counts) + complaint
    && |complaint| <= 1 && (complaint != [] ==> complaint[0].Error? && !op.Open())
    && |Stretch(originals, counts)| <= |originals| + expirations
    && (op.Open() ==> |Stretch(originals, counts)| == |originals| + expirations)
  }

  ghost predicate Accounted(
    s: SenderState, originals: seq<Packet>, counts: seq<nat>, complaint: seq<Packet>, expirations: nat)
  {
    Account(s.op, originals, counts, complaint, expirations)
    && (s.Open() ==> AtBlock(s) && complaint == [] && PacedTo(s.op, originals, counts))
  }

  lemma NoNewBlockAccounted(
    s: SenderState, next: SenderState, originals: seq<Packet>, counts: seq<nat>, expirations: nat)
    returns (complaint: seq<Packet>)
    requires s.Open() && Accounted(s, originals, counts, [], expirations) && NoNewBlock(s, next)
    requires next.op.retries == s.op.retries
    requires next.Open() ==> next == s.(op := s.op.Received()).Receive() && next.op.Live()
    ensures Accounted(next, originals, counts, complaint, expirations)
  {
    complaint := if next.op.sent == s.op.sent then [] else [next.op.stored.value];
    assert s.op.sent == Stretch(originals, counts);
  }

  lemma AccountFurther(
    op: OperationState, originals: seq<Packet>, counts: seq<nat>, packet: Packet, expirations: nat)
    requires op.Open() && Account(op, originals, counts, [], expirations)
    ensures var next := op.Received().Send(packet).Await(ReceiveTimer);
            && Account(next, originals + [packet], counts + [1], [], expirations)
            && PacedTo(next, originals + [packet], counts + [1])
  {
    StretchMore(originals, counts, packet);
  }

  lemma NewBlockAccounted(s: SenderState, opening: seq<Packet>, counts: seq<nat>, expirations: nat)
    requires s.Open() && !s.lastDataPacketTransmitted
    requires Accounted(s, Originals(opening, s.file, s.transmitDataSize, s.blocksSent), counts, [], expirations)
    ensures
      var next :=
        s.(op := s.op.Received(), lastReceivedBlockNumber := s.lastTransmittedBlockNumber).SendData().Receive();
      && next.blocksSent == s.blocksSent + 1 && next.file == s.file && next.transmitDataSize == s.transmitDataSize
      && Accounted(
           next, Originals(opening, s.file, s.transmitDataSize, s.blocksSent + 1), counts + [1], [], expirations)
  {
    NewBlockReached(s);
    OneMoreOriginal(opening, s.file, s.transmitDataSize, s.blocksSent);
    AccountFurther(
      s.op, Originals(opening, s.file, s.transmitDataSize, s.blocksSent), counts,
      Data(Number(s.blocksSent + 1), Block(s.file, s.transmitDataSize, s.blocksSent + 1)), expirations);
  }

  lemma TimeoutAccounted(s: SenderState, originals: seq<Packet>, counts: seq<nat>, expirations: nat)
    returns (more: seq<nat>)
    requires s.Open() && Accounted(s, originals, counts, [], expirations)
    ensures Accounted(s.OnTimeout(), originals, more, [], expirations + 1)
  {
    TimeoutHandledBySender(s);
    if !s.OnTimeout().Open() {
      return counts;
    }
    StretchLast(originals, counts);
    PacedAgain(s.op, originals, counts);
    return counts[|counts| - 1 := s.op.counter + 1];
  }

  /** What a server that sends this file in blocks of this size has done after a number of expired timers. */
  datatype Service = Service(file: Bytes, size: nat, blocks: nat, retries: nat, opening: seq<Packet>)

  ghost predicate Serving(
    service: Service, s: SenderState, counts: seq<nat>, complaint: seq<Packet>, expirations: nat)
  {
    && s.file == service.file && (s.Open() ==> s.transmitDataSize == service.size)
    && s.op.retries == service.retries && s.blocksSent <= service.blocks
    && Accounted(
         s, Originals(service.opening, service.file, service.size, s.blocksSent), counts, complaint, expirations)
  }

  predicate Feasible(service: Service) {
    && service.size >= 1 && service.blocks == BlockCount(|service.file|, service.size)
    && |service.opening| <= 1
  }

  lemma PacketServed(
    service: Service, s: SenderState, counts: seq<nat>, expirations: nat, packet: Option<Packet>)
    returns (more: seq<nat>, complaint: seq<Packet>)
    requires Feasible(service) && s.Open() && Serving(service, s, counts, [], expirations)
    ensures Serving(service, s.OnPacket(packet), more, complaint, expirations)
  {
    Reaction(s, packet);
    PacketHandledBySender(s, packet);
    if MovesOn(s, packet) {
      NewBlockAccounted(s, service.opening, counts, expirations);
      return counts + [1], [];
    }
    complaint := NoNewBlockAccounted(
      s, s.OnPacket(packet), Originals(service.opening, service.file, service.size, s.blocksSent), counts, expirations);
    return counts, complaint;
  }

  lemma TimeoutKeepsFile(s: SenderState)
    ensures s.OnTimeout().(op := s.op, position := s.position) == s
    ensures s.OnTimeout().op.role == s.op.role && s.OnTimeout().op.retries == s.op.retries
  {
  }

  lemma TimeoutServed(service: Service, s: SenderState, counts: seq<nat>, expirations: nat) returns (more: seq<nat>)
    requires s.Open() && Serving(service, s, counts, [], expirations)
    ensures Serving(service, s.OnTimeout(), more, [], expirations + 1)
  {
    TimeoutKeepsFile(s);
    more := TimeoutAccounted(
      s, Originals(service.opening, service.file, service.size, s.blocksSent), counts, expirations);
  }

  lemma ClosedServed(
    service: Service, s: SenderState, counts: seq<nat>, complaint: seq<Packet>, expirations: nat, later: nat)
    requires !s.Open() && Serving(service, s, counts, complaint, expirations) && expirations <= later
    ensures Serving(service, s, counts, complaint, later)
  {
  }

  lemma InputServed(
    service: Service, s: SenderState, counts: seq<nat>, complaint: seq<Packet>, expirations: nat, input: Input)
    returns (more: seq<nat>, last: seq<Packet>)
    requires Feasible(service) && Serving(service, s, counts, complaint, expirations)
    ensures Serving(service, SenderInput(s, input), more, last, expirations + if input.Expires? then 1 else 0)
  {
    if !s.Open() {
      ClosedServed(service, s, counts, complaint, expirations, expirations + if input.Expires? then 1 else 0);
      return counts, complaint;
    }
    match input {
      case Expires =>
        more := TimeoutServed(service, s, counts, expirations);
        last := [];
      case Arrives(raw) =>
        more, last := PacketServed(service, s, counts, expirations, Dispatch(Truncated(raw, s.op.bufferSize)));
    }
  }

  lemma {:induction false} LifeServed(service: Service, s: SenderState, inputs: seq<Input>)
    returns (counts: seq<nat>, complaint: seq<Packet>)
    requires Feasible(service) && Serving(service, s, [1], [], 0)
    ensures Serving(service, SenderLife(s, inputs), counts, complaint, Expirations(inputs))
  {
    if inputs == [] {
      return [1], [];
    }
    var front, last := inputs[..|inputs| - 1], inputs[|inputs| - 1];
    counts, complaint := LifeServed(service, s, front);
    counts, complaint := InputServed(service, SenderLife(s, front), counts, complaint, Expirations(front), last);
  }

  lemma StartAccounted(op: OperationState, packet: Packet, timer: Timer)
    requires op.sent == [] && op.completions == [] && !packet.Error?
    ensures var next := op.Send(packet).Await(timer);
            Account(next, [packet], [1], [], 0) && PacedTo(next, [packet], [1])
  {
    assert Stretch([packet], [1]) == [packet];
  }

  /** The server has not sent anything yet. */
  ghost predicate Unsent(s: SenderState) {
    && s.op.role == Server && s.op.Handling() && s.op.sent == [] && s.transmitDataSize >= 1
    && s.lastTransmittedBlockNumber == 0 && s.position == 0 && s.blocksSent == 0 && !s.lastDataPacketTransmitted
  }

  lemma FirstBlockServed(s: SenderState)
    requires Unsent(s)
    ensures var blocks := BlockCount(|s.file|, s.transmitDataSize);
            Serving(
              Service(s.file, s.transmitDataSize, blocks, s.op.retries, []), s.SendData().Receive(), [1], [], 0)
  {
    var block := Data(1, Block(s.file, s.transmitDataSize, 1));
    NextBlock(s);
    SendDataHandled(s);
    StartAccounted(s.op, block, ReceiveTimer);
    assert Originals([], s.file, s.transmitDataSize, 1) == [block];
  }

  lemma FirstOackServed(s: SenderState, oack: Options)
    requires Unsent(s) && oack != map[]
    ensures var blocks := BlockCount(|s.file|, s.transmitDataSize);
            var next := s.(op := s.op.Send(OptionsAcknowledgement(oack)), lastReceivedBlockNumber := 0xFFFF).Receive();
            Serving(Service(s.file, s.transmitDataSize, blocks, s.op.retries, Opening(oack)), next, [1], [], 0)
  {
    var packet := OptionsAcknowledgement(oack);
    SendHandled(s.op, packet, ReceiveTimer);
    StartAccounted(s.op, packet, ReceiveTimer);
    assert Originals(Opening(oack), s.file, s.transmitDataSize, 0) == [packet];
  }

  lemma StartServes(retries: uint16, seconds: int, bufferSize: nat, c: Configuration, file: Bytes, reply: Reply)
    requires reply.refusal.None? && reply.dataSize.GetOr(DEFAULT_DATA_SIZE) >= 1
    ensures var size := reply.dataSize.GetOr(DEFAULT_DATA_SIZE);
            Serving(
              Service(file, size, BlockCount(|file|, size), retries, Opening(reply.options)),
              StartRead(Idle(Server, retries, seconds, bufferSize), c, file, reply), [1], [], 0)
  {
    var unsent := SenderState(
      Idle(Server, retries, reply.timeout.GetOr(seconds), bufferSize), c, file, 0, None,
      reply.dataSize.GetOr(DEFAULT_DATA_SIZE), false, 0, 0, 0);
    if reply.options == map[] {
      FirstBlockServed(unsent);
    } else {
      FirstOackServed(unsent, reply.options);
    }
  }

  /** What the account says in numbers. */
  lemma AccountMeaning(
    op: OperationState, originals: seq<Packet>, counts: seq<nat>, complaint: seq<Packet>, expirations: nat, most: nat)
    requires Account(op, originals, counts, complaint, expirations) && |originals| <= most
    ensures |op.sent| <= (op.retries + 1) * most + 1
    ensures expirations == 0 ==> originals <= op.sent && |op.sent| <= |originals| + 1
  {
    StretchLength(originals, counts, op.retries + 1);
    MoreTimes(op.retries + 1, |originals|, most);
    if expirations == 0 {
      StretchOnce(originals, counts);
    }
  }

  ghost predicate HasAccount(op: OperationState, originals: seq<Packet>, expirations: nat) {
    exists counts, complaint :: Account(op, originals, counts, complaint, expirations)
  }

  /**
   * The server has sent originals in order, each up to `retries` + 1 times in a row, at most one ERROR at its end,
   * and no repetition without an expired timer. Without one it has sent every original once.
   */
  ghost predicate Tame(s: SenderState, originals: seq<Packet>, blocks: nat, retries: nat, expirations: nat) {
    && s.blocksSent <= blocks && s.op.retries == retries
    && HasAccount(s.op, originals, expirations)
    && |s.op.sent| <= (retries + 1) * (blocks + 1) + 1
    && (expirations == 0 ==> originals <= s.op.sent && |s.op.sent| <= |originals| + 1)
  }

  lemma ServingTame(
    service: Service, s: SenderState, counts: seq<nat>, complaint: seq<Packet>, expirations: nat)
    requires Feasible(service) && Serving(service, s, counts, complaint, expirations)
    ensures var originals := Originals(service.opening, service.file, service.size, s.blocksSent);
            Tame(s, originals, service.blocks, service.retries, expirations)
  {
    AccountMeaning(
      s.op, Originals(service.opening, service.file, service.size, s.blocksSent), counts, complaint,
      expirations, service.blocks + 1);
  }

  lemma MoreTimes(most: nat, few: nat, many: nat)
    requires few <= many
    ensures most * few <= most * many
  {
  }

  /**
   * Whatever bytes reach the server of a read request, and whenever its timer expires: it sends the OACK, if there is
   * one, and then block after block of the file, none past its end, each up to `retries` + 1 times in a row; and no
   * repetition without an expired timer.
   */
  lemma NoSorcerersApprentice(
    retries: uint16, seconds: int, bufferSize: nat, c: Configuration, file: Bytes, reply: Reply, inputs: seq<Input>)
    requires reply.refusal.None? && reply.dataSize.GetOr(DEFAULT_DATA_SIZE) >= 1
    ensures var size := reply.dataSize.GetOr(DEFAULT_DATA_SIZE);
            var end := SenderLife(StartRead(Idle(Server, retries, seconds, bufferSize), c, file, reply), inputs);
            Tame(
              end, Originals(Opening(reply.options), file, size, end.blocksSent), BlockCount(|file|, size), retries,
              Expirations(inputs))
  {
    var size := reply.dataSize.GetOr(DEFAULT_DATA_SIZE);
    var s := StartRead(Idle(Server, retries, seconds, bufferSize), c, file, reply);
    var service := Service(file, size, BlockCount(|file|, size), retries, Opening(reply.options));
    StartServes(retries, seconds, bufferSize, c, file, reply);
    var counts, complaint := LifeServed(service, s, inputs);
    ServingTame(service, SenderLife(s, inputs), counts, complaint, Expirations(inputs));
  }

  // A server that is configured with the block size 0

  /** The sender has sent a block, or an OACK, that is not acknowledged, and cuts the file into empty blocks. */
  ghost predicate SendsEmptyBlocks(s: SenderState) {
    && s.op.Live() && s.op.bufferSize == DEFAULT_MAX_PACKET_SIZE && s.transmitDataSize == 0
    && !s.lastDataPacketTransmitted && s.lastReceivedBlockNumber != s.lastTransmittedBlockNumber
  }

  lemma EmptyBlockAcknowledged(s: SenderState)
    requires SendsEmptyBlocks(s)
    ensures var next := SenderInput(s, Arrives(Encode(Acknowledgement(s.lastTransmittedBlockNumber))));
            SendsEmptyBlocks(next) && |next.op.sent| == |s.op.sent| + 1
  {
    var packet := Acknowledgement(s.lastTransmittedBlockNumber);
    AcknowledgementLength(packet.block);
    RoundTrip(packet);
    PacketHandledBySender(s, Some(packet));
    assert Next(s.lastTransmittedBlockNumber) != s.lastTransmittedBlockNumber;
  }

  lemma {:induction false} EmptyBlocks(s: SenderState, count: nat) returns (inputs: seq<Input>)
    requires SendsEmptyBlocks(s)
    ensures var end := SenderLife(s, inputs);
            SendsEmptyBlocks(end) && |end.op.sent| == |s.op.sent| + count
  {
    if count == 0 {
      return [];
    }
    var front := EmptyBlocks(s, count - 1);
    var before := SenderLife(s, front);
    var last := Arrives(Encode(Acknowledgement(before.lastTransmittedBlockNumber)));
    EmptyBlockAcknowledged(before);
    assert (front + [last])[..|front|] == front;
    return front + [last];
  }

  ghost predicate SendsAtMost(s: SenderState, bound: nat) {
    forall inputs: seq<Input> :: |SenderLife(s, inputs).op.sent| <= bound
  }

  /** A negotiated block size is echoed. */
  lemma SizeIsEchoed(c: Configuration, client: ClientOptions, additional: Options, fileSize: Option<uint64>)
    ensures var reply := ReadReply(c, client, additional, fileSize);
            reply.dataSize.Some? ==> BLKSIZE in reply.options
  {
  }

  /** The server refuses a transfer size that is not 0. */
  predicate RefusesSize(c: Configuration, client: ClientOptions) {
    c.handleTransferSize && client.transferSize.Some? && client.transferSize.value != 0
  }

  /** The negotiated block size is 0 exactly if the server is configured so and the client asks for a block size. */
  lemma ReadReplySize(
    c: Configuration, options: Options, additional: Options, fileSize: Option<uint64>)
    ensures var client := DecodeOptions(options).known;
            var reply := ReadReply(c, client, additional, fileSize);
            && (reply.refusal.Some? <==> RefusesSize(c, client))
            && (reply.dataSize.GetOr(DEFAULT_DATA_SIZE) >= 1 <==> !(c.blockSize == Some(0) && client.blockSize.Some?))
  {
  }

  lemma {:induction false} EndedSendsNothing(s: SenderState, inputs: seq<Input>)
    requires !s.Open()
    ensures SenderLife(s, inputs) == s
  {
    if inputs != [] {
      EndedSendsNothing(s, inputs[..|inputs| - 1]);
    }
  }

  lemma RefusalBounded(s: SenderState)
    requires !s.Open()
    ensures SendsAtMost(s, |s.op.sent|)
  {
    forall inputs: seq<Input>
      ensures |SenderLife(s, inputs).op.sent| <= |s.op.sent|
    {
      EndedSendsNothing(s, inputs);
    }
  }

  /**
   * There is a bound on what the server sends, whatever it receives, exactly if it is not configured with the block
   * size 0, or the client does not ask for a block size, or asks with a transfer size that is refused.
   */
  lemma BoundedExactly(
    retries: uint16, seconds: int, c: Configuration, file: Bytes, options: Options, additional: Options,
    fileSize: Option<uint64>)
    ensures var client := DecodeOptions(options).known;
            var reply := ReadReply(c, client, additional, fileSize);
            var s := StartRead(Idle(Server, retries, seconds, DEFAULT_MAX_PACKET_SIZE), c, file, reply);
            (exists bound :: SendsAtMost(s, bound)) <==>
              !(c.blockSize == Some(0) && client.blockSize.Some?) || RefusesSize(c, client)
  {
    var client := DecodeOptions(options).known;
    var reply := ReadReply(c, client, additional, fileSize);
    ReadReplySize(c, options, additional, fileSize);
    if reply.refusal.Some? {
      RefusalBounded(StartRead(Idle(Server, retries, seconds, DEFAULT_MAX_PACKET_SIZE), c, file, reply));
    } else {
      SizeIsEchoed(c, client, additional, fileSize);
      BoundedReply(retries, seconds, c, file, reply);
    }
  }

  lemma BoundedReply(retries: uint16, seconds: int, c: Configuration, file: Bytes, reply: Reply)
    requires reply.refusal.None? && (reply.dataSize.Some? ==> reply.options != map[])
    ensures var s := StartRead(Idle(Server, retries, seconds, DEFAULT_MAX_PACKET_SIZE), c, file, reply);
            (exists bound :: SendsAtMost(s, bound)) <==> reply.dataSize.GetOr(DEFAULT_DATA_SIZE) >= 1
  {
    var size := reply.dataSize.GetOr(DEFAULT_DATA_SIZE);
    var s := StartRead(Idle(Server, retries, seconds, DEFAULT_MAX_PACKET_SIZE), c, file, reply);
    if size >= 1 {
      var bound := (retries + 1) * (BlockCount(|file|, size) + 1) + 1;
      forall inputs: seq<Input>
        ensures |SenderLife(s, inputs).op.sent| <= bound
      {
        NoSorcerersApprentice(retries, seconds, DEFAULT_MAX_PACKET_SIZE, c, file, reply, inputs);
      }
      assert SendsAtMost(s, bound);
    } else {
      assert s.op.sent == [OptionsAcknowledgement(reply.options)];
      forall bound: nat
        ensures !SendsAtMost(s, bound)
      {
        var inputs := EmptyBlocks(s, bound);
      }
    }
  }
}
