/** What the opening of a transfer settles: the request and the reply survive the wire, and both sides agree. */
module Opening {
  import opened Basics
  import opened Decimals
  import opened OptionLists
  import opened Packets
  import opened Negotiation
  import opened Operations
  import opened Transfers

  /** The options of the server's OACK; no OACK is sent if there are none. */
  ghost function Oack(setup: Setup): Options {
    setup.Reply().options
  }

  /** The block size of the server operation. */
  ghost function Size(setup: Setup): uint16 {
    setup.Reply().dataSize.GetOr(DEFAULT_DATA_SIZE)
  }

  function ClientRule(setup: Setup): Option<SizeRule> {
    if setup.direction == Read then
      if setup.client.handleTransferSize then Some(Offered(setup.accepts)) else None
    else if setup.client.handleTransferSize && setup.FileSize().Some? then Some(Echoed(setup.FileSize().value))
    else None
  }

  ghost function ClientVerdict(setup: Setup): Verdict {
    CheckOack(setup.client, ClientRule(setup), Oack(setup))
  }

  /** The client goes on after the answer of the server. */
  ghost predicate Usable(setup: Setup) {
    Oack(setup) == map[] || ClientVerdict(setup).refusal.None?
  }

  lemma RequestArrives(setup: Setup)
    requires setup.Proper()
    ensures setup.RequestedOptions() == Known(setup.client, setup.OfferedSize())
  {
    var c, size := setup.client, setup.OfferedSize();
    NumberedOnWire(WireBlockSize(c), WireTimeout(c), WireSize(c, size));
    assert RequestOptions(map[], c, size) == Numbered(WireBlockSize(c), WireTimeout(c), WireSize(c, size));
    RoundTrip(setup.RequestPacket());
    RequestDecoded(c, size);
  }

  ghost predicate ReplyRefused(setup: Setup) {
    setup.Reply().refusal.Some?
  }

  /** The server answers with numbers, unless its file handler rejects the size of a file to be written. */
  lemma ReplyAnswers(setup: Setup)
    requires setup.Proper()
    ensures ReplyRefused(setup) <==>
      setup.direction == Write && AnsweredSize(setup.client, setup.server, setup.FileSize()).Some? && !setup.accepts
    ensures !ReplyRefused(setup) ==>
      Answers(setup.client, setup.server, setup.Reply(), AnsweredSize(setup.client, setup.server, setup.FileSize()))
  {
    RequestArrives(setup);
    SizeAndTimeoutAnswer(setup.client, setup.server, setup.OfferedSize());
    if setup.direction == Read {
      ReadAnswers(setup.client, setup.server, setup.FileSize());
    } else if AnsweredSize(setup.client, setup.server, setup.FileSize()).Some? ==> setup.accepts {
      WriteAnswers(setup.client, setup.server, setup.FileSize(), setup.accepts);
    }
  }

  lemma OackOnWire(setup: Setup)
    requires setup.Proper() && !ReplyRefused(setup)
    ensures Printable(Oack(setup)) && |Encode(OptionsAcknowledgement(Oack(setup)))| <= 89
  {
    ReplyAnswers(setup);
    AnswerOnWire(
      setup.client, setup.server, setup.Reply(), AnsweredSize(setup.client, setup.server, setup.FileSize()));
  }

  /** The client goes on exactly if the configurations are compatible and its file handler accepts the size. */
  lemma UsableExactly(setup: Setup)
    requires setup.Proper() && !ReplyRefused(setup)
    ensures Oack(setup) != map[] ==>
      (Usable(setup) <==>
        && Compatible(setup.client, setup.server)
        && (setup.direction == Read && AnsweredSize(setup.client, setup.server, setup.FileSize()).Some? ==>
              setup.accepts))
  {
    RequestArrives(setup);
    ReplyAnswers(setup);
    if Oack(setup) != map[] {
      var size := AnsweredSize(setup.client, setup.server, setup.FileSize());
      AnswerAccepted(setup.client, setup.server, ClientRule(setup), setup.Reply(), size);
      if size.Some? {
        StoullToString(size.value);
      }
    }
  }

  /** When the client goes on, both sides hold the same block size, and it is in the range of RFC 2348. */
  lemma SizeAgreed(setup: Setup)
    requires setup.Proper() && !ReplyRefused(setup)
    ensures Size(setup) == AgreedBlockSize(setup.client, setup.server)
    ensures Oack(setup) == map[] ==> Size(setup) == DEFAULT_DATA_SIZE
    ensures Oack(setup) != map[] && Usable(setup) ==>
      ClientVerdict(setup).dataSize.GetOr(DEFAULT_DATA_SIZE) == Size(setup)
    ensures Usable(setup) ==> 8 <= Size(setup) <= 65464
  {
    RequestArrives(setup);
    ReplyAnswers(setup);
    var size := AnsweredSize(setup.client, setup.server, setup.FileSize());
    if Oack(setup) != map[] {
      AnswerAccepted(setup.client, setup.server, ClientRule(setup), setup.Reply(), size);
    } else {
      EmptyAnswer(setup.client, setup.server, setup.Reply(), size);
    }
  }

  /** The 16-bit size of the receive buffer has wrapped; it is then too small for every packet. */
  predicate BufferWraps(c: Configuration) {
    c.blockSize.GetOr(DEFAULT_DATA_SIZE) > 65531
  }

  lemma BufferSizeCases(c: Configuration)
    ensures BufferWraps(c) ==> BufferSize(c) <= 3
    ensures !BufferWraps(c) ==>
      && BufferSize(c) >= DEFAULT_MAX_PACKET_SIZE
      && BufferSize(c) >= DATA_HEADER_SIZE + c.blockSize.GetOr(DEFAULT_DATA_SIZE)
  {
  }

  function ReceivingSide(setup: Setup): Configuration {
    if setup.direction == Read then setup.client else setup.server
  }

  /** The receive buffer of the operation that receives the file holds a DATA packet of the agreed size, or nothing. */
  lemma AgreedSizeFits(setup: Setup)
    ensures !BufferWraps(ReceivingSide(setup)) ==>
      BufferSize(ReceivingSide(setup)) >=
        Max(DEFAULT_MAX_PACKET_SIZE, DATA_HEADER_SIZE + AgreedBlockSize(setup.client, setup.server))
    ensures BufferWraps(ReceivingSide(setup)) ==> BufferSize(ReceivingSide(setup)) <= 3
  {
    BufferSizeCases(ReceivingSide(setup));
  }

  /**
   * What the operations rely on after the opening. `oack` is empty if the server answers without an OACK, and
   * `usable` says whether the client goes on after its answer.
   */
  datatype Plan = Plan(
    direction: Direction,
    file: Bytes,
    size: uint16,
    oack: Options,
    usable: bool,
    client: Configuration,
    rule: Option<SizeRule>,
    bufferSize: nat)
  {
    ghost predicate Sound() {
      && (usable ==> BLOCK_SIZE_MIN <= size <= BLOCK_SIZE_MAX)
      && (oack == map[] ==> usable && size == DEFAULT_DATA_SIZE)
      && (oack != map[] ==>
            && Printable(oack)
            && |Encode(OptionsAcknowledgement(oack))| <= 89
            && (usable <==> CheckOack(client, rule, oack).refusal.None?)
            && (usable ==> CheckOack(client, rule, oack).dataSize.GetOr(DEFAULT_DATA_SIZE) == size))
      && (bufferSize <= 3 || (usable ==> bufferSize >= Max(DEFAULT_MAX_PACKET_SIZE, DATA_HEADER_SIZE + size)))
      && (bufferSize <= 3 || bufferSize >= DEFAULT_MAX_PACKET_SIZE)
    }
  }

  /** A refused write leaves nothing to rely on but the default block size. */
  ghost function PlanOf(setup: Setup): Plan {
    if ReplyRefused(setup) then
      Plan(
        setup.direction, setup.file, DEFAULT_DATA_SIZE, map[], true, setup.client, ClientRule(setup),
        BufferSize(ReceivingSide(setup)))
    else
      Plan(
        setup.direction, setup.file, Size(setup), Oack(setup), Usable(setup), setup.client, ClientRule(setup),
        BufferSize(ReceivingSide(setup)))
  }

  /** How the plan follows from the parameters of the transfer and the reply of the server. */
  predicate Follows(plan: Plan, setup: Setup, reply: Reply) {
    && plan.direction == setup.direction
    && plan.file == setup.file
    && plan.client == setup.client
    && plan.rule == ClientRule(setup)
    && plan.bufferSize == BufferSize(ReceivingSide(setup))
    && (reply.refusal.None? ==> plan.oack == reply.options && plan.size == reply.dataSize.GetOr(DEFAULT_DATA_SIZE))
    && (reply.refusal.Some? ==>
          plan.direction == Write && plan.oack == map[] && reply.refusal.value.status == TransferError)
  }

  lemma PlanFollows(setup: Setup)
    requires setup.Proper()
    ensures Follows(PlanOf(setup), setup, setup.Reply())
  {
    if ReplyRefused(setup) {
      ReplyAnswers(setup);
    }
  }

  lemma PlanSound(setup: Setup)
    requires setup.Proper()
    ensures PlanOf(setup).Sound()
  {
    AgreedSizeFits(setup);
    BufferSizeCases(ReceivingSide(setup));
    if !ReplyRefused(setup) {
      SizeAgreed(setup);
      OackOnWire(setup);
    }
  }

  // The wire

  lemma ShortDatagram(raw: Bytes)
    requires |raw| <= 3
    ensures Dispatch(raw).None?
  {
    DispatchExactly(raw);
    if |raw| == 3 {
      var body := raw[2..];
      assert body[1..] == [];
      assert NulCount(body) == (if body[0] == 0 then 1 else 0) + NulCount(body[1..]);
    }
  }

  /** A packet that fits into the buffer is seen as it was sent. */
  lemma SeenWhole(packet: Packet, bufferSize: nat)
    requires Encodable(packet) && |Encode(packet)| <= bufferSize
    ensures Seen(packet, bufferSize) == Some(packet)
  {
    RoundTrip(packet);
  }

  /** Nothing can be decoded from a buffer of less than four bytes. */
  lemma SeenNothing(packet: Packet, bufferSize: nat)
    requires bufferSize <= 3
    ensures Seen(packet, bufferSize).None?
  {
    ShortDatagram(Truncated(Encode(packet), bufferSize));
  }

  /** An ERROR is seen as an ERROR, or cut off and not decoded. */
  lemma SeenError(packet: Packet, bufferSize: nat)
    requires packet.Error?
    ensures Seen(packet, bufferSize).Some? ==> Seen(packet, bufferSize).value.Error?
  {
    var raw := Truncated(Encode(packet), bufferSize);
    if bufferSize <= 3 {
      ShortDatagram(raw);
    } else {
      assert raw[0] == 0 && raw[1] == 5;
      assert TypeOfRaw(raw) == ErrorType;
    }
  }
}
