/**
 * The client of a write that is exposed to any bytes at any time. If its configuration makes it take an OACK, OACKs
 * drive it on without end; otherwise it is no Sorcerer's Apprentice either.
 */
module WriteClients {
  import opened Basics
  import opened MemoryFiles
  import opened OptionLists
  import opened Packets
  import opened Negotiation
  import opened Operations
  import opened Senders
  import opened Lifecycles
  import opened OackReactions
  import opened Apprentice

  /** What the client does with an acknowledged size: it compares it with the one it has offered. */
  function WriteRule(c: Configuration, fileSize: Option<uint64>): Option<SizeRule> {
    if c.handleTransferSize && fileSize.Some? then Some(Echoed(fileSize.value)) else None
  }

  /** The request packet. */
  function FirstPacket(
    c: Configuration, fileSize: Option<uint64>, filename: Bytes, mode: TransferMode, additional: Options): Packet
  {
    WriteRequest(Request(filename, mode, RequestOptions(additional, c, fileSize)))
  }

  // A client that takes no OACK

  lemma RequestServes(
    retries: uint16, seconds: int, bufferSize: nat, c: Configuration, file: Bytes, fileSize: Option<uint64>,
    filename: Bytes, mode: TransferMode, additional: Options)
    requires !TakesOack(c, WriteRule(c, fileSize))
    ensures Serving(
              Service(
                file, DEFAULT_DATA_SIZE, BlockCount(|file|, DEFAULT_DATA_SIZE), retries,
                [FirstPacket(c, fileSize, filename, mode, additional)]),
              RequestWrite(Idle(Client, retries, seconds, bufferSize), c, file, fileSize, filename, mode, additional),
              [1], [], 0)
  {
    var idle := Idle(Client, retries, seconds, bufferSize);
    var packet := FirstPacket(c, fileSize, filename, mode, additional);
    SendHandled(idle, packet, FirstTimer);
    StartAccounted(idle, packet, FirstTimer);
    assert Originals([packet], file, DEFAULT_DATA_SIZE, 0) == [packet];
  }

  /**
   * Whatever bytes reach a client that takes no OACK, and whenever its timer expires: it sends the request and then
   * block after block of the file, none past its end, each up to `retries` + 1 times in a row; and no repetition
   * without an expired timer.
   */
  lemma NoWritingApprentice(
    retries: uint16, seconds: int, bufferSize: nat, c: Configuration, file: Bytes, fileSize: Option<uint64>,
    filename: Bytes, mode: TransferMode, additional: Options, inputs: seq<Input>)
    requires !TakesOack(c, WriteRule(c, fileSize))
    ensures var s :=
              RequestWrite(Idle(Client, retries, seconds, bufferSize), c, file, fileSize, filename, mode, additional);
            var end, opening := SenderLife(s, inputs), [FirstPacket(c, fileSize, filename, mode, additional)];
            Tame(
              end, Originals(opening, file, DEFAULT_DATA_SIZE, end.blocksSent), BlockCount(|file|, DEFAULT_DATA_SIZE),
              retries, Expirations(inputs))
  {
    var s := RequestWrite(Idle(Client, retries, seconds, bufferSize), c, file, fileSize, filename, mode, additional);
    var service := Service(
      file, DEFAULT_DATA_SIZE, BlockCount(|file|, DEFAULT_DATA_SIZE), retries,
      [FirstPacket(c, fileSize, filename, mode, additional)]);
    RequestServes(retries, seconds, bufferSize, c, file, fileSize, filename, mode, additional);
    var counts, complaint := LifeServed(service, s, inputs);
    ServingTame(service, SenderLife(s, inputs), counts, complaint, Expirations(inputs));
  }

  // A client that takes an OACK

  /** The client has accepted no ACK yet. */
  ghost predicate AwaitsOack(s: SenderState, c: Configuration, rule: Option<SizeRule>) {
    && s.op.Live() && s.op.role == Client && s.op.bufferSize == DEFAULT_MAX_PACKET_SIZE
    && s.lastReceivedBlockNumber == 0xFFFF && s.configuration == c && s.SizeRule() == rule
  }

  lemma OackKeepsRule(s: SenderState, options: Options)
    ensures var next := s.OnPacket(Some(OptionsAcknowledgement(options)));
            next.configuration == s.configuration && next.SizeRule() == s.SizeRule()
  {
    var verdict := CheckOack(s.configuration, s.SizeRule(), options);
    if s.op.role == Client && s.lastReceivedBlockNumber == 0xFFFF {
      assert s.OnPacket(Some(OptionsAcknowledgement(options))) == s.(op := s.op.Received()).OnVerdict(verdict);
    }
  }

  /** Every acceptable OACK makes it send one more block, past the end of the file as well. */
  lemma OackDrivesOn(s: SenderState, c: Configuration, rule: Option<SizeRule>, options: Options)
    requires AwaitsOack(s, c, rule) && AcceptableOack(c, rule, options) && Printable(options) && |Raw(options)| <= 87
    ensures var next := SenderInput(s, Arrives(Encode(OptionsAcknowledgement(options))));
            AwaitsOack(next, c, rule) && |next.op.sent| == |s.op.sent| + 1
  {
    var packet := OptionsAcknowledgement(options);
    RoundTrip(packet);
    assert Truncated(Encode(packet), s.op.bufferSize) == Encode(packet);
    WriterReaction(s, options);
    OackKeepsRule(s, options);
    PacketHandledBySender(s, Some(packet));
  }

  lemma {:induction false} Driven(
    s: SenderState, c: Configuration, rule: Option<SizeRule>, options: Options, count: nat)
    returns (inputs: seq<Input>)
    requires AwaitsOack(s, c, rule) && AcceptableOack(c, rule, options) && Printable(options) && |Raw(options)| <= 87
    ensures var end := SenderLife(s, inputs);
            AwaitsOack(end, c, rule) && |end.op.sent| == |s.op.sent| + count
  {
    if count == 0 {
      return [];
    }
    var front := Driven(s, c, rule, options, count - 1);
    var last := Arrives(Encode(OptionsAcknowledgement(options)));
    OackDrivesOn(SenderLife(s, front), c, rule, options);
    assert (front + [last])[..|front|] == front;
    return front + [last];
  }

  lemma NoBound(s: SenderState, c: Configuration, rule: Option<SizeRule>, bound: nat)
    requires AwaitsOack(s, c, rule) && TakesOack(c, rule)
    ensures !SendsAtMost(s, bound)
  {
    var options := SomeOackTaken(c, rule);
    var inputs := Driven(s, c, rule, options, bound + 1);
  }

  /**
   * There is a bound on what the client of a write sends, whatever it receives, exactly if its configuration makes no
   * OACK acceptable: no block size of at least 8, no timeout from 1 to 255, and no offered size.
   */
  lemma WriterBoundedExactly(
    retries: uint16, seconds: int, c: Configuration, file: Bytes, fileSize: Option<uint64>, filename: Bytes,
    mode: TransferMode, additional: Options)
    ensures var s := RequestWrite(
                  Idle(Client, retries, seconds, DEFAULT_MAX_PACKET_SIZE), c, file, fileSize, filename, mode,
                  additional);
            (exists bound :: SendsAtMost(s, bound)) <==> !TakesOack(c, WriteRule(c, fileSize))
  {
    var s := RequestWrite(
      Idle(Client, retries, seconds, DEFAULT_MAX_PACKET_SIZE), c, file, fileSize, filename, mode, additional);
    if TakesOack(c, WriteRule(c, fileSize)) {
      RequestAwaitsOack(retries, seconds, c, file, fileSize, filename, mode, additional);
      forall bound: nat
        ensures !SendsAtMost(s, bound)
      {
        NoBound(s, c, WriteRule(c, fileSize), bound);
      }
    } else {
      var bound := (retries + 1) * (BlockCount(|file|, DEFAULT_DATA_SIZE) + 1) + 1;
      forall inputs: seq<Input>
        ensures |SenderLife(s, inputs).op.sent| <= bound
      {
        NoWritingApprentice(
          retries, seconds, DEFAULT_MAX_PACKET_SIZE, c, file, fileSize, filename, mode, additional, inputs);
      }
      assert SendsAtMost(s, bound);
    }
  }

  lemma RequestAwaitsOack(
    retries: uint16, seconds: int, c: Configuration, file: Bytes, fileSize: Option<uint64>, filename: Bytes,
    mode: TransferMode, additional: Options)
    ensures AwaitsOack(
              RequestWrite(
                Idle(Client, retries, seconds, DEFAULT_MAX_PACKET_SIZE), c, file, fileSize, filename, mode, additional),
              c, WriteRule(c, fileSize))
  {
    SenderStarts(
      Client, retries, seconds, DEFAULT_MAX_PACKET_SIZE, c, file, Reply(None, None, map[], None), fileSize, filename,
      mode, additional);
  }
}
