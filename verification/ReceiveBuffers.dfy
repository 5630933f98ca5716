/** The receive buffer of an operation that receives a file has room for what the operation takes, whatever arrives. */
module ReceiveBuffers {
  import opened Basics
  import opened OptionLists
  import opened Packets
  import opened Negotiation
  import opened Operations
  import opened Receivers
  import opened Opening
  import opened Lifecycles

  /** The buffer has the configured size, and the operation takes no more data than is configured. */
  predicate Sized(c: Configuration, r: ReceiverState) {
    && r.configuration == c && r.op.bufferSize == BufferSize(c)
    && r.receiveDataSize <= Max(DEFAULT_DATA_SIZE, c.blockSize.GetOr(DEFAULT_DATA_SIZE))
  }

  /** No handler but that of an OACK changes the block size. */
  lemma DataKeepsSize(r: ReceiverState, block: uint16, data: Bytes)
    ensures var next := r.OnData(block, data);
            next.configuration == r.configuration && next.receiveDataSize == r.receiveDataSize
            && next.op.bufferSize == r.op.bufferSize
  {
  }

  lemma OackSized(c: Configuration, r: ReceiverState, options: Options)
    requires Sized(c, r)
    ensures Sized(c, r.OnOptionsAcknowledgement(options))
  {
    if r.lastReceivedBlockNumber == 0 {
      CheckedSize(c, r.SizeRule(), options);
    }
  }

  /** The check of an OACK lets no block size pass that is larger than the configured one. */
  lemma CheckedSize(c: Configuration, rule: Option<SizeRule>, options: Options)
    ensures var dataSize := CheckOack(c, rule, options).dataSize;
            dataSize.Some? ==> c.blockSize.Some? && dataSize.value <= c.blockSize.value
  {
  }

  lemma PacketSized(c: Configuration, r: ReceiverState, packet: Option<Packet>)
    requires Sized(c, r)
    ensures Sized(c, r.OnPacket(packet))
  {
    var called := r.(op := r.op.Received());
    match packet
    case Some(Data(block, data)) => DataKeepsSize(called, block, data);
    case Some(OptionsAcknowledgement(options)) => OackSized(c, called, options);
    case _ =>
  }

  lemma {:induction false} LifeSized(c: Configuration, r: ReceiverState, inputs: seq<Input>)
    requires Sized(c, r)
    ensures Sized(c, ReceiverLife(r, inputs))
  {
    if inputs != [] {
      LifeSized(c, r, inputs[..|inputs| - 1]);
      var before := ReceiverLife(r, inputs[..|inputs| - 1]);
      if before.Open() {
        match inputs[|inputs| - 1]
        case Arrives(raw) => PacketSized(c, before, Dispatch(Truncated(raw, before.op.bufferSize)));
        case Expires =>
      }
    }
  }

  predicate RoomForData(r: ReceiverState) {
    DATA_HEADER_SIZE + r.receiveDataSize <= r.op.bufferSize
  }

  lemma SizedHasRoom(c: Configuration, r: ReceiverState)
    requires Sized(c, r)
    ensures RoomForData(r) <==> !BufferWraps(c)
  {
    BufferSizeCases(c);
  }

  /**
   * Whatever bytes reach the client of a read, and whenever its timer expires, its receive buffer has room for a DATA
   * packet with as much data as it takes, exactly if the 16-bit size has not wrapped when the buffer was configured.
   */
  lemma ReaderBufferFits(
    retries: uint16, seconds: int, c: Configuration, dally: bool, accepts: bool, filename: Bytes, mode: TransferMode,
    additional: Options, inputs: seq<Input>)
    ensures var r := RequestRead(
                  Idle(Client, retries, seconds, BufferSize(c)), c, dally, accepts, filename, mode, additional);
            RoomForData(ReceiverLife(r, inputs)) <==> !BufferWraps(c)
  {
    var r :=
      RequestRead(Idle(Client, retries, seconds, BufferSize(c)), c, dally, accepts, filename, mode, additional);
    LifeSized(c, r, inputs);
    SizedHasRoom(c, ReceiverLife(r, inputs));
  }

  /** The same for the server of a write, whatever options it was asked for. */
  lemma WriterBufferFits(
    retries: uint16, seconds: int, c: Configuration, dally: bool, accepts: bool, client: ClientOptions,
    additional: Options, inputs: seq<Input>)
    ensures var r := StartWrite(
                  Idle(Server, retries, seconds, BufferSize(c)), c, dally, accepts,
                  WriteReply(c, client, additional, accepts));
            RoomForData(ReceiverLife(r, inputs)) <==> !BufferWraps(c)
  {
    var reply := WriteReply(c, client, additional, accepts);
    var r := StartWrite(Idle(Server, retries, seconds, BufferSize(c)), c, dally, accepts, reply);
    StartSized(c, client, additional, accepts);
    LifeSized(c, r, inputs);
    SizedHasRoom(c, ReceiverLife(r, inputs));
  }

  lemma StartSized(c: Configuration, client: ClientOptions, additional: Options, accepts: bool)
    ensures var dataSize := WriteReply(c, client, additional, accepts).dataSize;
            dataSize.Some? ==> c.blockSize.Some? && dataSize.value <= c.blockSize.value
  {
  }
}
