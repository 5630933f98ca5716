/**
 * What a receiver delivers, whatever bytes reach it: no block is longer than agreed, and without a dally every block
 * but the last one has exactly that length.
 */
module Deliveries {
  import opened Basics
  import opened OptionLists
  import opened Packets
  import opened Negotiation
  import opened Operations
  import opened Receivers
  import opened Lifecycles
  import opened Reactions

  /** Only the last block is short, and then the transfer has succeeded. */
  predicate FullBlocks(r: ReceiverState) {
    && (forall i :: 0 <= i < |r.delivered| - 1 ==> |r.delivered[i]| == r.receiveDataSize)
    && (r.delivered != [] && |r.delivered[|r.delivered| - 1]| < r.receiveDataSize ==> r.op.completions == [Successful])
  }

  predicate Measured(r: ReceiverState) {
    && (forall i :: 0 <= i < |r.delivered| ==> |r.delivered[i]| <= r.receiveDataSize)
    && (!r.dally ==> FullBlocks(r))
    && (r.lastReceivedBlockNumber == 0 ==> r.delivered == [])
  }

  lemma DataMeasured(r: ReceiverState, block: uint16, data: Bytes)
    requires r.op.Live() && Measured(r)
    ensures Measured(r.OnPacket(Some(Data(block, data))))
  {
    DataAtReceiver(r, block, data);
  }

  /** Before a block is taken the size may change; nothing else delivers. */
  lemma OthersMeasured(r: ReceiverState, packet: Option<Packet>)
    requires r.op.Live() && Measured(r) && (packet.Some? ==> !packet.value.Data?)
    ensures Measured(r.OnPacket(packet))
  {
    if packet.Some? && packet.value.OptionsAcknowledgement? && r.op.role == Client {
      OackMeasured(r.(op := r.op.Received()), packet.value.options);
    } else {
      OperationOnly(r, packet);
    }
  }

  lemma OperationOnly(r: ReceiverState, packet: Option<Packet>)
    requires packet.Some? ==> !packet.value.Data? && (packet.value.OptionsAcknowledgement? ==> r.op.role == Server)
    ensures r.OnPacket(packet) == r.(op := r.OnPacket(packet).op)
  {
  }

  lemma OackMeasured(r: ReceiverState, options: Options)
    requires r.Open() && Measured(r)
    ensures Measured(r.OnOptionsAcknowledgement(options))
  {
    if r.lastReceivedBlockNumber == 0 {
      var verdict := CheckOack(r.configuration, r.SizeRule(), options);
      assert r.OnOptionsAcknowledgement(options) == r.OnVerdict(verdict);
    }
  }

  lemma InputMeasured(r: ReceiverState, input: Input)
    requires (r.op.Live() || r.op.Ended()) && Measured(r)
    ensures Measured(ReceiverInput(r, input))
  {
    if r.Open() {
      match input
      case Arrives(raw) =>
        var packet := Dispatch(Truncated(raw, r.op.bufferSize));
        if packet.Some? && packet.value.Data? {
          DataMeasured(r, packet.value.block, packet.value.data);
        } else {
          OthersMeasured(r, packet);
        }
      case Expires => TimeoutAtReceiver(r);
    }
  }

  lemma {:induction false} LifeMeasured(r: ReceiverState, inputs: seq<Input>)
    requires (r.op.Live() || r.op.Ended()) && Measured(r)
    ensures Measured(ReceiverLife(r, inputs))
  {
    if inputs != [] {
      var front := inputs[..|inputs| - 1];
      LifeMeasured(r, front);
      ReceiverLifeCycle(r, front);
      InputMeasured(ReceiverLife(r, front), inputs[|inputs| - 1]);
    }
  }

  /**
   * Whatever bytes reach the client of a read, and whenever its timer expires: no delivered block is longer than the
   * agreed size, and without a dally only the last one of a success is shorter.
   */
  lemma ReaderDelivers(
    retries: uint16, seconds: int, bufferSize: nat, c: Configuration, dally: bool, accepts: bool, filename: Bytes,
    mode: TransferMode, additional: Options, inputs: seq<Input>)
    ensures Measured(
              ReceiverLife(
                RequestRead(
                  Idle(Client, retries, seconds, bufferSize), c, dally, accepts, filename, mode, additional),
                inputs))
  {
    var idle := Idle(Client, retries, seconds, bufferSize);
    ReceiverStarts(
      Client, retries, seconds, bufferSize, c, dally, accepts, Reply(None, None, map[], None), filename, mode,
      additional);
    LifeMeasured(RequestRead(idle, c, dally, accepts, filename, mode, additional), inputs);
  }

  /** The same for the server of a write, whatever it has replied; it never changes the size it has replied with. */
  lemma WriterDelivers(
    retries: uint16, seconds: int, bufferSize: nat, c: Configuration, dally: bool, accepts: bool, reply: Reply,
    inputs: seq<Input>)
    ensures var end := ReceiverLife(
                  StartWrite(Idle(Server, retries, seconds, bufferSize), c, dally, accepts, reply), inputs);
            Measured(end) && end.receiveDataSize == reply.dataSize.GetOr(DEFAULT_DATA_SIZE)
  {
    var r := StartWrite(Idle(Server, retries, seconds, bufferSize), c, dally, accepts, reply);
    ReceiverStarts(Server, retries, seconds, bufferSize, c, dally, accepts, reply, [], Octet, map[]);
    LifeMeasured(r, inputs);
    ServerKeepsSize(r, inputs);
  }

  lemma {:induction false} ServerKeepsSize(r: ReceiverState, inputs: seq<Input>)
    requires r.op.role == Server && (r.op.Live() || r.op.Ended())
    ensures ReceiverLife(r, inputs).receiveDataSize == r.receiveDataSize
  {
    if inputs != [] {
      var front := inputs[..|inputs| - 1];
      ServerKeepsSize(r, front);
      ReceiverLifeCycle(r, front);
      var before := ReceiverLife(r, front);
      match inputs[|inputs| - 1]
      case Arrives(raw) => PacketKeepsSize(before, Dispatch(Truncated(raw, before.op.bufferSize)));
      case Expires =>
    }
  }

  lemma PacketKeepsSize(r: ReceiverState, packet: Option<Packet>)
    requires r.op.role == Server
    ensures r.OnPacket(packet).receiveDataSize == r.receiveDataSize
  {
  }
}
