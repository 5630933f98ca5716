/**
 * The side that sends the file: the server of a read request and the client of a write request.
 *
 * Its ACK handler, its block counter and its way of sending the next block are the same in both classes of the source.
 */
module Senders {
  import opened Basics
  import opened BlockNumbers
  import opened MemoryFiles
  import opened OptionLists
  import opened Packets
  import opened Negotiation
  import opened Operations

  /** `blocksSent` counts the calls of `SendData`; no branch depends on it. */
  datatype SenderState = SenderState(
    op: OperationState,
    configuration: Configuration,
    file: Bytes,
    position: nat,
    transferSize: Option<uint64>,
    transmitDataSize: uint16,
    lastDataPacketTransmitted: bool,
    lastTransmittedBlockNumber: uint16,
    lastReceivedBlockNumber: uint16,
    blocksSent: nat)
  {
    predicate Open() {
      op.Open()
    }

    /** Completing an operation also resets the file. */
    function Completed(op: OperationState): SenderState {
      this.(op := op, position := 0)
    }

    function Abort(code: uint16, text: string, status: TransferStatus): SenderState {
      Completed(op.Abort(code, text, status))
    }

    function SendData(): SenderState {
      var from := Min(position, |file|);
      var to := if |file| - from <= transmitDataSize then |file| else from + transmitDataSize;
      var data := file[from..to];
      var number := Next(lastTransmittedBlockNumber);
      this.(
        op := op.Send(Data(number, data)),
        position := to,
        lastDataPacketTransmitted := lastDataPacketTransmitted || |data| < transmitDataSize,
        lastTransmittedBlockNumber := number,
        blocksSent := blocksSent + 1)
    }

    function Receive(): SenderState {
      this.(op := op.Await(ReceiveTimer))
    }

    function OnAcknowledgement(block: uint16): SenderState {
      if block == lastReceivedBlockNumber then
        // a repeated ACK is ignored: no Sorcerer's Apprentice
        Receive()
      else if block != lastTransmittedBlockNumber then
        Abort(ILLEGAL_OPERATION, "Wrong block number", TransferError)
      else
        var acknowledged := this.(lastReceivedBlockNumber := block);
        if lastDataPacketTransmitted then acknowledged.Completed(op.Finish(Successful, None))
        else acknowledged.SendData().Receive()
    }

    function SizeRule(): Option<SizeRule> {
      if configuration.handleTransferSize && transferSize.Some? then Some(Echoed(transferSize.value)) else None
    }

    function OnVerdict(verdict: Verdict): SenderState {
      var changed := this.(
        transmitDataSize := verdict.dataSize.GetOr(transmitDataSize),
        op := op.(receiveTimeout := verdict.timeout.GetOr(op.receiveTimeout)));
      match verdict.refusal
      case Some(refusal) => changed.Abort(refusal.code, refusal.text, refusal.status)
      case None => changed.SendData().Receive()
    }

    /** The OACK handler of the client. */
    function OnOptionsAcknowledgement(options: Options): SenderState {
      if lastReceivedBlockNumber != 0xFFFF then
        Abort(ILLEGAL_OPERATION, "OACK must occur after WRQ", TransferError)
      else OnVerdict(CheckOack(configuration, SizeRule(), options))
    }

    /** The packet handler: `None` is a datagram that could not be decoded. */
    function Handle(packet: Option<Packet>): SenderState {
      match packet
      case Some(Acknowledgement(block)) => OnAcknowledgement(block)
      case Some(Error(code, message)) => Completed(op.ReceivedError(code, message))
      case Some(Data(_, _)) =>
        Abort(
          ILLEGAL_OPERATION, if op.role == Client then "DATA not expected" else "DATA packet isn't expected",
          TransferError)
      case Some(OptionsAcknowledgement(options)) =>
        if op.role == Client then OnOptionsAcknowledgement(options) else Completed(op.Unexpected(packet))
      case _ => Completed(op.Unexpected(packet))
    }

    /** A received datagram. */
    function OnPacket(packet: Option<Packet>): SenderState {
      this.(op := op.Received()).Handle(packet)
    }

    /** The start resets the file, but neither the block numbers nor the flag for the last block. */
    function Started(reply: Reply): SenderState {
      var state := this.(
        op := op.(receiveTimeout := reply.timeout.GetOr(op.receiveTimeout)),
        position := 0,
        transmitDataSize := reply.dataSize.GetOr(transmitDataSize));
      match reply.refusal
      case Some(refusal) => state.Abort(refusal.code, refusal.text, refusal.status)
      case None =>
        if reply.options != map[] then
          state.(
            lastReceivedBlockNumber := 0xFFFF, op := state.op.Send(OptionsAcknowledgement(reply.options))).Receive()
        else state.SendData().Receive()
    }

    function OnTimeout(): SenderState {
      var later := op.Timeout();
      if later.Open() then this.(op := later) else Completed(later)
    }
  }

  /** `SendData` cuts the next block off the file and numbers it; it is the last one if the file has no more blocks. */
  lemma NextBlock(s: SenderState)
    requires s.transmitDataSize >= 1
    requires s.position == Cursor(|s.file|, s.transmitDataSize, s.blocksSent)
    requires s.lastTransmittedBlockNumber == Number(s.blocksSent)
    ensures var index := s.blocksSent + 1;
            s.SendData() == s.(
              op := s.op.Send(Data(Number(index), Block(s.file, s.transmitDataSize, index))),
              position := Cursor(|s.file|, s.transmitDataSize, index),
              lastDataPacketTransmitted :=
                s.lastDataPacketTransmitted || index >= BlockCount(|s.file|, s.transmitDataSize),
              lastTransmittedBlockNumber := Number(index),
              blocksSent := index)
  {
    NextNumber(s.blocksSent);
    ShortBlock(s.file, s.transmitDataSize, s.blocksSent + 1);
  }

  /** The start of the server for a read request, given its reply to the options. */
  function StartRead(op: OperationState, s: Configuration, file: Bytes, reply: Reply): SenderState {
    SenderState(op, s, file, 0, None, DEFAULT_DATA_SIZE, false, 0, 0, 0).Started(reply)
  }

  /** The request of the client for a write, sent to the port of the server. */
  function RequestWrite(
    op: OperationState, c: Configuration, file: Bytes, fileSize: Option<uint64>, filename: Bytes, mode: TransferMode,
    additional: Options): SenderState
  {
    var offered := if c.handleTransferSize then fileSize else None;
    var request := Request(filename, mode, RequestOptions(additional, c, fileSize));
    SenderState(
      op.Send(WriteRequest(request)).Await(FirstTimer), c, file, 0, offered, DEFAULT_DATA_SIZE, false, 0, 0xFFFF, 0)
  }
}
