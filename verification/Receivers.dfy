/**
 * The side that receives the file: the client of a read request and the server of a write request.
 *
 * Its DATA handler is the same in both classes of the source.
 */
module Receivers {
  import opened Basics
  import opened BlockNumbers
  import opened OptionLists
  import opened Packets
  import opened Negotiation
  import opened Operations

  /** `delivered` is the list of data handed to the file handler, whose answer to a transfer size is `accepts`. */
  datatype ReceiverState = ReceiverState(
    op: OperationState,
    configuration: Configuration,
    dally: bool,
    accepts: bool,
    oackReceived: bool,
    receiveDataSize: uint16,
    lastReceivedBlockNumber: uint16,
    delivered: seq<Bytes>)
  {
    predicate Open() {
      op.Open()
    }

    function Abort(code: uint16, text: string, status: TransferStatus): ReceiverState {
      this.(op := op.Abort(code, text, status))
    }

    function Receive(): ReceiverState {
      this.(op := op.Await(ReceiveTimer))
    }

    /** Acknowledges the last received block; after a short block the operation is over, possibly after a dally. */
    function AcknowledgeLast(dataSize: nat): ReceiverState {
      var acknowledged := op.Send(Acknowledgement(lastReceivedBlockNumber));
      if dataSize < receiveDataSize then
        if dally then this.(op := acknowledged.Await(DallyTimer))
        else this.(op := acknowledged.Finish(Successful, None))
      else this.(op := acknowledged.Await(ReceiveTimer))
    }

    function OnData(block: uint16, data: Bytes): ReceiverState {
      if block == lastReceivedBlockNumber then
        AcknowledgeLast(|data|)
      else if block != Next(lastReceivedBlockNumber) then
        Abort(ILLEGAL_OPERATION, "Block Number not expected", TransferError)
      else if |data| > receiveDataSize then
        Abort(ILLEGAL_OPERATION, "Too much data", TransferError)
      else
        this.(delivered := delivered + [data], lastReceivedBlockNumber := Next(lastReceivedBlockNumber))
          .AcknowledgeLast(|data|)
    }

    function SizeRule(): Option<SizeRule> {
      if configuration.handleTransferSize then Some(Offered(accepts)) else None
    }

    function OnVerdict(verdict: Verdict): ReceiverState {
      var changed := this.(
        receiveDataSize := verdict.dataSize.GetOr(receiveDataSize),
        op := op.(receiveTimeout := verdict.timeout.GetOr(op.receiveTimeout)));
      match verdict.refusal
      case Some(refusal) => changed.Abort(refusal.code, refusal.text, refusal.status)
      case None => changed.(oackReceived := true, op := changed.op.Send(Acknowledgement(0))).Receive()
    }

    /** The OACK handler of the client. */
    function OnOptionsAcknowledgement(options: Options): ReceiverState {
      if lastReceivedBlockNumber != 0 then
        Abort(ILLEGAL_OPERATION, "OACK must occur after RRQ", TransferError)
      else OnVerdict(CheckOack(configuration, SizeRule(), options))
    }

    /** The packet handler: `None` is a datagram that could not be decoded. */
    function Handle(packet: Option<Packet>): ReceiverState {
      match packet
      case Some(Data(block, data)) => OnData(block, data)
      case Some(Error(code, message)) => this.(op := op.ReceivedError(code, message))
      case Some(Acknowledgement(_)) => Abort(ILLEGAL_OPERATION, "ACK not expected", TransferError)
      case Some(OptionsAcknowledgement(options)) =>
        if op.role == Client then OnOptionsAcknowledgement(options) else this.(op := op.Unexpected(packet))
      case _ => this.(op := op.Unexpected(packet))
    }

    /** A received datagram. */
    function OnPacket(packet: Option<Packet>): ReceiverState {
      this.(op := op.Received()).Handle(packet)
    }

    /** The start resets the file, but not the block number. */
    function Started(reply: Reply): ReceiverState {
      var state := this.(
        op := op.(receiveTimeout := reply.timeout.GetOr(op.receiveTimeout)),
        receiveDataSize := reply.dataSize.GetOr(receiveDataSize),
        delivered := []);
      match reply.refusal
      case Some(refusal) => state.Abort(refusal.code, refusal.text, refusal.status)
      case None =>
        var answer := if reply.options != map[] then OptionsAcknowledgement(reply.options) else Acknowledgement(0);
        state.(op := state.op.Send(answer)).Receive()
    }

    function OnTimeout(): ReceiverState {
      this.(op := op.Timeout())
    }
  }

  /** The request of the client for a read, sent to the port of the server. */
  function RequestRead(
    op: OperationState, c: Configuration, dally: bool, accepts: bool, filename: Bytes, mode: TransferMode,
    additional: Options): ReceiverState
  {
    var request := Request(filename, mode, RequestOptions(additional, c, Some(0)));
    ReceiverState(
      op.Send(ReadRequest(request)).Await(FirstTimer), c, dally, accepts, false, DEFAULT_DATA_SIZE, 0, [])
  }

  /** The start of the server for a write request, given its reply to the options. */
  function StartWrite(op: OperationState, s: Configuration, dally: bool, accepts: bool, reply: Reply): ReceiverState {
    ReceiverState(op, s, dally, accepts, false, DEFAULT_DATA_SIZE, 0, []).Started(reply)
  }
}
