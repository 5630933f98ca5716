/**
 * What the four operations do first: the clients send a request with what they are configured for, the servers use what
 * they acknowledge, acknowledge what they use, and refuse a size with the right ERROR.
 */
module Starts {
  import opened Basics
  import opened Decimals
  import opened OptionLists
  import opened Packets
  import opened Negotiation
  import opened Operations
  import opened Senders
  import opened Receivers

  /** Options given by the application stay; the negotiated ones are added. */
  function Added(
    additional: Options, blockSize: Option<uint64>, timeout: Option<uint64>, size: Option<uint64>): Options
  {
    Numbered(blockSize, timeout, size) + additional
  }

  lemma AddedOneByOne(additional: Options, blockSize: Option<uint64>, timeout: Option<uint64>, size: Option<uint64>)
    ensures WithNumber(WithNumber(WithNumber(additional, BLKSIZE, blockSize), TIMEOUT, timeout), TSIZE, size) ==
      Added(additional, blockSize, timeout, size)
  {
    var one := WithNumber(map[], BLKSIZE, blockSize);
    var two := WithNumber(one, TIMEOUT, timeout);
    WithNumberAdds(additional, map[], BLKSIZE, blockSize);
    WithNumberAdds(additional, one, TIMEOUT, timeout);
    WithNumberAdds(additional, two, TSIZE, size);
    assert map[] + additional == additional;
  }

  lemma WithNumberAdds(additional: Options, options: Options, name: Bytes, value: Option<uint64>)
    ensures WithNumber(options + additional, name, value) == WithNumber(options, name, value) + additional
  {
  }

  // Requests

  lemma RequestHolds(additional: Options, c: Configuration, size: Option<uint64>)
    ensures RequestOptions(additional, c, size) ==
      Added(
        additional, if c.blockSize.Some? then Some(c.blockSize.value) else None,
        if c.timeout.Some? then Some(c.timeout.value % 65536) else None,
        if c.handleTransferSize then size else None)
  {
    AddedOneByOne(
      additional, if c.blockSize.Some? then Some(c.blockSize.value) else None,
      if c.timeout.Some? then Some(c.timeout.value % 65536) else None, if c.handleTransferSize then size else None);
  }

  /** The client of a read sends one RRQ, which offers transfer size 0, and waits for the first answer. */
  lemma ReadRequested(
    retries: uint16, seconds: int, bufferSize: nat, c: Configuration, dally: bool, accepts: bool, filename: Bytes,
    mode: TransferMode, additional: Options)
    ensures var r :=
              RequestRead(Idle(Client, retries, seconds, bufferSize), c, dally, accepts, filename, mode, additional);
            var options := Added(
              additional, if c.blockSize.Some? then Some(c.blockSize.value) else None,
              if c.timeout.Some? then Some(c.timeout.value % 65536) else None,
              if c.handleTransferSize then Some(0) else None);
            && r.op.sent == [ReadRequest(Request(filename, mode, options))] && r.op.stored == Some(r.op.sent[0])
            && r.op.counter == 1 && r.op.timer == FirstTimer && r.op.pending == 1 && r.op.completions == []
            && r.op.receiveTimeout == seconds && r.receiveDataSize == 512 && r.delivered == []
  {
    RequestHolds(additional, c, Some(0));
  }

  /** The client of a write sends one WRQ, with the size of its file if there is one, and waits for the first answer. */
  lemma WriteRequested(
    retries: uint16, seconds: int, bufferSize: nat, c: Configuration, file: Bytes, fileSize: Option<uint64>,
    filename: Bytes, mode: TransferMode, additional: Options)
    ensures var s :=
              RequestWrite(Idle(Client, retries, seconds, bufferSize), c, file, fileSize, filename, mode, additional);
            var options := Added(
              additional, if c.blockSize.Some? then Some(c.blockSize.value) else None,
              if c.timeout.Some? then Some(c.timeout.value % 65536) else None,
              if c.handleTransferSize then fileSize else None);
            && s.op.sent == [WriteRequest(Request(filename, mode, options))] && s.op.stored == Some(s.op.sent[0])
            && s.op.counter == 1 && s.op.timer == FirstTimer && s.op.pending == 1 && s.op.completions == []
            && s.op.receiveTimeout == seconds && s.transmitDataSize == 512 && s.position == 0
  {
    RequestHolds(additional, c, fileSize);
  }

  // Replies

  /** The value of an option, if it is a number in a range. */
  function InLimits(options: Options, name: Bytes, min: uint64, max: uint64): Option<uint64> {
    if name in options && Stoull(options[name]).Some? && min <= Stoull(options[name]).value <= max
    then Stoull(options[name]) else None
  }

  /** The server takes the three options with values in their ranges, and drops them from the list in any case. */
  lemma OptionsUnderstood(options: Options)
    ensures DecodeOptions(options).known ==
      ClientOptions(
        InLimits(options, BLKSIZE, 8, 65464), InLimits(options, TIMEOUT, 1, 255),
        InLimits(options, TSIZE, 0, UINT64_LIMIT - 1))
    ensures DecodeOptions(options).rest == options - {BLKSIZE, TIMEOUT, TSIZE}
  {
    DistinctNames();
    var afterSize := options - {BLKSIZE};
    var afterTimeout := afterSize - {TIMEOUT};
    ExtractedInLimits(options, BLKSIZE, 8, 65464);
    ExtractedInLimits(afterSize, TIMEOUT, 1, 255);
    ExtractedInLimits(afterTimeout, TSIZE, 0, UINT64_LIMIT - 1);
    OtherLimits(options, BLKSIZE, TIMEOUT, 1, 255);
    OtherLimits(options, BLKSIZE, TSIZE, 0, UINT64_LIMIT - 1);
    OtherLimits(afterSize, TIMEOUT, TSIZE, 0, UINT64_LIMIT - 1);
    assert options - {BLKSIZE, TIMEOUT, TSIZE} == afterTimeout - {TSIZE};
  }

  lemma ExtractedInLimits(options: Options, name: Bytes, min: uint64, max: uint64)
    ensures Extract(options, name, min, max).value == InLimits(options, name, min, max)
    ensures Extract(options, name, min, max).rest == options - {name}
  {
    ExtractNumber(options, name, min, max);
  }

  lemma OtherLimits(options: Options, name: Bytes, other: Bytes, min: uint64, max: uint64)
    requires name != other
    ensures InLimits(options - {name}, other, min, max) == InLimits(options, other, min, max)
  {
  }

  /** The smaller one of two block sizes, if both sides ask for one. */
  function UsedBlockSize(s: Configuration, client: ClientOptions): Option<uint64> {
    if s.blockSize.Some? && client.blockSize.Some? then Some(Min(client.blockSize.value, s.blockSize.value)) else None
  }

  /** The timeout of the client, if the server allows for it. */
  function UsedTimeout(s: Configuration, client: ClientOptions): Option<uint64> {
    if s.timeout.Some? && client.timeout.Some? && client.timeout.value <= s.timeout.value then client.timeout else None
  }

  predicate AsksForSize(s: Configuration, client: ClientOptions) {
    s.handleTransferSize && client.transferSize.Some?
  }

  lemma RepliesNumbers(s: Configuration, client: ClientOptions, additional: Options)
    ensures SizeAndTimeoutReply(s, client, additional).options ==
      Added(additional, UsedBlockSize(s, client), UsedTimeout(s, client), None)
  {
    AddedOneByOne(additional, UsedBlockSize(s, client), UsedTimeout(s, client), None);
  }

  lemma RepliesSize(s: Configuration, client: ClientOptions, additional: Options, size: Option<uint64>)
    ensures WithNumber(SizeAndTimeoutReply(s, client, additional).options, TSIZE, size) ==
      Added(additional, UsedBlockSize(s, client), UsedTimeout(s, client), size)
  {
    AddedOneByOne(additional, UsedBlockSize(s, client), UsedTimeout(s, client), size);
  }

  /** One ERROR instead of a reply. */
  predicate Refused(op: OperationState, code: uint16, text: string) {
    && op.sent == [Error(code, Ascii(text))] && op.completions == [TransferError]
    && op.errorInformation == Some(ErrorInformation(code, Ascii(text))) && op.pending == 0 && op.timer == Stopped
  }

  /** The first packet, after which the server waits. */
  predicate Begun(op: OperationState, packet: Packet, seconds: int) {
    && op.sent == [packet] && op.stored == Some(packet) && op.counter == 1
    && op.completions == [] && op.pending == 1 && op.timer == ReceiveTimer && op.receiveTimeout == seconds
  }

  lemma ReadReplied(s: Configuration, client: ClientOptions, additional: Options, fileSize: Option<uint64>)
    ensures var reply := ReadReply(s, client, additional, fileSize);
            if AsksForSize(s, client) && client.transferSize.value != 0 then
              reply.refusal == Some(Refusal(8, "transfer size must be 0", TransferError))
            else
              && reply.refusal.None?
              && reply.options == Added(
                   additional, UsedBlockSize(s, client), UsedTimeout(s, client),
                   if AsksForSize(s, client) then fileSize else None)
              && reply.dataSize.GetOr(512) == UsedBlockSize(s, client).GetOr(512)
              && (forall seconds: int :: reply.timeout.GetOr(seconds) == UsedSeconds(s, client, seconds))
  {
    RepliesSize(s, client, additional, if AsksForSize(s, client) then fileSize else None);
  }

  /** The timeout that the server works with. */
  function UsedSeconds(s: Configuration, client: ClientOptions, seconds: int): int {
    if UsedTimeout(s, client).Some? then client.timeout.value else seconds
  }

  /**
   * The server of a read acknowledges what it uses, or sends its first data if there is nothing to acknowledge; it
   * refuses a transfer size that is not 0.
   */
  lemma ReadStarts(
    retries: uint16, seconds: int, bufferSize: nat, s: Configuration, file: Bytes, client: ClientOptions,
    additional: Options, fileSize: Option<uint64>)
    ensures var state := StartRead(
                  Idle(Server, retries, seconds, bufferSize), s, file, ReadReply(s, client, additional, fileSize));
            var options := Added(
              additional, UsedBlockSize(s, client), UsedTimeout(s, client),
              if AsksForSize(s, client) then fileSize else None);
            var size := UsedBlockSize(s, client).GetOr(512);
            if AsksForSize(s, client) && client.transferSize.value != 0 then
              Refused(state.op, 8, "transfer size must be 0")
            else
              && state.transmitDataSize == size
              && Begun(
                   state.op,
                   if options != map[] then OptionsAcknowledgement(options) else Data(1, file[..Min(size, |file|)]),
                   UsedSeconds(s, client, seconds))
  {
    ReadReplied(s, client, additional, fileSize);
    ReadBegins(
      Idle(Server, retries, seconds, bufferSize), s, file, ReadReply(s, client, additional, fileSize));
  }

  lemma ReadBegins(op: OperationState, s: Configuration, file: Bytes, reply: Reply)
    requires op.sent == [] && op.completions == [] && op.pending == 0
    ensures var state, size := StartRead(op, s, file, reply), reply.dataSize.GetOr(512);
            if reply.refusal.Some? then
              reply.refusal.value.status == TransferError ==>
                Refused(state.op, reply.refusal.value.code, reply.refusal.value.text)
            else
              && state.transmitDataSize == size
              && Begun(
                   state.op,
                   if reply.options != map[] then OptionsAcknowledgement(reply.options)
                   else Data(1, file[..Min(size, |file|)]),
                   reply.timeout.GetOr(op.receiveTimeout))
  {
  }

  lemma WriteReplied(s: Configuration, client: ClientOptions, additional: Options, accepts: bool)
    ensures var reply := WriteReply(s, client, additional, accepts);
            if AsksForSize(s, client) && !accepts then
              reply.refusal == Some(Refusal(3, "File to big", TransferError))
            else
              && reply.refusal.None?
              && reply.options == Added(
                   additional, UsedBlockSize(s, client), UsedTimeout(s, client),
                   if AsksForSize(s, client) then client.transferSize else None)
              && reply.dataSize.GetOr(512) == UsedBlockSize(s, client).GetOr(512)
              && (forall seconds: int :: reply.timeout.GetOr(seconds) == UsedSeconds(s, client, seconds))
  {
    RepliesSize(s, client, additional, if AsksForSize(s, client) then client.transferSize else None);
  }

  /** The server of a write does the same, with ACK 0 for the first data; it refuses a size its file handler rejects. */
  lemma WriteStarts(
    retries: uint16, seconds: int, bufferSize: nat, s: Configuration, dally: bool, accepts: bool,
    client: ClientOptions, additional: Options)
    ensures var state := StartWrite(
                  Idle(Server, retries, seconds, bufferSize), s, dally, accepts,
                  WriteReply(s, client, additional, accepts));
            var options := Added(
              additional, UsedBlockSize(s, client), UsedTimeout(s, client),
              if AsksForSize(s, client) then client.transferSize else None);
            if AsksForSize(s, client) && !accepts then
              Refused(state.op, 3, "File to big")
            else
              && state.receiveDataSize == UsedBlockSize(s, client).GetOr(512)
              && Begun(
                   state.op, if options != map[] then OptionsAcknowledgement(options) else Acknowledgement(0),
                   UsedSeconds(s, client, seconds))
  {
    WriteReplied(s, client, additional, accepts);
    WriteBegins(
      Idle(Server, retries, seconds, bufferSize), s, dally, accepts, WriteReply(s, client, additional, accepts));
  }

  lemma WriteBegins(op: OperationState, s: Configuration, dally: bool, accepts: bool, reply: Reply)
    requires op.sent == [] && op.completions == [] && op.pending == 0
    ensures var state := StartWrite(op, s, dally, accepts, reply);
            if reply.refusal.Some? then
              reply.refusal.value.status == TransferError ==>
                Refused(state.op, reply.refusal.value.code, reply.refusal.value.text)
            else
              && state.receiveDataSize == reply.dataSize.GetOr(512)
              && Begun(
                   state.op,
                   if reply.options != map[] then OptionsAcknowledgement(reply.options) else Acknowledgement(0),
                   reply.timeout.GetOr(op.receiveTimeout))
  {
  }
}
