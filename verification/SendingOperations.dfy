/**
 * The operation objects that send a file. Each method changes the fields of the object step by step, and is proved
 * to change its abstract state the way the function of the sender state says.
 */
module SendingOperations {
  import opened Basics
  import opened BlockNumbers
  import opened Decimals
  import opened MemoryFiles
  import opened OptionLists
  import opened Packets
  import opened Negotiation
  import opened Operations
  import opened Senders
  import PacketObjects

  function Refused(s: SenderState, refusal: Refusal): SenderState {
    s.Abort(refusal.code, refusal.text, refusal.status)
  }

  function WithSize(s: SenderState, size: Option<uint64>): SenderState
    requires size.Some? ==> size.value < 0x1_0000
  {
    if size.Some? then s.(transmitDataSize := size.value) else s
  }

  function WithTimeout(s: SenderState, seconds: Option<uint64>): SenderState {
    if seconds.Some? then s.(op := s.op.(receiveTimeout := seconds.value)) else s
  }

  /** The rest of the check of an OACK, once the block size is applied. */
  function AfterBlockSize(s: SenderState, remote: Options): SenderState {
    var timeout := Extract(remote, TIMEOUT, TIMEOUT_MIN, TIMEOUT_MAX);
    var size := Extract(timeout.rest, TSIZE, 0, UINT64_LIMIT - 1);
    var timed := WithTimeout(s, timeout.value);
    if TimeoutRefusal(s.configuration, timeout).Some? then
      Refused(s, TimeoutRefusal(s.configuration, timeout).value)
    else if TransferSizeRefusal(s.SizeRule(), size).Some? then
      Refused(timed, TransferSizeRefusal(s.SizeRule(), size).value)
    else
      timed.SendData().Receive()
  }

  lemma RemainingVerdict(s: SenderState, remote: Options)
    ensures s.OnVerdict(CheckTimeout(s.configuration, s.SizeRule(), remote, None)) == AfterBlockSize(s, remote)
  {
  }

  lemma SizeApplied(s: SenderState, verdict: Verdict, dataSize: Option<uint16>)
    requires verdict.dataSize.None?
    ensures s.OnVerdict(verdict.(dataSize := dataSize)) ==
      s.(transmitDataSize := dataSize.GetOr(s.transmitDataSize)).OnVerdict(verdict)
  {
  }

  /** What is accepted of an OACK is applied before the next option is looked at. */
  lemma OackInSteps(s: SenderState, options: Options)
    requires s.lastReceivedBlockNumber == 0xFFFF && options != map[]
    ensures var blockSize := Extract(options, BLKSIZE, BLOCK_SIZE_MIN, BLOCK_SIZE_MAX);
            var refusal := BlockSizeRefusal(s.configuration, blockSize);
            s.OnOptionsAcknowledgement(options) ==
            if refusal.Some? then Refused(s, refusal.value)
            else AfterBlockSize(WithSize(s, blockSize.value), blockSize.rest)
  {
    var blockSize := Extract(options, BLKSIZE, BLOCK_SIZE_MIN, BLOCK_SIZE_MAX);
    var sized := WithSize(s, blockSize.value);
    var accepted: Option<uint16> := if blockSize.value.Some? then Some(blockSize.value.value) else None;
    CheckedWithSize(s.configuration, s.SizeRule(), blockSize.rest, accepted);
    SizeApplied(s, CheckTimeout(s.configuration, s.SizeRule(), blockSize.rest, None), accepted);
    RemainingVerdict(sized, blockSize.rest);
  }

  /** The answer of the server: an OACK, or the first block. */
  function Answered(s: SenderState, options: Options): SenderState {
    if options != map[] then
      s.(lastReceivedBlockNumber := 0xFFFF, op := s.op.Send(OptionsAcknowledgement(options))).Receive()
    else s.SendData().Receive()
  }

  /** The reply of the server, option after option. */
  function Replied(s: SenderState, client: ClientOptions, additional: Options, fileSize: uint64): SenderState {
    if !client.Any() && additional == map[] then Answered(s, map[])
    else
      var reply := SizeAndTimeoutReply(s.configuration, client, additional);
      var applied := s.(
        op := s.op.(receiveTimeout := reply.timeout.GetOr(s.op.receiveTimeout)),
        transmitDataSize := reply.dataSize.GetOr(s.transmitDataSize));
      if !s.configuration.handleTransferSize || client.transferSize.None? then Answered(applied, reply.options)
      else if client.transferSize.value != 0 then
        applied.Abort(OPTION_REFUSED, "transfer size must be 0", TransferError)
      else Answered(applied, TryEmplace(reply.options, TSIZE, ToString(fileSize)))
  }

  lemma StartInSteps(s: SenderState, client: ClientOptions, additional: Options, fileSize: uint64)
    ensures s.Started(ReadReply(s.configuration, client, additional, Some(fileSize))) ==
      Replied(s.(position := 0), client, additional, fileSize)
  {
  }

  class SendingOperation {
    const op: Operation
    const file: MemoryFile
    const configuration: Configuration
    const lastTransmittedBlockNumber: BlockNumber
    const lastReceivedBlockNumber: BlockNumber
    var transferSize: Option<uint64>
    var transmitDataSize: uint16
    var lastDataPacketTransmitted: bool
    ghost var blocksSent: nat

    ghost predicate Valid()
      reads this, file
    {
      file.Valid() && file.use == Transmit && lastTransmittedBlockNumber != lastReceivedBlockNumber
    }

    ghost function Repr(): set<object> {
      {this, op, file, lastTransmittedBlockNumber, lastReceivedBlockNumber}
    }

    ghost function State(): SenderState
      reads this, op, file, lastTransmittedBlockNumber, lastReceivedBlockNumber
    {
      SenderState(
        op.State(), configuration, file.data, file.position, transferSize, transmitDataSize,
        lastDataPacketTransmitted, lastTransmittedBlockNumber.blockNumber, lastReceivedBlockNumber.blockNumber,
        blocksSent)
    }

    constructor (op: Operation, file: MemoryFile, configuration: Configuration)
      requires file.Valid() && file.use == Transmit
      ensures Valid() && this.op == op && this.file == file && this.configuration == configuration
      ensures fresh(lastTransmittedBlockNumber) && fresh(lastReceivedBlockNumber)
      ensures State() ==
        SenderState(
          op.State(), configuration, file.data, file.position, None, DEFAULT_DATA_SIZE, false, 0, 0, 0)
    {
      this.op, this.file, this.configuration := op, file, configuration;
      var transmitted := new BlockNumber(0);
      var received := new BlockNumber(0);
      lastTransmittedBlockNumber, lastReceivedBlockNumber := transmitted, received;
      transferSize, transmitDataSize, lastDataPacketTransmitted := None, DEFAULT_DATA_SIZE, false;
      blocksSent := 0;
    }

    method Finished(status: TransferStatus, information: Option<ErrorInformation>)
      requires Valid()
      modifies Repr()
      ensures Valid() && State() == old(State()).Completed(old(op.State()).Finish(status, information))
    {
      file.Finished();
      op.Finished(status, information);
    }

    method Abort(code: uint16, text: string, status: TransferStatus)
      requires Valid()
      modifies Repr()
      ensures Valid() && State() == old(State()).Abort(code, text, status)
    {
      op.Send(Operations.ErrorPacket(code, text));
      Finished(status, Some(ErrorInformation(code, Ascii(text))));
    }

    method SendData()
      requires Valid()
      modifies Repr()
      ensures Valid() && State() == old(State()).SendData()
    {
      var number := lastTransmittedBlockNumber.PreIncrement();
      var data := file.SendData(transmitDataSize);
      if |data| < transmitDataSize {
        lastDataPacketTransmitted := true;
      }
      op.Send(Data(number, data));
      blocksSent := blocksSent + 1;
    }

    method AcknowledgementPacket(block: uint16)
      requires Valid()
      modifies Repr()
      ensures Valid() && State() == old(State()).OnAcknowledgement(block)
    {
      if block == lastReceivedBlockNumber.blockNumber {
        op.Receive();
        return;
      }
      if block != lastTransmittedBlockNumber.blockNumber {
        Abort(ILLEGAL_OPERATION, "Wrong block number", TransferError);
        return;
      }
      lastReceivedBlockNumber.Assign(block);
      if lastDataPacketTransmitted {
        Finished(Successful, None);
        return;
      }
      SendData();
      op.Receive();
    }

    // The OACK handler of the client, one option after the other

    method OptionsAcknowledgementPacket(options: Options)
      requires Valid()
      modifies Repr()
      ensures Valid() && State() == old(State()).OnOptionsAcknowledgement(options)
    {
      if lastReceivedBlockNumber.blockNumber != 0xFFFF {
        Abort(ILLEGAL_OPERATION, "OACK must occur after WRQ", TransferError);
        return;
      }
      if options == map[] {
        Abort(ILLEGAL_OPERATION, "Empty OACK not allowed", TransferError);
        return;
      }
      CheckOptions(options);
    }

    method CheckOptions(options: Options)
      requires Valid() && lastReceivedBlockNumber.blockNumber == 0xFFFF && options != map[]
      modifies Repr()
      ensures Valid() && State() == old(State()).OnOptionsAcknowledgement(options)
    {
      OackInSteps(State(), options);
      var remote := new OptionList(options);
      var refused := BlockSizeOption(remote);
      if !refused {
        CheckRemaining(remote);
      }
    }

    method CheckRemaining(remote: OptionList)
      requires Valid()
      modifies Repr(), remote
      ensures Valid() && State() == AfterBlockSize(old(State()), old(remote.entries))
    {
      var refused := TimeoutOption(remote);
      if refused {
        return;
      }
      refused := TransferSizeOption(remote);
      if refused {
        return;
      }
      SendData();
      op.Receive();
    }

    method BlockSizeOption(remote: OptionList) returns (refused: bool)
      requires Valid()
      modifies Repr(), remote
      ensures var blockSize := Extract(old(remote.entries), BLKSIZE, BLOCK_SIZE_MIN, BLOCK_SIZE_MAX);
              var refusal := BlockSizeRefusal(configuration, blockSize);
              && Valid() && refused == refusal.Some? && remote.entries == blockSize.rest
              && State() == if refused then Refused(old(State()), refusal.value)
                            else WithSize(old(State()), blockSize.value)
    {
      var valid, blockSize := remote.GetOption(BLKSIZE, BLOCK_SIZE_MIN, BLOCK_SIZE_MAX);
      if configuration.blockSize.None? && blockSize.Some? {
        Abort(OPTION_REFUSED, "Block Size Option not expected", OptionNegotiationError);
        return true;
      }
      if !valid {
        Abort(OPTION_REFUSED, "Block Size Option decoding failed", OptionNegotiationError);
        return true;
      }
      if blockSize.Some? {
        if blockSize.value > configuration.blockSize.value {
          Abort(OPTION_REFUSED, "Block size Option negotiation failed", OptionNegotiationError);
          return true;
        }
        transmitDataSize := blockSize.value;
      }
      return false;
    }

    method TimeoutOption(remote: OptionList) returns (refused: bool)
      requires Valid()
      modifies Repr(), remote
      ensures var timeout := Extract(old(remote.entries), TIMEOUT, TIMEOUT_MIN, TIMEOUT_MAX);
              var refusal := TimeoutRefusal(configuration, timeout);
              && Valid() && refused == refusal.Some? && remote.entries == timeout.rest
              && State() == if refused then Refused(old(State()), refusal.value)
                            else WithTimeout(old(State()), timeout.value)
    {
      var valid, timeout := remote.GetOption(TIMEOUT, TIMEOUT_MIN, TIMEOUT_MAX);
      if configuration.timeout.None? && timeout.Some? {
        Abort(OPTION_REFUSED, "Timeout Option isn't expected", OptionNegotiationError);
        return true;
      }
      if !valid {
        Abort(OPTION_REFUSED, "Timeout Option decoding failed", OptionNegotiationError);
        return true;
      }
      if timeout.Some? {
        if timeout.value != configuration.timeout.value {
          Abort(OPTION_REFUSED, "Timeout option not equal to requested", OptionNegotiationError);
          return true;
        }
        op.ReceiveTimeout(timeout.value);
      }
      return false;
    }

    method TransferSizeOption(remote: OptionList) returns (refused: bool)
      requires Valid()
      modifies Repr(), remote
      ensures var size := Extract(old(remote.entries), TSIZE, 0, UINT64_LIMIT - 1);
              var refusal := TransferSizeRefusal(old(State()).SizeRule(), size);
              && Valid() && refused == refusal.Some?
              && State() == if refused then Refused(old(State()), refusal.value) else old(State())
    {
      var valid, size := remote.GetOption(TSIZE, 0, UINT64_LIMIT - 1);
      if (!configuration.handleTransferSize || transferSize.None?) && size.Some? {
        Abort(OPTION_REFUSED, "Transfer Size Option isn't expected", OptionNegotiationError);
        return true;
      }
      if !valid {
        Abort(OPTION_REFUSED, "Transfer Size Option decoding failed", OptionNegotiationError);
        return true;
      }
      if size.Some? && size.value != transferSize.value {
        Abort(OPTION_REFUSED, "transfer size invalid", OptionNegotiationError);
        return true;
      }
      if remote.entries != map[] {
        Abort(OPTION_REFUSED, "Unexpected options", OptionNegotiationError);
        return true;
      }
      return false;
    }

    // Events

    method UnexpectedPacket(packet: Option<Packet>)
      requires Valid()
      modifies Repr()
      ensures Valid() && State() == old(State()).Completed(old(op.State()).Unexpected(packet))
    {
      op.UnexpectedHandler(packet);
      file.Finished();
    }

    method ErrorPacket(code: uint16, message: Bytes)
      requires Valid()
      modifies Repr()
      ensures Valid() && State() == old(State()).Completed(old(op.State()).ReceivedError(code, message))
    {
      op.ErrorHandler(code, message);
      file.Finished();
    }

    method DataPacket()
      requires Valid()
      modifies Repr()
      ensures Valid() && forall block, data :: State() == old(State()).Handle(Some(Data(block, data)))
    {
      Abort(
        ILLEGAL_OPERATION, if op.role == Client then "DATA not expected" else "DATA packet isn't expected",
        TransferError);
    }

    /** The handler of the socket: the bytes of a datagram as far as they fit into the receive buffer. */
    method Receive(raw: Bytes)
      requires Valid()
      modifies Repr()
      ensures Valid() && State() == old(State()).OnPacket(Dispatch(Truncated(raw, old(op.bufferSize))))
    {
      op.ReceiveCompleted();
      var packet := PacketObjects.Decode(Truncated(raw, op.bufferSize));
      match packet {
        case Some(Acknowledgement(block)) => AcknowledgementPacket(block);
        case Some(Error(code, message)) => ErrorPacket(code, message);
        case Some(Data(block, data)) => DataPacket();
        case Some(OptionsAcknowledgement(options)) =>
          if op.role == Client {
            OptionsAcknowledgementPacket(options);
          } else {
            UnexpectedPacket(packet);
          }
        case _ => UnexpectedPacket(packet);
      }
    }

    /** The handler of the timer. */
    method Timeout()
      requires Valid() && op.completions == []
      modifies Repr()
      ensures Valid() && State() == old(State()).OnTimeout()
    {
      op.TimeoutHandler();
      if op.completions != [] {
        file.Finished();
      }
    }

    // The start

    /** What the file handler supplies as the transfer size. */
    ghost function FileSize(): Option<uint64>
      reads file
    {
      if |file.data| < UINT64_LIMIT then Some(|file.data|) else None
    }

    /** The start of the server of a read request, of a new object or once more. */
    method Start(client: ClientOptions, additional: Options)
      requires Valid() && FileSize().Some?
      modifies Repr()
      ensures Valid()
      ensures State() == old(State()).Started(ReadReply(configuration, client, additional, old(FileSize())))
    {
      StartInSteps(State(), client, additional, FileSize().value);
      file.Start();
      Reply(client, additional);
    }

    method Reply(client: ClientOptions, additional: Options)
      requires Valid() && FileSize().Some?
      modifies Repr()
      ensures Valid() && State() == Replied(old(State()), client, additional, old(FileSize()).value)
    {
      if !client.Any() && additional == map[] {
        Answer(map[]);
        return;
      }
      var serverOptions := AcceptOptions(client, additional);
      var refused;
      refused, serverOptions := AcceptTransferSize(client, serverOptions);
      if !refused {
        Answer(serverOptions);
      }
    }

    method Answer(serverOptions: Options)
      requires Valid()
      modifies Repr()
      ensures Valid() && State() == Answered(old(State()), serverOptions)
    {
      if serverOptions != map[] {
        lastReceivedBlockNumber.Assign(0xFFFF);
        op.Send(OptionsAcknowledgement(serverOptions));
      } else {
        SendData();
      }
      op.Receive();
    }

    method AcceptOptions(client: ClientOptions, additional: Options) returns (serverOptions: Options)
      requires Valid()
      modifies Repr()
      ensures var reply := SizeAndTimeoutReply(configuration, client, additional);
              && Valid() && serverOptions == reply.options
              && State() == old(State()).(
                   transmitDataSize := reply.dataSize.GetOr(old(transmitDataSize)),
                   op := old(op.State()).(receiveTimeout := reply.timeout.GetOr(old(op.receiveTimeout))))
    {
      serverOptions := additional;
      if configuration.blockSize.Some? && client.blockSize.Some? {
        transmitDataSize := Min(client.blockSize.value, configuration.blockSize.value);
        serverOptions := TryEmplace(serverOptions, BLKSIZE, ToString(transmitDataSize));
      }
      if configuration.timeout.Some? && client.timeout.Some? && client.timeout.value <= configuration.timeout.value {
        op.ReceiveTimeout(client.timeout.value);
        serverOptions := TryEmplace(serverOptions, TIMEOUT, ToString(client.timeout.value));
      }
    }

    method AcceptTransferSize(client: ClientOptions, accepted: Options) returns (refused: bool, serverOptions: Options)
      requires Valid() && FileSize().Some?
      modifies Repr()
      ensures Valid()
      ensures refused <==>
        configuration.handleTransferSize && client.transferSize.Some? && client.transferSize.value != 0
      ensures State() == if refused then old(State()).Abort(OPTION_REFUSED, "transfer size must be 0", TransferError)
                         else old(State())
      ensures serverOptions ==
        if !refused && configuration.handleTransferSize && client.transferSize.Some?
        then TryEmplace(accepted, TSIZE, ToString(old(FileSize()).value)) else accepted
    {
      if configuration.handleTransferSize && client.transferSize.Some? {
        if client.transferSize.value != 0 {
          Abort(OPTION_REFUSED, "transfer size must be 0", TransferError);
          return true, accepted;
        }
        var size := file.RequestedTransferSize();
        if size.Some? {
          return false, TryEmplace(accepted, TSIZE, ToString(size.value));
        }
      }
      return false, accepted;
    }

    /** The request of the client for a write. Without the size option a size from an earlier request stays. */
    method Request(filename: Bytes, mode: TransferMode, additional: Options)
      requires Valid() && FileSize().Some?
      modifies Repr()
      ensures Valid()
      ensures State() == RequestWrite(
                old(op.State()), configuration, old(file.data), old(FileSize()), filename, mode, additional)
              .(transferSize := if configuration.handleTransferSize then old(FileSize()) else old(transferSize))
    {
      file.Start();
      transmitDataSize, lastDataPacketTransmitted := DEFAULT_DATA_SIZE, false;
      lastTransmittedBlockNumber.Assign(0);
      lastReceivedBlockNumber.Assign(0xFFFF);
      blocksSent := 0;
      var options := OfferOptions(additional);
      op.Send(WriteRequest(Packets.Request(filename, mode, options)));
      op.ReceiveFirst();
    }

    method OfferOptions(additional: Options) returns (options: Options)
      requires Valid() && FileSize().Some?
      modifies this`transferSize
      ensures transferSize == if configuration.handleTransferSize then FileSize() else old(transferSize)
      ensures options == RequestOptions(additional, configuration, FileSize())
    {
      options := additional;
      if configuration.blockSize.Some? {
        options := TryEmplace(options, BLKSIZE, ToString(configuration.blockSize.value));
      }
      if configuration.timeout.Some? {
        options := TryEmplace(options, TIMEOUT, ToString(SecondsOnWire(configuration.timeout.value)));
      }
      if configuration.handleTransferSize {
        transferSize := file.RequestedTransferSize();
        if transferSize.Some? {
          options := TryEmplace(options, TSIZE, ToString(transferSize.value));
        }
      }
    }
  }
}
