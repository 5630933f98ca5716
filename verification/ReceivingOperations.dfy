/**
 * The operation objects that receive a file. Each method changes the fields of the object step by step, and is proved
 * to change its abstract state the way the function of the receiver state says.
 */
module ReceivingOperations {
  import opened Basics
  import opened BlockNumbers
  import opened Decimals
  import opened MemoryFiles
  import opened OptionLists
  import opened Packets
  import opened Negotiation
  import opened Operations
  import opened Receivers
  import PacketObjects

  function Refused(r: ReceiverState, refusal: Refusal): ReceiverState {
    r.Abort(refusal.code, refusal.text, refusal.status)
  }

  function WithSize(r: ReceiverState, size: Option<uint64>): ReceiverState
    requires size.Some? ==> size.value < 0x1_0000
  {
    if size.Some? then r.(receiveDataSize := size.value) else r
  }

  function WithTimeout(r: ReceiverState, seconds: Option<uint64>): ReceiverState {
    if seconds.Some? then r.(op := r.op.(receiveTimeout := seconds.value)) else r
  }

  /** The rest of the check of an OACK, once the block size is applied. */
  function AfterBlockSize(r: ReceiverState, remote: Options): ReceiverState {
    var timeout := Extract(remote, TIMEOUT, TIMEOUT_MIN, TIMEOUT_MAX);
    var size := Extract(timeout.rest, TSIZE, 0, UINT64_LIMIT - 1);
    var timed := WithTimeout(r, timeout.value);
    if TimeoutRefusal(r.configuration, timeout).Some? then
      Refused(r, TimeoutRefusal(r.configuration, timeout).value)
    else if TransferSizeRefusal(r.SizeRule(), size).Some? then
      Refused(timed, TransferSizeRefusal(r.SizeRule(), size).value)
    else
      timed.(oackReceived := true, op := timed.op.Send(Acknowledgement(0))).Receive()
  }

  lemma RemainingVerdict(r: ReceiverState, remote: Options)
    ensures r.OnVerdict(CheckTimeout(r.configuration, r.SizeRule(), remote, None)) == AfterBlockSize(r, remote)
  {
  }

  lemma SizeApplied(r: ReceiverState, verdict: Verdict, dataSize: Option<uint16>)
    requires verdict.dataSize.None?
    ensures r.OnVerdict(verdict.(dataSize := dataSize)) ==
      r.(receiveDataSize := dataSize.GetOr(r.receiveDataSize)).OnVerdict(verdict)
  {
  }

  /** What is accepted of an OACK is applied before the next option is looked at. */
  lemma OackInSteps(r: ReceiverState, options: Options)
    requires r.lastReceivedBlockNumber == 0 && options != map[]
    ensures var blockSize := Extract(options, BLKSIZE, BLOCK_SIZE_MIN, BLOCK_SIZE_MAX);
            var refusal := BlockSizeRefusal(r.configuration, blockSize);
            r.OnOptionsAcknowledgement(options) ==
            if refusal.Some? then Refused(r, refusal.value)
            else AfterBlockSize(WithSize(r, blockSize.value), blockSize.rest)
  {
    var blockSize := Extract(options, BLKSIZE, BLOCK_SIZE_MIN, BLOCK_SIZE_MAX);
    var sized := WithSize(r, blockSize.value);
    var accepted: Option<uint16> := if blockSize.value.Some? then Some(blockSize.value.value) else None;
    CheckedWithSize(r.configuration, r.SizeRule(), blockSize.rest, accepted);
    SizeApplied(r, CheckTimeout(r.configuration, r.SizeRule(), blockSize.rest, None), accepted);
    RemainingVerdict(sized, blockSize.rest);
  }

  function Answered(r: ReceiverState, options: Options): ReceiverState {
    var packet := if options != map[] then OptionsAcknowledgement(options) else Acknowledgement(0);
    r.(op := r.op.Send(packet)).Receive()
  }

  /** The reply of the server, option after option. */
  function Replied(r: ReceiverState, client: ClientOptions, additional: Options): ReceiverState {
    if !client.Any() && additional == map[] then Answered(r, map[])
    else
      var reply := SizeAndTimeoutReply(r.configuration, client, additional);
      var applied := r.(
        op := r.op.(receiveTimeout := reply.timeout.GetOr(r.op.receiveTimeout)),
        receiveDataSize := reply.dataSize.GetOr(r.receiveDataSize));
      if !r.configuration.handleTransferSize || client.transferSize.None? then Answered(applied, reply.options)
      else if !r.accepts then applied.Abort(DISK_FULL, "File to big", TransferError)
      else Answered(applied, TryEmplace(reply.options, TSIZE, ToString(client.transferSize.value)))
  }

  lemma StartedAnswers(r: ReceiverState, reply: Negotiation.Reply)
    ensures var applied := r.(
              op := r.op.(receiveTimeout := reply.timeout.GetOr(r.op.receiveTimeout)),
              receiveDataSize := reply.dataSize.GetOr(r.receiveDataSize),
              delivered := []);
            r.Started(reply) ==
            if reply.refusal.None? then Answered(applied, reply.options) else Refused(applied, reply.refusal.value)
  {
  }

  lemma StartInSteps(r: ReceiverState, client: ClientOptions, additional: Options)
    ensures r.Started(WriteReply(r.configuration, client, additional, r.accepts)) ==
      Replied(r.(delivered := []), client, additional)
  {
    StartedAnswers(r, WriteReply(r.configuration, client, additional, r.accepts));
    if client.Any() || additional != map[] {
      StartWithOptions(r, client, additional);
    }
  }

  lemma StartWithOptions(r: ReceiverState, client: ClientOptions, additional: Options)
    requires client.Any() || additional != map[]
    ensures var reply := WriteReply(r.configuration, client, additional, r.accepts);
            var applied := r.(
              op := r.op.(receiveTimeout := reply.timeout.GetOr(r.op.receiveTimeout)),
              receiveDataSize := reply.dataSize.GetOr(r.receiveDataSize),
              delivered := []);
            Replied(r.(delivered := []), client, additional) ==
            if reply.refusal.None? then Answered(applied, reply.options) else Refused(applied, reply.refusal.value)
  {
    var once := SizeAndTimeoutReply(r.configuration, client, additional);
    var reply := WriteReply(r.configuration, client, additional, r.accepts);
    assert reply.dataSize == once.dataSize && reply.timeout == once.timeout;
  }

  /** The file handler collects the data; `accepts` is its answer to a transfer size. */
  class ReceivingOperation {
    const op: Operation
    const file: MemoryFile
    const configuration: Configuration
    const dally: bool
    const accepts: bool
    const lastReceivedBlockNumber: BlockNumber
    var oackReceived: bool
    var receiveDataSize: uint16
    ghost var delivered: seq<Bytes>

    /** The file holds what has been delivered since the start. */
    ghost predicate Valid()
      reads this, file
    {
      file.Valid() && file.use == MemoryFiles.Use.Receive && file.data == Flatten(delivered)
    }

    ghost function Repr(): set<object> {
      {this, op, file, lastReceivedBlockNumber}
    }

    ghost function State(): ReceiverState
      reads this, op, lastReceivedBlockNumber
    {
      ReceiverState(
        op.State(), configuration, dally, accepts, oackReceived, receiveDataSize,
        lastReceivedBlockNumber.blockNumber, delivered)
    }

    /** Configuring the options also sizes the receive buffer. */
    constructor (op: Operation, file: MemoryFile, configuration: Configuration, dally: bool, accepts: bool)
      requires file.Valid() && file.use == MemoryFiles.Use.Receive && file.data == []
      modifies op
      ensures Valid() && this.op == op && this.file == file && fresh(lastReceivedBlockNumber)
      ensures op.State() == old(op.State()).(bufferSize := BufferSize(configuration))
      ensures State() ==
        ReceiverState(op.State(), configuration, dally, accepts, false, DEFAULT_DATA_SIZE, 0, [])
    {
      this.op, this.file, this.configuration, this.dally, this.accepts := op, file, configuration, dally, accepts;
      var received := new BlockNumber(0);
      lastReceivedBlockNumber := received;
      oackReceived, receiveDataSize := false, DEFAULT_DATA_SIZE;
      delivered := [];
      new;
      op.MaxReceivePacketSize(BufferSize(configuration));
    }

    method Finished(status: TransferStatus, information: Option<ErrorInformation>)
      requires Valid()
      modifies Repr()
      ensures Valid() && State() == old(State()).(op := old(op.State()).Finish(status, information))
    {
      file.Finished();
      op.Finished(status, information);
    }

    method Abort(code: uint16, text: string, status: TransferStatus)
      requires Valid()
      modifies Repr()
      ensures Valid() && State() == old(State()).Abort(code, text, status)
    {
      op.Send(Operations.ErrorPacket(code, text));
      Finished(status, Some(ErrorInformation(code, Ascii(text))));
    }

    method AcknowledgeLast(dataSize: nat)
      requires Valid()
      modifies Repr()
      ensures Valid() && State() == old(State()).AcknowledgeLast(dataSize)
    {
      op.Send(Acknowledgement(lastReceivedBlockNumber.blockNumber));
      if dataSize < receiveDataSize {
        if dally {
          op.ReceiveDally();
        } else {
          Finished(Successful, None);
        }
      } else {
        op.Receive();
      }
    }

    method DataPacket(block: uint16, data: Bytes)
      requires Valid()
      modifies Repr()
      ensures Valid() && State() == old(State()).OnData(block, data)
    {
      if block == lastReceivedBlockNumber.blockNumber {
        AcknowledgeLast(|data|);
        return;
      }
      if block != Next(lastReceivedBlockNumber.blockNumber) {
        Abort(ILLEGAL_OPERATION, "Block Number not expected", TransferError);
        return;
      }
      if |data| > receiveDataSize {
        Abort(ILLEGAL_OPERATION, "Too much data", TransferError);
        return;
      }
      TakeData(data);
      AcknowledgeLast(|data|);
    }

    method TakeData(data: Bytes)
      requires Valid()
      modifies Repr()
      ensures Valid()
      ensures State() == old(State()).(
                delivered := old(delivered) + [data],
                lastReceivedBlockNumber := Next(old(lastReceivedBlockNumber.blockNumber)))
    {
      FlattenMore(delivered, data);
      file.ReceivedData(data);
      delivered := delivered + [data];
      var number := lastReceivedBlockNumber.PreIncrement();
    }

    // The OACK handler of the client, one option after the other

    method OptionsAcknowledgementPacket(options: Options)
      requires Valid()
      modifies Repr()
      ensures Valid() && State() == old(State()).OnOptionsAcknowledgement(options)
    {
      if lastReceivedBlockNumber.blockNumber != 0 {
        Abort(ILLEGAL_OPERATION, "OACK must occur after RRQ", TransferError);
        return;
      }
      if options == map[] {
        Abort(ILLEGAL_OPERATION, "Empty OACK not allowed", TransferError);
        return;
      }
      CheckOptions(options);
    }

    method CheckOptions(options: Options)
      requires Valid() && lastReceivedBlockNumber.blockNumber == 0 && options != map[]
      modifies Repr()
      ensures Valid() && State() == old(State()).OnOptionsAcknowledgement(options)
    {
      OackInSteps(State(), options);
      var remote := new OptionList(options);
      var refused := BlockSizeOption(remote);
      if !refused {
        CheckRemaining(remote);
      }
    }

    method CheckRemaining(remote: OptionList)
      requires Valid()
      modifies Repr(), remote
      ensures Valid() && State() == AfterBlockSize(old(State()), old(remote.entries))
    {
      var refused := TimeoutOption(remote);
      if refused {
        return;
      }
      refused := TransferSizeOption(remote);
      if refused {
        return;
      }
      oackReceived := true;
      op.Send(Acknowledgement(0));
      op.Receive();
    }

    method BlockSizeOption(remote: OptionList) returns (refused: bool)
      requires Valid()
      modifies Repr(), remote
      ensures var blockSize := Extract(old(remote.entries), BLKSIZE, BLOCK_SIZE_MIN, BLOCK_SIZE_MAX);
              var refusal := BlockSizeRefusal(configuration, blockSize);
              && Valid() && refused == refusal.Some? && remote.entries == blockSize.rest
              && State() == if refused then Refused(old(State()), refusal.value)
                            else WithSize(old(State()), blockSize.value)
    {
      var valid, blockSize := remote.GetOption(BLKSIZE, BLOCK_SIZE_MIN, BLOCK_SIZE_MAX);
      if configuration.blockSize.None? && blockSize.Some? {
        Abort(OPTION_REFUSED, "Block Size Option not expected", OptionNegotiationError);
        return true;
      }
      if !valid {
        Abort(OPTION_REFUSED, "Block Size Option decoding failed", OptionNegotiationError);
        return true;
      }
      if blockSize.Some? {
        if blockSize.value > configuration.blockSize.value {
          Abort(OPTION_REFUSED, "Block size Option negotiation failed", OptionNegotiationError);
          return true;
        }
        receiveDataSize := blockSize.value;
      }
      return false;
    }

    method TimeoutOption(remote: OptionList) returns (refused: bool)
      requires Valid()
      modifies Repr(), remote
      ensures var timeout := Extract(old(remote.entries), TIMEOUT, TIMEOUT_MIN, TIMEOUT_MAX);
              var refusal := TimeoutRefusal(configuration, timeout);
              && Valid() && refused == refusal.Some? && remote.entries == timeout.rest
              && State() == if refused then Refused(old(State()), refusal.value)
                            else WithTimeout(old(State()), timeout.value)
    {
      var valid, timeout := remote.GetOption(TIMEOUT, TIMEOUT_MIN, TIMEOUT_MAX);
      if configuration.timeout.None? && timeout.Some? {
        Abort(OPTION_REFUSED, "Timeout Option isn't expected", OptionNegotiationError);
        return true;
      }
      if !valid {
        Abort(OPTION_REFUSED, "Timeout Option decoding failed", OptionNegotiationError);
        return true;
      }
      if timeout.Some? {
        if timeout.value != configuration.timeout.value {
          Abort(OPTION_REFUSED, "Timeout option not equal to requested", OptionNegotiationError);
          return true;
        }
        op.ReceiveTimeout(timeout.value);
      }
      return false;
    }

    method TransferSizeOption(remote: OptionList) returns (refused: bool)
      requires Valid()
      modifies Repr(), remote
      ensures var size := Extract(old(remote.entries), TSIZE, 0, UINT64_LIMIT - 1);
              var refusal := TransferSizeRefusal(old(State()).SizeRule(), size);
              && Valid() && refused == refusal.Some?
              && State() == if refused then Refused(old(State()), refusal.value) else old(State())
    {
      var valid, size := remote.GetOption(TSIZE, 0, UINT64_LIMIT - 1);
      if !configuration.handleTransferSize && size.Some? {
        Abort(OPTION_REFUSED, "Transfer Size Option isn't expected", OptionNegotiationError);
        return true;
      }
      if !valid {
        Abort(OPTION_REFUSED, "Transfer Size Option decoding failed", OptionNegotiationError);
        return true;
      }
      if size.Some? {
        var accepted := AskHandler(size.value);
        if !accepted {
          Abort(DISK_FULL, "File to big", OptionNegotiationError);
          return true;
        }
      }
      if remote.entries != map[] {
        Abort(OPTION_REFUSED, "Unexpected options", OptionNegotiationError);
        return true;
      }
      return false;
    }

    /** The in-memory file takes every size; a handler that accepts none stands for one that rejects this one. */
    method AskHandler(size: uint64) returns (accepted: bool)
      ensures accepted == accepts
    {
      if !accepts {
        return false;
      }
      accepted := file.ReceivedTransferSize(size);
    }

    // Events

    method UnexpectedPacket(packet: Option<Packet>)
      requires Valid()
      modifies Repr()
      ensures Valid() && State() == old(State()).(op := old(op.State()).Unexpected(packet))
    {
      op.UnexpectedHandler(packet);
      file.Finished();
    }

    method ErrorPacket(code: uint16, message: Bytes)
      requires Valid()
      modifies Repr()
      ensures Valid() && State() == old(State()).(op := old(op.State()).ReceivedError(code, message))
    {
      op.ErrorHandler(code, message);
      file.Finished();
    }

    method AcknowledgementPacket()
      requires Valid()
      modifies Repr()
      ensures Valid() && forall block :: State() == old(State()).Handle(Some(Acknowledgement(block)))
    {
      Abort(ILLEGAL_OPERATION, "ACK not expected", TransferError);
    }

    /** The handler of the socket: the bytes of a datagram as far as they fit into the receive buffer. */
    method Receive(raw: Bytes)
      requires Valid()
      modifies Repr()
      ensures Valid() && State() == old(State()).OnPacket(Dispatch(Truncated(raw, old(op.bufferSize))))
    {
      op.ReceiveCompleted();
      var packet := PacketObjects.Decode(Truncated(raw, op.bufferSize));
      match packet {
        case Some(Data(block, data)) => DataPacket(block, data);
        case Some(Error(code, message)) => ErrorPacket(code, message);
        case Some(Acknowledgement(block)) => AcknowledgementPacket();
        case Some(OptionsAcknowledgement(options)) =>
          if op.role == Client {
            OptionsAcknowledgementPacket(options);
          } else {
            UnexpectedPacket(packet);
          }
        case _ => UnexpectedPacket(packet);
      }
    }

    /** The handler of the timer. */
    method Timeout()
      requires Valid() && op.completions == []
      modifies Repr()
      ensures Valid() && State() == old(State()).OnTimeout()
    {
      op.TimeoutHandler();
      if op.completions != [] {
        file.Finished();
      }
    }

    // The start

    /** The start of the server of a write request, of a new object or once more. */
    method Start(client: ClientOptions, additional: Options)
      requires Valid()
      modifies Repr()
      ensures Valid()
      ensures State() == old(State()).Started(WriteReply(configuration, client, additional, accepts))
    {
      StartInSteps(State(), client, additional);
      file.Start();
      delivered := [];
      Reply(client, additional);
    }

    method Reply(client: ClientOptions, additional: Options)
      requires Valid()
      modifies Repr()
      ensures Valid() && State() == Replied(old(State()), client, additional)
    {
      if !client.Any() && additional == map[] {
        Answer(map[]);
        return;
      }
      var serverOptions := AcceptOptions(client, additional);
      var refused;
      refused, serverOptions := AcceptTransferSize(client, serverOptions);
      if !refused {
        Answer(serverOptions);
      }
    }

    method Answer(serverOptions: Options)
      requires Valid()
      modifies Repr()
      ensures Valid() && State() == Answered(old(State()), serverOptions)
    {
      if serverOptions != map[] {
        op.Send(OptionsAcknowledgement(serverOptions));
      } else {
        op.Send(Acknowledgement(0));
      }
      op.Receive();
    }

    method AcceptOptions(client: ClientOptions, additional: Options) returns (serverOptions: Options)
      requires Valid()
      modifies Repr()
      ensures var reply := SizeAndTimeoutReply(configuration, client, additional);
              && Valid() && serverOptions == reply.options
              && State() == old(State()).(
                   receiveDataSize := reply.dataSize.GetOr(old(receiveDataSize)),
                   op := old(op.State()).(receiveTimeout := reply.timeout.GetOr(old(op.receiveTimeout))))
    {
      serverOptions := additional;
      if configuration.blockSize.Some? && client.blockSize.Some? {
        receiveDataSize := Min(client.blockSize.value, configuration.blockSize.value);
        serverOptions := TryEmplace(serverOptions, BLKSIZE, ToString(receiveDataSize));
      }
      if configuration.timeout.Some? && client.timeout.Some? && client.timeout.value <= configuration.timeout.value {
        op.ReceiveTimeout(client.timeout.value);
        serverOptions := TryEmplace(serverOptions, TIMEOUT, ToString(client.timeout.value));
      }
    }

    method AcceptTransferSize(client: ClientOptions, accepted: Options) returns (refused: bool, serverOptions: Options)
      requires Valid()
      modifies Repr()
      ensures Valid()
      ensures refused <==> configuration.handleTransferSize && client.transferSize.Some? && !accepts
      ensures State() == if refused then old(State()).Abort(DISK_FULL, "File to big", TransferError) else old(State())
      ensures serverOptions ==
        if !refused && configuration.handleTransferSize && client.transferSize.Some?
        then TryEmplace(accepted, TSIZE, ToString(client.transferSize.value)) else accepted
    {
      if configuration.handleTransferSize && client.transferSize.Some? {
        var takes := AskHandler(client.transferSize.value);
        if !takes {
          Abort(DISK_FULL, "File to big", TransferError);
          return true, accepted;
        }
        return false, TryEmplace(accepted, TSIZE, ToString(client.transferSize.value));
      }
      return false, accepted;
    }

    /** The request of the client for a read. A repeated request still remembers the OACK of the one before. */
    method Request(filename: Bytes, mode: TransferMode, additional: Options)
      requires Valid()
      modifies Repr()
      ensures Valid()
      ensures State() == RequestRead(
                old(op.State()), configuration, dally, accepts, filename, mode, additional)
              .(oackReceived := old(oackReceived))
    {
      file.Start();
      delivered := [];
      receiveDataSize := DEFAULT_DATA_SIZE;
      lastReceivedBlockNumber.Assign(0);
      var options := OfferOptions(additional);
      op.Send(ReadRequest(Packets.Request(filename, mode, options)));
      op.ReceiveFirst();
    }

    method OfferOptions(additional: Options) returns (options: Options)
      ensures options == RequestOptions(additional, configuration, Some(0))
    {
      options := additional;
      if configuration.blockSize.Some? {
        options := TryEmplace(options, BLKSIZE, ToString(configuration.blockSize.value));
      }
      if configuration.timeout.Some? {
        options := TryEmplace(options, TIMEOUT, ToString(SecondsOnWire(configuration.timeout.value)));
      }
      if configuration.handleTransferSize {
        options := TryEmplace(options, TSIZE, Ascii("0"));
        assert Ascii("0") == ToString(0);
      }
    }
  }
}
