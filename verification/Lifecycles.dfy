/**
 * The life of one operation, whatever bytes reach its socket and whenever its timer expires: every handler either
 * keeps it alive, with one receive operation and one timer, or completes it, which happens once.
 */
module Lifecycles {
  import opened Basics
  import opened BlockNumbers
  import opened OptionLists
  import opened Packets
  import opened Negotiation
  import opened Operations
  import opened Senders
  import opened Receivers

  // One handler

  /** At most one packet is sent, which is then the stored one, and the operation stays alive or ends. */
  ghost predicate Handled(op: OperationState, next: OperationState) {
    && next.role == op.role && next.retries == op.retries && next.bufferSize == op.bufferSize
    && (next.Live() || next.Ended())
    && (next.sent == op.sent || (next.stored.Some? && next.sent == op.sent + [next.stored.value]))
  }

  /** The handler for a received datagram has been called. */
  ghost predicate Called(op: OperationState) {
    op.Handling() && op.Repeated()
  }

  lemma SendHandled(op: OperationState, packet: Packet, timer: Timer)
    requires op.Handling() && timer != Stopped
    ensures Handled(op, op.Send(packet).Await(timer))
  {
  }

  lemma AbortHandled(op: OperationState, code: uint16, text: string, status: TransferStatus)
    requires op.Handling()
    ensures Handled(op, op.Abort(code, text, status))
  {
  }

  lemma UnexpectedHandled(op: OperationState, packet: Option<Packet>)
    requires op.Handling()
    ensures Handled(op, op.Unexpected(packet))
  {
  }

  lemma TimeoutHandled(op: OperationState)
    requires op.Live()
    ensures Handled(op, op.Timeout())
  {
    op.TimeoutLivesOrEnds();
  }

  // The sender

  lemma SendDataHandled(s: SenderState)
    requires s.op.Handling()
    ensures Handled(s.op, s.SendData().Receive().op)
  {
    var number := s.SendData().op.stored.value;
    SendHandled(s.op, number, ReceiveTimer);
  }

  lemma AcknowledgementHandled(s: SenderState, block: uint16)
    requires Called(s.op)
    ensures Handled(s.op, s.OnAcknowledgement(block).op)
  {
    if block != s.lastReceivedBlockNumber {
      if block != s.lastTransmittedBlockNumber {
        AbortHandled(s.op, ILLEGAL_OPERATION, "Wrong block number", TransferError);
      } else {
        SendDataHandled(s.(lastReceivedBlockNumber := block));
      }
    }
  }

  lemma VerdictHandledBySender(s: SenderState, verdict: Verdict)
    requires s.op.Handling()
    ensures Handled(s.op, s.OnVerdict(verdict).op)
  {
    var changed := s.(
      transmitDataSize := verdict.dataSize.GetOr(s.transmitDataSize),
      op := s.op.(receiveTimeout := verdict.timeout.GetOr(s.op.receiveTimeout)));
    match verdict.refusal
    case Some(refusal) => AbortHandled(changed.op, refusal.code, refusal.text, refusal.status);
    case None => SendDataHandled(changed);
  }

  lemma OptionsHandledBySender(s: SenderState, options: Options)
    requires s.op.Handling()
    ensures Handled(s.op, s.OnOptionsAcknowledgement(options).op)
  {
    if s.lastReceivedBlockNumber != 0xFFFF {
      AbortHandled(s.op, ILLEGAL_OPERATION, "OACK must occur after WRQ", TransferError);
    } else {
      VerdictHandledBySender(s, CheckOack(s.configuration, s.SizeRule(), options));
    }
  }

  lemma PacketHandledBySender(s: SenderState, packet: Option<Packet>)
    requires s.op.Live()
    ensures Handled(s.op, s.OnPacket(packet).op)
  {
    var called := s.(op := s.op.Received());
    match packet
    case Some(Acknowledgement(block)) => AcknowledgementHandled(called, block);
    case Some(Error(_, _)) =>
    case Some(Data(_, _)) =>
      AbortHandled(
        called.op, ILLEGAL_OPERATION, if s.op.role == Client then "DATA not expected" else "DATA packet isn't expected",
        TransferError);
    case Some(OptionsAcknowledgement(options)) =>
      if s.op.role == Client {
        OptionsHandledBySender(called, options);
      } else {
        UnexpectedHandled(called.op, packet);
      }
    case _ => UnexpectedHandled(called.op, packet);
  }

  lemma TimeoutHandledBySender(s: SenderState)
    requires s.op.Live()
    ensures Handled(s.op, s.OnTimeout().op)
  {
    TimeoutHandled(s.op);
  }

  // The receiver

  lemma AcknowledgeLastHandled(r: ReceiverState, dataSize: nat)
    requires r.op.Handling()
    ensures Handled(r.op, r.AcknowledgeLast(dataSize).op)
  {
  }

  lemma DataHandled(r: ReceiverState, block: uint16, data: Bytes)
    requires r.op.Handling()
    ensures Handled(r.op, r.OnData(block, data).op)
  {
    if block == r.lastReceivedBlockNumber {
      AcknowledgeLastHandled(r, |data|);
    } else if block != Next(r.lastReceivedBlockNumber) {
      AbortHandled(r.op, ILLEGAL_OPERATION, "Block Number not expected", TransferError);
    } else if |data| > r.receiveDataSize {
      AbortHandled(r.op, ILLEGAL_OPERATION, "Too much data", TransferError);
    } else {
      AcknowledgeLastHandled(
        r.(delivered := r.delivered + [data], lastReceivedBlockNumber := Next(r.lastReceivedBlockNumber)), |data|);
    }
  }

  lemma VerdictHandledByReceiver(r: ReceiverState, verdict: Verdict)
    requires r.op.Handling()
    ensures Handled(r.op, r.OnVerdict(verdict).op)
  {
    var changed := r.op.(receiveTimeout := verdict.timeout.GetOr(r.op.receiveTimeout));
    match verdict.refusal
    case Some(refusal) => AbortHandled(changed, refusal.code, refusal.text, refusal.status);
    case None => SendHandled(changed, Acknowledgement(0), ReceiveTimer);
  }

  lemma OptionsHandledByReceiver(r: ReceiverState, options: Options)
    requires r.op.Handling()
    ensures Handled(r.op, r.OnOptionsAcknowledgement(options).op)
  {
    if r.lastReceivedBlockNumber != 0 {
      AbortHandled(r.op, ILLEGAL_OPERATION, "OACK must occur after RRQ", TransferError);
    } else {
      VerdictHandledByReceiver(r, CheckOack(r.configuration, r.SizeRule(), options));
    }
  }

  lemma PacketHandledByReceiver(r: ReceiverState, packet: Option<Packet>)
    requires r.op.Live()
    ensures Handled(r.op, r.OnPacket(packet).op)
  {
    var called := r.(op := r.op.Received());
    match packet
    case Some(Data(block, data)) => DataHandled(called, block, data);
    case Some(Error(_, _)) =>
    case Some(Acknowledgement(_)) => AbortHandled(called.op, ILLEGAL_OPERATION, "ACK not expected", TransferError);
    case Some(OptionsAcknowledgement(options)) =>
      if r.op.role == Client {
        OptionsHandledByReceiver(called, options);
      } else {
        UnexpectedHandled(called.op, packet);
      }
    case _ => UnexpectedHandled(called.op, packet);
  }

  // The start

  lemma SenderStarts(
    role: Role, retries: uint16, seconds: int, bufferSize: nat, c: Configuration, file: Bytes, reply: Reply,
    fileSize: Option<uint64>, filename: Bytes, mode: TransferMode, additional: Options)
    ensures var idle := Idle(role, retries, seconds, bufferSize);
            && RequestWrite(idle, c, file, fileSize, filename, mode, additional).op.Live()
            && var server := StartRead(idle, c, file, reply);
               if reply.refusal.Some? then server.op.Ended() else server.op.Live()
  {
    var idle := Idle(role, retries, seconds, bufferSize);
    var server := StartRead(idle, c, file, reply);
    if reply.refusal.None? {
      assert server.op.sent == [server.op.stored.value];
    }
  }

  lemma ReceiverStarts(
    role: Role, retries: uint16, seconds: int, bufferSize: nat, c: Configuration, dally: bool, accepts: bool,
    reply: Reply, filename: Bytes, mode: TransferMode, additional: Options)
    ensures var idle := Idle(role, retries, seconds, bufferSize);
            && RequestRead(idle, c, dally, accepts, filename, mode, additional).op.Live()
            && var server := StartWrite(idle, c, dally, accepts, reply);
               if reply.refusal.Some? then server.op.Ended() else server.op.Live()
  {
    var idle := Idle(role, retries, seconds, bufferSize);
    var server := StartWrite(idle, c, dally, accepts, reply);
    if reply.refusal.None? {
      assert server.op.sent == [server.op.stored.value];
    }
  }

  // Whole lives

  /** What can happen to an operation: a datagram with any bytes arrives, or the timer expires. */
  datatype Input = Arrives(raw: Bytes) | Expires

  /** A completed operation has closed its socket and has no timer. */
  function SenderInput(s: SenderState, input: Input): SenderState {
    if !s.Open() then s
    else
      match input
      case Arrives(raw) => s.OnPacket(Dispatch(Truncated(raw, s.op.bufferSize)))
      case Expires => s.OnTimeout()
  }

  function SenderLife(s: SenderState, inputs: seq<Input>): SenderState {
    if inputs == [] then s else SenderInput(SenderLife(s, inputs[..|inputs| - 1]), inputs[|inputs| - 1])
  }

  function ReceiverInput(r: ReceiverState, input: Input): ReceiverState {
    if !r.Open() then r
    else
      match input
      case Arrives(raw) => r.OnPacket(Dispatch(Truncated(raw, r.op.bufferSize)))
      case Expires => r.OnTimeout()
  }

  function ReceiverLife(r: ReceiverState, inputs: seq<Input>): ReceiverState {
    if inputs == [] then r else ReceiverInput(ReceiverLife(r, inputs[..|inputs| - 1]), inputs[|inputs| - 1])
  }

  /**
   * Whatever reaches a sender and whenever: it has one receive operation pending and one timer armed, its stored
   * packet is the last one sent and has been sent `counter` times in a row, at most once more often than it may be
   * repeated; or it has been completed, exactly once.
   */
  lemma {:induction false} SenderLifeCycle(s: SenderState, inputs: seq<Input>)
    requires s.op.Live() || s.op.Ended()
    ensures var end := SenderLife(s, inputs).op;
            && (end.Live() || end.Ended())
            && end.retries == s.op.retries && end.role == s.op.role && end.bufferSize == s.op.bufferSize
  {
    if inputs != [] {
      SenderLifeCycle(s, inputs[..|inputs| - 1]);
      var before := SenderLife(s, inputs[..|inputs| - 1]);
      if before.Open() {
        match inputs[|inputs| - 1]
        case Arrives(raw) => PacketHandledBySender(before, Dispatch(Truncated(raw, before.op.bufferSize)));
        case Expires => TimeoutHandledBySender(before);
      }
    }
  }

  lemma {:induction false} ReceiverLifeCycle(r: ReceiverState, inputs: seq<Input>)
    requires r.op.Live() || r.op.Ended()
    ensures var end := ReceiverLife(r, inputs).op;
            && (end.Live() || end.Ended())
            && end.retries == r.op.retries && end.role == r.op.role && end.bufferSize == r.op.bufferSize
  {
    if inputs != [] {
      ReceiverLifeCycle(r, inputs[..|inputs| - 1]);
      var before := ReceiverLife(r, inputs[..|inputs| - 1]);
      if before.Open() {
        match inputs[|inputs| - 1]
        case Arrives(raw) => PacketHandledByReceiver(before, Dispatch(Truncated(raw, before.op.bufferSize)));
        case Expires => TimeoutHandled(before.op);
      }
    }
  }

  function Copies(packet: Packet, times: nat): (copies: seq<Packet>)
    ensures |copies| == times
  {
    seq(times, i => packet)
  }

  lemma MoreCopies(sent: seq<Packet>, packet: Packet, times: nat)
    ensures sent + [packet] + Copies(packet, times) == sent + Copies(packet, times + 1)
  {
  }

  lemma {:induction false} RepeatShift(op: OperationState, times: nat)
    ensures Repeat(op.Timeout(), times) == Repeat(op, times + 1)
  {
    if times > 0 {
      RepeatShift(op, times - 1);
    }
  }

  /**
   * Without any answer the stored packet is sent until it has been sent once more often than it may be repeated, and
   * then the operation is completed with a communication error.
   */
  lemma {:induction false} Silence(op: OperationState)
    requires op.Live() && op.timer != DallyTimer
    ensures var end := Repeat(op, op.retries + 2 - op.counter);
            && end.completions == [CommunicationError] && end.Ended()
            && end.sent == op.sent + Copies(op.stored.value, op.retries + 1 - op.counter)
    decreases op.retries + 1 - op.counter
  {
    op.TimeoutLivesOrEnds();
    if op.counter <= op.retries {
      Silence(op.Timeout());
      RepeatShift(op, op.retries + 1 - op.counter);
      MoreCopies(op.sent, op.stored.value, op.retries - op.counter);
    } else {
      assert Repeat(op, 1) == Repeat(op, 0).Timeout();
    }
  }
}
