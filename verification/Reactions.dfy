/**
 * What an operation does when a packet arrives or its timer expires, as its peer and its application see it: what it
 * sends, how it ends or what it waits for, and what it delivers. Every packet in every state is covered.
 */
module Reactions {
  import opened Basics
  import opened Packets
  import opened Operations
  import opened Senders
  import opened Receivers
  import opened Lifecycles
  import opened Wire

  // What can be seen

  /** The operation has sent something and goes on: one receive operation, one timer, and no completion. */
  predicate GoesOn(op: OperationState, next: OperationState, packets: seq<Packet>, timer: Timer) {
    && next.completions == op.completions && next.errorInformation == op.errorInformation
    && next.sent == op.sent + packets && next.pending == 1 && next.timer == timer
    && (packets != [] ==> next.stored == Some(packets[|packets| - 1]) && next.counter == 1)
    && (packets == [] ==> next.stored == op.stored && next.counter == op.counter)
  }

  /** The operation has sent something and been completed once; nothing is pending and no timer runs. */
  predicate Ends(
    op: OperationState, next: OperationState, packets: seq<Packet>, status: TransferStatus,
    information: Option<ErrorInformation>)
  {
    && next.completions == op.completions + [status] && next.errorInformation == information
    && next.sent == op.sent + packets && next.pending == 0 && next.timer == Stopped
  }

  /** It ends with an ERROR of its own, which is also reported to the application. */
  predicate Complains(op: OperationState, next: OperationState, code: uint16, text: string, status: TransferStatus) {
    Ends(op, next, [Error(code, Ascii(text))], status, Some(ErrorInformation(code, Ascii(text))))
  }

  /** What no event changes. */
  predicate SameOperation(op: OperationState, next: OperationState) {
    next.role == op.role && next.retries == op.retries && next.bufferSize == op.bufferSize
  }

  predicate SameReceiver(r: ReceiverState, next: ReceiverState) {
    && SameOperation(r.op, next.op)
    && next.configuration == r.configuration && next.dally == r.dally && next.accepts == r.accepts
  }

  predicate SameSender(s: SenderState, next: SenderState) {
    && SameOperation(s.op, next.op)
    && next.configuration == s.configuration && next.file == s.file && next.transferSize == s.transferSize
  }

  /** Completing an operation also resets the file. */
  predicate FileReset(s: SenderState) {
    s.op.completions != [] ==> s.position == 0
  }

  // A received ERROR

  /** How an operation ends that receives an ERROR, by its role, the error code and the packet it has sent last. */
  predicate StatusOfError(role: Role, code: uint16, stored: Option<Packet>, status: TransferStatus) {
    var request := stored.Some? && (stored.value.ReadRequest? || stored.value.WriteRequest?);
    var oack := stored.Some? && stored.value.OptionsAcknowledgement?;
    && (role == Client && request && code == 8 ==> status == OptionNegotiationError)
    && (role == Client && request && code != 8 ==> status == RequestError)
    && (role == Client && !request ==> status == TransferError)
    && (role == Server && oack && code == 8 ==> status == OptionNegotiationError)
    && (role == Server && oack && code != 8 ==> status == TransferError)
    && (role == Server && !oack ==> status == TransferError)
  }

  /** It is completed at once with the error information of the peer, and nothing is sent. */
  predicate EndedByError(op: OperationState, next: OperationState, code: uint16, message: Bytes) {
    && next.completions != [] && StatusOfError(op.role, code, op.stored, next.completions[|next.completions| - 1])
    && Ends(op, next, [], next.completions[|next.completions| - 1], Some(ErrorInformation(code, message)))
  }

  lemma ErrorEndsSender(s: SenderState, code: uint16, message: Bytes)
    ensures var next := s.OnPacket(Some(Error(code, message)));
            EndedByError(s.op, next.op, code, message) && SameSender(s, next) && FileReset(next)
  {
  }

  lemma ErrorEndsReceiver(r: ReceiverState, code: uint16, message: Bytes)
    ensures var next := r.OnPacket(Some(Error(code, message)));
            && EndedByError(r.op, next.op, code, message) && SameReceiver(r, next)
            && next.delivered == r.delivered
  {
  }

  /** The same from the bytes on the wire, for every open operation whose receive buffer they fit into. */
  lemma ErrorDatagramEnds(s: SenderState, r: ReceiverState, code: uint16, message: Bytes)
    requires s.Open() && 5 + |message| <= s.op.bufferSize && r.Open() && 5 + |message| <= r.op.bufferSize
    ensures var raw := [0, 5, code / 256, code % 256] + message + [0];
            && EndedByError(s.op, SenderInput(s, Arrives(raw)).op, code, message)
            && EndedByError(r.op, ReceiverInput(r, Arrives(raw)).op, code, message)
            && ReceiverInput(r, Arrives(raw)).delivered == r.delivered
  {
    var raw := [0, 5, code / 256, code % 256] + message + [0];
    ErrorOnWire(raw, code, message);
    ErrorEndsSender(s, code, message);
    ErrorEndsReceiver(r, code, message);
  }

  // Packets that are never expected

  /** The text of the ERROR for a packet that no operation of the role expects. */
  function Complaint(role: Role, packet: Option<Packet>): string {
    match packet
    case Some(ReadRequest(_)) => if role == Client then "RRQ not expected" else "RRQ packet isn't expected"
    case Some(WriteRequest(_)) => if role == Client then "WRQ not expected" else "WRQ packet isn't expected"
    case Some(OptionsAcknowledgement(_)) => "OACK packet isn't expected"
    case _ => "Invalid packet isn't expected"
  }

  /** A request, bytes that cannot be decoded, and an OACK that reaches a server. */
  predicate NeverExpected(role: Role, packet: Option<Packet>) {
    match packet
    case None => true
    case Some(p) => p.ReadRequest? || p.WriteRequest? || (p.OptionsAcknowledgement? && role == Server)
  }

  lemma UnexpectedComplains(op: OperationState, packet: Option<Packet>)
    requires NeverExpected(op.role, packet)
    ensures Complains(op, op.Received().Unexpected(packet), 4, Complaint(op.role, packet), TransferError)
  {
  }

  lemma UnexpectedAtSender(s: SenderState, packet: Option<Packet>)
    requires NeverExpected(s.op.role, packet)
    ensures var next := s.OnPacket(packet);
            && Complains(s.op, next.op, 4, Complaint(s.op.role, packet), TransferError)
            && SameSender(s, next) && FileReset(next)
  {
    UnexpectedComplains(s.op, packet);
  }

  lemma UnexpectedAtReceiver(r: ReceiverState, packet: Option<Packet>)
    requires NeverExpected(r.op.role, packet)
    ensures var next := r.OnPacket(packet);
            && Complains(r.op, next.op, 4, Complaint(r.op.role, packet), TransferError)
            && SameReceiver(r, next) && next.delivered == r.delivered
  {
    UnexpectedComplains(r.op, packet);
  }

  lemma DataAtSender(s: SenderState, block: uint16, data: Bytes)
    ensures var next := s.OnPacket(Some(Data(block, data)));
            && Complains(
                 s.op, next.op, 4, if s.op.role == Client then "DATA not expected" else "DATA packet isn't expected",
                 TransferError)
            && SameSender(s, next) && FileReset(next)
  {
  }

  lemma AcknowledgementAtReceiver(r: ReceiverState, block: uint16)
    ensures var next := r.OnPacket(Some(Acknowledgement(block)));
            && Complains(r.op, next.op, 4, "ACK not expected", TransferError)
            && SameReceiver(r, next) && next.delivered == r.delivered
  {
  }

  // DATA

  /** The number behind the last one. */
  function Awaited(r: ReceiverState): uint16 {
    if r.lastReceivedBlockNumber == 65535 then 1 else r.lastReceivedBlockNumber + 1
  }

  /** The last block, or the awaited one if it is not longer than agreed. */
  predicate Welcome(r: ReceiverState, block: uint16, data: Bytes) {
    block == r.lastReceivedBlockNumber || (block == Awaited(r) && |data| <= r.receiveDataSize)
  }

  /** A welcome block is acknowledged; a short one ends the operation or starts the dally. */
  predicate AcknowledgesData(r: ReceiverState, next: ReceiverState, block: uint16, data: Bytes) {
    if |data| >= r.receiveDataSize then GoesOn(r.op, next.op, [Acknowledgement(block)], ReceiveTimer)
    else if r.dally then GoesOn(r.op, next.op, [Acknowledgement(block)], DallyTimer)
    else Ends(r.op, next.op, [Acknowledgement(block)], Successful, None)
  }

  lemma AcknowledgedAgain(r: ReceiverState, data: Bytes)
    requires r.op.Live()
    ensures var block := r.lastReceivedBlockNumber;
            var next := r.OnPacket(Some(Data(block, data)));
            AcknowledgesData(r, next, block, data) && next == r.(op := next.op)
  {
  }

  lemma AwaitedIsTaken(r: ReceiverState, data: Bytes)
    requires r.op.Live() && |data| <= r.receiveDataSize && Awaited(r) != r.lastReceivedBlockNumber
    ensures var block := Awaited(r);
            var next := r.OnPacket(Some(Data(block, data)));
            && AcknowledgesData(r, next, block, data)
            && next == r.(op := next.op, delivered := r.delivered + [data], lastReceivedBlockNumber := block)
  {
  }

  lemma UnwelcomeRefused(r: ReceiverState, block: uint16, data: Bytes)
    requires !Welcome(r, block, data)
    ensures var next := r.OnPacket(Some(Data(block, data)));
            && Complains(
                 r.op, next.op, 4, if block == Awaited(r) then "Too much data" else "Block Number not expected",
                 TransferError)
            && next == r.(op := next.op)
  {
  }

  /**
   * The receiver waits for the successor of the last number. It takes exactly that block, and only if it is not longer
   * than agreed; it acknowledges that block and the last one; every other block ends it with an ERROR.
   */
  lemma DataAtReceiver(r: ReceiverState, block: uint16, data: Bytes)
    requires r.op.Live()
    ensures var next := r.OnPacket(Some(Data(block, data)));
            var last := r.lastReceivedBlockNumber;
            && next == r.(
                 op := next.op, delivered := next.delivered, lastReceivedBlockNumber := next.lastReceivedBlockNumber)
            && SameOperation(r.op, next.op) && next.op.receiveTimeout == r.op.receiveTimeout
            && next.delivered ==
                 (if block != last && Welcome(r, block, data) then r.delivered + [data] else r.delivered)
            && next.lastReceivedBlockNumber == (if Welcome(r, block, data) then block else last)
            && (if Welcome(r, block, data) then AcknowledgesData(r, next, block, data)
                else
                  Complains(
                    r.op, next.op, 4, if block == Awaited(r) then "Too much data" else "Block Number not expected",
                    TransferError))
  {
    DataKeepsOperation(r.(op := r.op.Received()), block, data);
    if !Welcome(r, block, data) {
      UnwelcomeRefused(r, block, data);
    } else if block == r.lastReceivedBlockNumber {
      AcknowledgedAgain(r, data);
    } else {
      AwaitedIsTaken(r, data);
    }
  }

  lemma DataKeepsOperation(r: ReceiverState, block: uint16, data: Bytes)
    ensures var next := r.OnData(block, data).op;
            SameOperation(r.op, next) && next.receiveTimeout == r.op.receiveTimeout
  {
  }

  // ACK

  /**
   * The sender ignores the number it has accepted last, takes exactly the number it has sent last, and then sends the
   * next data of the file under the successor, or is done; every other number ends it with an ERROR.
   */
  lemma AcknowledgementAtSender(s: SenderState, block: uint16)
    requires s.op.Live()
    ensures var next := s.OnPacket(Some(Acknowledgement(block)));
            var last := s.lastTransmittedBlockNumber;
            var following := if last == 65535 then 1 else last + 1;
            var from := Min(s.position, |s.file|);
            var data := s.file[from..Min(from + s.transmitDataSize, |s.file|)];
            var current := block != s.lastReceivedBlockNumber && block == last;
            && SameSender(s, next) && FileReset(next) && next.transmitDataSize == s.transmitDataSize
            && next.op.receiveTimeout == s.op.receiveTimeout
            && next.lastReceivedBlockNumber == (if current then block else s.lastReceivedBlockNumber)
            && (block == s.lastReceivedBlockNumber ==>
                  GoesOn(s.op, next.op, [], ReceiveTimer) && next == s.(op := next.op))
            && (block != s.lastReceivedBlockNumber && block != last ==>
                  Complains(s.op, next.op, 4, "Wrong block number", TransferError))
            && (current && s.lastDataPacketTransmitted ==> Ends(s.op, next.op, [], Successful, None))
            && (current && !s.lastDataPacketTransmitted ==>
                  && GoesOn(s.op, next.op, [Data(following, data)], ReceiveTimer)
                  && next.lastTransmittedBlockNumber == following
                  && next.position == Min(from + s.transmitDataSize, |s.file|)
                  && (next.lastDataPacketTransmitted <==> |data| < s.transmitDataSize))
  {
  }

  // Timers

  /** The dally ends with success; otherwise the last packet is sent once more, as long as there are retries left. */
  predicate TimeoutSeen(op: OperationState, next: OperationState) {
    if op.timer == DallyTimer then Ends(op, next, [], Successful, None)
    else if op.counter <= op.retries then
      && next == op.(sent := next.sent, counter := op.counter + 1)
      && (op.stored.Some? ==> next.sent == op.sent + [op.stored.value])
    else Ends(op, next, [], CommunicationError, None)
  }

  lemma TimeoutAtSender(s: SenderState)
    requires s.op.Live() && s.op.timer != DallyTimer
    ensures TimeoutSeen(s.op, s.OnTimeout().op) && FileReset(s.OnTimeout())
    ensures s.OnTimeout().op.completions == [] ==> s.OnTimeout() == s.(op := s.OnTimeout().op)
    ensures s.OnTimeout() == s.(op := s.OnTimeout().op, position := s.OnTimeout().position)
  {
  }

  lemma TimeoutAtReceiver(r: ReceiverState)
    requires r.op.Live()
    ensures TimeoutSeen(r.op, r.OnTimeout().op) && r.OnTimeout() == r.(op := r.OnTimeout().op)
  {
  }
}
