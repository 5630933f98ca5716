/**
 * What client and server operations share: the socket, the stored packet with its transmit counter, the one timer,
 * and the completion of the operation. The two base classes of the source differ only in how they report a received
 * ERROR and in some texts.
 */
module Operations {
  import opened Basics
  import opened Packets
  import opened Negotiation

  datatype Role = Client | Server

  /** The armed timer: for the answer to a request, for the next packet, for a repeated last packet, or none. */
  datatype Timer = FirstTimer | ReceiveTimer | DallyTimer | Stopped

  datatype ErrorInformation = ErrorInformation(code: uint16, message: Bytes)

  function ErrorPacket(code: uint16, text: string): Packet {
    Error(code, Ascii(text))
  }

  /**
   * The fields of an operation. `sent` is everything handed to the socket, `pending` the number of started receive
   * operations, and `completions` the calls of the completion handler.
   */
  datatype OperationState = OperationState(
    role: Role,
    retries: uint16,
    receiveTimeout: int,
    bufferSize: nat,
    stored: Option<Packet>,
    counter: nat,
    sent: seq<Packet>,
    timer: Timer,
    pending: nat,
    completions: seq<TransferStatus>,
    errorInformation: Option<ErrorInformation>)
  {
    predicate Open() {
      completions == []
    }

    function Send(packet: Packet): OperationState {
      this.(stored := Some(packet), counter := 1, sent := sent + [packet])
    }

    /** Starts a receive operation and arms a timer, which replaces an armed one. */
    function Await(timer: Timer): OperationState {
      this.(pending := pending + 1, timer := timer)
    }

    function Finish(status: TransferStatus, information: Option<ErrorInformation>): OperationState {
      this.(timer := Stopped, pending := 0, completions := completions + [status], errorInformation := information)
    }

    /** Sends an ERROR and finishes. */
    function Abort(code: uint16, text: string, status: TransferStatus): OperationState {
      Send(ErrorPacket(code, text)).Finish(status, Some(ErrorInformation(code, Ascii(text))))
    }

    /** The receive operation has completed and its handler runs. */
    function Received(): OperationState {
      this.(pending := if pending > 0 then pending - 1 else 0)
    }

    /** The three timeout handlers. */
    function Timeout(): OperationState {
      if timer == DallyTimer then Finish(Successful, None)
      else if counter > retries then Finish(CommunicationError, None)
      else this.(sent := sent + (if stored.Some? then [stored.value] else []), counter := counter + 1)
    }

    /** The handler for a received ERROR. */
    function ReceivedError(code: uint16, message: Bytes): OperationState {
      var request := stored.Some? && (stored.value.ReadRequest? || stored.value.WriteRequest?);
      var oack := stored.Some? && stored.value.OptionsAcknowledgement?;
      var status :=
        if role == Client then
          if request && code == OPTION_REFUSED then OptionNegotiationError
          else if request then RequestError
          else TransferError
        else if oack && code == OPTION_REFUSED then OptionNegotiationError
        else TransferError;
      Finish(status, Some(ErrorInformation(code, message)))
    }

    /** The handlers for packets that are unexpected in every operation of this role, and for invalid packets. */
    function Unexpected(packet: Option<Packet>): OperationState {
      match packet
      case Some(ReadRequest(_)) =>
        Abort(
          ILLEGAL_OPERATION, if role == Client then "RRQ not expected" else "RRQ packet isn't expected", TransferError)
      case Some(WriteRequest(_)) =>
        Abort(
          ILLEGAL_OPERATION, if role == Client then "WRQ not expected" else "WRQ packet isn't expected", TransferError)
      case Some(OptionsAcknowledgement(_)) =>
        Abort(ILLEGAL_OPERATION, "OACK packet isn't expected", TransferError)
      case _ =>
        Abort(ILLEGAL_OPERATION, "Invalid packet isn't expected", TransferError)
    }

    // Life cycle

    /** The last `counter` packets on the wire are the stored one. */
    ghost predicate Repeated() {
      && stored.Some?
      && 1 <= counter <= retries + 1
      && counter <= |sent|
      && forall i :: |sent| - counter <= i < |sent| ==> sent[i] == stored.value
    }

    /** One receive operation is pending, one timer is armed, and the operation is not completed. */
    ghost predicate Live() {
      completions == [] && pending == 1 && timer != Stopped && Repeated()
    }

    /** Completed once; nothing is pending and nothing is armed. */
    ghost predicate Ended() {
      |completions| == 1 && pending == 0 && timer == Stopped
    }

    /** A handler of a live operation runs. */
    ghost predicate Handling() {
      completions == [] && pending == 0
    }

    lemma TimeoutLivesOrEnds()
      requires Live()
      ensures Timeout().Live() || Timeout().Ended()
      ensures Timeout().Live() ==> Timeout().counter == counter + 1 && Timeout().sent == sent + [stored.value]
    {
    }
  }

  function Idle(role: Role, retries: uint16, receiveTimeout: int, bufferSize: nat): OperationState {
    OperationState(role, retries, receiveTimeout, bufferSize, None, 0, [], Stopped, 0, [], None)
  }

  /** The timer expires a number of times in a row. */
  function Repeat(op: OperationState, times: nat): OperationState {
    if times == 0 then op else Repeat(op, times - 1).Timeout()
  }

  /** The size of the receive buffer for a configuration, as an unsigned 16-bit integer. */
  function BufferSize(c: Configuration): nat {
    (DATA_HEADER_SIZE + Max(DEFAULT_DATA_SIZE, c.blockSize.GetOr(DEFAULT_DATA_SIZE))) % 0x1_0000
  }

  /** What a receive operation hands to the packet handler: a longer datagram is cut off at the size of the buffer. */
  function Truncated(raw: Bytes, bufferSize: nat): Bytes {
    if |raw| <= bufferSize then raw else raw[..bufferSize]
  }

  /** A DATA packet with up to the configured block size fits exactly if the 16-bit size has not wrapped. */
  lemma BufferFits(c: Configuration, packet: Packet)
    requires packet.Data? && |packet.data| == Max(DEFAULT_DATA_SIZE, c.blockSize.GetOr(DEFAULT_DATA_SIZE))
    ensures Truncated(Encode(packet), BufferSize(c)) == Encode(packet)
      <==> c.blockSize.GetOr(DEFAULT_DATA_SIZE) <= 65531
    ensures c.blockSize.GetOr(DEFAULT_DATA_SIZE) <= 65531 ==>
      BufferSize(c) == DATA_HEADER_SIZE + Max(DEFAULT_DATA_SIZE, c.blockSize.GetOr(DEFAULT_DATA_SIZE))
  {
    assert |Encode(packet)| == 4 + |packet.data|;
  }

  /** The base class: every method changes the fields the way the function on values says. */
  class Operation {
    const role: Role
    const retries: uint16
    var receiveTimeout: int
    var bufferSize: nat
    var stored: Option<Packet>
    var counter: nat
    var sent: seq<Packet>
    var timer: Timer
    var pending: nat
    var completions: seq<TransferStatus>
    var errorInformation: Option<ErrorInformation>

    ghost function State(): OperationState
      reads this
    {
      OperationState(
        role, retries, receiveTimeout, bufferSize, stored, counter, sent, timer, pending, completions, errorInformation)
    }

    constructor (role: Role, retries: uint16, receiveTimeout: int)
      ensures State() == Idle(role, retries, receiveTimeout, DEFAULT_MAX_PACKET_SIZE)
    {
      this.role, this.retries, this.receiveTimeout := role, retries, receiveTimeout;
      bufferSize := DEFAULT_MAX_PACKET_SIZE;
      stored, counter, sent := None, 0, [];
      timer, pending, completions, errorInformation := Stopped, 0, [], None;
    }

    method MaxReceivePacketSize(size: uint16)
      modifies this
      ensures State() == old(State()).(bufferSize := size)
    {
      bufferSize := size;
    }

    method ReceiveTimeout(seconds: int)
      modifies this
      ensures State() == old(State()).(receiveTimeout := seconds)
    {
      receiveTimeout := seconds;
    }

    method Send(packet: Packet)
      modifies this
      ensures State() == old(State()).Send(packet)
    {
      counter := 1;
      stored := Some(packet);
      sent := sent + [packet];
    }

    method ReceiveFirst()
      modifies this
      ensures State() == old(State()).Await(FirstTimer)
    {
      pending := pending + 1;
      timer := FirstTimer;
    }

    method Receive()
      modifies this
      ensures State() == old(State()).Await(ReceiveTimer)
    {
      pending := pending + 1;
      timer := ReceiveTimer;
    }

    method ReceiveDally()
      modifies this
      ensures State() == old(State()).Await(DallyTimer)
    {
      pending := pending + 1;
      timer := DallyTimer;
    }

    method Finished(status: TransferStatus, information: Option<ErrorInformation>)
      modifies this
      ensures State() == old(State()).Finish(status, information)
    {
      errorInformation := information;
      timer := Stopped;
      pending := 0;
      completions := completions + [status];
    }

    method ReceiveCompleted()
      modifies this
      ensures State() == old(State()).Received()
    {
      if pending > 0 {
        pending := pending - 1;
      }
    }

    method Abort(code: uint16, text: string, status: TransferStatus)
      modifies this
      ensures State() == old(State()).Abort(code, text, status)
    {
      Send(ErrorPacket(code, text));
      Finished(status, Some(ErrorInformation(code, Ascii(text))));
    }

    method TimeoutHandler()
      modifies this
      ensures State() == old(State()).Timeout()
    {
      if timer == DallyTimer {
        Finished(Successful, None);
        return;
      }
      if counter > retries {
        Finished(CommunicationError, None);
        return;
      }
      if stored.Some? {
        sent := sent + [stored.value];
      }
      counter := counter + 1;
    }

    method ErrorHandler(code: uint16, message: Bytes)
      modifies this
      ensures State() == old(State()).ReceivedError(code, message)
    {
      var information := Some(ErrorInformation(code, message));
      match role {
        case Client =>
          if stored.Some? && (stored.value.ReadRequest? || stored.value.WriteRequest?) {
            Finished(if code == OPTION_REFUSED then OptionNegotiationError else RequestError, information);
          } else {
            Finished(TransferError, information);
          }
        case Server =>
          if stored.Some? && stored.value.OptionsAcknowledgement? && code == OPTION_REFUSED {
            Finished(OptionNegotiationError, information);
          } else {
            Finished(TransferError, information);
          }
      }
    }

    method UnexpectedHandler(packet: Option<Packet>)
      modifies this
      ensures State() == old(State()).Unexpected(packet)
    {
      match packet {
        case Some(ReadRequest(_)) =>
          Abort(
            ILLEGAL_OPERATION, if role == Client then "RRQ not expected" else "RRQ packet isn't expected",
            TransferError);
        case Some(WriteRequest(_)) =>
          Abort(
            ILLEGAL_OPERATION, if role == Client then "WRQ not expected" else "WRQ packet isn't expected",
            TransferError);
        case Some(OptionsAcknowledgement(_)) =>
          Abort(ILLEGAL_OPERATION, "OACK packet isn't expected", TransferError);
        case _ =>
          Abort(ILLEGAL_OPERATION, "Invalid packet isn't expected", TransferError);
      }
    }
  }
}
