/** The six kinds of TFTP datagrams as values, their bytes on the wire, and the dispatch of received bytes. */
module Packets {
  import opened Basics
  import opened OptionLists

  const HEADER_SIZE := 2
  const DEFAULT_DATA_SIZE: uint16 := 512
  const DATA_HEADER_SIZE: uint16 := 4
  const DEFAULT_MAX_PACKET_SIZE := 516

  const ILLEGAL_OPERATION: uint16 := 4
  const DISK_FULL: uint16 := 3
  const OPTION_REFUSED: uint16 := 8

  datatype TransferMode = Octet | Netascii | Mail | InvalidMode

  datatype PacketType =
    | ReadRequestType | WriteRequestType | DataType | AcknowledgementType | ErrorType | OptionsAcknowledgementType
    | InvalidType

  datatype Request = Request(filename: Bytes, mode: TransferMode, options: Options)

  datatype Packet =
    | ReadRequest(request: Request)
    | WriteRequest(request: Request)
    | Data(block: uint16, data: Bytes)
    | Acknowledgement(block: uint16)
    | Error(code: uint16, message: Bytes)
    | OptionsAcknowledgement(options: Options)

  function TypeOf(packet: Packet): PacketType {
    match packet
    case ReadRequest(_) => ReadRequestType
    case WriteRequest(_) => WriteRequestType
    case Data(_, _) => DataType
    case Acknowledgement(_) => AcknowledgementType
    case Error(_, _) => ErrorType
    case OptionsAcknowledgement(_) => OptionsAcknowledgementType
  }

  function Opcode(packetType: PacketType): uint16 {
    match packetType
    case ReadRequestType => 1
    case WriteRequestType => 2
    case DataType => 3
    case AcknowledgementType => 4
    case ErrorType => 5
    case OptionsAcknowledgementType => 6
    case InvalidType => 0xFF
  }

  /** Two bytes, most significant first. */
  function PutInt(value: uint16): (raw: Bytes)
    ensures |raw| == 2
  {
    [value / 0x100, value % 0x100]
  }

  function GetInt(raw: Bytes): uint16
    requires |raw| >= 2
  {
    (raw[0] as int) * 0x100 + raw[1]
  }

  function ModeName(mode: TransferMode): Bytes {
    match mode
    case Octet => Ascii("OCTET")
    case Netascii => Ascii("NETASCII")
    case Mail => Ascii("MAIL")
    case InvalidMode => []
  }

  function ToUpper(text: Bytes): (upper: Bytes)
    ensures |upper| == |text|
  {
    seq(|text|, i requires 0 <= i < |text| => if 97 <= text[i] <= 122 then text[i] - 32 else text[i])
  }

  function DecodeMode(text: Bytes): TransferMode {
    var upper := ToUpper(text);
    if upper == Ascii("OCTET") then Octet
    else if upper == Ascii("NETASCII") then Netascii
    else if upper == Ascii("MAIL") then Mail
    else InvalidMode
  }

  // Bytes of a packet

  ghost function EncodeRequest(request: Request): Bytes {
    request.filename + [0] + ModeName(request.mode) + [0] + Raw(request.options)
  }

  ghost function Body(packet: Packet): Bytes {
    match packet
    case ReadRequest(request) => EncodeRequest(request)
    case WriteRequest(request) => EncodeRequest(request)
    case Data(block, data) => PutInt(block) + data
    case Acknowledgement(block) => PutInt(block)
    case Error(code, message) => PutInt(code) + message + [0]
    case OptionsAcknowledgement(options) => Raw(options)
  }

  ghost function Encode(packet: Packet): Bytes {
    PutInt(Opcode(TypeOf(packet))) + Body(packet)
  }

  // Packet of the bytes

  function TypeOfRaw(raw: Bytes): PacketType {
    if |raw| < HEADER_SIZE then InvalidType
    else
      match GetInt(raw)
      case 1 => ReadRequestType
      case 2 => WriteRequestType
      case 3 => DataType
      case 4 => AcknowledgementType
      case 5 => ErrorType
      case 6 => OptionsAcknowledgementType
      case _ => InvalidType
  }

  function DecodeRequest(body: Bytes): Option<Request> {
    if body == [] || body[|body| - 1] != 0 then None
    else
      match TakeField(body)
      case None => None
      case Some(filename) =>
        match TakeField(filename.rest)
        case None => None
        case Some(mode) =>
          match Parse(mode.rest)
          case None => None
          case Some(options) => Some(Request(filename.text, DecodeMode(mode.text), options))
  }

  function DecodeData(body: Bytes): Option<Packet> {
    if |body| < 2 then None else Some(Data(GetInt(body), body[2..]))
  }

  function DecodeAcknowledgement(body: Bytes): Option<Packet> {
    if |body| != 2 then None else Some(Acknowledgement(GetInt(body)))
  }

  function DecodeError(body: Bytes): Option<Packet> {
    if |body| < 3 || body[|body| - 1] != 0 then None else Some(Error(GetInt(body), body[2..|body| - 1]))
  }

  function DecodeOptionsAcknowledgement(body: Bytes): Option<Packet> {
    if body == [] then None
    else
      match Parse(body)
      case None => None
      case Some(options) => Some(OptionsAcknowledgement(options))
  }

  function DecodeBody(packetType: PacketType, body: Bytes): Option<Packet> {
    match packetType
    case ReadRequestType =>
      (match DecodeRequest(body) case None => None case Some(request) => Some(ReadRequest(request)))
    case WriteRequestType =>
      (match DecodeRequest(body) case None => None case Some(request) => Some(WriteRequest(request)))
    case DataType => DecodeData(body)
    case AcknowledgementType => DecodeAcknowledgement(body)
    case ErrorType => DecodeError(body)
    case OptionsAcknowledgementType => DecodeOptionsAcknowledgement(body)
    case InvalidType => None
  }

  /**
   * The handler that received bytes reach: the one for the kind of the decoded packet, or, for `None`, the handler
   * for invalid packets.
   */
  function Dispatch(raw: Bytes): Option<Packet> {
    if |raw| < HEADER_SIZE then None else DecodeBody(TypeOfRaw(raw), raw[HEADER_SIZE..])
  }

  // Round trips

  /** What a peer can put on the wire without losing it: an OACK needs an option, texts need to be free of NUL bytes. */
  predicate Encodable(packet: Packet) {
    match packet
    case ReadRequest(request) => NulFree(request.filename) && Printable(request.options)
    case WriteRequest(request) => NulFree(request.filename) && Printable(request.options)
    case OptionsAcknowledgement(options) => options != map[] && Printable(options)
    case _ => true
  }

  lemma ModeRoundTrip(mode: TransferMode)
    ensures NulFree(ModeName(mode)) && DecodeMode(ModeName(mode)) == mode
  {
    var octet, netascii, mail := Ascii("OCTET"), Ascii("NETASCII"), Ascii("MAIL");
    assert octet == [79, 67, 84, 69, 84] && ToUpper(octet) == octet;
    assert netascii == [78, 69, 84, 65, 83, 67, 73, 73] && ToUpper(netascii) == netascii;
    assert mail == [77, 65, 73, 76] && ToUpper(mail) == mail;
  }

  lemma RawNonEmpty(options: Options)
    requires options != map[]
    ensures Raw(options) != []
  {
    FirstExists(options.Keys);
  }

  lemma {:induction false} RawEndsInNul(options: Options)
    requires options != map[]
    ensures Raw(options) != [] && Raw(options)[|Raw(options)| - 1] == 0
    decreases |options|
  {
    var name := FirstName(options.Keys);
    RawUnfold(options, name);
    if options - {name} != map[] {
      RawEndsInNul(options - {name});
    }
  }

  lemma RequestRoundTrip(request: Request)
    requires NulFree(request.filename) && Printable(request.options)
    ensures DecodeRequest(EncodeRequest(request)) == Some(request)
  {
    var Request(filename, mode, options) := request;
    var body := EncodeRequest(request);
    var afterName := ModeName(mode) + [0] + Raw(options);
    assert body == filename + [0] + afterName;
    ModeRoundTrip(mode);
    TakeFieldOf(filename, afterName);
    TakeFieldOf(ModeName(mode), Raw(options));
    ParseRaw(options);
    if options != map[] {
      RawEndsInNul(options);
    }
    LastByte(filename + [0] + ModeName(mode) + [0], Raw(options));
  }

  lemma AcknowledgementLength(block: uint16)
    ensures |Encode(Acknowledgement(block))| == 4
  {
  }

  /** Every packet is decoded from its own bytes to equal fields, and so reaches exactly its own handler. */
  lemma RoundTrip(packet: Packet)
    requires Encodable(packet)
    ensures Dispatch(Encode(packet)) == Some(packet)
  {
    var raw, body := Encode(packet), Body(packet);
    assert raw[HEADER_SIZE..] == body;
    assert TypeOfRaw(raw) == TypeOf(packet);
    match packet
    case ReadRequest(request) => RequestRoundTrip(request);
    case WriteRequest(request) => RequestRoundTrip(request);
    case Data(block, data) => assert body[2..] == data;
    case Acknowledgement(block) =>
    case Error(code, message) => assert body[2..|body| - 1] == message;
    case OptionsAcknowledgement(options) =>
      RawNonEmpty(options);
      ParseRaw(options);
  }

  lemma IntBytes(raw: Bytes)
    requires |raw| >= 2
    ensures PutInt(GetInt(raw)) == raw[..2]
  {
  }

  lemma EncodeDecodedData(body: Bytes)
    requires DecodeData(body).Some?
    ensures Body(DecodeData(body).value) == body
  {
    IntBytes(body);
  }

  lemma EncodeDecodedAcknowledgement(body: Bytes)
    requires DecodeAcknowledgement(body).Some?
    ensures Body(DecodeAcknowledgement(body).value) == body
  {
    IntBytes(body);
  }

  lemma EncodeDecodedError(body: Bytes)
    requires DecodeError(body).Some?
    ensures Body(DecodeError(body).value) == body
  {
    IntBytes(body);
    assert body == body[..2] + body[2..|body| - 1] + [body[|body| - 1]];
  }

  lemma TypeOfRawBytes(raw: Bytes)
    requires |raw| >= HEADER_SIZE
    ensures TypeOfRaw(raw) != InvalidType <==> raw[0] == 0 && 1 <= raw[1] <= 6
    ensures TypeOfRaw(raw) != InvalidType ==>
      Opcode(TypeOfRaw(raw)) == raw[1] && raw == PutInt(raw[1]) + raw[HEADER_SIZE..]
  {
  }

  /** Accepted DATA, ACK and ERROR datagrams are exactly the encodings: encoding what was decoded gives them back. */
  lemma EncodeDispatch(raw: Bytes)
    requires Dispatch(raw).Some? && TypeOfRaw(raw) in {DataType, AcknowledgementType, ErrorType}
    ensures Encode(Dispatch(raw).value) == raw
  {
    var body := raw[HEADER_SIZE..];
    TypeOfRawBytes(raw);
    match TypeOfRaw(raw)
    case DataType => EncodeDecodedData(body);
    case AcknowledgementType => EncodeDecodedAcknowledgement(body);
    case ErrorType => EncodeDecodedError(body);
  }

  predicate RequestTerminated(body: Bytes) {
    body != [] && body[|body| - 1] == 0 && NulCount(body) >= 2 && NulCount(body) % 2 == 0
  }

  /** The bodies each decoder accepts, said without decoding. */
  predicate Acceptable(packetType: PacketType, body: Bytes) {
    match packetType
    case ReadRequestType => RequestTerminated(body)
    case WriteRequestType => RequestTerminated(body)
    case DataType => |body| >= 2
    case AcknowledgementType => |body| == 2
    case ErrorType => |body| >= 3 && body[|body| - 1] == 0
    case OptionsAcknowledgementType => body != [] && WellTerminated(body)
    case InvalidType => false
  }

  lemma SameRequestTermination(body: Bytes, rest: Bytes)
    requires body != [] && body[|body| - 1] == if rest == [] then 0 else rest[|rest| - 1]
    requires NulCount(body) == NulCount(rest) + 2
    ensures RequestTerminated(body) <==> WellTerminated(rest)
  {
  }

  lemma FewNuls(body: Bytes, filename: Field)
    requires TakeField(body) == Some(filename) && TakeField(filename.rest).None?
    ensures NulCount(body) == 1
  {
    NulCountField(filename.text, filename.rest);
    NulCountFree(filename.rest);
  }

  lemma RequestSucceeds(body: Bytes)
    ensures DecodeRequest(body).Some? <==> RequestTerminated(body)
  {
    if TakeField(body).None? {
      NulCountFree(body);
    } else {
      var filename := TakeField(body).value;
      if TakeField(filename.rest).None? {
        FewNuls(body, filename);
      } else {
        var mode := TakeField(filename.rest).value;
        NulCountStep(body, filename, mode);
        LastByteStep(body, filename, mode);
        SameRequestTermination(body, mode.rest);
        ParseSucceeds(mode.rest);
      }
    }
  }

  lemma OptionsSucceed(body: Bytes)
    ensures DecodeOptionsAcknowledgement(body).Some? <==> body != [] && WellTerminated(body)
  {
    ParseSucceeds(body);
  }

  lemma DecodeBodyExactly(packetType: PacketType, body: Bytes)
    ensures DecodeBody(packetType, body).Some? <==> Acceptable(packetType, body)
  {
    match packetType
    case ReadRequestType => RequestSucceeds(body);
    case WriteRequestType => RequestSucceeds(body);
    case OptionsAcknowledgementType => OptionsSucceed(body);
    case _ =>
  }

  lemma DecodeBodyType(packetType: PacketType, body: Bytes)
    ensures DecodeBody(packetType, body).Some? ==> TypeOf(DecodeBody(packetType, body).value) == packetType
  {
  }

  /**
   * The bytes that reach a handler for decoded packets are exactly the well-formed ones, and they reach the handler
   * of their opcode; all others reach the handler for invalid packets.
   */
  lemma DispatchExactly(raw: Bytes)
    ensures Dispatch(raw).Some? <==> |raw| >= HEADER_SIZE && Acceptable(TypeOfRaw(raw), raw[HEADER_SIZE..])
    ensures Dispatch(raw).Some? ==> TypeOf(Dispatch(raw).value) == TypeOfRaw(raw)
  {
    if |raw| >= HEADER_SIZE {
      DecodeBodyExactly(TypeOfRaw(raw), raw[HEADER_SIZE..]);
      DecodeBodyType(TypeOfRaw(raw), raw[HEADER_SIZE..]);
    }
  }
}
