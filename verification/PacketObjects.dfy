/**
 * The packet classes: objects whose fields are filled from received bytes, and which write themselves into a buffer
 * of the right size.
 */
module PacketObjects {
  import opened Basics
  import opened OptionLists
  import opened Packets

  /** Copies bytes to a position of a buffer. */
  method Copy(raw: array<byte>, offset: nat, bytes: Bytes)
    requires offset + |bytes| <= raw.Length
    modifies raw
    ensures raw[..offset + |bytes|] == old(raw[..offset]) + bytes
    ensures raw[offset + |bytes|..] == old(raw[offset + |bytes|..])
  {
    var i := 0;
    while i < |bytes|
      invariant 0 <= i <= |bytes|
      invariant raw[..offset + i] == old(raw[..offset]) + bytes[..i]
      invariant raw[offset + i..] == old(raw[offset + i..])
    {
      raw[offset + i] := bytes[i];
      i := i + 1;
    }
    assert bytes[..i] == bytes;
  }

  /** Copies a text and ends it with a NUL byte. */
  method CopyTerminated(raw: array<byte>, offset: nat, text: Bytes)
    requires offset + |text| + 1 <= raw.Length
    modifies raw
    ensures raw[..offset + |text| + 1] == old(raw[..offset]) + (text + [0])
  {
    Copy(raw, offset, text);
    raw[offset + |text|] := 0;
  }

  /** Writes two bytes, most significant first. */
  method SetInt(raw: array<byte>, offset: nat, value: uint16)
    requires offset + 2 <= raw.Length
    modifies raw
    ensures raw[..offset + 2] == old(raw[..offset]) + PutInt(value)
    ensures raw[offset + 2..] == old(raw[offset + 2..])
  {
    raw[offset] := value / 0x100;
    raw[offset + 1] := value % 0x100;
  }

  /** A received packet has the opcode of its class. */
  predicate HeaderValid(packetType: PacketType, raw: Bytes) {
    |raw| >= HEADER_SIZE && packetType != InvalidType && GetInt(raw) == Opcode(packetType)
  }

  class DataPacket {
    var blockNumber: uint16
    var data: Bytes

    ghost function Value(): Packet
      reads this
    {
      Data(blockNumber, data)
    }

    constructor (blockNumber: uint16, data: Bytes)
      ensures Value() == Data(blockNumber, data)
    {
      this.blockNumber, this.data := blockNumber, data;
    }

    method EncodePacket() returns (raw: array<byte>)
      ensures fresh(raw) && raw[..] == Encode(Value())
    {
      raw := new byte[DATA_HEADER_SIZE + |data|];
      SetInt(raw, 0, Opcode(DataType));
      SetInt(raw, 2, blockNumber);
      Copy(raw, 4, data);
      assert raw[..] == raw[..4 + |data|];
    }

    method Decode(raw: Bytes) returns (valid: bool)
      modifies this
      ensures valid <==> HeaderValid(DataType, raw) && DecodeData(raw[HEADER_SIZE..]).Some?
      ensures valid ==> DecodeData(raw[HEADER_SIZE..]) == Some(Value())
    {
      if !HeaderValid(DataType, raw) || |raw| < 4 {
        return false;
      }
      var remaining := raw[HEADER_SIZE..];
      blockNumber := GetInt(remaining);
      data := remaining[2..];
      return true;
    }
  }

  class AcknowledgementPacket {
    var blockNumber: uint16

    ghost function Value(): Packet
      reads this
    {
      Acknowledgement(blockNumber)
    }

    constructor (blockNumber: uint16)
      ensures Value() == Acknowledgement(blockNumber)
    {
      this.blockNumber := blockNumber;
    }

    method EncodePacket() returns (raw: array<byte>)
      ensures fresh(raw) && raw[..] == Encode(Value())
    {
      raw := new byte[4];
      SetInt(raw, 0, Opcode(AcknowledgementType));
      SetInt(raw, 2, blockNumber);
      assert raw[..] == raw[..4];
    }

    method Decode(raw: Bytes) returns (valid: bool)
      modifies this
      ensures valid <==> HeaderValid(AcknowledgementType, raw) && DecodeAcknowledgement(raw[HEADER_SIZE..]).Some?
      ensures valid ==> DecodeAcknowledgement(raw[HEADER_SIZE..]) == Some(Value())
    {
      if !HeaderValid(AcknowledgementType, raw) || |raw| != 4 {
        return false;
      }
      blockNumber := GetInt(raw[HEADER_SIZE..]);
      return true;
    }
  }

  lemma ErrorEncoded(code: uint16, message: Bytes)
    ensures Encode(Error(code, message)) == PutInt(Opcode(ErrorType)) + PutInt(code) + (message + [0])
  {
  }

  class ErrorPacket {
    var errorCode: uint16
    var errorMessage: Bytes

    ghost function Value(): Packet
      reads this
    {
      Error(errorCode, errorMessage)
    }

    constructor (errorCode: uint16, errorMessage: Bytes)
      ensures Value() == Error(errorCode, errorMessage)
    {
      this.errorCode, this.errorMessage := errorCode, errorMessage;
    }

    method EncodePacket() returns (raw: array<byte>)
      ensures fresh(raw) && raw[..] == Encode(Value())
    {
      raw := new byte[5 + |errorMessage|];
      SetInt(raw, 0, Opcode(ErrorType));
      SetInt(raw, 2, errorCode);
      CopyTerminated(raw, 4, errorMessage);
      assert raw[..] == raw[..5 + |errorMessage|];
      ErrorEncoded(errorCode, errorMessage);
    }

    /** The code is assigned before the end of the message is checked. */
    method Decode(raw: Bytes) returns (valid: bool)
      modifies this
      ensures valid <==> HeaderValid(ErrorType, raw) && DecodeError(raw[HEADER_SIZE..]).Some?
      ensures valid ==> DecodeError(raw[HEADER_SIZE..]) == Some(Value())
    {
      if !HeaderValid(ErrorType, raw) || |raw| < 5 {
        return false;
      }
      errorCode := GetInt(raw[HEADER_SIZE..]);
      var message := raw[4..];
      if message[|message| - 1] != 0 {
        return false;
      }
      errorMessage := message[..|message| - 1];
      assert raw[HEADER_SIZE..][2..|raw| - 3] == errorMessage;
      return true;
    }
  }

  class OptionsAcknowledgementPacket {
    var options: Options

    ghost function Value(): Packet
      reads this
    {
      OptionsAcknowledgement(options)
    }

    constructor (options: Options)
      ensures Value() == OptionsAcknowledgement(options)
    {
      this.options := options;
    }

    method EncodePacket() returns (raw: array<byte>)
      ensures fresh(raw) && raw[..] == Encode(Value())
    {
      var rawOptions := RawOptions(options);
      raw := Append(rawOptions);
    }

    /** The header, followed by the printed options. */
    static method Append(rawOptions: Bytes) returns (raw: array<byte>)
      ensures fresh(raw) && raw[..] == PutInt(Opcode(OptionsAcknowledgementType)) + rawOptions
    {
      raw := new byte[HEADER_SIZE + |rawOptions|];
      SetInt(raw, 0, Opcode(OptionsAcknowledgementType));
      Copy(raw, HEADER_SIZE, rawOptions);
      assert raw[..] == raw[..HEADER_SIZE + |rawOptions|];
    }

    method Decode(raw: Bytes) returns (valid: bool)
      modifies this
      ensures valid <==>
        HeaderValid(OptionsAcknowledgementType, raw) && DecodeOptionsAcknowledgement(raw[HEADER_SIZE..]).Some?
      ensures valid ==> DecodeOptionsAcknowledgement(raw[HEADER_SIZE..]) == Some(Value())
    {
      if !HeaderValid(OptionsAcknowledgementType, raw) || |raw| <= HEADER_SIZE {
        return false;
      }
      var parsed := ParseOptions(raw[HEADER_SIZE..]);
      if parsed.None? {
        return false;
      }
      options := parsed.value;
      return true;
    }
  }

  /** The common class of read and write requests. */
  class RequestPacket {
    const packetType: PacketType
    var filename: Bytes
    var mode: TransferMode
    var options: Options

    ghost predicate Valid() {
      packetType in {ReadRequestType, WriteRequestType}
    }

    ghost function RequestValue(): Request
      reads this
    {
      Request(filename, mode, options)
    }

    ghost function Value(): Packet
      reads this
    {
      if packetType == ReadRequestType then ReadRequest(RequestValue()) else WriteRequest(RequestValue())
    }

    constructor (packetType: PacketType, filename: Bytes, mode: TransferMode, options: Options)
      requires packetType in {ReadRequestType, WriteRequestType}
      ensures Valid() && this.packetType == packetType && RequestValue() == Request(filename, mode, options)
    {
      this.packetType := packetType;
      this.filename, this.mode, this.options := filename, mode, options;
    }

    method EncodePacket() returns (raw: array<byte>)
      requires Valid()
      ensures fresh(raw) && raw[..] == Encode(Value())
    {
      var rawOptions := RawOptions(options);
      raw := Append(Opcode(packetType), filename, ModeName(mode), rawOptions);
    }

    /** The header, the two texts, each ended by a NUL byte, and the printed options. */
    static method Append(opcode: uint16, filename: Bytes, modeName: Bytes, rawOptions: Bytes) returns (raw: array<byte>)
      ensures fresh(raw) && raw[..] == PutInt(opcode) + (filename + [0] + modeName + [0] + rawOptions)
    {
      raw := new byte[HEADER_SIZE + |filename| + 1 + |modeName| + 1 + |rawOptions|];
      var filenameEnd := HEADER_SIZE + |filename|;
      var modeEnd := filenameEnd + 1 + |modeName|;
      SetInt(raw, 0, opcode);
      CopyTerminated(raw, HEADER_SIZE, filename);
      CopyTerminated(raw, filenameEnd + 1, modeName);
      ghost var texts := raw[..modeEnd + 1];
      assert texts == PutInt(opcode) + (filename + [0]) + (modeName + [0]);
      Copy(raw, modeEnd + 1, rawOptions);
      assert raw[..] == texts + rawOptions;
      InOnePiece(PutInt(opcode), filename, modeName, rawOptions);
    }

    static lemma InOnePiece(header: Bytes, filename: Bytes, modeName: Bytes, rawOptions: Bytes)
      ensures header + (filename + [0]) + (modeName + [0]) + rawOptions ==
        header + (filename + [0] + modeName + [0] + rawOptions)
    {
    }

    /** Fields are assigned one after the other, while the rest of the bytes shrinks. */
    method Decode(raw: Bytes) returns (valid: bool)
      requires Valid()
      modifies this
      ensures valid <==> HeaderValid(packetType, raw) && DecodeRequest(raw[HEADER_SIZE..]).Some?
      ensures valid ==> DecodeRequest(raw[HEADER_SIZE..]) == Some(RequestValue())
    {
      if !HeaderValid(packetType, raw) || |raw| <= HEADER_SIZE {
        return false;
      }
      var rest := raw[HEADER_SIZE..];
      if rest[|rest| - 1] != 0 {
        return false;
      }
      var field := TakeField(rest);
      if field.None? {
        return false;
      }
      filename, rest := field.value.text, field.value.rest;
      field := TakeField(rest);
      if field.None? {
        return false;
      }
      mode, rest := DecodeMode(field.value.text), field.value.rest;
      var parsed := ParseOptions(rest);
      if parsed.None? {
        return false;
      }
      options := parsed.value;
      return true;
    }
  }

  // The packet handler

  method DecodeReadRequestPacket(raw: Bytes) returns (packet: Option<Packet>)
    requires TypeOfRaw(raw) == ReadRequestType
    ensures packet == Dispatch(raw)
  {
    var received := new RequestPacket(ReadRequestType, [], InvalidMode, map[]);
    var valid := received.Decode(raw);
    return if valid then Some(ReadRequest(Request(received.filename, received.mode, received.options))) else None;
  }

  method DecodeWriteRequestPacket(raw: Bytes) returns (packet: Option<Packet>)
    requires TypeOfRaw(raw) == WriteRequestType
    ensures packet == Dispatch(raw)
  {
    var received := new RequestPacket(WriteRequestType, [], InvalidMode, map[]);
    var valid := received.Decode(raw);
    return if valid then Some(WriteRequest(Request(received.filename, received.mode, received.options))) else None;
  }

  method DecodeDataPacket(raw: Bytes) returns (packet: Option<Packet>)
    requires TypeOfRaw(raw) == DataType
    ensures packet == Dispatch(raw)
  {
    var received := new DataPacket(0, []);
    var valid := received.Decode(raw);
    return if valid then Some(Data(received.blockNumber, received.data)) else None;
  }

  method DecodeAcknowledgementPacket(raw: Bytes) returns (packet: Option<Packet>)
    requires TypeOfRaw(raw) == AcknowledgementType
    ensures packet == Dispatch(raw)
  {
    var received := new AcknowledgementPacket(0);
    var valid := received.Decode(raw);
    return if valid then Some(Acknowledgement(received.blockNumber)) else None;
  }

  method DecodeErrorPacket(raw: Bytes) returns (packet: Option<Packet>)
    requires TypeOfRaw(raw) == ErrorType
    ensures packet == Dispatch(raw)
  {
    var received := new ErrorPacket(0, []);
    var valid := received.Decode(raw);
    return if valid then Some(Error(received.errorCode, received.errorMessage)) else None;
  }

  method DecodeOptionsAcknowledgementPacket(raw: Bytes) returns (packet: Option<Packet>)
    requires TypeOfRaw(raw) == OptionsAcknowledgementType
    ensures packet == Dispatch(raw)
  {
    var received := new OptionsAcknowledgementPacket(map[]);
    var valid := received.Decode(raw);
    return if valid then Some(OptionsAcknowledgement(received.options)) else None;
  }

  /** Decodes received bytes as the kind of packet their opcode says, or rejects them. */
  method Decode(raw: Bytes) returns (packet: Option<Packet>)
    ensures packet == Dispatch(raw)
  {
    match TypeOfRaw(raw) {
      case ReadRequestType => packet := DecodeReadRequestPacket(raw);
      case WriteRequestType => packet := DecodeWriteRequestPacket(raw);
      case DataType => packet := DecodeDataPacket(raw);
      case AcknowledgementType => packet := DecodeAcknowledgementPacket(raw);
      case ErrorType => packet := DecodeErrorPacket(raw);
      case OptionsAcknowledgementType => packet := DecodeOptionsAcknowledgementPacket(raw);
      case InvalidType => packet := None;
    }
  }
}
