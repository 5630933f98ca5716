/**
 * The datagrams byte by byte, as RFC 1350 and RFC 2347 lay them out: which bytes each packet puts on the wire, and
 * which bytes reach which handler with which fields.
 */
module Wire {
  import opened Basics
  import opened Decimals
  import opened OptionLists
  import opened Packets
  import opened Negotiation

  /** A 16-bit integer, most significant byte first. */
  function Word(value: uint16): Bytes {
    [value / 256, value % 256]
  }

  lemma WordRead(value: uint16, rest: Bytes)
    ensures GetInt(Word(value) + rest) == value && PutInt(value) == Word(value)
  {
  }

  lemma WordOf(raw: Bytes)
    requires |raw| >= 2
    ensures raw == Word(GetInt(raw)) + raw[2..]
  {
    assert raw == [raw[0], raw[1]] + raw[2..];
  }

  /** The two bytes of an opcode and what follows them. */
  predicate Opens(raw: Bytes, opcode: byte, body: Bytes) {
    |raw| >= 2 && raw[0] == 0 && raw[1] == opcode && raw[2..] == body
  }

  lemma OpensBytes(raw: Bytes, opcode: byte, body: Bytes)
    ensures Opens(raw, opcode, body) <==> raw == [0, opcode] + body
  {
    if Opens(raw, opcode, body) {
      assert raw == [raw[0], raw[1]] + raw[2..];
    }
  }

  /** The opcode of a packet. */
  function OpcodeOf(packet: Packet): byte {
    match packet
    case ReadRequest(_) => 1
    case WriteRequest(_) => 2
    case Data(_, _) => 3
    case Acknowledgement(_) => 4
    case Error(_, _) => 5
    case OptionsAcknowledgement(_) => 6
  }

  function DecodedBody(packet: Packet, body: Bytes): Option<Packet> {
    match packet
    case ReadRequest(_) => DecodeBody(ReadRequestType, body)
    case WriteRequest(_) => DecodeBody(WriteRequestType, body)
    case Data(_, _) => DecodeData(body)
    case Acknowledgement(_) => DecodeAcknowledgement(body)
    case Error(_, _) => DecodeError(body)
    case OptionsAcknowledgement(_) => DecodeOptionsAcknowledgement(body)
  }

  /** Bytes reach the handler of a packet exactly if they open with its opcode and the rest decodes to it. */
  lemma DispatchByOpcode(raw: Bytes, packet: Packet)
    ensures Dispatch(raw) == Some(packet) <==>
      |raw| >= 2 && Opens(raw, OpcodeOf(packet), raw[2..]) && DecodedBody(packet, raw[2..]) == Some(packet)
  {
    if |raw| >= 2 {
      TypeByOpcode(raw, packet);
      DecodedByType(TypeOfRaw(raw), raw[2..], packet);
    }
  }

  lemma TypeByOpcode(raw: Bytes, packet: Packet)
    requires |raw| >= 2
    ensures TypeOfRaw(raw) == TypeOf(packet) <==> Opens(raw, OpcodeOf(packet), raw[2..])
  {
  }

  lemma DecodedByType(packetType: PacketType, body: Bytes, packet: Packet)
    ensures DecodeBody(packetType, body) == Some(packet) <==>
      packetType == TypeOf(packet) && DecodedBody(packet, body) == Some(packet)
  {
    DecodeBodyType(packetType, body);
  }

  lemma EncodedByOpcode(packet: Packet)
    ensures Encode(packet) == [0, OpcodeOf(packet)] + Body(packet)
  {
  }

  // DATA, ACK and ERROR

  lemma DataBody(body: Bytes, block: uint16, data: Bytes)
    ensures DecodeData(body) == Some(Data(block, data)) <==> body == Word(block) + data
  {
    if DecodeData(body) == Some(Data(block, data)) {
      WordOf(body);
    } else if body == Word(block) + data {
      WordRead(block, data);
    }
  }

  lemma DataOnWire(raw: Bytes, block: uint16, data: Bytes)
    ensures Encode(Data(block, data)) == [0, 3, block / 256, block % 256] + data
    ensures Dispatch(raw) == Some(Data(block, data)) <==> raw == [0, 3, block / 256, block % 256] + data
  {
    EncodedByOpcode(Data(block, data));
    WordRead(block, data);
    var layout := [0, 3, block / 256, block % 256] + data;
    assert layout == [0, 3] + (Word(block) + data);
    DispatchByOpcode(raw, Data(block, data));
    OpensBytes(raw, 3, Word(block) + data);
    if |raw| >= 2 {
      DataBody(raw[2..], block, data);
    }
  }

  lemma AcknowledgementBody(body: Bytes, block: uint16)
    ensures DecodeAcknowledgement(body) == Some(Acknowledgement(block)) <==> body == Word(block)
  {
    if |body| == 2 {
      WordOf(body);
      WordRead(block, []);
    }
  }

  lemma AcknowledgementOnWire(raw: Bytes, block: uint16)
    ensures Encode(Acknowledgement(block)) == [0, 4, block / 256, block % 256]
    ensures Dispatch(raw) == Some(Acknowledgement(block)) <==> raw == [0, 4, block / 256, block % 256]
  {
    EncodedByOpcode(Acknowledgement(block));
    WordRead(block, []);
    assert [0, 4, block / 256, block % 256] == [0, 4] + Word(block);
    DispatchByOpcode(raw, Acknowledgement(block));
    OpensBytes(raw, 4, Word(block));
    if |raw| >= 2 {
      AcknowledgementBody(raw[2..], block);
    }
  }

  lemma ErrorBody(body: Bytes, code: uint16, message: Bytes)
    ensures DecodeError(body) == Some(Error(code, message)) <==> body == Word(code) + message + [0]
  {
    if DecodeError(body) == Some(Error(code, message)) {
      WordOf(body);
      assert body[2..] == body[2..|body| - 1] + [0];
    } else if body == Word(code) + message + [0] {
      assert body == Word(code) + (message + [0]);
      WordRead(code, message + [0]);
    }
  }

  lemma ErrorOnWire(raw: Bytes, code: uint16, message: Bytes)
    ensures Encode(Error(code, message)) == [0, 5, code / 256, code % 256] + message + [0]
    ensures Dispatch(raw) == Some(Error(code, message)) <==> raw == [0, 5, code / 256, code % 256] + message + [0]
  {
    EncodedByOpcode(Error(code, message));
    WordRead(code, message);
    var layout := [0, 5, code / 256, code % 256] + message + [0];
    assert layout == [0, 5] + (Word(code) + message + [0]);
    DispatchByOpcode(raw, Error(code, message));
    OpensBytes(raw, 5, Word(code) + message + [0]);
    if |raw| >= 2 {
      ErrorBody(raw[2..], code, message);
    }
  }

  // Option lists

  /** Names and values, each ended by a NUL byte, one after the other. */
  lemma ListOnWire(name: Bytes, value: Bytes, entries: seq<NamedValue>)
    ensures PrintList([]) == []
    ensures PrintList([NamedValue(name, value)] + entries) == name + [0] + value + [0] + PrintList(entries)
  {
    var all := [NamedValue(name, value)] + entries;
    assert all[1..] == entries;
  }

  /** The names of the options of RFC 2348 and RFC 2349 are those that are looked for and printed. */
  lemma NamesOnWire()
    ensures BLKSIZE == [98, 108, 107, 115, 105, 122, 101]
    ensures TIMEOUT == [116, 105, 109, 101, 111, 117, 116]
    ensures TSIZE == [116, 115, 105, 122, 101]
  {
    DistinctNames();
  }

  /** Names are ordered byte by byte; the beginning of a name comes before the name. */
  lemma {:induction false} OrderOnWire(one: Bytes, other: Bytes)
    ensures Before(one, other) <==>
      one <= other
      || exists k :: 0 <= k < |one| && k < |other| && one[..k] == other[..k] && one[k] < other[k]
  {
    if one != [] && other != [] {
      OrderOnWire(one[1..], other[1..]);
      assert one == [one[0]] + one[1..] && other == [other[0]] + other[1..];
      if one[0] == other[0] {
        SameOrderBehind(one, other);
      } else {
        assert one[0] < other[0] ==> one[..0] == other[..0];
        assert forall k :: 1 <= k < |one| && k < |other| ==> one[..k][0] == one[0] && other[..k][0] == other[0];
      }
    }
  }

  lemma SameOrderBehind(one: Bytes, other: Bytes)
    requires one != [] && other != [] && one[0] == other[0]
    ensures one[1..] <= other[1..] <==> one <= other
    ensures
      (exists k :: 0 <= k < |one| && k < |other| && one[..k] == other[..k] && one[k] < other[k])
      <==> (exists k :: 0 <= k < |one[1..]| && k < |other[1..]|
                        && one[1..][..k] == other[1..][..k] && one[1..][k] < other[1..][k])
  {
    assert one == [one[0]] + one[1..] && other == [other[0]] + other[1..];
    forall k | 0 <= k < |one[1..]| && k < |other[1..]|
      ensures one[1..][..k] == other[1..][..k] <==> one[..k + 1] == other[..k + 1]
    {
      assert one[..k + 1] == [one[0]] + one[1..][..k] && other[..k + 1] == [other[0]] + other[1..][..k];
    }
    if k :| 0 <= k < |one| && k < |other| && one[..k] == other[..k] && one[k] < other[k] {
      assert one[1..][k - 1] == one[k] && other[1..][k - 1] == other[k];
    }
    if k :| 0 <= k < |one[1..]| && k < |other[1..]|
            && one[1..][..k] == other[1..][..k] && one[1..][k] < other[1..][k] {
      assert one[k + 1] == one[1..][k] && other[k + 1] == other[1..][k];
    }
  }

  /** The bytes of an entry, if there is one. */
  function EntryBytes(name: Bytes, value: Option<uint64>): Bytes {
    if value.Some? then name + [0] + ToString(value.value) + [0] else []
  }

  lemma FirstOnWire(options: Options, name: Bytes, value: uint64)
    requires name !in options && forall other :: other in options ==> Before(name, other)
    ensures Raw(options[name := ToString(value)]) == EntryBytes(name, Some(value)) + Raw(options)
  {
    var more := options[name := ToString(value)];
    BeforeTotal(name, name);
    RawUnfold(more, name);
    SameEntries(more - {name}, options);
  }

  lemma SameEntries(one: Options, other: Options)
    requires one.Keys == other.Keys && forall name :: name in one ==> one[name] == other[name]
    ensures one == other
  {
  }

  lemma MaybeFirstOnWire(options: Options, name: Bytes, value: Option<uint64>)
    requires name !in options && forall other :: other in options ==> Before(name, other)
    ensures Raw(WithNumber(options, name, value)) == EntryBytes(name, value) + Raw(options)
  {
    if value.Some? {
      FirstOnWire(options, name, value.value);
    }
  }

  lemma KnownOrder()
    ensures Before(TIMEOUT, TSIZE) && Before(BLKSIZE, TIMEOUT) && Before(BLKSIZE, TSIZE)
  {
    NamesOnWire();
    assert TIMEOUT[..1] == TSIZE[..1] && TIMEOUT[1] < TSIZE[1];
    OrderOnWire(TIMEOUT, TSIZE);
  }

  /** The block size, the timeout and the transfer size, in this order, each if it is there. */
  lemma KnownListOnWire(blockSize: Option<uint64>, timeout: Option<uint64>, size: Option<uint64>)
    ensures Raw(Numbered(blockSize, timeout, size)) ==
      EntryBytes(BLKSIZE, blockSize) + EntryBytes(TIMEOUT, timeout) + EntryBytes(TSIZE, size)
  {
    DistinctNames();
    KnownOrder();
    var one := WithNumber(map[], TSIZE, size);
    var two := WithNumber(one, TIMEOUT, timeout);
    MaybeFirstOnWire(map[], TSIZE, size);
    MaybeFirstOnWire(one, TIMEOUT, timeout);
    MaybeFirstOnWire(two, BLKSIZE, blockSize);
    NumberedAnyOrder(blockSize, timeout, size);
    InOnePiece(EntryBytes(BLKSIZE, blockSize), EntryBytes(TIMEOUT, timeout), EntryBytes(TSIZE, size));
  }

  lemma NumberedAnyOrder(blockSize: Option<uint64>, timeout: Option<uint64>, size: Option<uint64>)
    ensures Numbered(blockSize, timeout, size) ==
      WithNumber(WithNumber(WithNumber(map[], TSIZE, size), TIMEOUT, timeout), BLKSIZE, blockSize)
  {
    DistinctNames();
  }

  lemma InOnePiece(one: Bytes, two: Bytes, three: Bytes)
    ensures one + (two + (three + [])) == one + two + three
  {
  }

  /** The options that a list of entries stands for: of several entries with the same name the first one. */
  ghost predicate Stands(entries: seq<NamedValue>, options: Options) {
    forall name :: FirstValue(entries, name) == if name in options then Some(options[name]) else None
  }

  lemma StandsOnce(entries: seq<NamedValue>, one: Options, other: Options)
    requires Stands(entries, one) && Stands(entries, other)
    ensures one == other
  {
    forall name
      ensures name in one <==> name in other
      ensures name in one ==> one[name] == other[name]
    {
      assert FirstValue(entries, name) == if name in one then Some(one[name]) else None;
      assert FirstValue(entries, name) == if name in other then Some(other[name]) else None;
    }
  }

  /** The bytes of an option list. */
  ghost predicate ListBytes(raw: Bytes, options: Options) {
    exists entries :: NulFreeEntries(entries) && raw == PrintList(entries) && Stands(entries, options)
  }

  lemma ParsedBytes(raw: Bytes, options: Options)
    ensures Parse(raw) == Some(options) <==> ListBytes(raw, options)
  {
    if Parse(raw).Some? {
      var entries := ParsedIsList(raw);
      ParseList(entries);
      assert Stands(entries, Parse(raw).value);
      if ListBytes(raw, options) {
        var other :| NulFreeEntries(other) && raw == PrintList(other) && Stands(other, options);
        PrintListOnce(entries, other);
        StandsOnce(entries, options, Parse(raw).value);
      }
    } else if ListBytes(raw, options) {
      var other :| NulFreeEntries(other) && raw == PrintList(other) && Stands(other, options);
      ParseList(other);
    }
  }

  lemma RawIsListBytes(options: Options)
    requires Printable(options)
    ensures ListBytes(Raw(options), options)
  {
    ParseRaw(options);
    ParsedBytes(Raw(options), options);
  }

  lemma OptionsBody(body: Bytes, options: Options)
    ensures DecodeOptionsAcknowledgement(body) == Some(OptionsAcknowledgement(options)) <==>
      body != [] && ListBytes(body, options)
  {
    ParsedBytes(body, options);
  }

  lemma OptionsOnWire(raw: Bytes, options: Options)
    ensures Encode(OptionsAcknowledgement(options)) == [0, 6] + Raw(options)
    ensures Dispatch(raw) == Some(OptionsAcknowledgement(options)) <==>
      exists list :: raw == [0, 6] + list && list != [] && ListBytes(list, options)
  {
    EncodedByOpcode(OptionsAcknowledgement(options));
    DispatchByOpcode(raw, OptionsAcknowledgement(options));
    if |raw| >= 2 {
      OptionsBody(raw[2..], options);
      OpensBytes(raw, 6, raw[2..]);
    }
    forall list | raw == [0, 6] + list
      ensures raw[2..] == list && raw[0] == 0 && raw[1] == 6
    {
    }
  }

  // Requests

  /** The letters of a word in any mix of cases. */
  predicate SameLetters(text: Bytes, capitals: Bytes) {
    |text| == |capitals| && forall i :: 0 <= i < |text| ==> text[i] as int - capitals[i] in {0, 32}
  }

  const OCTET: Bytes := [79, 67, 84, 69, 84]
  const NETASCII: Bytes := [78, 69, 84, 65, 83, 67, 73, 73]
  const MAIL: Bytes := [77, 65, 73, 76]

  lemma UpperLetters(text: Bytes, capitals: Bytes)
    requires forall i :: 0 <= i < |capitals| ==> 65 <= capitals[i] <= 90
    ensures ToUpper(text) == capitals <==> SameLetters(text, capitals)
  {
    if |text| == |capitals| {
      forall i | 0 <= i < |text|
        ensures ToUpper(text)[i] == capitals[i] <==> text[i] as int - capitals[i] in {0, 32}
      {
      }
    }
  }

  /** The modes are recognised in any mix of cases, and printed in capitals. */
  lemma ModesOnWire(text: Bytes)
    ensures ModeName(Octet) == OCTET && ModeName(Netascii) == NETASCII && ModeName(Mail) == MAIL
    ensures DecodeMode(text) == Octet <==> SameLetters(text, OCTET)
    ensures DecodeMode(text) == Netascii <==> SameLetters(text, NETASCII)
    ensures DecodeMode(text) == Mail <==> SameLetters(text, MAIL)
  {
    assert Ascii("OCTET") == OCTET && Ascii("NETASCII") == NETASCII && Ascii("MAIL") == MAIL;
    UpperLetters(text, OCTET);
    UpperLetters(text, NETASCII);
    UpperLetters(text, MAIL);
  }

  /** File name, mode and options, as the bytes of a request hold them. */
  ghost predicate RequestBytes(body: Bytes, request: Request) {
    exists modeText, list ::
      && NulFree(request.filename) && NulFree(modeText) && request.mode == DecodeMode(modeText)
      && body == request.filename + [0] + modeText + [0] + list && ListBytes(list, request.options)
  }

  lemma RequestFields(request: Request, modeText: Bytes, list: Bytes)
    requires NulFree(request.filename) && NulFree(modeText) && request.mode == DecodeMode(modeText)
    requires ListBytes(list, request.options)
    ensures DecodeRequest(request.filename + [0] + modeText + [0] + list) == Some(request)
  {
    var body, afterName := request.filename + [0] + modeText + [0] + list, modeText + [0] + list;
    assert body == request.filename + [0] + afterName;
    TakeFieldOf(request.filename, afterName);
    TakeFieldOf(modeText, list);
    ParsedBytes(list, request.options);
    ParseSucceeds(list);
    LastByte(request.filename + [0] + modeText + [0], list);
  }

  lemma RequestParts(body: Bytes, request: Request)
    requires DecodeRequest(body) == Some(request)
    ensures RequestBytes(body, request)
  {
    var filename := TakeField(body).value;
    var mode := TakeField(filename.rest).value;
    ParsedBytes(mode.rest, request.options);
    Joined(request.filename, mode.text, mode.rest);
  }

  lemma Joined(one: Bytes, two: Bytes, rest: Bytes)
    ensures one + [0] + (two + [0] + rest) == one + [0] + two + [0] + rest
  {
  }

  lemma RequestDecodes(body: Bytes, request: Request)
    ensures DecodeRequest(body) == Some(request) <==> RequestBytes(body, request)
  {
    if DecodeRequest(body) == Some(request) {
      RequestParts(body, request);
    } else if RequestBytes(body, request) {
      var modeText, list :|
        && NulFree(request.filename) && NulFree(modeText) && request.mode == DecodeMode(modeText)
        && body == request.filename + [0] + modeText + [0] + list && ListBytes(list, request.options);
      RequestFields(request, modeText, list);
    }
  }

  lemma RequestEncoded(opcode: byte, request: Request)
    ensures [0, opcode] + EncodeRequest(request) ==
      [0, opcode] + request.filename + [0] + ModeName(request.mode) + [0] + Raw(request.options)
  {
  }

  lemma ReadRequestOnWire(raw: Bytes, request: Request)
    ensures Encode(ReadRequest(request)) ==
      [0, 1] + request.filename + [0] + ModeName(request.mode) + [0] + Raw(request.options)
    ensures Dispatch(raw) == Some(ReadRequest(request)) <==>
      exists body :: raw == [0, 1] + body && RequestBytes(body, request)
  {
    EncodedByOpcode(ReadRequest(request));
    RequestEncoded(1, request);
    DispatchByOpcode(raw, ReadRequest(request));
    RequestOpened(raw, 1, request);
  }

  lemma WriteRequestOnWire(raw: Bytes, request: Request)
    ensures Encode(WriteRequest(request)) ==
      [0, 2] + request.filename + [0] + ModeName(request.mode) + [0] + Raw(request.options)
    ensures Dispatch(raw) == Some(WriteRequest(request)) <==>
      exists body :: raw == [0, 2] + body && RequestBytes(body, request)
  {
    EncodedByOpcode(WriteRequest(request));
    RequestEncoded(2, request);
    DispatchByOpcode(raw, WriteRequest(request));
    RequestOpened(raw, 2, request);
  }

  lemma RequestOpened(raw: Bytes, opcode: byte, request: Request)
    ensures |raw| >= 2 && Opens(raw, opcode, raw[2..]) && DecodeRequest(raw[2..]) == Some(request) <==>
      exists body :: raw == [0, opcode] + body && RequestBytes(body, request)
  {
    if |raw| >= 2 {
      RequestDecodes(raw[2..], request);
      OpensBytes(raw, opcode, raw[2..]);
    }
    forall body | raw == [0, opcode] + body
      ensures raw[2..] == body && raw[0] == 0 && raw[1] == opcode
    {
    }
  }
}
