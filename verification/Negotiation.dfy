/**
 * Option negotiation (RFC 2347, RFC 2348 and RFC 2349): the client's request, the server's reply to it, and the
 * client's check of the reply.
 */
module Negotiation {
  import opened Basics
  import opened Decimals
  import opened OptionLists
  import opened Packets

  const BLOCK_SIZE_MIN: uint16 := 8
  const BLOCK_SIZE_MAX: uint16 := 65464
  const TIMEOUT_MIN: uint16 := 1
  const TIMEOUT_MAX: uint16 := 255

  const BLKSIZE: Bytes := Ascii("blksize")
  const TIMEOUT: Bytes := Ascii("timeout")
  const TSIZE: Bytes := Ascii("tsize")

  /** What one side is configured to negotiate; the timeout is a signed number of seconds. */
  datatype Configuration = Configuration(handleTransferSize: bool, blockSize: Option<uint16>, timeout: Option<int>)

  datatype Refusal = Refusal(code: uint16, text: string, status: TransferStatus)

  // The request

  /** The conversion of a duration to an unsigned 16-bit integer. */
  function SecondsOnWire(seconds: int): uint16 {
    seconds % 0x1_0000
  }

  /** The options of a request. A read request offers transfer size 0, a write request what the handler supplies. */
  function RequestOptions(additional: Options, c: Configuration, size: Option<uint64>): Options {
    var withBlockSize :=
      if c.blockSize.Some? then TryEmplace(additional, BLKSIZE, ToString(c.blockSize.value)) else additional;
    var withTimeout :=
      if c.timeout.Some? then TryEmplace(withBlockSize, TIMEOUT, ToString(SecondsOnWire(c.timeout.value)))
      else withBlockSize;
    if c.handleTransferSize && size.Some? then TryEmplace(withTimeout, TSIZE, ToString(size.value)) else withTimeout
  }

  // The reply

  /** The known options of a request as the server understood them; `None` also stands for unusable values. */
  datatype ClientOptions =
    ClientOptions(blockSize: Option<uint64>, timeout: Option<uint64>, transferSize: Option<uint64>)
  {
    predicate Any() {
      blockSize.Some? || timeout.Some? || transferSize.Some?
    }
  }

  datatype DecodedOptions = DecodedOptions(known: ClientOptions, rest: Options)

  function DecodeOptions(options: Options): DecodedOptions {
    var blockSize := Extract(options, BLKSIZE, BLOCK_SIZE_MIN, BLOCK_SIZE_MAX);
    var timeout := Extract(blockSize.rest, TIMEOUT, TIMEOUT_MIN, TIMEOUT_MAX);
    var transferSize := Extract(timeout.rest, TSIZE, 0, UINT64_LIMIT - 1);
    DecodedOptions(ClientOptions(blockSize.value, timeout.value, transferSize.value), transferSize.rest)
  }

  /** The server takes the known options out of the option list of a request. */
  method TakeKnownOptions(options: OptionList) returns (known: ClientOptions)
    modifies options
    ensures DecodedOptions(known, options.entries) == DecodeOptions(old(options.entries))
  {
    var valid, blockSize := options.GetOption(BLKSIZE, BLOCK_SIZE_MIN, BLOCK_SIZE_MAX);
    var timeout;
    valid, timeout := options.GetOption(TIMEOUT, TIMEOUT_MIN, TIMEOUT_MAX);
    var transferSize;
    valid, transferSize := options.GetOption(TSIZE, 0, UINT64_LIMIT - 1);
    known := ClientOptions(blockSize, timeout, transferSize);
  }

  /** What the server changes about itself, what it answers, and the error it sends instead if it refuses. */
  datatype Reply = Reply(dataSize: Option<uint16>, timeout: Option<int>, options: Options, refusal: Option<Refusal>)

  function SizeAndTimeoutReply(s: Configuration, client: ClientOptions, additional: Options): (reply: Reply)
    ensures reply.refusal.None?
  {
    var dataSize: Option<uint16> :=
      if s.blockSize.Some? && client.blockSize.Some? then Some(Min(client.blockSize.value, s.blockSize.value))
      else None;
    var timeout: Option<int> :=
      if s.timeout.Some? && client.timeout.Some? && client.timeout.value <= s.timeout.value
      then Some(client.timeout.value) else None;
    var withBlockSize :=
      if dataSize.Some? then TryEmplace(additional, BLKSIZE, ToString(dataSize.value)) else additional;
    var withTimeout :=
      if timeout.Some? then TryEmplace(withBlockSize, TIMEOUT, ToString(client.timeout.value)) else withBlockSize;
    Reply(dataSize, timeout, withTimeout, None)
  }

  /** The reply to a read request, for a file handler that supplies `fileSize`. */
  function ReadReply(s: Configuration, client: ClientOptions, additional: Options, fileSize: Option<uint64>): Reply {
    if !client.Any() && additional == map[] then Reply(None, None, map[], None)
    else
      var reply := SizeAndTimeoutReply(s, client, additional);
      if s.handleTransferSize && client.transferSize.Some? then
        if client.transferSize.value != 0 then
          reply.(refusal := Some(Refusal(OPTION_REFUSED, "transfer size must be 0", TransferError)))
        else if fileSize.Some? then
          reply.(options := TryEmplace(reply.options, TSIZE, ToString(fileSize.value)))
        else reply
      else reply
  }

  /** The reply to a write request, for a file handler that accepts the transfer size or not. */
  function WriteReply(s: Configuration, client: ClientOptions, additional: Options, accepts: bool): Reply {
    if !client.Any() && additional == map[] then Reply(None, None, map[], None)
    else
      var reply := SizeAndTimeoutReply(s, client, additional);
      if s.handleTransferSize && client.transferSize.Some? then
        if !accepts then
          reply.(refusal := Some(Refusal(DISK_FULL, "File to big", TransferError)))
        else
          reply.(options := TryEmplace(reply.options, TSIZE, ToString(client.transferSize.value)))
      else reply
  }

  // The check of the reply

  /** What a client does with an acknowledged transfer size: offer it to its file handler, or compare it. */
  datatype SizeRule = Offered(accepts: bool) | Echoed(size: uint64)

  /** What the client changes about itself, and the error it sends instead if it refuses. */
  datatype Verdict = Verdict(dataSize: Option<uint16>, timeout: Option<int>, refusal: Option<Refusal>)

  function OptionRefused(text: string): Option<Refusal> {
    Some(Refusal(OPTION_REFUSED, text, OptionNegotiationError))
  }

  /** Why an acknowledged block size is refused, if it is. */
  function BlockSizeRefusal(c: Configuration, blockSize: Extracted): (refusal: Option<Refusal>)
    ensures refusal.Some? ==> refusal.value.status == OptionNegotiationError
  {
    if c.blockSize.None? && blockSize.value.Some? then OptionRefused("Block Size Option not expected")
    else if !blockSize.valid then OptionRefused("Block Size Option decoding failed")
    else if blockSize.value.Some? && blockSize.value.value > c.blockSize.value then
      OptionRefused("Block size Option negotiation failed")
    else None
  }

  function TimeoutRefusal(c: Configuration, timeout: Extracted): (refusal: Option<Refusal>)
    ensures refusal.Some? ==> refusal.value.status == OptionNegotiationError
  {
    if c.timeout.None? && timeout.value.Some? then OptionRefused("Timeout Option isn't expected")
    else if !timeout.valid then OptionRefused("Timeout Option decoding failed")
    else if timeout.value.Some? && timeout.value.value != c.timeout.value then
      OptionRefused("Timeout option not equal to requested")
    else None
  }

  function TransferSizeRefusal(rule: Option<SizeRule>, size: Extracted): (refusal: Option<Refusal>)
    ensures refusal.Some? ==> refusal.value.status == OptionNegotiationError
  {
    if rule.None? && size.value.Some? then OptionRefused("Transfer Size Option isn't expected")
    else if !size.valid then OptionRefused("Transfer Size Option decoding failed")
    else if rule.Some? && size.value.Some? && rule.value.Offered? && !rule.value.accepts then
      Some(Refusal(DISK_FULL, "File to big", OptionNegotiationError))
    else if rule.Some? && size.value.Some? && rule.value.Echoed? && size.value.value != rule.value.size then
      OptionRefused("transfer size invalid")
    else if size.rest != map[] then OptionRefused("Unexpected options")
    else None
  }

  function CheckTransferSize(
    rule: Option<SizeRule>, remote: Options, dataSize: Option<uint16>, timeout: Option<int>): (verdict: Verdict)
    ensures verdict.refusal.Some? ==> verdict.refusal.value.status in {TransferError, OptionNegotiationError}
  {
    Verdict(dataSize, timeout, TransferSizeRefusal(rule, Extract(remote, TSIZE, 0, UINT64_LIMIT - 1)))
  }

  function CheckTimeout(
    c: Configuration, rule: Option<SizeRule>, remote: Options, dataSize: Option<uint16>): (verdict: Verdict)
    ensures verdict.refusal.Some? ==> verdict.refusal.value.status in {TransferError, OptionNegotiationError}
  {
    var timeout := Extract(remote, TIMEOUT, TIMEOUT_MIN, TIMEOUT_MAX);
    var refusal := TimeoutRefusal(c, timeout);
    if refusal.Some? then Verdict(dataSize, None, refusal)
    else
      CheckTransferSize(rule, timeout.rest, dataSize, if timeout.value.Some? then Some(timeout.value.value) else None)
  }

  /** The client's check of an OACK, without a negotiation handler of the user. */
  function CheckOack(c: Configuration, rule: Option<SizeRule>, remote: Options): (verdict: Verdict)
    ensures verdict.refusal.Some? ==> verdict.refusal.value.status in {TransferError, OptionNegotiationError}
  {
    if remote == map[] then
      Verdict(None, None, Some(Refusal(ILLEGAL_OPERATION, "Empty OACK not allowed", TransferError)))
    else
      var blockSize := Extract(remote, BLKSIZE, BLOCK_SIZE_MIN, BLOCK_SIZE_MAX);
      var refusal := BlockSizeRefusal(c, blockSize);
      if refusal.Some? then Verdict(None, None, refusal)
      else CheckTimeout(c, rule, blockSize.rest, if blockSize.value.Some? then Some(blockSize.value.value) else None)
  }

  /** The accepted block size does not change what the rest of the check does. */
  lemma CheckedWithSize(c: Configuration, rule: Option<SizeRule>, remote: Options, dataSize: Option<uint16>)
    ensures CheckTimeout(c, rule, remote, None).dataSize.None?
    ensures CheckTimeout(c, rule, remote, dataSize) == CheckTimeout(c, rule, remote, None).(dataSize := dataSize)
  {
  }

  // Exactly which replies are accepted

  lemma DistinctNames()
    ensures BLKSIZE != TIMEOUT && BLKSIZE != TSIZE && TIMEOUT != TSIZE
    ensures NulFree(BLKSIZE) && NulFree(TIMEOUT) && NulFree(TSIZE)
  {
    assert BLKSIZE == [98, 108, 107, 115, 105, 122, 101];
    assert TIMEOUT == [116, 105, 109, 101, 111, 117, 116];
    assert TSIZE == [116, 115, 105, 122, 101];
    assert BLKSIZE[0] != TIMEOUT[0];
  }

  function NumberAt(remote: Options, name: Bytes): Option<uint64> {
    if name in remote then Stoull(remote[name]) else None
  }

  predicate GoodBlockSize(c: Configuration, remote: Options) {
    BLKSIZE in remote ==>
      && NumberAt(remote, BLKSIZE).Some?
      && 8 <= NumberAt(remote, BLKSIZE).value <= 65464
      && c.blockSize.Some? && NumberAt(remote, BLKSIZE).value <= c.blockSize.value
  }

  predicate GoodTimeout(c: Configuration, remote: Options) {
    TIMEOUT in remote ==>
      && NumberAt(remote, TIMEOUT).Some?
      && 1 <= NumberAt(remote, TIMEOUT).value <= 255
      && c.timeout == Some(NumberAt(remote, TIMEOUT).value)
  }

  predicate GoodTransferSize(rule: Option<SizeRule>, remote: Options) {
    TSIZE in remote ==>
      && NumberAt(remote, TSIZE).Some?
      && rule.Some?
      && (rule.value.Offered? ==> rule.value.accepts)
      && (rule.value.Echoed? ==> rule.value.size == NumberAt(remote, TSIZE).value)
  }

  predicate AcceptableOack(c: Configuration, rule: Option<SizeRule>, remote: Options) {
    && remote != map[]
    && remote.Keys <= {BLKSIZE, TIMEOUT, TSIZE}
    && GoodBlockSize(c, remote) && GoodTimeout(c, remote) && GoodTransferSize(rule, remote)
  }

  /** Some OACK is acceptable: the client has asked for an option with a usable value. */
  predicate TakesOack(c: Configuration, rule: Option<SizeRule>) {
    || (c.blockSize.Some? && c.blockSize.value >= BLOCK_SIZE_MIN)
    || (c.timeout.Some? && TIMEOUT_MIN <= c.timeout.value <= TIMEOUT_MAX)
    || (rule.Some? && (rule.value.Offered? ==> rule.value.accepts))
  }

  lemma NoOackTaken(c: Configuration, rule: Option<SizeRule>, remote: Options)
    requires AcceptableOack(c, rule, remote)
    ensures TakesOack(c, rule)
  {
    var name :| name in remote;
    assert name in {BLKSIZE, TIMEOUT, TSIZE};
  }

  /** An acceptable OACK, if there is one, that fits into every receive buffer. */
  lemma SomeOackTaken(c: Configuration, rule: Option<SizeRule>) returns (options: Options)
    requires TakesOack(c, rule)
    ensures AcceptableOack(c, rule, options) && Printable(options) && |Raw(options)| <= 87
  {
    var blockSize: Option<uint64> :=
      if c.blockSize.Some? && c.blockSize.value >= BLOCK_SIZE_MIN then Some(BLOCK_SIZE_MIN) else None;
    var timeout: Option<uint64> :=
      if blockSize.None? && c.timeout.Some? && TIMEOUT_MIN <= c.timeout.value <= TIMEOUT_MAX
      then Some(c.timeout.value) else None;
    var size: Option<uint64> :=
      if blockSize.Some? || timeout.Some? then None
      else match rule.value case Offered(_) => Some(0) case Echoed(size) => Some(size);
    NumberedOnWire(blockSize, timeout, size);
    NumberedEntries(blockSize, timeout, size);
    DistinctNames();
    options := Numbered(blockSize, timeout, size);
  }

  lemma ExtractNumber(remote: Options, name: Bytes, min: uint64, max: uint64)
    ensures var result := Extract(remote, name, min, max);
            && result.rest == remote - {name}
            && (name !in remote ==> result.valid && result.value.None?)
            && (name in remote ==> (result.valid <==> result.value.Some?))
            && (name in remote ==>
                 (result.valid <==> NumberAt(remote, name).Some? && min <= NumberAt(remote, name).value <= max))
            && (name in remote && result.valid ==> result.value == NumberAt(remote, name))
  {
    if name in remote {
      assert Stoull([]).None?;
    } else {
      assert remote - {name} == remote;
    }
  }

  lemma NoKeys(options: Options)
    ensures options == map[] <==> options.Keys == {}
  {
    if options.Keys == {} {
      assert options == map[];
    }
  }

  lemma WithoutKey(options: Options, name: Bytes, others: set<Bytes>)
    ensures (options - {name}).Keys <= others <==> options.Keys <= {name} + others
  {
    assert forall other :: other in options - {name} <==> other in options && other != name;
  }

  lemma TransferSizeAcceptance(rule: Option<SizeRule>, remote: Options, dataSize: Option<uint16>, timeout: Option<int>)
    ensures var verdict := CheckTransferSize(rule, remote, dataSize, timeout);
            && (verdict.refusal.None? <==> GoodTransferSize(rule, remote) && remote.Keys <= {TSIZE})
            && verdict.dataSize == dataSize && verdict.timeout == timeout
  {
    ExtractNumber(remote, TSIZE, 0, UINT64_LIMIT - 1);
    WithoutKey(remote, TSIZE, {});
    NoKeys(remote - {TSIZE});
    assert {TSIZE} + {} == {TSIZE};
  }

  lemma TimeoutAcceptance(c: Configuration, rule: Option<SizeRule>, remote: Options, dataSize: Option<uint16>)
    ensures var verdict := CheckTimeout(c, rule, remote, dataSize);
            && (verdict.refusal.None? <==>
                 GoodTimeout(c, remote) && GoodTransferSize(rule, remote) && remote.Keys <= {TIMEOUT, TSIZE})
            && verdict.dataSize == dataSize
            && (verdict.refusal.None? ==> verdict.timeout == NumberAt(remote, TIMEOUT))
  {
    DistinctNames();
    ExtractNumber(remote, TIMEOUT, TIMEOUT_MIN, TIMEOUT_MAX);
    var rest := remote - {TIMEOUT};
    WithoutKey(remote, TIMEOUT, {TSIZE});
    assert {TIMEOUT} + {TSIZE} == {TIMEOUT, TSIZE};
    TransferSizeAcceptance(rule, rest, dataSize, NumberAt(remote, TIMEOUT));
    assert GoodTransferSize(rule, rest) <==> GoodTransferSize(rule, remote);
  }

  /**
   * A client goes on after an OACK exactly if it is not empty, every option was requested, the block size lies in
   * the allowed range and is not larger than requested, the timeout is the requested one, the transfer size is
   * acceptable and nothing else is in it. It then uses the acknowledged block size and timeout.
   */
  lemma OackAcceptance(c: Configuration, rule: Option<SizeRule>, remote: Options)
    ensures var verdict := CheckOack(c, rule, remote);
            && (verdict.refusal.None? <==> AcceptableOack(c, rule, remote))
            && (verdict.refusal.None? ==>
                  verdict.dataSize == NumberAt(remote, BLKSIZE) && verdict.timeout == NumberAt(remote, TIMEOUT))
  {
    DistinctNames();
    ExtractNumber(remote, BLKSIZE, BLOCK_SIZE_MIN, BLOCK_SIZE_MAX);
    var rest := remote - {BLKSIZE};
    TimeoutAcceptance(c, rule, rest, Extract(remote, BLKSIZE, BLOCK_SIZE_MIN, BLOCK_SIZE_MAX).value);
    assert GoodTimeout(c, rest) <==> GoodTimeout(c, remote);
    assert GoodTransferSize(rule, rest) <==> GoodTransferSize(rule, remote);
    WithoutKey(remote, BLKSIZE, {TIMEOUT, TSIZE});
    assert {BLKSIZE} + {TIMEOUT, TSIZE} == {BLKSIZE, TIMEOUT, TSIZE};
  }

  /** The file handler rejects the size: block size and timeout are fine, and there is a size that can be read. */
  predicate RejectsSize(c: Configuration, rule: Option<SizeRule>, remote: Options) {
    && GoodBlockSize(c, remote) && GoodTimeout(c, remote)
    && NumberAt(remote, TSIZE).Some? && rule == Some(Offered(false))
  }

  lemma BlockSizeCode(c: Configuration, remote: Options)
    ensures var refusal := BlockSizeRefusal(c, Extract(remote, BLKSIZE, BLOCK_SIZE_MIN, BLOCK_SIZE_MAX));
            var size := NumberAt(remote, BLKSIZE);
            && (refusal.Some? <==> !GoodBlockSize(c, remote))
            && (refusal.Some? ==>
                  && refusal.value.code == 8
                  && refusal.value.text ==
                       if size.None? || !(8 <= size.value <= 65464) then "Block Size Option decoding failed"
                       else if c.blockSize.None? then "Block Size Option not expected"
                       else "Block size Option negotiation failed")
  {
    ExtractNumber(remote, BLKSIZE, BLOCK_SIZE_MIN, BLOCK_SIZE_MAX);
  }

  lemma TimeoutCode(c: Configuration, remote: Options)
    ensures var refusal := TimeoutRefusal(c, Extract(remote, TIMEOUT, TIMEOUT_MIN, TIMEOUT_MAX));
            var timeout := NumberAt(remote, TIMEOUT);
            && (refusal.Some? <==> !GoodTimeout(c, remote))
            && (refusal.Some? ==>
                  && refusal.value.code == 8
                  && refusal.value.text ==
                       if timeout.None? || !(1 <= timeout.value <= 255) then "Timeout Option decoding failed"
                       else if c.timeout.None? then "Timeout Option isn't expected"
                       else "Timeout option not equal to requested")
  {
    ExtractNumber(remote, TIMEOUT, TIMEOUT_MIN, TIMEOUT_MAX);
  }

  lemma TransferSizeCode(rule: Option<SizeRule>, remote: Options)
    ensures var refusal := TransferSizeRefusal(rule, Extract(remote, TSIZE, 0, UINT64_LIMIT - 1));
            var size := NumberAt(remote, TSIZE);
            refusal.Some? ==>
              && refusal.value.code == (if size.Some? && rule == Some(Offered(false)) then 3 else 8)
              && refusal.value.text ==
                   if TSIZE in remote && size.None? then "Transfer Size Option decoding failed"
                   else if size.Some? && rule.None? then "Transfer Size Option isn't expected"
                   else if size.Some? && rule == Some(Offered(false)) then "File to big"
                   else if size.Some? && rule.value.Echoed? && size.value != rule.value.size
                   then "transfer size invalid"
                   else "Unexpected options"
  {
    ExtractNumber(remote, TSIZE, 0, UINT64_LIMIT - 1);
  }

  lemma OtherNames(remote: Options, name: Bytes, other: Bytes)
    requires name != other
    ensures NumberAt(remote - {name}, other) == NumberAt(remote, other)
    ensures other in remote - {name} <==> other in remote
  {
  }

  /**
   * Why a client refuses: 4 for an OACK without options, 3 for a size its file handler rejects, and 8 for any other
   * option.
   */
  lemma RefusalCodes(c: Configuration, rule: Option<SizeRule>, remote: Options)
    ensures var refusal := CheckOack(c, rule, remote).refusal;
            refusal.Some? ==>
              && refusal.value.code ==
                   (if remote == map[] then 4 else if RejectsSize(c, rule, remote) then 3 else 8)
              && refusal.value.status == (if remote == map[] then TransferError else OptionNegotiationError)
              && (remote == map[] ==> refusal.value.text == "Empty OACK not allowed")
  {
    var afterSize := remote - {BLKSIZE};
    var afterTimeout := afterSize - {TIMEOUT};
    DistinctNames();
    ExtractedRest(remote, BLKSIZE, BLOCK_SIZE_MIN, BLOCK_SIZE_MAX);
    ExtractedRest(afterSize, TIMEOUT, TIMEOUT_MIN, TIMEOUT_MAX);
    OtherNames(remote, BLKSIZE, TIMEOUT);
    OtherNames(remote, BLKSIZE, TSIZE);
    OtherNames(afterSize, TIMEOUT, TSIZE);
    BlockSizeCode(c, remote);
    TimeoutCode(c, afterSize);
    TransferSizeCode(rule, afterTimeout);
  }

  lemma ExtractedRest(remote: Options, name: Bytes, min: uint64, max: uint64)
    ensures Extract(remote, name, min, max).rest == remote - {name}
  {
    ExtractNumber(remote, name, min, max);
  }

  // Agreement of both sides

  /** An option list with one more number, if there is one. */
  function WithNumber(options: Options, name: Bytes, value: Option<uint64>): Options {
    if value.Some? then TryEmplace(options, name, ToString(value.value)) else options
  }

  /** An option list that holds just the given numbers. */
  function Numbered(blockSize: Option<uint64>, timeout: Option<uint64>, transferSize: Option<uint64>): Options {
    WithNumber(WithNumber(WithNumber(map[], BLKSIZE, blockSize), TIMEOUT, timeout), TSIZE, transferSize)
  }

  lemma WithNumberEntries(options: Options, name: Bytes, value: Option<uint64>)
    requires name !in options
    ensures var more := WithNumber(options, name, value);
            && (name in more <==> value.Some?) && NumberAt(more, name) == value
            && more.Keys <= options.Keys + {name}
            && forall other :: other != name ==>
                 (other in more <==> other in options) && NumberAt(more, other) == NumberAt(options, other)
  {
    if value.Some? {
      StoullToString(value.value);
    }
  }

  lemma NumberedEntries(blockSize: Option<uint64>, timeout: Option<uint64>, transferSize: Option<uint64>)
    ensures var options := Numbered(blockSize, timeout, transferSize);
            && options.Keys <= {BLKSIZE, TIMEOUT, TSIZE}
            && (BLKSIZE in options <==> blockSize.Some?) && NumberAt(options, BLKSIZE) == blockSize
            && (TIMEOUT in options <==> timeout.Some?) && NumberAt(options, TIMEOUT) == timeout
            && (TSIZE in options <==> transferSize.Some?) && NumberAt(options, TSIZE) == transferSize
  {
    DistinctNames();
    var first := WithNumber(map[], BLKSIZE, blockSize);
    var second := WithNumber(first, TIMEOUT, timeout);
    WithNumberEntries(map[], BLKSIZE, blockSize);
    WithNumberEntries(first, TIMEOUT, timeout);
    WithNumberEntries(second, TSIZE, transferSize);
  }

  /** At most `count` entries that can be printed and are short. */
  ghost predicate OnWire(options: Options, count: nat) {
    && Printable(options)
    && (forall name :: name in options ==> |Entry(name, options[name])| <= 29)
    && |options| <= count
  }

  lemma WithNumberOnWire(options: Options, count: nat, name: Bytes, value: Option<uint64>)
    requires OnWire(options, count) && NulFree(name) && |name| <= 7
    ensures OnWire(WithNumber(options, name, value), count + 1)
  {
    if value.Some? {
      var text := ToString(value.value);
      ToStringLength64(value.value);
      assert forall i :: 0 <= i < |text| ==> text[i] in text;
    }
  }

  /** Numbers can be printed and parsed, and an OACK with them fits into every receive buffer. */
  lemma NumberedOnWire(blockSize: Option<uint64>, timeout: Option<uint64>, transferSize: Option<uint64>)
    ensures var options := Numbered(blockSize, timeout, transferSize);
            Printable(options) && |Raw(options)| <= 87
  {
    DistinctNames();
    var first := WithNumber(map[], BLKSIZE, blockSize);
    var second := WithNumber(first, TIMEOUT, timeout);
    WithNumberOnWire(map[], 0, BLKSIZE, blockSize);
    WithNumberOnWire(first, 1, TIMEOUT, timeout);
    WithNumberOnWire(second, 2, TSIZE, transferSize);
    ShortList(WithNumber(second, TSIZE, transferSize));
  }

  lemma ShortList(options: Options)
    requires OnWire(options, 3)
    ensures |Raw(options)| <= 87
  {
    RawLength(options, 29);
  }

  function InRange(value: Option<uint64>, min: uint64, max: uint64): Option<uint64> {
    if value.Some? && min <= value.value <= max then value else None
  }

  lemma DecodeNumbered(blockSize: Option<uint64>, timeout: Option<uint64>, transferSize: Option<uint64>)
    ensures DecodeOptions(Numbered(blockSize, timeout, transferSize)) ==
      DecodedOptions(
        ClientOptions(
          InRange(blockSize, BLOCK_SIZE_MIN, BLOCK_SIZE_MAX), InRange(timeout, TIMEOUT_MIN, TIMEOUT_MAX), transferSize),
        map[])
  {
    var options := Numbered(blockSize, timeout, transferSize);
    var afterBlockSize := options - {BLKSIZE};
    var afterTimeout := afterBlockSize - {TIMEOUT};
    NumberedEntries(blockSize, timeout, transferSize);
    DistinctNames();
    ExtractNumber(options, BLKSIZE, BLOCK_SIZE_MIN, BLOCK_SIZE_MAX);
    ExtractNumber(afterBlockSize, TIMEOUT, TIMEOUT_MIN, TIMEOUT_MAX);
    ExtractNumber(afterTimeout, TSIZE, 0, UINT64_LIMIT - 1);
    assert afterTimeout - {TSIZE} == map[] by {
      assert forall name :: name !in afterTimeout - {TSIZE};
    }
  }

  /** What the client asks for, as numbers on the wire. */
  function WireTimeout(c: Configuration): Option<uint64> {
    if c.timeout.Some? then Some(SecondsOnWire(c.timeout.value)) else None
  }

  function WireBlockSize(c: Configuration): Option<uint64> {
    match c.blockSize
    case None => None
    case Some(size) => Some(size)
  }

  function WireSize(c: Configuration, size: Option<uint64>): Option<uint64> {
    if c.handleTransferSize then size else None
  }

  /** The block size both sides use: the smaller one if both negotiate it with a usable value, otherwise 512. */
  function AgreedBlockSize(c: Configuration, s: Configuration): uint16 {
    if NegotiateBlockSize(c, s) then Min(c.blockSize.value, s.blockSize.value) else DEFAULT_DATA_SIZE
  }

  predicate NegotiateBlockSize(c: Configuration, s: Configuration) {
    c.blockSize.Some? && BLOCK_SIZE_MIN <= c.blockSize.value <= BLOCK_SIZE_MAX && s.blockSize.Some?
  }

  predicate NegotiateTimeout(c: Configuration, s: Configuration) {
    c.timeout.Some? && s.timeout.Some?
    && TIMEOUT_MIN <= SecondsOnWire(c.timeout.value) <= TIMEOUT_MAX
    && SecondsOnWire(c.timeout.value) <= s.timeout.value
  }

  /**
   * The condition for agreement on block size and timeout: a negotiated block size configured at the server is not
   * below 8, and a negotiated timeout configured at the client survives the conversion to 16 bits.
   */
  predicate Compatible(c: Configuration, s: Configuration) {
    && (NegotiateBlockSize(c, s) ==> s.blockSize.value >= BLOCK_SIZE_MIN)
    && (NegotiateTimeout(c, s) ==> SecondsOnWire(c.timeout.value) == c.timeout.value)
  }

  /** What a reply to the known options of `c` does: numbers in, numbers out. */
  predicate Answers(c: Configuration, s: Configuration, reply: Reply, transferSize: Option<uint64>) {
    && reply.refusal.None?
    && reply.dataSize == (if NegotiateBlockSize(c, s) then Some(AgreedBlockSize(c, s)) else None)
    && reply.timeout == (if NegotiateTimeout(c, s) then Some(SecondsOnWire(c.timeout.value)) else None)
    && reply.options ==
         Numbered(
           reply.dataSize,
           if NegotiateTimeout(c, s) then Some(SecondsOnWire(c.timeout.value)) else None,
           transferSize)
  }

  /** The known options of a request with this configuration. */
  function Known(c: Configuration, size: Option<uint64>): ClientOptions {
    ClientOptions(
      InRange(WireBlockSize(c), BLOCK_SIZE_MIN, BLOCK_SIZE_MAX), InRange(WireTimeout(c), TIMEOUT_MIN, TIMEOUT_MAX),
      WireSize(c, size))
  }

  lemma RequestDecoded(c: Configuration, size: Option<uint64>)
    ensures DecodeOptions(RequestOptions(map[], c, size)) == DecodedOptions(Known(c, size), map[])
  {
    DecodeNumbered(WireBlockSize(c), WireTimeout(c), WireSize(c, size));
    assert RequestOptions(map[], c, size) == Numbered(WireBlockSize(c), WireTimeout(c), WireSize(c, size));
  }

  function AnsweredSize(c: Configuration, s: Configuration, size: Option<uint64>): Option<uint64> {
    if c.handleTransferSize && s.handleTransferSize then size else None
  }

  lemma SizeAndTimeoutAnswer(c: Configuration, s: Configuration, size: Option<uint64>)
    ensures Answers(c, s, SizeAndTimeoutReply(s, Known(c, size), map[]), None)
  {
  }

  lemma ReadAnswers(c: Configuration, s: Configuration, fileSize: Option<uint64>)
    ensures Answers(c, s, ReadReply(s, Known(c, Some(0)), map[], fileSize), AnsweredSize(c, s, fileSize))
  {
    SizeAndTimeoutAnswer(c, s, Some(0));
  }

  lemma WriteAnswers(c: Configuration, s: Configuration, fileSize: Option<uint64>, accepts: bool)
    requires AnsweredSize(c, s, fileSize).Some? ==> accepts
    ensures Answers(c, s, WriteReply(s, Known(c, fileSize), map[], accepts), AnsweredSize(c, s, fileSize))
  {
    SizeAndTimeoutAnswer(c, s, fileSize);
  }

  lemma AnswerOnWire(c: Configuration, s: Configuration, reply: Reply, size: Option<uint64>)
    requires Answers(c, s, reply, size)
    ensures Printable(reply.options) && |Encode(OptionsAcknowledgement(reply.options))| <= 89
  {
    NumberedOnWire(
      reply.dataSize, if NegotiateTimeout(c, s) then Some(SecondsOnWire(c.timeout.value)) else None, size);
  }

  lemma EmptyAnswer(c: Configuration, s: Configuration, reply: Reply, size: Option<uint64>)
    requires Answers(c, s, reply, size) && reply.options == map[]
    ensures reply.dataSize.None? && reply.timeout.None?
  {
    NumberedEntries(
      reply.dataSize, if NegotiateTimeout(c, s) then Some(SecondsOnWire(c.timeout.value)) else None, size);
  }

  lemma AnswerAccepted(c: Configuration, s: Configuration, rule: Option<SizeRule>, reply: Reply, size: Option<uint64>)
    requires Answers(c, s, reply, size) && reply.options != map[]
    ensures var verdict := CheckOack(c, rule, reply.options);
            && (verdict.refusal.None? <==>
                  Compatible(c, s) && (size.Some? ==> GoodTransferSize(rule, map[TSIZE := ToString(size.value)])))
            && (verdict.refusal.None? ==> verdict.dataSize == reply.dataSize && verdict.timeout == reply.timeout)
  {
    OackAcceptance(c, rule, reply.options);
    var timeout: Option<uint64> := if NegotiateTimeout(c, s) then Some(SecondsOnWire(c.timeout.value)) else None;
    NumberedEntries(reply.dataSize, timeout, size);
    if size.Some? {
      StoullToString(size.value);
    }
  }

  /**
   * Read requests: the server never refuses, and the client accepts the reply exactly if the configurations are
   * compatible and its file handler accepts an acknowledged size. Then both sides hold the same block size and
   * timeout. Without an OACK both keep 512 bytes and their own timeouts.
   */
  lemma ReadNegotiation(c: Configuration, s: Configuration, fileSize: Option<uint64>, accepts: bool)
    ensures var decoded := DecodeOptions(RequestOptions(map[], c, Some(0)));
            var reply := ReadReply(s, decoded.known, map[], fileSize);
            var verdict := CheckOack(c, if c.handleTransferSize then Some(Offered(accepts)) else None, reply.options);
            && decoded.rest == map[]
            && reply.refusal.None?
            && reply.dataSize.GetOr(DEFAULT_DATA_SIZE) == AgreedBlockSize(c, s)
            && (reply.options == map[] ==> reply.dataSize.None? && reply.timeout.None?)
            && (reply.options != map[] ==>
                  && (verdict.refusal.None? <==>
                       Compatible(c, s) && (c.handleTransferSize && s.handleTransferSize && fileSize.Some? ==> accepts))
                  && (verdict.refusal.None? ==> verdict.dataSize == reply.dataSize && verdict.timeout == reply.timeout))
  {
    var rule := if c.handleTransferSize then Some(Offered(accepts)) else None;
    var reply, size := ReadReply(s, Known(c, Some(0)), map[], fileSize), AnsweredSize(c, s, fileSize);
    RequestDecoded(c, Some(0));
    ReadAnswers(c, s, fileSize);
    if reply.options == map[] {
      EmptyAnswer(c, s, reply, size);
    } else {
      AnswerAccepted(c, s, rule, reply, size);
      if size.Some? {
        StoullToString(size.value);
      }
    }
  }

  /**
   * Write requests: the server refuses exactly if both sides handle the transfer size and its file handler rejects
   * it; otherwise the client accepts the reply exactly if the configurations are compatible.
   */
  lemma WriteNegotiation(c: Configuration, s: Configuration, fileSize: Option<uint64>, accepts: bool)
    ensures var offered := if c.handleTransferSize then fileSize else None;
            var decoded := DecodeOptions(RequestOptions(map[], c, fileSize));
            var reply := WriteReply(s, decoded.known, map[], accepts);
            var verdict := CheckOack(c, if offered.Some? then Some(Echoed(offered.value)) else None, reply.options);
            && decoded.rest == map[]
            && (reply.refusal.Some? <==> offered.Some? && s.handleTransferSize && !accepts)
            && reply.dataSize.GetOr(DEFAULT_DATA_SIZE) == AgreedBlockSize(c, s)
            && (reply.refusal.None? && reply.options == map[] ==> reply.dataSize.None? && reply.timeout.None?)
            && (reply.refusal.None? && reply.options != map[] ==>
                  && (verdict.refusal.None? <==> Compatible(c, s))
                  && (verdict.refusal.None? ==> verdict.dataSize == reply.dataSize && verdict.timeout == reply.timeout))
  {
    var offered := WireSize(c, fileSize);
    var rule := if offered.Some? then Some(Echoed(offered.value)) else None;
    var reply, size := WriteReply(s, Known(c, fileSize), map[], accepts), AnsweredSize(c, s, fileSize);
    RequestDecoded(c, fileSize);
    SizeAndTimeoutAnswer(c, s, fileSize);
    if size.Some? ==> accepts {
      WriteAnswers(c, s, fileSize, accepts);
      if reply.options == map[] {
        EmptyAnswer(c, s, reply, size);
      } else {
        AnswerAccepted(c, s, rule, reply, size);
        if size.Some? {
          StoullToString(size.value);
        }
      }
    }
  }
}
