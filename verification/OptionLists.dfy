/** TFTP options: names and values, each ended by a NUL byte on the wire (RFC 2347). */
module OptionLists {
  import opened Basics
  import opened Decimals

  /** A `std::map` from option names to option values. */
  type Options = map<Bytes, Bytes>

  predicate NulFree(text: Bytes) {
    forall i :: 0 <= i < |text| ==> text[i] != 0
  }

  predicate Printable(options: Options) {
    forall name :: name in options ==> NulFree(name) && NulFree(options[name])
  }

  /** `std::map::emplace` and `try_emplace`: an entry that is already present stays. */
  function TryEmplace(options: Options, name: Bytes, value: Bytes): Options {
    if name in options then options else options[name := value]
  }

  /** The position of the first NUL byte, or the length of the text if there is none. */
  function FindNul(text: Bytes): (position: nat)
    ensures position <= |text|
  {
    if text == [] || text[0] == 0 then 0 else 1 + FindNul(text[1..])
  }

  lemma {:induction false} FindNulFirst(text: Bytes)
    ensures forall i :: 0 <= i < FindNul(text) ==> text[i] != 0
    ensures FindNul(text) < |text| ==> text[FindNul(text)] == 0
  {
    if text != [] && text[0] != 0 {
      FindNulFirst(text[1..]);
      assert text == [text[0]] + text[1..];
    }
  }

  /** A text ended by a NUL byte, and what follows the NUL byte. */
  datatype Field = Field(text: Bytes, rest: Bytes)

  function TakeField(raw: Bytes): (field: Option<Field>)
    ensures field.Some? ==> NulFree(field.value.text) && raw == field.value.text + [0] + field.value.rest
    ensures field.None? ==> NulFree(raw)
  {
    FindNulFirst(raw);
    var end := FindNul(raw);
    if end == |raw| then None else Some(Field(raw[..end], raw[end + 1..]))
  }

  lemma TakeFieldOf(text: Bytes, rest: Bytes)
    requires NulFree(text)
    ensures TakeField(text + [0] + rest) == Some(Field(text, rest))
  {
    var raw := text + [0] + rest;
    assert raw[|text|] == 0;
    assert forall i :: 0 <= i < |text| ==> raw[i] == text[i];
    FindNulFirst(raw);
    assert FindNul(raw) == |text|;
    assert raw[..|text|] == text && raw[|text| + 1..] == rest;
  }

  /** The parsed list; `None` stands for `InvalidPacketException`. The first of several equal names wins. */
  function Parse(raw: Bytes): Option<Options>
    decreases |raw|
  {
    if raw == [] then Some(map[])
    else
      match TakeField(raw)
      case None => None
      case Some(name) =>
        match TakeField(name.rest)
        case None => None
        case Some(value) =>
          match Parse(value.rest)
          case None => None
          case Some(rest) => Some(rest[name.text := value.text])
  }

  /** What remains to be parsed, added under the entries that are already there. */
  function Under(parsed: Option<Options>, options: Options): Option<Options> {
    match parsed
    case None => None
    case Some(tail) => Some(tail + options)
  }

  lemma EmplaceUnder(tail: Options, options: Options, name: Bytes, value: Bytes)
    ensures tail[name := value] + options == tail + TryEmplace(options, name, value)
  {
  }

  lemma ParseUnfold(raw: Bytes, name: Field, value: Field)
    requires raw != [] && TakeField(raw) == Some(name) && TakeField(name.rest) == Some(value)
    ensures Parse(raw) ==
      match Parse(value.rest) case None => None case Some(rest) => Some(rest[name.text := value.text])
  {
  }

  lemma ParseStep(raw: Bytes, options: Options, name: Field, value: Field)
    requires raw != [] && TakeField(raw) == Some(name) && TakeField(name.rest) == Some(value)
    ensures Under(Parse(raw), options) == Under(Parse(value.rest), TryEmplace(options, name.text, value.text))
  {
    ParseUnfold(raw, name, value);
    if Parse(value.rest).Some? {
      EmplaceUnder(Parse(value.rest).value, options, name.text, value.text);
    }
  }

  /** The parser of the source: a loop that takes one name and one value off the front of the string. */
  method ParseOptions(raw: Bytes) returns (result: Option<Options>)
    ensures result == Parse(raw)
  {
    var options: Options := map[];
    var rest := raw;
    assert Parse(raw).Some? ==> Parse(raw).value + options == Parse(raw).value;
    while rest != []
      invariant Parse(raw) == Under(Parse(rest), options)
      decreases |rest|
    {
      var name := TakeField(rest);
      if name.None? {
        return None;
      }
      var value := TakeField(name.value.rest);
      if value.None? {
        return None;
      }
      ParseStep(rest, options, name.value, value.value);
      options := TryEmplace(options, name.value.text, value.value.text);
      rest := value.value.rest;
    }
    assert map[] + options == options;
    return Some(options);
  }

  // The order of the keys of a std::map<std::string, ...>

  predicate Before(a: Bytes, b: Bytes) {
    a == [] || (b != [] && (a[0] < b[0] || (a[0] == b[0] && Before(a[1..], b[1..]))))
  }

  lemma {:induction false} BeforeTotal(a: Bytes, b: Bytes)
    ensures Before(a, b) || Before(b, a)
    ensures Before(a, b) && Before(b, a) ==> a == b
  {
    if a != [] && b != [] {
      BeforeTotal(a[1..], b[1..]);
      if Before(a, b) && Before(b, a) {
        assert a == [a[0]] + a[1..] && b == [b[0]] + b[1..];
      }
    }
  }

  lemma {:induction false} BeforeTransitive(a: Bytes, b: Bytes, c: Bytes)
    requires Before(a, b) && Before(b, c)
    ensures Before(a, c)
  {
    if a != [] && a[0] == b[0] == c[0] {
      BeforeTransitive(a[1..], b[1..], c[1..]);
    }
  }

  ghost predicate IsFirst(name: Bytes, names: set<Bytes>) {
    name in names && forall other :: other in names ==> Before(name, other)
  }

  lemma {:induction false} FirstExists(names: set<Bytes>)
    requires names != {}
    ensures exists name :: IsFirst(name, names)
  {
    var candidate :| candidate in names;
    if names == {candidate} {
      BeforeTotal(candidate, candidate);
      assert IsFirst(candidate, names);
    } else {
      FirstExists(names - {candidate});
      var first :| IsFirst(first, names - {candidate});
      BeforeTotal(candidate, first);
      BeforeTotal(candidate, candidate);
      if Before(first, candidate) {
        assert IsFirst(first, names);
      } else {
        forall other | other in names
          ensures Before(candidate, other)
        {
          if other != candidate {
            BeforeTransitive(candidate, first, other);
          }
        }
        assert IsFirst(candidate, names);
      }
    }
  }

  ghost function FirstName(names: set<Bytes>): (name: Bytes)
    requires names != {}
    ensures IsFirst(name, names)
  {
    FirstExists(names);
    var name :| IsFirst(name, names);
    name
  }

  lemma FirstNameUnique(name: Bytes, names: set<Bytes>)
    requires IsFirst(name, names)
    ensures FirstName(names) == name
  {
    BeforeTotal(name, FirstName(names));
  }

  function Entry(name: Bytes, value: Bytes): Bytes {
    name + [0] + value + [0]
  }

  /** The bytes of the option list, in the order of the map. */
  ghost function Raw(options: Options): Bytes
    decreases |options|
  {
    if options == map[] then []
    else
      var name := FirstName(options.Keys);
      Smaller(options, name);
      Entry(name, options[name]) + Raw(options - {name})
  }

  lemma Smaller(options: Options, name: Bytes)
    requires name in options
    ensures |options - {name}| == |options| - 1
  {
    var rest := options - {name};
    assert rest.Keys == options.Keys - {name};
    assert |rest.Keys| == |rest| && |options.Keys| == |options|;
  }

  lemma RawUnfold(options: Options, name: Bytes)
    requires IsFirst(name, options.Keys)
    ensures |options - {name}| == |options| - 1
    ensures Raw(options) == Entry(name, options[name]) + Raw(options - {name})
  {
    FirstNameUnique(name, options.Keys);
    Smaller(options, name);
  }

  lemma RawAppend(before: Bytes, rest: Options, name: Bytes)
    requires IsFirst(name, rest.Keys)
    ensures |rest - {name}| < |rest|
    ensures before + Raw(rest) == before + name + [0] + rest[name] + [0] + Raw(rest - {name})
  {
    RawUnfold(rest, name);
    var entry, tail := Entry(name, rest[name]), Raw(rest - {name});
    assert before + (entry + tail) == before + entry + tail;
    assert before + entry == before + name + [0] + rest[name] + [0];
  }

  /** The printer of the source: a loop over the map that appends to a byte vector. */
  method RawOptions(options: Options) returns (raw: Bytes)
    ensures raw == Raw(options)
  {
    raw := [];
    var rest := options;
    while rest != map[]
      invariant raw + Raw(rest) == Raw(options)
      decreases |rest|
    {
      FirstExists(rest.Keys);
      var name :| name in rest.Keys && forall other :: other in rest.Keys ==> Before(name, other);
      RawAppend(raw, rest, name);
      raw := raw + name;
      raw := raw + [0];
      raw := raw + rest[name];
      raw := raw + [0];
      rest := rest - {name};
    }
    assert raw + [] == raw;
  }

  // Round trips

  lemma ParseEntry(name: Bytes, value: Bytes, rest: Bytes)
    requires NulFree(name) && NulFree(value)
    ensures Parse(Entry(name, value) + rest) ==
      match Parse(rest) case None => None case Some(options) => Some(options[name := value])
  {
    assert Entry(name, value) + rest == name + [0] + (value + [0] + rest);
    TakeFieldOf(name, value + [0] + rest);
    TakeFieldOf(value, rest);
  }

  /** Printing and parsing gives back every list without NUL bytes in names and values. */
  lemma {:induction false} ParseRaw(options: Options)
    requires Printable(options)
    ensures Parse(Raw(options)) == Some(options)
    decreases |options|
  {
    if options != map[] {
      var name := FirstName(options.Keys);
      Smaller(options, name);
      ParseRaw(options - {name});
      ParseEntry(name, options[name], Raw(options - {name}));
      assert (options - {name})[name := options[name]] == options;
    }
  }

  function NulCount(raw: Bytes): nat {
    if raw == [] then 0 else (if raw[0] == 0 then 1 else 0) + NulCount(raw[1..])
  }

  lemma {:induction false} NulCountFree(raw: Bytes)
    requires NulFree(raw)
    ensures NulCount(raw) == 0
  {
    if raw != [] {
      NulCountFree(raw[1..]);
    }
  }

  lemma {:induction false} NulCountField(text: Bytes, rest: Bytes)
    requires NulFree(text)
    ensures NulCount(text + [0] + rest) == 1 + NulCount(rest)
  {
    if text == [] {
      assert text + [0] + rest == [0] + rest;
    } else {
      NulCountField(text[1..], rest);
      assert (text + [0] + rest)[1..] == text[1..] + [0] + rest;
    }
  }

  predicate WellTerminated(raw: Bytes) {
    raw == [] || (raw[|raw| - 1] == 0 && NulCount(raw) % 2 == 0)
  }

  lemma NulCountStep(raw: Bytes, name: Field, value: Field)
    requires TakeField(raw) == Some(name) && TakeField(name.rest) == Some(value)
    ensures NulCount(raw) == NulCount(value.rest) + 2
  {
    NulCountField(name.text, name.rest);
    NulCountField(value.text, value.rest);
  }

  lemma LastByteStep(raw: Bytes, name: Field, value: Field)
    requires TakeField(raw) == Some(name) && TakeField(name.rest) == Some(value)
    ensures raw != [] && raw[|raw| - 1] == if value.rest == [] then 0 else value.rest[|value.rest| - 1]
  {
    LastByte(name.text + [0], name.rest);
    LastByte(value.text + [0], value.rest);
  }

  lemma SameTermination(raw: Bytes, rest: Bytes)
    requires raw != [] && raw[|raw| - 1] == if rest == [] then 0 else rest[|rest| - 1]
    requires NulCount(raw) == NulCount(rest) + 2
    ensures WellTerminated(raw) <==> WellTerminated(rest)
  {
  }

  lemma LastByte(front: Bytes, rest: Bytes)
    requires front != [] && front[|front| - 1] == 0
    ensures var raw := front + rest; raw[|raw| - 1] == if rest == [] then 0 else rest[|rest| - 1]
  {
  }

  /** Exactly the inputs that are empty, or end in a NUL byte and hold an even number of them, can be parsed. */
  lemma {:induction false} ParseSucceeds(raw: Bytes)
    ensures Parse(raw).Some? <==> WellTerminated(raw)
    decreases |raw|
  {
    if raw != [] && TakeField(raw).Some? {
      var name := TakeField(raw).value;
      if TakeField(name.rest).Some? {
        var value := TakeField(name.rest).value;
        ParseSucceeds(value.rest);
        NulCountStep(raw, name, value);
        LastByteStep(raw, name, value);
        SameTermination(raw, value.rest);
      } else {
        NulCountField(name.text, name.rest);
        NulCountFree(name.rest);
      }
    }
  }

  datatype NamedValue = NamedValue(name: Bytes, value: Bytes)

  function PrintList(entries: seq<NamedValue>): Bytes {
    if entries == [] then [] else Entry(entries[0].name, entries[0].value) + PrintList(entries[1..])
  }

  /** The value of the first entry with the given name. */
  function FirstValue(entries: seq<NamedValue>, name: Bytes): Option<Bytes> {
    if entries == [] then None
    else if entries[0].name == name then Some(entries[0].value)
    else FirstValue(entries[1..], name)
  }

  ghost predicate NulFreeEntries(entries: seq<NamedValue>) {
    forall i :: 0 <= i < |entries| ==> NulFree(entries[i].name) && NulFree(entries[i].value)
  }

  /** On repeated names the first value wins, and no name appears from nowhere. */
  lemma {:induction false} ParseList(entries: seq<NamedValue>)
    requires NulFreeEntries(entries)
    ensures Parse(PrintList(entries)).Some?
    ensures var options := Parse(PrintList(entries)).value;
            forall name :: FirstValue(entries, name) == if name in options then Some(options[name]) else None
  {
    if entries != [] {
      ParseList(entries[1..]);
      ParseEntry(entries[0].name, entries[0].value, PrintList(entries[1..]));
    }
  }

  ghost predicate StrictlySorted(entries: seq<NamedValue>) {
    forall i, j :: 0 <= i < j < |entries| ==>
      entries[i].name != entries[j].name && Before(entries[i].name, entries[j].name)
  }

  lemma {:induction false} FirstValueListed(entries: seq<NamedValue>, name: Bytes)
    ensures FirstValue(entries, name).Some? ==>
      exists i :: 0 <= i < |entries| && entries[i] == NamedValue(name, FirstValue(entries, name).value)
  {
    if entries != [] && FirstValue(entries, name).Some? {
      var value := FirstValue(entries, name).value;
      if entries[0].name == name {
        assert entries[0] == NamedValue(name, value);
      } else {
        FirstValueListed(entries[1..], name);
        var i :| 0 <= i < |entries[1..]| && entries[1..][i] == NamedValue(name, value);
        assert entries[i + 1] == NamedValue(name, value);
      }
    }
  }

  lemma HeadIsFirst(entries: seq<NamedValue>, options: Options)
    requires NulFreeEntries(entries) && StrictlySorted(entries) && entries != []
    requires Parse(PrintList(entries[1..])) == Some(options)
    ensures entries[0].name !in options && IsFirst(entries[0].name, options.Keys + {entries[0].name})
  {
    var name, tail := entries[0].name, entries[1..];
    ParseList(tail);
    BeforeTotal(name, name);
    forall other | other in options
      ensures other != name && Before(name, other)
    {
      FirstValueListed(tail, other);
      var i :| 0 <= i < |tail| && tail[i] == NamedValue(other, options[other]);
      assert entries[i + 1].name == other;
    }
  }

  /** Printing a parsed list gives back the input bytes when its names are strictly sorted. */
  lemma {:induction false} RawParse(entries: seq<NamedValue>)
    requires NulFreeEntries(entries) && StrictlySorted(entries)
    ensures Parse(PrintList(entries)).Some? && Raw(Parse(PrintList(entries)).value) == PrintList(entries)
  {
    if entries != [] {
      var name, value, tail := entries[0].name, entries[0].value, entries[1..];
      RawParse(tail);
      ParseEntry(name, value, PrintList(tail));
      var rest := Parse(PrintList(tail)).value;
      HeadIsFirst(entries, rest);
      var options := rest[name := value];
      assert options.Keys == rest.Keys + {name};
      RawUnfold(options, name);
      assert options - {name} == rest;
    }
  }

  // Any bytes

  lemma FieldsOfRaw(raw: Bytes, name: Field, value: Field)
    requires TakeField(raw) == Some(name) && TakeField(name.rest) == Some(value)
    ensures raw == Entry(name.text, value.text) + value.rest
  {
  }

  /** What is accepted is a printed list of names and values, in any order and with repeated names. */
  lemma {:induction false} ParsedIsList(raw: Bytes) returns (entries: seq<NamedValue>)
    requires Parse(raw).Some?
    ensures NulFreeEntries(entries) && raw == PrintList(entries)
    decreases |raw|
  {
    if raw == [] {
      return [];
    }
    var name := TakeField(raw).value;
    var value := TakeField(name.rest).value;
    var rest := ParsedIsList(value.rest);
    FieldsOfRaw(raw, name, value);
    entries := [NamedValue(name.text, value.text)] + rest;
    assert entries[1..] == rest;
  }

  /** There is only one such list. */
  lemma {:induction false} PrintListOnce(one: seq<NamedValue>, other: seq<NamedValue>)
    requires NulFreeEntries(one) && NulFreeEntries(other) && PrintList(one) == PrintList(other)
    ensures one == other
  {
    if one != [] && other != [] {
      FieldsOfEntry(one[0], PrintList(one[1..]));
      FieldsOfEntry(other[0], PrintList(other[1..]));
      PrintListOnce(one[1..], other[1..]);
      assert one == [one[0]] + one[1..] && other == [other[0]] + other[1..];
    }
  }

  lemma FieldsOfEntry(entry: NamedValue, rest: Bytes)
    requires NulFree(entry.name) && NulFree(entry.value)
    ensures var raw := Entry(entry.name, entry.value) + rest;
            && TakeField(raw) == Some(Field(entry.name, entry.value + [0] + rest))
            && TakeField(entry.value + [0] + rest) == Some(Field(entry.value, rest))
  {
    assert Entry(entry.name, entry.value) + rest == entry.name + [0] + (entry.value + [0] + rest);
    TakeFieldOf(entry.name, entry.value + [0] + rest);
    TakeFieldOf(entry.value, rest);
  }

  /** Printing a map prints its entries, sorted by name. */
  lemma {:induction false} RawIsSortedList(options: Options) returns (entries: seq<NamedValue>)
    requires Printable(options)
    ensures NulFreeEntries(entries) && StrictlySorted(entries) && Raw(options) == PrintList(entries)
    ensures forall i :: 0 <= i < |entries| ==> entries[i].name in options
    decreases |options|
  {
    if options == map[] {
      return [];
    }
    var name := FirstName(options.Keys);
    RawUnfold(options, name);
    var rest := RawIsSortedList(options - {name});
    entries := [NamedValue(name, options[name])] + rest;
    assert entries[1..] == rest;
  }

  lemma ParsedPrintable(entries: seq<NamedValue>, options: Options)
    requires NulFreeEntries(entries) && Parse(PrintList(entries)) == Some(options)
    ensures Printable(options)
  {
    ParseList(entries);
    forall name | name in options
      ensures NulFree(name) && NulFree(options[name])
    {
      FirstValueListed(entries, name);
    }
  }

  /**
   * Bytes are accepted exactly if they are a list of names and values; the first of several equal names is kept, and
   * printing what was parsed gives the bytes back exactly if their names are strictly sorted.
   */
  lemma ParseBytes(raw: Bytes)
    ensures Parse(raw).Some? <==> exists entries :: NulFreeEntries(entries) && raw == PrintList(entries)
    ensures forall entries, name :: NulFreeEntries(entries) && raw == PrintList(entries) ==>
      var options := Parse(raw).GetOr(map[]);
      FirstValue(entries, name) == if name in options then Some(options[name]) else None
    ensures forall entries :: NulFreeEntries(entries) && raw == PrintList(entries) ==>
      (Parse(raw).Some? && Raw(Parse(raw).value) == raw <==> StrictlySorted(entries))
  {
    if Parse(raw).Some? {
      var listed := ParsedIsList(raw);
    }
    forall entries | NulFreeEntries(entries) && raw == PrintList(entries)
      ensures Parse(raw).Some?
      ensures forall name ::
        FirstValue(entries, name) == if name in Parse(raw).value then Some(Parse(raw).value[name]) else None
      ensures Raw(Parse(raw).value) == raw <==> StrictlySorted(entries)
    {
      ParseList(entries);
      if StrictlySorted(entries) {
        RawParse(entries);
      } else {
        ParsedPrintable(entries, Parse(raw).value);
        var sorted := RawIsSortedList(Parse(raw).value);
        if Raw(Parse(raw).value) == raw {
          PrintListOnce(entries, sorted);
        }
      }
    }
  }

  /** A bound on the printed length, for datagram sizes. */
  lemma {:induction false} RawLength(options: Options, longest: nat)
    requires forall name :: name in options ==> |Entry(name, options[name])| <= longest
    ensures |Raw(options)| <= |options| * longest
    decreases |options|
  {
    if options != map[] {
      var name := FirstName(options.Keys);
      RawUnfold(options, name);
      var rest := options - {name};
      forall other | other in rest
        ensures |Entry(other, rest[other])| <= longest
      {
        assert |Entry(other, options[other])| <= longest;
      }
      RawLength(rest, longest);
      OneMore(|rest|, longest);
    }
  }

  lemma OneMore(count: nat, factor: nat)
    ensures (count + 1) * factor == count * factor + factor
  {
  }

  // Decoding one option

  /** The answer of the source: whether negotiation may go on, the value if there is one, and the remaining options. */
  datatype Extracted = Extracted(valid: bool, value: Option<uint64>, rest: Options)

  function Extract(options: Options, name: Bytes, min: uint64, max: uint64): (result: Extracted)
    ensures result.value.Some? ==> result.valid && min <= result.value.value <= max
  {
    if name !in options then Extracted(true, None, options)
    else
      var text, rest := options[name], options - {name};
      if text == [] then Extracted(false, None, rest)
      else
        match Stoull(text)
        case None => Extracted(false, None, rest)
        case Some(value) =>
          if value < min || value > max then Extracted(false, None, rest) else Extracted(true, Some(value), rest)
  }

  /** A printed value is accepted exactly when it lies in the range, and only its own entry is taken out. */
  lemma DecimalOption(options: Options, name: Bytes, n: nat, min: uint64, max: uint64)
    requires name in options && options[name] == ToString(n)
    ensures var result := Extract(options, name, min, max);
            && result.valid == (min <= n <= max)
            && result.value == (if min <= n <= max then Some(n) else None)
            && name !in result.rest
            && forall other :: other != name ==>
                 && (other in result.rest <==> other in options)
                 && (other in options ==> result.rest[other] == options[other])
  {
    StoullToString(n);
  }

  /** The caller's option list, from which the source extracts the entry in place. */
  class OptionList {
    var entries: Options

    constructor (options: Options)
      ensures entries == options
    {
      entries := options;
    }

    method GetOption(name: Bytes, min: uint64, max: uint64) returns (valid: bool, value: Option<uint64>)
      modifies this
      ensures Extracted(valid, value, entries) == Extract(old(entries), name, min, max)
    {
      if name !in entries {
        return true, None;
      }
      var text := entries[name];
      entries := entries - {name};
      if text == [] {
        return false, None;
      }
      var parsed := Stoull(text);
      if parsed.None? {
        return false, None;
      }
      if parsed.value < min || parsed.value > max {
        return false, None;
      }
      return true, parsed;
    }
  }
}
