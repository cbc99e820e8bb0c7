/**
  The meaning of a JSON text, over its UTF-8 bytes. `TakeValue` and its companions read one value
  off the front of the bytes and say what is left; they are what the cursor-driven parser computes.
 */
module Json {
  import opened Prelude
  import opened Floats
  import opened Wire
  import Utf8

  /** Deepest nesting the parser accepts. */
  const MAX_DEPTH := 32

  const QUOTE: byte := 0x22
  const COMMA: byte := 0x2c
  const MINUS: byte := 0x2d
  const DOT: byte := 0x2e
  const COLON: byte := 0x3a
  const OPEN_BRACKET: byte := 0x5b
  const BACKSLASH: byte := 0x5c
  const CLOSE_BRACKET: byte := 0x5d
  const OPEN_BRACE: byte := 0x7b
  const CLOSE_BRACE: byte := 0x7d

  datatype Value =
    | Null
    | Bool(truth: bool)
    | Number(text: string)
    | String(content: string)
    | Array(items: seq<Value>)
    | Object(entries: seq<Entry>)

  datatype Entry = Entry(key: string, value: Value)

  /** How doubles are printed and read back; `Faithful` is what the host's formatter promises. */
  datatype FloatText = FloatText(show: F64 -> string, read: string -> Option<F64>)

  // Cursor moves.

  predicate IsSpace(b: byte) {
    b == 0x20 || b == 0x09 || b == 0x0a || b == 0x0d
  }

  predicate IsDigit(b: byte) {
    0x30 <= b <= 0x39
  }

  function SkipSpace(bs: seq<byte>): (rest: seq<byte>)
    ensures |rest| <= |bs|
    ensures rest != [] ==> !IsSpace(rest[0])
  {
    if bs != [] && IsSpace(bs[0]) then SkipSpace(bs[1..]) else bs
  }

  /** The first byte is `b`. */
  predicate At(bs: seq<byte>, b: byte) {
    bs != [] && bs[0] == b
  }

  /** Reading anything leaves fewer bytes. */
  ghost predicate Advances<T>(r: Parsed<T>, bs: seq<byte>) {
    r.Some? ==> |r.value.1| < |bs|
  }

  // Strings.

  function HexValue(b: byte): Option<nat> {
    if IsDigit(b) then Some(b - 0x30)
    else if 0x61 <= b <= 0x66 then Some(b - 0x61 + 10)
    else if 0x41 <= b <= 0x46 then Some(b - 0x41 + 10)
    else None
  }

  function TakeHex4(bs: seq<byte>): (r: Parsed<nat>)
    ensures Advances(r, bs)
    ensures r.Some? ==> r.value.0 < 0x1_0000
  {
    if |bs| < 4 then None
    else
      var a :- HexValue(bs[0]);
      var b :- HexValue(bs[1]);
      var c :- HexValue(bs[2]);
      var d :- HexValue(bs[3]);
      Some((a * 0x1000 + b * 0x100 + c * 0x10 + d, bs[4..]))
  }

  /** `char::from_u32`: the scalar with this number, when there is one. */
  function Scalar(v: nat): Option<char> {
    if v < 0xd800 || 0xe000 <= v < 0x11_0000 then Some(v as char) else None
  }

  predicate IsHighSurrogate(v: nat) {
    0xd800 <= v < 0xdc00
  }

  predicate IsLowSurrogate(v: nat) {
    0xdc00 <= v < 0xe000
  }

  /** The scalar a surrogate pair stands for (section 7 of RFC 8259). */
  function PairScalar(high: nat, low: nat): nat
    requires IsHighSurrogate(high) && IsLowSurrogate(low)
  {
    0x1_0000 + (high - 0xd800) * 0x400 + (low - 0xdc00)
  }

  function TakeCodeUnit(bs: seq<byte>): (r: Parsed<char>)
    ensures Advances(r, bs)
  {
    var (first, bs1) :- TakeHex4(bs);
    if IsHighSurrogate(first) then
      if |bs1| < 2 || bs1[0] != BACKSLASH || bs1[1] != 0x75 then None
      else
        var (second, bs2) :- TakeHex4(bs1[2..]);
        if !IsLowSurrogate(second) then None
        else
          var c :- Scalar(PairScalar(first, second));
          Some((c, bs2))
    else
      var c :- Scalar(first);
      Some((c, bs1))
  }

  /** What the byte after a backslash stands for; `u` is not among these. */
  function ShortEscape(b: byte): Option<char> {
    if b == QUOTE then Some('\"')
    else if b == BACKSLASH then Some('\\')
    else if b == 0x2f then Some('/')
    else if b == 0x62 then Some(8 as char)
    else if b == 0x66 then Some(12 as char)
    else if b == 0x6e then Some('\n')
    else if b == 0x72 then Some('\r')
    else if b == 0x74 then Some('\t')
    else None
  }

  /** The width of the UTF-8 sequence a raw byte starts. */
  function RawWidth(b: byte): Option<nat> {
    if b < 0x80 then Some(1)
    else if 0xc2 <= b <= 0xdf then Some(2)
    else if 0xe0 <= b <= 0xef then Some(3)
    else if 0xf0 <= b <= 0xf4 then Some(4)
    else None
  }

  /** One raw UTF-8 sequence of a string. */
  function TakeRaw(bs: seq<byte>): (r: Parsed<string>)
    requires bs != []
    ensures Advances(r, bs)
  {
    var width :- RawWidth(bs[0]);
    if |bs| < width then None
    else
      var s :- Utf8.Decode(bs[..width]);
      Some((s, bs[width..]))
  }

  /** One escape, the backslash included. */
  function TakeEscape(bs: seq<byte>): (r: Parsed<char>)
    requires At(bs, BACKSLASH)
    ensures Advances(r, bs)
  {
    if |bs| < 2 then None
    else if bs[1] == 0x75 then TakeCodeUnit(bs[2..])
    else
      var c :- ShortEscape(bs[1]);
      Some((c, bs[2..]))
  }

  /** The inside of a string, up to and including its closing quote. */
  function TakeChars(bs: seq<byte>): (r: Parsed<string>)
    ensures Advances(r, bs)
    decreases |bs|
  {
    hide TakeEscape, TakeRaw;
    if bs == [] then None
    else if bs[0] == QUOTE then Some(([], bs[1..]))
    else if bs[0] == BACKSLASH then
      var (c, bs1) :- TakeEscape(bs);
      var (s, bs2) :- TakeChars(bs1);
      Some(([c] + s, bs2))
    else if bs[0] < 0x20 then None
    else
      var (raw, bs1) :- TakeRaw(bs);
      var (s, bs2) :- TakeChars(bs1);
      Some((raw + s, bs2))
  }

  function TakeString(bs: seq<byte>): (r: Parsed<string>)
    requires At(bs, QUOTE)
    ensures Advances(r, bs)
  {
    TakeChars(bs[1..])
  }

  // Numbers.

  function DigitsLength(bs: seq<byte>): (n: nat)
    ensures n <= |bs|
    ensures forall k :: 0 <= k < n ==> IsDigit(bs[k])
    ensures n < |bs| ==> !IsDigit(bs[n])
  {
    if bs != [] && IsDigit(bs[0]) then 1 + DigitsLength(bs[1..]) else 0
  }

  /** How many bytes the number scanner consumes: sign, digits, fraction, exponent, each optional. */
  function NumberLength(bs: seq<byte>): (n: nat)
    ensures n <= |bs|
  {
    if At(bs, MINUS) then 1 + UnsignedLength(bs[1..]) else UnsignedLength(bs)
  }

  function UnsignedLength(bs: seq<byte>): (n: nat)
    ensures n <= |bs|
  {
    var whole := DigitsLength(bs);
    whole + FractionLength(bs[whole..])
  }

  function FractionLength(bs: seq<byte>): (n: nat)
    ensures n <= |bs|
  {
    if At(bs, DOT) then
      var digits := DigitsLength(bs[1..]);
      1 + digits + ExponentLength(bs[1 + digits..])
    else ExponentLength(bs)
  }

  function ExponentLength(bs: seq<byte>): (n: nat)
    ensures n <= |bs|
  {
    if At(bs, 0x65) || At(bs, 0x45) then
      var sign := if At(bs[1..], 0x2b) || At(bs[1..], MINUS) then 2 else 1;
      sign + DigitsLength(bs[sign..])
    else 0
  }

  function TakeNumber(ft: FloatText, bs: seq<byte>): (r: Parsed<Value>)
    ensures Advances(r, bs)
    ensures r.Some? ==> r.value.0.Number? && ft.read(r.value.0.text).Some?
  {
    var n := NumberLength(bs);
    var text :- Utf8.Decode(bs[..n]);
    if text == [] || text == "-" || ft.read(text).None? then None else Some((Number(text), bs[n..]))
  }

  // Values.

  /** A literal word and the value it stands for. */
  function TakeLiteral(bs: seq<byte>): (r: Parsed<Value>)
    ensures Advances(r, bs)
  {
    if WORD_TRUE <= bs then Some((Bool(true), bs[4..]))
    else if WORD_FALSE <= bs then Some((Bool(false), bs[5..]))
    else if WORD_NULL <= bs then Some((Null, bs[4..]))
    else None
  }

  const WORD_TRUE: seq<byte> := [0x74, 0x72, 0x75, 0x65]
  const WORD_FALSE: seq<byte> := [0x66, 0x61, 0x6c, 0x73, 0x65]
  const WORD_NULL: seq<byte> := [0x6e, 0x75, 0x6c, 0x6c]

  function TakeValue(ft: FloatText, bs: seq<byte>, depth: nat): (r: Parsed<Value>)
    ensures Advances(r, bs)
    decreases |bs|, 2
  {
    hide TakeChars, TakeNumber, TakeLiteral;
    if depth > MAX_DEPTH || bs == [] then None
    else if bs[0] == OPEN_BRACE then TakeObject(ft, bs, depth)
    else if bs[0] == OPEN_BRACKET then TakeArray(ft, bs, depth)
    else if bs[0] == QUOTE then
      var (s, rest) :- TakeString(bs);
      Some((String(s), rest))
    else if bs[0] == MINUS || IsDigit(bs[0]) then TakeNumber(ft, bs)
    else TakeLiteral(bs)
  }

  function TakeObject(ft: FloatText, bs: seq<byte>, depth: nat): (r: Parsed<Value>)
    requires bs != []
    ensures Advances(r, bs)
    decreases |bs|, 1
  {
    var inner := SkipSpace(bs[1..]);
    if At(inner, CLOSE_BRACE) then Some((Object([]), inner[1..]))
    else
      var (entries, rest) :- TakeEntries(ft, inner, depth);
      Some((Object(entries), rest))
  }

  /** A key, a colon and a value, with the white space around them. */
  function TakeMember(ft: FloatText, bs: seq<byte>, depth: nat): (r: Parsed<Entry>)
    ensures Advances(r, bs)
    decreases |bs|, 3
  {
    hide TakeChars;
    var bs1 := SkipSpace(bs);
    if !At(bs1, QUOTE) then None
    else
      var (key, bs2) :- TakeString(bs1);
      var bs3 := SkipSpace(bs2);
      if !At(bs3, COLON) then None
      else
        var (v, bs4) :- TakeValue(ft, SkipSpace(bs3[1..]), depth + 1);
        Some((Entry(key, v), SkipSpace(bs4)))
  }

  /** One or more members, up to and including the closing brace. */
  function TakeEntries(ft: FloatText, bs: seq<byte>, depth: nat): (r: Parsed<seq<Entry>>)
    ensures Advances(r, bs)
    decreases |bs|, 4
  {
    var (entry, bs1) :- TakeMember(ft, bs, depth);
    if At(bs1, COMMA) then
      var (more, rest) :- TakeEntries(ft, bs1[1..], depth);
      Some(([entry] + more, rest))
    else if At(bs1, CLOSE_BRACE) then Some(([entry], bs1[1..]))
    else None
  }

  function TakeArray(ft: FloatText, bs: seq<byte>, depth: nat): (r: Parsed<Value>)
    requires bs != []
    ensures Advances(r, bs)
    decreases |bs|, 1
  {
    var inner := SkipSpace(bs[1..]);
    if At(inner, CLOSE_BRACKET) then Some((Array([]), inner[1..]))
    else
      var (items, rest) :- TakeItems(ft, inner, depth);
      Some((Array(items), rest))
  }

  /** One or more values, up to and including the closing bracket. */
  function TakeItems(ft: FloatText, bs: seq<byte>, depth: nat): (r: Parsed<seq<Value>>)
    ensures Advances(r, bs)
    decreases |bs|, 3
  {
    var (v, bs1) :- TakeValue(ft, SkipSpace(bs), depth + 1);
    var bs2 := SkipSpace(bs1);
    if At(bs2, COMMA) then
      var (more, rest) :- TakeItems(ft, bs2[1..], depth);
      Some(([v] + more, rest))
    else if At(bs2, CLOSE_BRACKET) then Some(([v], bs2[1..]))
    else None
  }

  /** One complete document: a value with only white space around it. */
  function ParseBytes(ft: FloatText, bytes: seq<byte>): Option<Value> {
    var (v, rest) :- TakeValue(ft, SkipSpace(bytes), 0);
    if SkipSpace(rest) != [] then None else Some(v)
  }

  // What acceptance means.

  /** How many containers deep a value goes; an empty container is not entered. */
  function Nesting(v: Value): nat {
    match v
    case Array(items) => ItemsNesting(items)
    case Object(entries) => EntriesNesting(entries)
    case _ => 0
  }

  function ItemsNesting(items: seq<Value>): nat {
    if items == [] then 0 else Max(1 + Nesting(items[0]), ItemsNesting(items[1..]))
  }

  function EntriesNesting(entries: seq<Entry>): nat {
    if entries == [] then 0 else Max(1 + Nesting(entries[0].value), EntriesNesting(entries[1..]))
  }

  lemma {:induction false} ValueNesting(ft: FloatText, bs: seq<byte>, depth: nat)
    requires TakeValue(ft, bs, depth).Some?
    ensures depth + Nesting(TakeValue(ft, bs, depth).value.0) <= MAX_DEPTH
    decreases |bs|, 2
  {
    hide SkipSpace, TakeChars, TakeNumber;
    var inner := SkipSpace(bs[1..]);
    if bs[0] == OPEN_BRACE && !At(inner, CLOSE_BRACE) {
      EntriesNestingBound(ft, inner, depth);
    } else if bs[0] == OPEN_BRACKET && !At(inner, CLOSE_BRACKET) {
      ItemsNestingBound(ft, inner, depth);
    }
  }

  lemma {:induction false} EntriesNestingBound(ft: FloatText, bs: seq<byte>, depth: nat)
    requires depth <= MAX_DEPTH && TakeEntries(ft, bs, depth).Some?
    ensures depth + EntriesNesting(TakeEntries(ft, bs, depth).value.0) <= MAX_DEPTH
    decreases |bs|, 4
  {
    hide TakeMember;
    MemberNesting(ft, bs, depth);
    var (entry, bs1) := TakeMember(ft, bs, depth).value;
    if At(bs1, COMMA) {
      EntriesNestingBound(ft, bs1[1..], depth);
    }
  }

  lemma {:induction false} MemberNesting(ft: FloatText, bs: seq<byte>, depth: nat)
    requires TakeMember(ft, bs, depth).Some?
    ensures depth + 1 + Nesting(TakeMember(ft, bs, depth).value.0.value) <= MAX_DEPTH
    decreases |bs|, 3
  {
    hide TakeChars, TakeValue;
    var (key, bs2) := TakeString(SkipSpace(bs)).value;
    ValueNesting(ft, SkipSpace(SkipSpace(bs2)[1..]), depth + 1);
  }

  lemma {:induction false} ItemsNestingBound(ft: FloatText, bs: seq<byte>, depth: nat)
    requires depth <= MAX_DEPTH && TakeItems(ft, bs, depth).Some?
    ensures depth + ItemsNesting(TakeItems(ft, bs, depth).value.0) <= MAX_DEPTH
    decreases |bs|, 3
  {
    hide TakeValue;
    ValueNesting(ft, SkipSpace(bs), depth + 1);
    var (v, bs1) := TakeValue(ft, SkipSpace(bs), depth + 1).value;
    var bs2 := SkipSpace(bs1);
    if At(bs2, COMMA) {
      ItemsNestingBound(ft, bs2[1..], depth);
    }
  }

  /** The conversion of a surrogate pair never fails, whatever the pair. */
  lemma PairsAreScalars(high: nat, low: nat)
    requires IsHighSurrogate(high) && IsLowSurrogate(low)
    ensures 0x1_0000 <= PairScalar(high, low) <= 0x10_ffff
    ensures Scalar(PairScalar(high, low)).Some?
  {
  }
}
