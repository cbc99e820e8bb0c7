/**
  Writing JSON text, and the law that ties it to reading: whatever the escapes and whatever the
  white space between tokens, the parser returns exactly the value that was laid out.
 */
module JsonText {
  import opened Prelude
  import opened Wire
  import opened Json
  import Utf8

  // Escaping.

  function HexDigit(n: nat): char
    requires n < 16
  {
    if n < 10 then (0x30 + n) as char else (0x61 + n - 10) as char
  }

  function EscapeChar(c: char): string {
    if c == '\"' then "\\\""
    else if c == '\\' then "\\\\"
    else if c == '\n' then "\\n"
    else if c == '\r' then "\\r"
    else if c == '\t' then "\\t"
    else if c as int == 8 then "\\b"
    else if c as int == 12 then "\\f"
    else if (c as int) < 0x20 then ['\\', 'u', '0', '0', HexDigit(c as int / 16), HexDigit(c as int % 16)]
    else [c]
  }

  function Escape(s: string): string {
    if s == [] then [] else EscapeChar(s[0]) + Escape(s[1..])
  }

  function Quoted(s: string): string {
    "\"" + (Escape(s) + "\"")
  }

  lemma {:induction false} EscapeConcat(s: string, t: string)
    ensures Escape(s + t) == Escape(s) + Escape(t)
  {
    hide EscapeChar;
    if s == [] {
      assert s + t == t;
    } else {
      assert (s + t)[0] == s[0] && (s + t)[1..] == s[1..] + t;
      EscapeConcat(s[1..], t);
      var head, rest, last := EscapeChar(s[0]), Escape(s[1..]), Escape(t);
      assert head + (rest + last) == (head + rest) + last;
    }
  }

  method EscapeText(value: string) returns (out: string)
    ensures out == Escape(value)
  {
    hide EscapeChar;
    out := [];
    for i := 0 to |value|
      invariant out == Escape(value[..i])
    {
      assert value[..i + 1] == value[..i] + [value[i]];
      EscapeConcat(value[..i], [value[i]]);
      assert Escape([value[i]]) == EscapeChar(value[i]) + [];
      out := out + EscapeChar(value[i]);
    }
    assert value[..|value|] == value;
  }

  // ASCII text is its own encoding.

  ghost predicate IsAscii(s: string) {
    forall k :: 0 <= k < |s| ==> s[k] as int < 0x80
  }

  ghost function Bytes(s: string): seq<byte>
    requires IsAscii(s)
  {
    seq(|s|, k requires 0 <= k < |s| => s[k] as int)
  }

  lemma {:induction false} EncodeAscii(s: string)
    requires IsAscii(s)
    ensures Utf8.Encode(s) == Bytes(s)
  {
    if s != [] {
      EncodeAscii(s[1..]);
      assert Bytes(s) == [s[0] as int] + Bytes(s[1..]);
    }
  }

  // Strings read back.

  lemma ShortEscapeStep(c: char, tail: seq<byte>)
    requires |EscapeChar(c)| == 2
    ensures IsAscii(EscapeChar(c))
    ensures var bs := Bytes(EscapeChar(c)) + tail;
      At(bs, BACKSLASH) && TakeEscape(bs) == Some((c, tail))
  {
    hide TakeCodeUnit;
    var text := EscapeChar(c);
    var bs := Bytes(text) + tail;
    assert bs[0] == text[0] as int && bs[1] == text[1] as int;
    assert bs[2..] == tail;
  }

  lemma Hex4Step(bs: seq<byte>, v: nat, tail: seq<byte>)
    requires v < 0x20 && |bs| >= 4 && bs[4..] == tail
    requires bs[0] == 0x30 && bs[1] == 0x30
    requires bs[2] == HexDigit(v / 16) as int && bs[3] == HexDigit(v % 16) as int
    ensures TakeHex4(bs) == Some((v, tail))
  {
    assert HexValue(bs[0]) == Some(0) && HexValue(bs[1]) == Some(0);
    assert HexValue(bs[2]) == Some(v / 16) && HexValue(bs[3]) == Some(v % 16);
    hide HexValue, HexDigit;
  }

  lemma HexEscapeStep(c: char, tail: seq<byte>)
    requires |EscapeChar(c)| == 6
    ensures IsAscii(EscapeChar(c))
    ensures var bs := Bytes(EscapeChar(c)) + tail;
      At(bs, BACKSLASH) && TakeEscape(bs) == Some((c, tail))
  {
    hide TakeHex4;
    var text, v := EscapeChar(c), c as int;
    assert text == ['\\', 'u', '0', '0', HexDigit(v / 16), HexDigit(v % 16)];
    hide EscapeChar;
    var bs := Bytes(text) + tail;
    assert bs[0] == 0x5c && bs[1] == 0x75;
    assert bs[2] == 0x30 && bs[3] == 0x30 && bs[4] == text[4] as int && bs[5] == text[5] as int;
    hide HexDigit;
    assert bs[2..][4..] == tail;
    Hex4Step(bs[2..], v, tail);
  }

  lemma EscapeStep(c: char, tail: seq<byte>)
    requires c as int < 0x20 || c == '\"' || c == '\\'
    ensures var bs := Utf8.Encode(EscapeChar(c)) + tail;
      At(bs, BACKSLASH) && TakeEscape(bs) == Some((c, tail))
  {
    assert |EscapeChar(c)| == 2 || |EscapeChar(c)| == 6;
    hide EscapeChar, TakeEscape, Utf8.Encode, Bytes, IsAscii;
    if |EscapeChar(c)| == 2 {
      ShortEscapeStep(c, tail);
    } else {
      HexEscapeStep(c, tail);
    }
    EncodeAscii(EscapeChar(c));
  }

  lemma RawStep(c: char, tail: seq<byte>)
    ensures var bs := Utf8.EncodeScalar(c) + tail;
      TakeRaw(bs) == Some(([c], tail))
  {
    var e := Utf8.EncodeScalar(c);
    var bs := e + tail;
    assert bs[..|e|] == e && bs[|e|..] == tail;
    assert RawWidth(e[0]) == Some(|e|);
    hide Utf8.EncodeScalar, RawWidth;
    Utf8.DecodeEncode([c]);
    assert Utf8.Encode([c]) == e + [] == e;
  }

  lemma CharStep(c: char, tail: seq<byte>)
    ensures TakeChars(Utf8.Encode(EscapeChar(c)) + tail) ==
      match TakeChars(tail)
      case None => None
      case Some((s, rest)) => Some(([c] + s, rest))
  {
    hide TakeEscape, TakeRaw;
    if c as int < 0x20 || c == '\"' || c == '\\' {
      hide EscapeChar;
      EscapeStep(c, tail);
    } else {
      assert Utf8.Encode([c]) == Utf8.EncodeScalar(c) + [] == Utf8.EncodeScalar(c);
      RawStep(c, tail);
      var bs := Utf8.EncodeScalar(c) + tail;
      assert bs[0] >= 0x20 && bs[0] != QUOTE && bs[0] != BACKSLASH by { LeadByte(c); }
    }
  }

  lemma LeadByte(c: char)
    requires c as int >= 0x20
    ensures var b := Utf8.EncodeScalar(c)[0]; b == c as int || b >= 0xc2
  {
  }

  lemma {:induction false} CharsReadBack(s: string, tail: seq<byte>)
    ensures TakeChars(Utf8.Encode(Escape(s)) + ([QUOTE] + tail)) == Some((s, tail))
  {
    hide EscapeChar, TakeEscape, TakeRaw, Utf8.EncodeScalar;
    var end := [QUOTE] + tail;
    if s == [] {
      assert [] + end == end && end[1..] == tail;
    } else {
      var head, rest := Utf8.Encode(EscapeChar(s[0])), Utf8.Encode(Escape(s[1..]));
      Utf8.EncodeConcat(EscapeChar(s[0]), Escape(s[1..]));
      assert (head + rest) + end == head + (rest + end);
      CharStep(s[0], rest + end);
      CharsReadBack(s[1..], tail);
      assert s == [s[0]] + s[1..];
    }
  }

  /** A quoted string, whatever its scalars, parses to itself. */
  lemma StringReadBack(s: string, tail: seq<byte>)
    ensures var bs := Utf8.Encode(Quoted(s)) + tail;
      At(bs, QUOTE) && TakeString(bs) == Some((s, tail))
  {
    hide Escape, TakeChars, Utf8.Encode;
    var inside := Utf8.Encode(Escape(s));
    EncodeThen("\"", Escape(s) + "\"", tail);
    EncodeThen(Escape(s), "\"", tail);
    EncodeMark('\"', tail);
    EncodeMark('\"', inside + ([QUOTE] + tail));
    CharsReadBack(s, tail);
  }

  // Numbers read back.

  /** Nothing in front of `tail` could continue a number. */
  predicate EndsNumber(tail: seq<byte>) {
    tail == [] ||
    (!IsDigit(tail[0]) && tail[0] != DOT && tail[0] != MINUS && tail[0] != 0x2b && tail[0] != 0x65 && tail[0] != 0x45)
  }

  /** A text the number scanner consumes whole. */
  ghost predicate NumberLexeme(s: string) {
    && IsAscii(s) && s != [] && s != "-" && (s[0] == '-' || IsDigit(s[0] as int))
    && NumberLength(Bytes(s)) == |s|
  }

  lemma {:induction false} DigitsAppend(bs: seq<byte>, tail: seq<byte>)
    requires EndsNumber(tail)
    ensures DigitsLength(bs + tail) == DigitsLength(bs)
  {
    if bs == [] {
      assert bs + tail == tail;
    } else {
      DropOfConcat(bs, tail, 1);
      DigitsAppend(bs[1..], tail);
    }
  }

  lemma ExponentAppend(bs: seq<byte>, tail: seq<byte>)
    requires EndsNumber(tail)
    ensures ExponentLength(bs + tail) == ExponentLength(bs)
  {
    hide DigitsLength;
    if bs == [] {
      assert bs + tail == tail;
    } else if bs[0] == 0x65 || bs[0] == 0x45 {
      DropOfConcat(bs, tail, 1);
      SignAppend(bs[1..], tail);
      var signed := At(bs[1..], 0x2b) || At(bs[1..], MINUS);
      var sign := if signed then 2 else 1;
      DropOfConcat(bs, tail, sign);
      DigitsAppend(bs[sign..], tail);
    }
  }

  lemma SignAppend(bs: seq<byte>, tail: seq<byte>)
    requires EndsNumber(tail)
    ensures At(bs + tail, 0x2b) == At(bs, 0x2b) && At(bs + tail, MINUS) == At(bs, MINUS)
  {
    if bs == [] {
      assert bs + tail == tail;
    }
  }

  lemma FractionAppend(bs: seq<byte>, tail: seq<byte>)
    requires EndsNumber(tail)
    ensures FractionLength(bs + tail) == FractionLength(bs)
  {
    hide DigitsLength, ExponentLength;
    var all := bs + tail;
    if At(bs, DOT) {
      DropOfConcat(bs, tail, 1);
      DigitsAppend(bs[1..], tail);
      var n := 1 + DigitsLength(bs[1..]);
      DropOfConcat(bs, tail, n);
      ExponentAppend(bs[n..], tail);
    } else {
      ExponentAppend(bs, tail);
    }
  }

  lemma NumberAppend(bs: seq<byte>, tail: seq<byte>)
    requires EndsNumber(tail)
    ensures NumberLength(bs + tail) == NumberLength(bs)
  {
    hide DigitsLength, FractionLength;
    var all := bs + tail;
    var sign := if At(bs, MINUS) then 1 else 0;
    DropOfConcat(bs, tail, sign);
    DigitsAppend(bs[sign..], tail);
    var whole := DigitsLength(bs[sign..]);
    DropOfConcat(bs[sign..], tail, whole);
    FractionAppend(bs[sign..][whole..], tail);
    assert bs[0..] == bs && all[0..] == all;
  }

  lemma NumberReadBack(ft: FloatText, s: string, tail: seq<byte>)
    requires NumberLexeme(s) && ft.read(s).Some? && EndsNumber(tail)
    ensures TakeNumber(ft, Utf8.Encode(s) + tail) == Some((Number(s), tail))
    ensures var bs := Utf8.Encode(s) + tail; bs != [] && (bs[0] == MINUS || IsDigit(bs[0]))
  {
    hide NumberLength;
    EncodeAscii(s);
    Utf8.DecodeEncode(s);
    hide Utf8.Encode, Utf8.Decode;
    var bs := Utf8.Encode(s);
    NumberAppend(bs, tail);
    assert (bs + tail)[..|bs|] == bs && (bs + tail)[|bs|..] == tail;
    assert (bs + tail)[0] == s[0] as int;
  }

  // Whole values, with the white space a writer chose.

  /** A laid-out value: its tokens and the white space between them. */
  datatype Layout =
    | Leaf(value: Value)
    | ArrayOf(pad: string, slots: seq<Slot>)
    | ObjectOf(pad: string, members: seq<Member>)

  datatype Slot = Slot(before: string, layout: Layout, after: string)

  datatype Member = Member(lead: string, key: string, gap: string, slot: Slot)

  function Meaning(l: Layout): Value {
    match l
    case Leaf(v) => v
    case ArrayOf(_, slots) => Array(SlotMeanings(slots))
    case ObjectOf(_, members) => Object(MemberMeanings(members))
  }

  function SlotMeanings(slots: seq<Slot>): seq<Value> {
    if slots == [] then [] else [Meaning(slots[0].layout)] + SlotMeanings(slots[1..])
  }

  function MemberMeanings(members: seq<Member>): seq<Entry> {
    if members == [] then []
    else [Entry(members[0].key, Meaning(members[0].slot.layout))] + MemberMeanings(members[1..])
  }

  function RenderLeaf(v: Value): string {
    match v
    case Null => "null"
    case Bool(b) => if b then "true" else "false"
    case Number(text) => text
    case String(s) => Quoted(s)
    case _ => []
  }

  function Render(l: Layout): string {
    match l
    case Leaf(v) => RenderLeaf(v)
    case ArrayOf(pad, slots) => "[" + (if slots == [] then pad + "]" else RenderSlots(slots))
    case ObjectOf(pad, members) => "{" + (if members == [] then pad + "}" else RenderMembers(members))
  }

  function RenderSlot(s: Slot): string {
    s.before + (Render(s.layout) + s.after)
  }

  function RenderSlots(slots: seq<Slot>): string {
    if slots == [] then []
    else RenderSlot(slots[0]) + (if |slots| == 1 then "]" else "," + RenderSlots(slots[1..]))
  }

  function RenderMember(m: Member): string {
    m.lead + (Quoted(m.key) + (m.gap + (":" + RenderSlot(m.slot))))
  }

  function RenderMembers(members: seq<Member>): string {
    if members == [] then []
    else RenderMember(members[0]) + (if |members| == 1 then "}" else "," + RenderMembers(members[1..]))
  }

  ghost predicate IsBlank(s: string) {
    IsAscii(s) && forall k :: 0 <= k < |s| ==> IsSpace(s[k] as int)
  }

  /** White space only where white space may be, and numbers a reader accepts. */
  ghost predicate WellLaid(ft: FloatText, l: Layout) {
    match l
    case Leaf(v) => !v.Array? && !v.Object? && (v.Number? ==> NumberLexeme(v.text) && ft.read(v.text).Some?)
    case ArrayOf(pad, slots) => IsBlank(pad) && forall s :: s in slots ==> WellSlotted(ft, s)
    case ObjectOf(pad, members) =>
      IsBlank(pad) && forall m :: m in members ==> IsBlank(m.lead) && IsBlank(m.gap) && WellSlotted(ft, m.slot)
  }

  ghost predicate WellSlotted(ft: FloatText, s: Slot) {
    IsBlank(s.before) && IsBlank(s.after) && WellLaid(ft, s.layout)
  }

  lemma {:induction false} SkipBytes(bs: seq<byte>, tail: seq<byte>)
    requires forall k :: 0 <= k < |bs| ==> IsSpace(bs[k])
    ensures SkipSpace(bs + tail) == SkipSpace(tail)
  {
    if bs == [] {
      assert bs + tail == tail;
    } else {
      DropOfConcat(bs, tail, 1);
      SkipBytes(bs[1..], tail);
    }
  }

  lemma SkipBlank(s: string, tail: seq<byte>)
    requires IsBlank(s)
    ensures SkipSpace(Utf8.Encode(s) + tail) == SkipSpace(tail)
  {
    hide SkipSpace;
    EncodeAscii(s);
    SkipBytes(Bytes(s), tail);
  }

  /** A blank in front of something that ends a number ends a number. */
  lemma BlankEnds(s: string, tail: seq<byte>)
    requires IsBlank(s) && EndsNumber(tail)
    ensures EndsNumber(Utf8.Encode(s) + tail)
  {
    EncodeAscii(s);
    hide Utf8.Encode;
    if s == [] {
      assert [] + tail == tail;
    } else {
      assert (Utf8.Encode(s) + tail)[0] == s[0] as int;
    }
  }

  /** Encoding a concatenation in front of a tail, reassociated. */
  lemma EncodeThen(s: string, t: string, tail: seq<byte>)
    ensures Utf8.Encode(s + t) + tail == Utf8.Encode(s) + (Utf8.Encode(t) + tail)
  {
    hide Utf8.Encode;
    Utf8.EncodeConcat(s, t);
    assert (Utf8.Encode(s) + Utf8.Encode(t)) + tail == Utf8.Encode(s) + (Utf8.Encode(t) + tail);
  }

  lemma EncodeMark(c: char, tail: seq<byte>)
    requires c as int < 0x80
    ensures Utf8.Encode([c]) + tail == [c as int] + tail
  {
    EncodeAscii([c]);
    assert Bytes([c]) == [c as int];
  }

  ghost function Word(v: Value): seq<byte>
    requires v.Null? || v.Bool?
  {
    if v.Null? then WORD_NULL else if v.truth then WORD_TRUE else WORD_FALSE
  }

  lemma EncodeWord(v: Value)
    requires v.Null? || v.Bool?
    ensures Utf8.Encode(RenderLeaf(v)) == Word(v)
  {
    EncodeAscii(RenderLeaf(v));
  }

  lemma WordReadBack(ft: FloatText, v: Value, depth: nat, tail: seq<byte>)
    requires (v.Null? || v.Bool?) && depth <= MAX_DEPTH
    ensures TakeValue(ft, Word(v) + tail, depth) == Some((v, tail))
  {
    hide TakeObject, TakeArray, TakeNumber, TakeString;
    var bs := Word(v) + tail;
    assert bs[|Word(v)|..] == tail && bs[0] == Word(v)[0];
    assert Word(v) <= bs;
  }

  lemma LeafReadBack(ft: FloatText, v: Value, depth: nat, tail: seq<byte>)
    requires WellLaid(ft, Leaf(v)) && depth <= MAX_DEPTH && (v.Number? ==> EndsNumber(tail))
    ensures TakeValue(ft, Utf8.Encode(RenderLeaf(v)) + tail, depth) == Some((v, tail))
  {
    hide TakeNumber, TakeString, TakeObject, TakeArray, TakeLiteral, Quoted, NumberLexeme, Utf8.Encode;
    match v
    case Null =>
      EncodeWord(v);
      WordReadBack(ft, v, depth, tail);
    case Bool(b) =>
      EncodeWord(v);
      WordReadBack(ft, v, depth, tail);
    case Number(text) => NumberReadBack(ft, text, tail);
    case String(s) => StringReadBack(s, tail);
  }

  /** The first byte of a laid-out value is not white space, so skipping stops at it. */
  lemma RenderStarts(ft: FloatText, l: Layout, tail: seq<byte>)
    requires WellLaid(ft, l)
    ensures var bs := Utf8.Encode(Render(l)) + tail;
      bs != [] && !IsSpace(bs[0]) && bs[0] != CLOSE_BRACE && bs[0] != CLOSE_BRACKET
  {
    hide RenderSlots, RenderMembers, Quoted, NumberLexeme;
    match l
    case ArrayOf(pad, slots) =>
      var inner := if slots == [] then pad + "]" else RenderSlots(slots);
      EncodeThen("[", inner, tail);
      EncodeMark('[', Utf8.Encode(inner) + tail);
    case ObjectOf(pad, members) =>
      var inner := if members == [] then pad + "}" else RenderMembers(members);
      EncodeThen("{", inner, tail);
      EncodeMark('{', Utf8.Encode(inner) + tail);
    case Leaf(v) =>
      hide TakeValue;
      LeafStarts(ft, v, tail);
  }

  lemma LeafStarts(ft: FloatText, v: Value, tail: seq<byte>)
    requires WellLaid(ft, Leaf(v))
    ensures var bs := Utf8.Encode(RenderLeaf(v)) + tail;
      bs != [] && !IsSpace(bs[0]) && bs[0] != CLOSE_BRACE && bs[0] != CLOSE_BRACKET
  {
    hide Quoted, NumberLength;
    match v
    case Null => EncodeWord(v);
    case Bool(b) => EncodeWord(v);
    case Number(text) =>
      EncodeAscii(text);
    case String(s) => StringReadBack(s, tail);
  }

  /** What follows could be taken for more of it: only a bare number is. */
  predicate Open(l: Layout) {
    l.Leaf? && l.value.Number?
  }

  lemma {:induction false} ReadBack(ft: FloatText, l: Layout, depth: nat, tail: seq<byte>)
    requires WellLaid(ft, l) && depth + Nesting(Meaning(l)) <= MAX_DEPTH && (Open(l) ==> EndsNumber(tail))
    ensures TakeValue(ft, Utf8.Encode(Render(l)) + tail, depth) == Some((Meaning(l), tail))
    decreases l, 0
  {
    hide SkipSpace, Utf8.Encode, TakeChars, TakeNumber, TakeLiteral, TakeEntries, TakeItems, IsBlank, RenderMembers,
      RenderSlots;
    match l
    case Leaf(v) => LeafReadBack(ft, v, depth, tail);
    case ArrayOf(pad, slots) =>
      var inner := if slots == [] then pad + "]" else RenderSlots(slots);
      EncodeThen("[", inner, tail);
      EncodeMark('[', Utf8.Encode(inner) + tail);
      if slots == [] {
        EmptyReadBack(pad, ']', tail);
      } else {
        SlotsReadBack(ft, slots, depth, tail);
      }
    case ObjectOf(pad, members) =>
      var inner := if members == [] then pad + "}" else RenderMembers(members);
      EncodeThen("{", inner, tail);
      EncodeMark('{', Utf8.Encode(inner) + tail);
      if members == [] {
        EmptyReadBack(pad, '}', tail);
      } else {
        MembersReadBack(ft, members, depth, tail);
      }
  }

  lemma EmptyReadBack(pad: string, close: char, tail: seq<byte>)
    requires IsBlank(pad) && (close == ']' || close == '}')
    ensures SkipSpace(Utf8.Encode(pad + [close]) + tail) == [close as int] + tail
  {
    hide Utf8.Encode;
    EncodeThen(pad, [close], tail);
    EncodeMark(close, tail);
    SkipBlank(pad, [close as int] + tail);
  }

  /** A value between its blanks, in front of a separator. */
  lemma {:induction false} SlotReadBack(ft: FloatText, s: Slot, depth: nat, mark: char, tail: seq<byte>)
    requires WellSlotted(ft, s) && depth + Nesting(Meaning(s.layout)) <= MAX_DEPTH
    requires mark in ",]}"
    ensures var bs := SkipSpace(Utf8.Encode(RenderSlot(s)) + ([mark as int] + tail));
      && bs != [] && bs[0] != CLOSE_BRACE && bs[0] != CLOSE_BRACKET
      && TakeValue(ft, bs, depth).Some?
      && TakeValue(ft, bs, depth).value.0 == Meaning(s.layout)
      && SkipSpace(TakeValue(ft, bs, depth).value.1) == [mark as int] + tail
    decreases s, 1
  {
    hide Utf8.Encode, TakeValue, Render, WellLaid, IsBlank;
    var end := [mark as int] + tail;
    var after := Utf8.Encode(s.after) + end;
    EncodeThen(s.before, Render(s.layout) + s.after, end);
    EncodeThen(Render(s.layout), s.after, end);
    SkipBlank(s.before, Utf8.Encode(Render(s.layout)) + after);
    RenderStarts(ft, s.layout, after);
    BlankEnds(s.after, end);
    ReadBack(ft, s.layout, depth, after);
    SkipBlank(s.after, end);
  }

  lemma {:induction false} SlotsReadBack(ft: FloatText, slots: seq<Slot>, depth: nat, tail: seq<byte>)
    requires slots != [] && forall s :: s in slots ==> WellSlotted(ft, s)
    requires depth + ItemsNesting(SlotMeanings(slots)) <= MAX_DEPTH
    ensures var bs := SkipSpace(Utf8.Encode(RenderSlots(slots)) + tail);
      && bs != [] && bs[0] != CLOSE_BRACKET
      && TakeItems(ft, bs, depth) == Some((SlotMeanings(slots), tail))
    decreases slots, 2
  {
    hide Utf8.Encode, TakeValue, RenderSlot, WellSlotted, Nesting;
    var first := slots[0];
    var mark := if |slots| == 1 then ']' else ',';
    var more := if |slots| == 1 then tail else Utf8.Encode(RenderSlots(slots[1..])) + tail;
    assert Utf8.Encode(RenderSlots(slots)) + tail == Utf8.Encode(RenderSlot(first)) + ([mark as int] + more) by {
      if |slots| == 1 {
        EncodeThen(RenderSlot(first), "]", tail);
        EncodeMark(']', tail);
      } else {
        EncodeThen(RenderSlot(first), "," + RenderSlots(slots[1..]), tail);
        EncodeThen(",", RenderSlots(slots[1..]), tail);
        EncodeMark(',', more);
      }
    }
    SlotReadBack(ft, first, depth + 1, mark, more);
    var bs := SkipSpace(Utf8.Encode(RenderSlots(slots)) + tail);
    assert SkipSpace(bs) == bs;
    assert ([mark as int] + more)[1..] == more;
    if |slots| > 1 {
      SlotsReadBack(ft, slots[1..], depth, tail);
      ItemsSkip(ft, more, depth);
    } else {
      assert SlotMeanings(slots) == [Meaning(first.layout)];
    }
  }

  lemma ItemsSkip(ft: FloatText, bs: seq<byte>, depth: nat)
    ensures TakeItems(ft, SkipSpace(bs), depth) == TakeItems(ft, bs, depth)
  {
    hide TakeValue;
    assert SkipSpace(SkipSpace(bs)) == SkipSpace(bs);
  }

  lemma EntriesSkip(ft: FloatText, bs: seq<byte>, depth: nat)
    ensures TakeEntries(ft, SkipSpace(bs), depth) == TakeEntries(ft, bs, depth)
  {
    hide TakeValue, TakeChars;
    assert SkipSpace(SkipSpace(bs)) == SkipSpace(bs);
    assert TakeMember(ft, SkipSpace(bs), depth) == TakeMember(ft, bs, depth);
  }

  /** One member, in front of a separator. */
  lemma {:induction false} MemberReadBack(ft: FloatText, m: Member, depth: nat, mark: char, tail: seq<byte>)
    requires IsBlank(m.lead) && IsBlank(m.gap) && WellSlotted(ft, m.slot)
    requires depth + 1 + Nesting(Meaning(m.slot.layout)) <= MAX_DEPTH
    requires mark in ",}"
    ensures var bs := Utf8.Encode(RenderMember(m)) + ([mark as int] + tail);
      && At(SkipSpace(bs), QUOTE)
      && TakeMember(ft, bs, depth) == Some((Entry(m.key, Meaning(m.slot.layout)), [mark as int] + tail))
    decreases m, 2
  {
    hide Utf8.Encode, TakeValue, TakeString, RenderSlot, WellSlotted, IsBlank, Quoted;
    var end := [mark as int] + tail;
    var value := Utf8.Encode(RenderSlot(m.slot)) + end;
    var colon := [COLON] + value;
    EncodeThen(m.lead, Quoted(m.key) + (m.gap + (":" + RenderSlot(m.slot))), end);
    EncodeThen(Quoted(m.key), m.gap + (":" + RenderSlot(m.slot)), end);
    EncodeThen(m.gap, ":" + RenderSlot(m.slot), end);
    EncodeThen(":", RenderSlot(m.slot), end);
    EncodeMark(':', value);
    var gap := Utf8.Encode(m.gap) + colon;
    StringReadBack(m.key, gap);
    SkipBlank(m.lead, Utf8.Encode(Quoted(m.key)) + gap);
    SkipBlank(m.gap, colon);
    assert SkipSpace(colon) == colon && colon[1..] == value;
    SlotReadBack(ft, m.slot, depth + 1, mark, tail);
  }

  lemma {:induction false} MembersReadBack(ft: FloatText, members: seq<Member>, depth: nat, tail: seq<byte>)
    requires members != []
    requires forall m :: m in members ==> IsBlank(m.lead) && IsBlank(m.gap) && WellSlotted(ft, m.slot)
    requires depth + EntriesNesting(MemberMeanings(members)) <= MAX_DEPTH
    ensures var bs := SkipSpace(Utf8.Encode(RenderMembers(members)) + tail);
      && bs != [] && bs[0] != CLOSE_BRACE
      && TakeEntries(ft, bs, depth) == Some((MemberMeanings(members), tail))
    decreases members, 3
  {
    hide Utf8.Encode, TakeMember, RenderMember, WellSlotted, Nesting, IsBlank, SkipSpace;
    var first := members[0];
    var mark := if |members| == 1 then '}' else ',';
    var more := if |members| == 1 then tail else Utf8.Encode(RenderMembers(members[1..])) + tail;
    var whole := Utf8.Encode(RenderMembers(members)) + tail;
    assert whole == Utf8.Encode(RenderMember(first)) + ([mark as int] + more) by {
      if |members| == 1 {
        EncodeThen(RenderMember(first), "}", tail);
        EncodeMark('}', tail);
      } else {
        EncodeThen(RenderMember(first), "," + RenderMembers(members[1..]), tail);
        EncodeThen(",", RenderMembers(members[1..]), tail);
        EncodeMark(',', more);
      }
    }
    MemberReadBack(ft, first, depth, mark, more);
    EntriesSkip(ft, whole, depth);
    assert ([mark as int] + more)[1..] == more;
    if |members| > 1 {
      MembersReadBack(ft, members[1..], depth, tail);
      EntriesSkip(ft, more, depth);
    } else {
      assert MemberMeanings(members) == [Entry(first.key, Meaning(first.slot.layout))];
    }
  }

  lemma {:induction false} EncodedSpace(s: string)
    ensures SkipSpace(Utf8.Encode(s)) == [] <==> IsBlank(s)
  {
    hide Utf8.EncodeScalar;
    if s != [] {
      var first, rest := Utf8.EncodeScalar(s[0]), Utf8.Encode(s[1..]);
      ScalarStarts(s[0]);
      EncodedSpace(s[1..]);
      assert IsBlank(s) ==> s[0] as int < 0x80 && IsSpace(s[0] as int);
      assert forall k :: 0 < k < |s| ==> s[k] == s[1..][k - 1];
      if s[0] as int < 0x80 {
        assert (first + rest)[1..] == rest;
      }
    }
  }

  lemma ScalarStarts(c: char)
    ensures var bs := Utf8.EncodeScalar(c); if c as int < 0x80 then bs == [c as int] else bs[0] >= 0xc2
  {
  }

  /**
    What may follow a laid-out value that is not a bare number: white space, and nothing else. Any other
    text after it - the rest of an older document, a stray bracket - and the whole is refused.
   */
  lemma TrailingIff(ft: FloatText, before: string, l: Layout, after: string)
    requires IsBlank(before) && WellLaid(ft, l) && Nesting(Meaning(l)) <= MAX_DEPTH && !Open(l)
    ensures ParseBytes(ft, Utf8.Encode(before + (Render(l) + after))) ==
      if IsBlank(after) then Some(Meaning(l)) else None
  {
    hide Utf8.Encode, TakeValue, Render, WellLaid, IsBlank, Nesting, SkipSpace;
    var end := Utf8.Encode(after);
    assert Utf8.Encode(before + (Render(l) + after)) == Utf8.Encode(before) + (Utf8.Encode(Render(l)) + end) by {
      Utf8.EncodeConcat(before, Render(l) + after);
      Utf8.EncodeConcat(Render(l), after);
    }
    SkipBlank(before, Utf8.Encode(Render(l)) + end);
    RenderStarts(ft, l, end);
    SkipNothing(Utf8.Encode(Render(l)) + end);
    ReadBack(ft, l, 0, end);
    EncodedSpace(after);
  }

  lemma SkipNothing(bs: seq<byte>)
    requires bs != [] && !IsSpace(bs[0])
    ensures SkipSpace(bs) == bs
  {
  }

  /** A whole document: blanks, a laid-out value, blanks. */
  lemma DocumentReadBack(ft: FloatText, before: string, l: Layout, after: string)
    requires IsBlank(before) && IsBlank(after) && WellLaid(ft, l) && Nesting(Meaning(l)) <= MAX_DEPTH
    ensures ParseBytes(ft, Utf8.Encode(before + (Render(l) + after))) == Some(Meaning(l))
  {
    hide Utf8.Encode, TakeValue, Render, WellLaid, IsBlank, Nesting;
    var end := Utf8.Encode(after);
    assert Utf8.Encode(before + (Render(l) + after)) == Utf8.Encode(before) + (Utf8.Encode(Render(l)) + end) by {
      Utf8.EncodeConcat(before, Render(l) + after);
      Utf8.EncodeConcat(Render(l), after);
    }
    SkipBlank(before, Utf8.Encode(Render(l)) + end);
    RenderStarts(ft, l, end);
    assert end + [] == end;
    BlankEnds(after, []);
    ReadBack(ft, l, 0, end);
    SkipBlank(after, []);
  }
}
