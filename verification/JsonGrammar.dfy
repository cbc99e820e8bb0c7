/**
  The JSON texts this parser accepts, as a grammar with every spelling of every value (sections 2 to 7
  of RFC 8259, with the number scanner's leniency), and the proof that it accepts exactly those and
  consumes them to the end.
 */
module JsonGrammar {
  import opened Prelude
  import opened Wire
  import opened Json
  import opened JsonText
  import Utf8

  // How a string may be spelled.

  /** One hexadecimal digit, in either case. */
  datatype Digit = Digit(value: nat, upper: bool)

  /** One character of a string: as itself, by a short escape, by number, or by a surrogate pair. */
  datatype Piece =
    | Raw(c: char)
    | Short(k: nat)
    | Numbered(unit: seq<Digit>)
    | Paired(high: seq<Digit>, low: seq<Digit>)

  /** The letters of the short escapes, and what they stand for. */
  const LETTERS: seq<byte> := [0x22, 0x5c, 0x2f, 0x62, 0x66, 0x6e, 0x72, 0x74]
  const LETTER_VALUES: seq<int> := [0x22, 0x5c, 0x2f, 8, 12, 10, 13, 9]

  function DigitByte(d: Digit): byte
    requires d.value < 16
  {
    if d.value < 10 then 0x30 + d.value else (if d.upper then 0x41 else 0x61) + d.value - 10
  }

  /** Four hexadecimal digits, most significant first. */
  predicate IsUnit(unit: seq<Digit>) {
    |unit| == 4 && forall k :: 0 <= k < 4 ==> unit[k].value < 16
  }

  function UnitValue(unit: seq<Digit>): nat
    requires IsUnit(unit)
  {
    unit[0].value * 0x1000 + unit[1].value * 0x100 + unit[2].value * 0x10 + unit[3].value
  }

  function UnitBytes(unit: seq<Digit>): seq<byte>
    requires IsUnit(unit)
  {
    [DigitByte(unit[0]), DigitByte(unit[1]), DigitByte(unit[2]), DigitByte(unit[3])]
  }

  predicate WellSpelled(p: Piece) {
    match p
    case Raw(c) => c as int >= 0x20 && c as int != 0x22 && c as int != 0x5c
    case Short(k) => k < 8
    case Numbered(unit) => IsUnit(unit) && !(0xd800 <= UnitValue(unit) < 0xe000)
    case Paired(high, low) =>
      IsUnit(high) && IsUnit(low) && 0xd800 <= UnitValue(high) < 0xdc00 && 0xdc00 <= UnitValue(low) < 0xe000
  }

  function PieceMeaning(p: Piece): char
    requires WellSpelled(p)
  {
    match p
    case Raw(c) => c
    case Short(k) => LETTER_VALUES[k] as char
    case Numbered(unit) => UnitValue(unit) as char
    case Paired(high, low) => (0x1_0000 + (UnitValue(high) - 0xd800) * 0x400 + (UnitValue(low) - 0xdc00)) as char
  }

  function PieceBytes(p: Piece): (bs: seq<byte>)
    requires WellSpelled(p)
    ensures bs != []
  {
    match p
    case Raw(c) => Utf8.EncodeScalar(c)
    case Short(k) => [0x5c, LETTERS[k]]
    case Numbered(unit) => [0x5c, 0x75] + UnitBytes(unit)
    case Paired(high, low) => [0x5c, 0x75] + UnitBytes(high) + ([0x5c, 0x75] + UnitBytes(low))
  }

  ghost predicate AllSpelled(ps: seq<Piece>) {
    forall k :: 0 <= k < |ps| ==> WellSpelled(ps[k])
  }

  ghost function PiecesMeaning(ps: seq<Piece>): string
    requires AllSpelled(ps)
  {
    if ps == [] then [] else [PieceMeaning(ps[0])] + PiecesMeaning(ps[1..])
  }

  ghost function PiecesBytes(ps: seq<Piece>): seq<byte>
    requires AllSpelled(ps)
  {
    if ps == [] then [] else PieceBytes(ps[0]) + PiecesBytes(ps[1..])
  }

  // Reading spelled strings.

  lemma HexReads(d: Digit)
    requires d.value < 16
    ensures HexValue(DigitByte(d)) == Some(d.value)
  {
  }

  lemma HexSpelled(b: byte)
    requires HexValue(b).Some?
    ensures HexValue(b).value < 16
    ensures DigitByte(Digit(HexValue(b).value, b < 0x61)) == b
  {
  }

  lemma UnitReads(unit: seq<Digit>, tail: seq<byte>)
    requires IsUnit(unit)
    ensures TakeHex4(UnitBytes(unit) + tail) == Some((UnitValue(unit), tail))
  {
    hide HexValue, DigitByte;
    HexReads(unit[0]);
    HexReads(unit[1]);
    HexReads(unit[2]);
    HexReads(unit[3]);
    var bs := UnitBytes(unit) + tail;
    assert bs[0] == DigitByte(unit[0]) && bs[1] == DigitByte(unit[1]);
    assert bs[2] == DigitByte(unit[2]) && bs[3] == DigitByte(unit[3]);
    assert bs[4..] == tail;
  }

  lemma UnitSpelled(bs: seq<byte>) returns (unit: seq<Digit>)
    requires TakeHex4(bs).Some?
    ensures IsUnit(unit) && UnitValue(unit) == TakeHex4(bs).value.0
    ensures bs == UnitBytes(unit) + TakeHex4(bs).value.1
  {
    hide HexValue, DigitByte;
    HexSpelled(bs[0]);
    HexSpelled(bs[1]);
    HexSpelled(bs[2]);
    HexSpelled(bs[3]);
    unit := [Digit(HexValue(bs[0]).value, bs[0] < 0x61), Digit(HexValue(bs[1]).value, bs[1] < 0x61),
             Digit(HexValue(bs[2]).value, bs[2] < 0x61), Digit(HexValue(bs[3]).value, bs[3] < 0x61)];
    assert bs == [bs[0], bs[1], bs[2], bs[3]] + bs[4..];
  }

  lemma LettersRead(k: nat)
    requires k < 8
    ensures ShortEscape(LETTERS[k]) == Some(LETTER_VALUES[k] as char) && LETTERS[k] != 0x75
  {
  }

  lemma LettersSpelled(b: byte) returns (k: nat)
    requires ShortEscape(b).Some?
    ensures k < 8 && LETTERS[k] == b && ShortEscape(b) == Some(LETTER_VALUES[k] as char)
  {
    k := if b == 0x22 then 0 else if b == 0x5c then 1 else if b == 0x2f then 2 else if b == 0x62 then 3
         else if b == 0x66 then 4 else if b == 0x6e then 5 else if b == 0x72 then 6 else 7;
  }

  lemma ShortReads(k: nat, tail: seq<byte>)
    requires k < 8
    ensures var bs := [0x5c, LETTERS[k]] + tail; TakeEscape(bs) == Some((LETTER_VALUES[k] as char, tail))
  {
    hide ShortEscape;
    LettersRead(k);
    assert ([0x5c, LETTERS[k]] + tail)[2..] == tail;
  }

  lemma NumberedReads(unit: seq<Digit>, tail: seq<byte>)
    requires WellSpelled(Numbered(unit))
    ensures var bs := [0x5c, 0x75] + (UnitBytes(unit) + tail); TakeEscape(bs) == Some((UnitValue(unit) as char, tail))
  {
    hide TakeHex4, UnitValue, UnitBytes;
    var bs := [0x5c, 0x75] + (UnitBytes(unit) + tail);
    assert bs[2..] == UnitBytes(unit) + tail;
    UnitReads(unit, tail);
  }

  lemma PairReads(high: seq<Digit>, low: seq<Digit>, tail: seq<byte>)
    requires WellSpelled(Paired(high, low))
    ensures var bs := [0x5c, 0x75] + (UnitBytes(high) + ([0x5c, 0x75] + (UnitBytes(low) + tail)));
      TakeEscape(bs) == Some((PieceMeaning(Paired(high, low)), tail))
  {
    hide TakeHex4, UnitValue, UnitBytes;
    var second := [0x5c, 0x75] + (UnitBytes(low) + tail);
    var bs := [0x5c, 0x75] + (UnitBytes(high) + second);
    assert bs[2..] == UnitBytes(high) + second;
    UnitReads(high, second);
    assert second[2..] == UnitBytes(low) + tail;
    UnitReads(low, tail);
  }

  /** An escape in front of anything is read whole, as what it stands for. */
  lemma EscapeReads(p: Piece, tail: seq<byte>)
    requires WellSpelled(p) && !p.Raw?
    ensures var bs := PieceBytes(p) + tail; At(bs, BACKSLASH) && TakeEscape(bs) == Some((PieceMeaning(p), tail))
  {
    hide TakeEscape, UnitValue, UnitBytes;
    match p
    case Short(k) => ShortReads(k, tail);
    case Numbered(unit) =>
      NumberedReads(unit, tail);
      assert PieceBytes(p) + tail == [0x5c, 0x75] + (UnitBytes(unit) + tail);
    case Paired(high, low) =>
      PairReads(high, low, tail);
      assert PieceBytes(p) + tail == [0x5c, 0x75] + (UnitBytes(high) + ([0x5c, 0x75] + (UnitBytes(low) + tail)));
  }

  lemma EscapeSpelled(bs: seq<byte>) returns (p: Piece)
    requires At(bs, BACKSLASH) && TakeEscape(bs).Some?
    ensures WellSpelled(p) && !p.Raw? && PieceMeaning(p) == TakeEscape(bs).value.0
    ensures bs == PieceBytes(p) + TakeEscape(bs).value.1
  {
    hide TakeHex4, ShortEscape, UnitValue, UnitBytes;
    if bs[1] != 0x75 {
      var k := LettersSpelled(bs[1]);
      p := Short(k);
      assert bs == [bs[0], bs[1]] + bs[2..];
    } else {
      var unit := UnitSpelled(bs[2..]);
      var rest := TakeHex4(bs[2..]).value.1;
      assert bs == [0x5c, 0x75] + (UnitBytes(unit) + rest);
      if IsHighSurrogate(UnitValue(unit)) {
        var low := UnitSpelled(rest[2..]);
        assert rest == [0x5c, 0x75] + (UnitBytes(low) + TakeHex4(rest[2..]).value.1);
        p := Paired(unit, low);
      } else {
        p := Numbered(unit);
      }
    }
  }

  lemma RawSpelled(bs: seq<byte>)
    requires bs != [] && TakeRaw(bs).Some?
    ensures var (s, rest) := TakeRaw(bs).value; |s| == 1 && bs == Utf8.EncodeScalar(s[0]) + rest
  {
    var width := RawWidth(bs[0]).value;
    var first := bs[..width];
    assert Utf8.DecodeScalar(first).Some? && Utf8.DecodeScalar(first).value.1 == width;
    Utf8.ScalarCanonical(first);
    hide Utf8.DecodeScalar, Utf8.EncodeScalar, RawWidth;
    assert first[width..] == [] && first[..width] == first;
    assert Utf8.Decode([]) == Some([]);
    assert bs == first + bs[width..];
  }

  lemma RawStarts(c: char)
    ensures var b := Utf8.EncodeScalar(c)[0]; if c as int < 0x80 then b == c as int else b >= 0xc2
  {
  }

  /** The inside of a string, however it is spelled, is read to its closing quote as what it means. */
  lemma {:induction false} PiecesRead(ps: seq<Piece>, tail: seq<byte>)
    requires AllSpelled(ps)
    ensures TakeChars(PiecesBytes(ps) + ([QUOTE] + tail)) == Some((PiecesMeaning(ps), tail))
  {
    hide WellSpelled, PieceMeaning, PieceBytes, TakeEscape, TakeRaw;
    var end := [QUOTE] + tail;
    if ps == [] {
      assert [] + end == end && end[1..] == tail;
    } else {
      var rest := PiecesBytes(ps[1..]) + end;
      assert PiecesBytes(ps) + end == PieceBytes(ps[0]) + rest;
      PiecesRead(ps[1..], tail);
      PieceReads(ps[0], rest);
    }
  }

  lemma PieceReads(p: Piece, rest: seq<byte>)
    requires WellSpelled(p)
    ensures TakeChars(PieceBytes(p) + rest) ==
      match TakeChars(rest)
      case None => None
      case Some((s, end)) => Some(([PieceMeaning(p)] + s, end))
  {
    hide TakeEscape, TakeRaw, Utf8.EncodeScalar;
    if p.Raw? {
      RawStep(p.c, rest);
      RawStarts(p.c);
      assert (PieceBytes(p) + rest)[0] == Utf8.EncodeScalar(p.c)[0];
    } else {
      EscapeReads(p, rest);
    }
  }

  lemma {:induction false} PiecesSpelled(bs: seq<byte>) returns (ps: seq<Piece>)
    requires TakeChars(bs).Some?
    ensures AllSpelled(ps) && PiecesMeaning(ps) == TakeChars(bs).value.0
    ensures bs == PiecesBytes(ps) + ([QUOTE] + TakeChars(bs).value.1)
    decreases |bs|
  {
    hide WellSpelled, PieceMeaning, PieceBytes, TakeEscape, TakeRaw;
    if bs[0] == QUOTE {
      ps := [];
      assert bs == [QUOTE] + bs[1..];
    } else {
      var p, rest := PieceSpelled(bs);
      var more := PiecesSpelled(rest);
      ps := [p] + more;
      assert ps[1..] == more;
      var tail := [QUOTE] + TakeChars(bs).value.1;
      assert PieceBytes(p) + (PiecesBytes(more) + tail) == (PieceBytes(p) + PiecesBytes(more)) + tail;
    }
  }

  /** The first character of the inside of a string that is read. */
  lemma PieceSpelled(bs: seq<byte>) returns (p: Piece, rest: seq<byte>)
    requires TakeChars(bs).Some? && bs[0] != QUOTE
    ensures WellSpelled(p) && bs == PieceBytes(p) + rest && |rest| < |bs|
    ensures TakeChars(rest).Some? && TakeChars(bs).value == ([PieceMeaning(p)] + TakeChars(rest).value.0, TakeChars(rest).value.1)
  {
    hide TakeEscape, TakeRaw, Utf8.EncodeScalar;
    if bs[0] == BACKSLASH {
      p := EscapeSpelled(bs);
      rest := TakeEscape(bs).value.1;
    } else {
      RawSpelled(bs);
      var c := TakeRaw(bs).value.0[0];
      rest := TakeRaw(bs).value.1;
      RawStarts(c);
      assert bs[0] == Utf8.EncodeScalar(c)[0];
      p := Raw(c);
      assert TakeRaw(bs).value.0 == [c];
    }
  }

  // How a number may be spelled.

  /** A power of ten: its letter, its sign if it has one, and its digits. */
  datatype Power = Power(upper: bool, sign: seq<byte>, digits: seq<byte>)

  /** What the scanner takes for a number: every run of digits may be empty. */
  datatype Numeral = Numeral(minus: bool, whole: seq<byte>, fraction: Option<seq<byte>>, power: Option<Power>)

  predicate Digits(ds: seq<byte>) {
    forall k :: 0 <= k < |ds| ==> 0x30 <= ds[k] <= 0x39
  }

  function PowerBytes(p: Option<Power>): seq<byte> {
    match p
    case None => []
    case Some(Power(upper, sign, digits)) => [if upper then 0x45 else 0x65] + (sign + digits)
  }

  function FractionBytes(f: Option<seq<byte>>): seq<byte> {
    match f
    case None => []
    case Some(digits) => [0x2e] + digits
  }

  function NumeralBytes(n: Numeral): seq<byte> {
    (if n.minus then [0x2d] else []) + (n.whole + (FractionBytes(n.fraction) + PowerBytes(n.power)))
  }

  predicate WellPowered(p: Option<Power>) {
    p.Some? ==> Digits(p.value.digits) && (p.value.sign == [] || p.value.sign == [0x2b] || p.value.sign == [0x2d])
  }

  /** It starts with a sign or a digit, and there is more to it than a sign. */
  predicate WellNumbered(n: Numeral) {
    && Digits(n.whole) && (n.fraction.Some? ==> Digits(n.fraction.value)) && WellPowered(n.power)
    && (n.minus || n.whole != [])
    && NumeralBytes(n) != [0x2d]
  }

  lemma {:induction false} DigitsRead(ds: seq<byte>, tail: seq<byte>)
    requires Digits(ds) && (tail != [] ==> !IsDigit(tail[0]))
    ensures DigitsLength(ds + tail) == |ds|
  {
    if ds == [] {
      assert ds + tail == tail;
    } else {
      DropOfConcat(ds, tail, 1);
      DigitsRead(ds[1..], tail);
    }
  }

  lemma SignedReads(letter: byte, sign: seq<byte>, digits: seq<byte>, tail: seq<byte>)
    requires letter == 0x65 || letter == 0x45
    requires (sign == [] || sign == [0x2b] || sign == [0x2d]) && Digits(digits) && EndsNumber(tail)
    ensures ExponentLength([letter] + (sign + (digits + tail))) == 1 + |sign| + |digits|
  {
    hide DigitsLength;
    var rest := digits + tail;
    var bs := [letter] + (sign + rest);
    DigitsRead(digits, tail);
    assert bs[1..] == sign + rest;
    if sign == [] {
      assert bs[1..] == rest;
      assert rest != [] ==> rest[0] == if digits != [] then digits[0] else tail[0];
    } else {
      assert bs[1..][0] == sign[0];
      assert bs[2..] == rest;
    }
  }

  lemma NoPower(tail: seq<byte>)
    requires EndsNumber(tail)
    ensures ExponentLength(tail) == 0
  {
  }

  lemma Regroup<T>(a: seq<T>, b: seq<T>, c: seq<T>, d: seq<T>)
    ensures (a + (b + c)) + d == a + (b + (c + d))
  {
  }

  lemma PowerReads(p: Option<Power>, tail: seq<byte>)
    requires WellPowered(p) && EndsNumber(tail)
    ensures ExponentLength(PowerBytes(p) + tail) == |PowerBytes(p)|
  {
    hide ExponentLength, EndsNumber, Digits;
    match p
    case None =>
      NoPower(tail);
      assert PowerBytes(p) + tail == tail;
    case Some(Power(upper, sign, digits)) =>
      var letter: byte := if upper then 0x45 else 0x65;
      SignedReads(letter, sign, digits, tail);
      Regroup([letter], sign, digits, tail);
  }

  lemma PointReads(digits: seq<byte>, rest: seq<byte>)
    requires Digits(digits) && (rest != [] ==> !IsDigit(rest[0]))
    ensures FractionLength([0x2e] + (digits + rest)) == 1 + |digits| + ExponentLength(rest)
  {
    hide DigitsLength, ExponentLength;
    var bs := [0x2e] + (digits + rest);
    DigitsRead(digits, rest);
    assert bs[1..] == digits + rest;
    assert bs[1 + |digits|..] == rest;
  }

  lemma NoPoint(rest: seq<byte>)
    requires rest != [] ==> rest[0] != 0x2e
    ensures FractionLength(rest) == ExponentLength(rest)
  {
    hide ExponentLength;
  }

  lemma FractionReads(f: Option<seq<byte>>, p: Option<Power>, tail: seq<byte>)
    requires (f.Some? ==> Digits(f.value)) && WellPowered(p) && EndsNumber(tail)
    ensures FractionLength(FractionBytes(f) + (PowerBytes(p) + tail)) == |FractionBytes(f)| + |PowerBytes(p)|
  {
    hide ExponentLength, PowerBytes, FractionLength, EndsNumber, Digits, WellPowered;
    var rest := PowerBytes(p) + tail;
    PowerReads(p, tail);
    PowerStarts(p, tail);
    match f
    case None =>
      NoPoint(rest);
      assert FractionBytes(f) + rest == rest;
    case Some(digits) =>
      PointReads(digits, rest);
      assert FractionBytes(f) + rest == [0x2e] + (digits + rest);
  }

  lemma PowerStarts(p: Option<Power>, tail: seq<byte>)
    requires EndsNumber(tail)
    ensures var bs := PowerBytes(p) + tail; bs != [] ==> !IsDigit(bs[0]) && bs[0] != 0x2e
  {
  }

  lemma UnsignedReads(n: Numeral, tail: seq<byte>)
    requires WellNumbered(n) && EndsNumber(tail)
    ensures UnsignedLength(n.whole + (FractionBytes(n.fraction) + (PowerBytes(n.power) + tail))) ==
      |n.whole| + |FractionBytes(n.fraction)| + |PowerBytes(n.power)|
  {
    hide DigitsLength, FractionLength, FractionBytes, PowerBytes, EndsNumber, WellPowered;
    var more := FractionBytes(n.fraction) + (PowerBytes(n.power) + tail);
    FractionReads(n.fraction, n.power, tail);
    PowerStarts(n.power, tail);
    assert more != [] ==> !IsDigit(more[0]) by { FractionStarts(n.fraction, PowerBytes(n.power) + tail); }
    DigitsRead(n.whole, more);
    assert (n.whole + more)[|n.whole|..] == more;
  }

  lemma NumeralLength(n: Numeral, tail: seq<byte>)
    requires WellNumbered(n) && EndsNumber(tail)
    ensures NumberLength(NumeralBytes(n) + tail) == |NumeralBytes(n)|
  {
    hide UnsignedLength, FractionBytes, PowerBytes, EndsNumber, WellPowered;
    var bs := n.whole + (FractionBytes(n.fraction) + (PowerBytes(n.power) + tail));
    UnsignedReads(n, tail);
    var sign := if n.minus then [0x2d] else [];
    NumeralSplit(n, tail);
    var all := NumeralBytes(n) + tail;
    assert all[|sign|..] == bs;
    assert !n.minus ==> bs[0] == n.whole[0];
  }

  lemma NumeralSplit(n: Numeral, tail: seq<byte>)
    ensures NumeralBytes(n) + tail ==
      (if n.minus then [0x2d] else []) + (n.whole + (FractionBytes(n.fraction) + (PowerBytes(n.power) + tail)))
  {
    hide FractionBytes, PowerBytes;
    var sign, f, p := if n.minus then [0x2d] else [], FractionBytes(n.fraction), PowerBytes(n.power);
    Regroup(sign, n.whole, f + p, tail);
    assert (f + p) + tail == f + (p + tail);
  }

  lemma FractionStarts(f: Option<seq<byte>>, rest: seq<byte>)
    requires rest != [] ==> !IsDigit(rest[0])
    ensures var bs := FractionBytes(f) + rest; bs != [] ==> !IsDigit(bs[0])
  {
  }

  lemma NumeralIsAscii(n: Numeral)
    requires WellNumbered(n)
    ensures forall k :: 0 <= k < |NumeralBytes(n)| ==> NumeralBytes(n)[k] < 0x80
  {
  }

  /** The characters of a text of ASCII bytes. */
  function TextOf(bs: seq<byte>): (s: string)
    requires forall k :: 0 <= k < |bs| ==> bs[k] < 0x80
    ensures |s| == |bs| && forall k :: 0 <= k < |bs| ==> s[k] == bs[k] as char
  {
    seq(|bs|, k requires 0 <= k < |bs| => bs[k] as char)
  }

  function NumeralText(n: Numeral): string
    requires WellNumbered(n)
  {
    NumeralIsAscii(n);
    TextOf(NumeralBytes(n))
  }

  lemma AsciiDecodes(bs: seq<byte>)
    requires forall k :: 0 <= k < |bs| ==> bs[k] < 0x80
    ensures Utf8.Decode(bs) == Some(TextOf(bs))
  {
    EncodeAscii(TextOf(bs));
    assert Bytes(TextOf(bs)) == bs;
    Utf8.DecodeEncode(TextOf(bs));
  }

  lemma NumeralReads(ft: FloatText, n: Numeral, tail: seq<byte>)
    requires WellNumbered(n) && ft.read(NumeralText(n)).Some? && EndsNumber(tail)
    ensures var bs := NumeralBytes(n) + tail;
      && bs != [] && (bs[0] == MINUS || IsDigit(bs[0]))
      && TakeNumber(ft, bs) == Some((Number(NumeralText(n)), tail))
  {
    hide NumberLength, Utf8.Decode;
    NumeralLength(n, tail);
    NumeralIsAscii(n);
    AsciiDecodes(NumeralBytes(n));
    var bs := NumeralBytes(n) + tail;
    assert bs[..|NumeralBytes(n)|] == NumeralBytes(n) && bs[|NumeralBytes(n)|..] == tail;
    assert NumeralBytes(n) != [] && bs[0] == NumeralBytes(n)[0];
    assert NumeralText(n) != [] && NumeralText(n) != "-" by { NotASign(n); }
  }

  lemma NotASign(n: Numeral)
    requires WellNumbered(n)
    ensures NumeralText(n) != [] && NumeralText(n) != "-"
  {
    hide NumeralBytes;
    NumeralIsAscii(n);
    assert NumeralBytes(n) != [] by { NumeralSome(n); }
  }

  lemma NumeralSome(n: Numeral)
    requires WellNumbered(n)
    ensures NumeralBytes(n) != []
  {
  }

  // A numeral out of what the scanner took.

  lemma DigitsTaken(bs: seq<byte>)
    ensures Digits(bs[..DigitsLength(bs)])
  {
    hide DigitsLength;
  }

  lemma PowerSpelled(bs: seq<byte>) returns (p: Option<Power>)
    ensures WellPowered(p) && PowerBytes(p) == bs[..ExponentLength(bs)]
  {
    hide DigitsLength;
    if At(bs, 0x65) || At(bs, 0x45) {
      var signed := At(bs[1..], 0x2b) || At(bs[1..], MINUS);
      var sign := if signed then [bs[1]] else [];
      var rest := bs[1 + |sign|..];
      p := Some(Power(bs[0] == 0x45, sign, rest[..DigitsLength(rest)]));
      DigitsTaken(rest);
      assert sign == [] || sign == [0x2b] || sign == [0x2d];
      var digits := rest[..DigitsLength(rest)];
      assert ExponentLength(bs) == 1 + |sign| + |digits|;
      TakeOfDrop(bs, 1 + |sign|, |digits|);
      assert bs[..1 + |sign|] == [bs[0]] + sign;
      assert ([bs[0]] + sign) + digits == [bs[0]] + (sign + digits);
    } else {
      p := None;
    }
  }

  lemma FractionSpelled(bs: seq<byte>) returns (f: Option<seq<byte>>, p: Option<Power>)
    ensures (f.Some? ==> Digits(f.value)) && WellPowered(p)
    ensures FractionBytes(f) + PowerBytes(p) == bs[..FractionLength(bs)]
  {
    hide DigitsLength, ExponentLength, PowerBytes;
    if At(bs, DOT) {
      var digits := DigitsLength(bs[1..]);
      var rest := bs[1 + digits..];
      p := PowerSpelled(rest);
      f := Some(bs[1..][..digits]);
      DigitsTaken(bs[1..]);
      assert bs[..FractionLength(bs)] == ([bs[0]] + bs[1..][..digits]) + rest[..ExponentLength(rest)];
    } else {
      f := None;
      p := PowerSpelled(bs);
    }
  }

  lemma UnsignedParts(bs: seq<byte>) returns (whole: seq<byte>, f: Option<seq<byte>>, p: Option<Power>)
    ensures Digits(whole) && (f.Some? ==> Digits(f.value)) && WellPowered(p)
    ensures bs != [] && IsDigit(bs[0]) ==> whole != []
    ensures whole + (FractionBytes(f) + PowerBytes(p)) == bs[..UnsignedLength(bs)]
  {
    hide FractionLength, FractionBytes, PowerBytes;
    var length := DigitsLength(bs);
    whole := bs[..length];
    DigitsTaken(bs);
    f, p := FractionSpelled(bs[length..]);
    TakeOfDrop(bs, length, FractionLength(bs[length..]));
  }

  lemma TakeOfDrop<T>(s: seq<T>, n: nat, m: nat)
    requires n + m <= |s|
    ensures s[..n] + s[n..][..m] == s[..n + m]
  {
  }

  /** The parts of what the scanner takes, in order. */
  lemma NumeralParts(bs: seq<byte>) returns (n: Numeral)
    requires bs != [] && (bs[0] == MINUS || IsDigit(bs[0]))
    ensures Digits(n.whole) && (n.fraction.Some? ==> Digits(n.fraction.value)) && WellPowered(n.power)
    ensures n.minus || n.whole != []
    ensures NumeralBytes(n) == bs[..NumberLength(bs)]
  {
    hide UnsignedLength, FractionBytes, PowerBytes, Digits, WellPowered;
    if bs[0] == MINUS {
      var whole, f, p := UnsignedParts(bs[1..]);
      n := Numeral(true, whole, f, p);
      TakeOfDrop(bs, 1, UnsignedLength(bs[1..]));
      assert bs[..1] == [MINUS];
    } else {
      var whole, f, p := UnsignedParts(bs);
      n := Numeral(false, whole, f, p);
      NothingFirst(whole + (FractionBytes(f) + PowerBytes(p)));
    }
  }

  lemma Joined<T>(a: seq<T>, b: seq<T>, c: seq<T>)
    ensures (a + b) + c == a + (b + c)
  {
  }

  lemma NothingFirst<T>(s: seq<T>)
    ensures [] + s == s
  {
  }

  lemma NumeralSpelled(ft: FloatText, bs: seq<byte>) returns (n: Numeral)
    requires bs != [] && (bs[0] == MINUS || IsDigit(bs[0])) && TakeNumber(ft, bs).Some?
    ensures WellNumbered(n) && ft.read(NumeralText(n)).Some?
    ensures TakeNumber(ft, bs).value.0 == Number(NumeralText(n)) && bs == NumeralBytes(n) + TakeNumber(ft, bs).value.1
  {
    hide NumberLength, NumeralBytes, Utf8.Decode, Digits, WellPowered;
    n := NumeralParts(bs);
    var length := NumberLength(bs);
    assert bs == bs[..length] + bs[length..];
    if NumeralBytes(n) == [0x2d] {
      LoneSign();
    }
    NumeralIsAscii(n);
    AsciiDecodes(NumeralBytes(n));
  }

  lemma LoneSign()
    ensures Utf8.Decode([0x2d]) == Some("-")
  {
    AsciiDecodes([0x2d]);
    assert TextOf([0x2d]) == "-";
  }

  // Whole values.

  /** One text of a value: its tokens as they are spelled, and the white space between them. */
  datatype Text =
    | Word(word: Value)
    | Num(numeral: Numeral)
    | Str(pieces: seq<Piece>)
    | Arr(pad: seq<byte>, spots: seq<Spot>)
    | Obj(pad: seq<byte>, fields: seq<Labelled>)

  datatype Spot = Spot(before: seq<byte>, text: Text, after: seq<byte>)

  datatype Labelled = Labelled(lead: seq<byte>, key: seq<Piece>, gap: seq<byte>, spot: Spot)

  /** White space: space, tab, line feed and carriage return. */
  predicate Blank(bs: seq<byte>) {
    forall k :: 0 <= k < |bs| ==> bs[k] == 0x20 || bs[k] == 0x09 || bs[k] == 0x0a || bs[k] == 0x0d
  }

  /** Every token of the text is one, and every number in it is one the host reads. */
  ghost predicate IsText(ft: FloatText, t: Text) {
    match t
    case Word(v) => v.Null? || v.Bool?
    case Num(n) => WellNumbered(n) && ft.read(NumeralText(n)).Some?
    case Str(ps) => AllSpelled(ps)
    case Arr(pad, spots) => Blank(pad) && forall s :: s in spots ==> IsSpot(ft, s)
    case Obj(pad, fields) => Blank(pad) && forall f :: f in fields ==> IsLabelled(ft, f)
  }

  ghost predicate IsSpot(ft: FloatText, s: Spot) {
    Blank(s.before) && IsText(ft, s.text) && Blank(s.after)
  }

  ghost predicate IsLabelled(ft: FloatText, f: Labelled) {
    Blank(f.lead) && AllSpelled(f.key) && Blank(f.gap) && IsSpot(ft, f.spot)
  }

  ghost function WordBytes(v: Value): seq<byte>
    requires v.Null? || v.Bool?
  {
    if v.Null? then [0x6e, 0x75, 0x6c, 0x6c]
    else if v.truth then [0x74, 0x72, 0x75, 0x65]
    else [0x66, 0x61, 0x6c, 0x73, 0x65]
  }

  ghost function StringBytes(ps: seq<Piece>): seq<byte>
    requires AllSpelled(ps)
  {
    [0x22] + (PiecesBytes(ps) + [0x22])
  }

  ghost function TextBytes(ft: FloatText, t: Text): seq<byte>
    requires IsText(ft, t)
    decreases t, 0
  {
    match t
    case Word(v) => WordBytes(v)
    case Num(n) => NumeralBytes(n)
    case Str(ps) => StringBytes(ps)
    case Arr(pad, spots) => [0x5b] + (if spots == [] then pad + [0x5d] else SpotsBytes(ft, spots))
    case Obj(pad, fields) => [0x7b] + (if fields == [] then pad + [0x7d] else FieldsBytes(ft, fields))
  }

  ghost function SpotBytes(ft: FloatText, s: Spot): seq<byte>
    requires IsSpot(ft, s)
    decreases s, 1
  {
    s.before + (TextBytes(ft, s.text) + s.after)
  }

  /** Values separated by commas, up to and including the closing bracket. */
  ghost function SpotsBytes(ft: FloatText, spots: seq<Spot>): seq<byte>
    requires forall s :: s in spots ==> IsSpot(ft, s)
    decreases spots, 2
  {
    if spots == [] then []
    else SpotBytes(ft, spots[0]) + (if |spots| == 1 then [0x5d] else [0x2c] + SpotsBytes(ft, spots[1..]))
  }

  ghost function LabelledBytes(ft: FloatText, f: Labelled): seq<byte>
    requires IsLabelled(ft, f)
    decreases f, 2
  {
    f.lead + (StringBytes(f.key) + (f.gap + ([0x3a] + SpotBytes(ft, f.spot))))
  }

  ghost function FieldsBytes(ft: FloatText, fields: seq<Labelled>): seq<byte>
    requires forall f :: f in fields ==> IsLabelled(ft, f)
    decreases fields, 3
  {
    if fields == [] then []
    else LabelledBytes(ft, fields[0]) + (if |fields| == 1 then [0x7d] else [0x2c] + FieldsBytes(ft, fields[1..]))
  }

  ghost function TextMeaning(ft: FloatText, t: Text): Value
    requires IsText(ft, t)
    decreases t, 0
  {
    match t
    case Word(v) => v
    case Num(n) => Number(NumeralText(n))
    case Str(ps) => String(PiecesMeaning(ps))
    case Arr(_, spots) => Array(SpotsMeaning(ft, spots))
    case Obj(_, fields) => Object(FieldsMeaning(ft, fields))
  }

  ghost function SpotsMeaning(ft: FloatText, spots: seq<Spot>): (vs: seq<Value>)
    requires forall s :: s in spots ==> IsSpot(ft, s)
    decreases spots, 2
  {
    if spots == [] then [] else [SpotMeaning(ft, spots[0])] + SpotsMeaning(ft, spots[1..])
  }

  ghost function SpotMeaning(ft: FloatText, s: Spot): Value
    requires IsSpot(ft, s)
    decreases s, 1
  {
    TextMeaning(ft, s.text)
  }

  ghost function FieldsMeaning(ft: FloatText, fields: seq<Labelled>): (es: seq<Entry>)
    requires forall f :: f in fields ==> IsLabelled(ft, f)
    decreases fields, 3
  {
    if fields == [] then [] else [FieldMeaning(ft, fields[0])] + FieldsMeaning(ft, fields[1..])
  }

  ghost function FieldMeaning(ft: FloatText, f: Labelled): Entry
    requires IsLabelled(ft, f)
    decreases f, 2
  {
    Entry(PiecesMeaning(f.key), SpotMeaning(ft, f.spot))
  }

  // White space.

  lemma {:induction false} BlankSkipped(pad: seq<byte>, tail: seq<byte>)
    requires Blank(pad)
    ensures SkipSpace(pad + tail) == SkipSpace(tail)
  {
    if pad == [] {
      assert pad + tail == tail;
    } else {
      DropOfConcat(pad, tail, 1);
      BlankSkipped(pad[1..], tail);
    }
  }

  lemma {:induction false} SkippedBlank(bs: seq<byte>) returns (pad: seq<byte>)
    ensures Blank(pad) && bs == pad + SkipSpace(bs)
  {
    if bs != [] && IsSpace(bs[0]) {
      var more := SkippedBlank(bs[1..]);
      pad := [bs[0]] + more;
      assert bs == [bs[0]] + bs[1..];
    } else {
      pad := [];
      assert bs == [] + bs;
    }
  }

  lemma Settled(b: byte, tail: seq<byte>)
    requires !IsSpace(b)
    ensures SkipSpace([b] + tail) == [b] + tail
  {
  }

  // Every text is read as what it means.

  lemma StringReads(ps: seq<Piece>, tail: seq<byte>)
    requires AllSpelled(ps)
    ensures var bs := StringBytes(ps) + tail; At(bs, QUOTE) && TakeString(bs) == Some((PiecesMeaning(ps), tail))
  {
    hide TakeChars;
    PiecesRead(ps, tail);
    var bs := StringBytes(ps) + tail;
    assert bs[1..] == PiecesBytes(ps) + ([QUOTE] + tail);
  }

  lemma WordReads(ft: FloatText, v: Value, depth: nat, tail: seq<byte>)
    requires (v.Null? || v.Bool?) && depth <= MAX_DEPTH
    ensures TakeValue(ft, WordBytes(v) + tail, depth) == Some((v, tail))
  {
    hide TakeObject, TakeArray, TakeNumber, TakeString;
    var bs := WordBytes(v) + tail;
    assert bs[|WordBytes(v)|..] == tail && bs[0] == WordBytes(v)[0];
    assert WordBytes(v) <= bs;
  }

  /** A value's first byte is neither white space nor a closing mark. */
  lemma TextStarts(ft: FloatText, t: Text, tail: seq<byte>)
    requires IsText(ft, t)
    ensures var bs := TextBytes(ft, t) + tail;
      && bs != [] && !IsSpace(bs[0]) && bs[0] != CLOSE_BRACE && bs[0] != CLOSE_BRACKET && SkipSpace(bs) == bs
  {
    hide SpotsBytes, FieldsBytes, PiecesBytes;
    if t.Num? {
      NumeralStarts(t.numeral);
    }
  }

  lemma NumeralStarts(n: Numeral)
    requires WellNumbered(n)
    ensures NumeralBytes(n) != [] && (NumeralBytes(n)[0] == MINUS || IsDigit(NumeralBytes(n)[0]))
  {
  }

  lemma BlankEnded(pad: seq<byte>, tail: seq<byte>)
    requires Blank(pad) && EndsNumber(tail)
    ensures EndsNumber(pad + tail)
  {
    if pad == [] {
      assert pad + tail == tail;
    }
  }

  /** Reading a text, in front of anything that cannot continue it. */
  lemma {:induction false} TextReads(ft: FloatText, t: Text, depth: nat, tail: seq<byte>)
    requires IsText(ft, t) && depth + Nesting(TextMeaning(ft, t)) <= MAX_DEPTH && (t.Num? ==> EndsNumber(tail))
    ensures TakeValue(ft, TextBytes(ft, t) + tail, depth) == Some((TextMeaning(ft, t), tail))
    decreases t, 0
  {
    hide SkipSpace, TakeChars, TakeNumber, TakeLiteral, TakeEntries, TakeItems, SpotsBytes, FieldsBytes, PiecesBytes,
      NumeralBytes, Blank, StringBytes;
    var bs := TextBytes(ft, t) + tail;
    match t
    case Word(v) => WordReads(ft, v, depth, tail);
    case Num(n) => NumeralReads(ft, n, tail);
    case Str(ps) => StringReads(ps, tail);
    case Arr(pad, spots) =>
      if spots == [] {
        assert bs[1..] == pad + ([0x5d] + tail);
        BlankSkipped(pad, [0x5d] + tail);
        Settled(0x5d, tail);
      } else {
        assert bs[1..] == SpotsBytes(ft, spots) + tail;
        SpotsRead(ft, spots, depth, tail);
      }
    case Obj(pad, fields) =>
      if fields == [] {
        assert bs[1..] == pad + ([0x7d] + tail);
        BlankSkipped(pad, [0x7d] + tail);
        Settled(0x7d, tail);
      } else {
        assert bs[1..] == FieldsBytes(ft, fields) + tail;
        FieldsRead(ft, fields, depth, tail);
      }
  }

  /** A value between its blanks, in front of a separator. */
  lemma {:induction false} SpotReads(ft: FloatText, s: Spot, depth: nat, mark: byte, tail: seq<byte>)
    requires IsSpot(ft, s) && depth + Nesting(SpotMeaning(ft, s)) <= MAX_DEPTH
    requires mark == COMMA || mark == CLOSE_BRACE || mark == CLOSE_BRACKET
    ensures var bs := SkipSpace(SpotBytes(ft, s) + ([mark] + tail));
      && bs != [] && bs[0] != CLOSE_BRACE && bs[0] != CLOSE_BRACKET
      && TakeValue(ft, bs, depth).Some?
      && TakeValue(ft, bs, depth).value.0 == SpotMeaning(ft, s)
      && SkipSpace(TakeValue(ft, bs, depth).value.1) == [mark] + tail
    decreases s, 1
  {
    hide TakeValue, TextBytes, TextMeaning, IsText, Blank, SkipSpace;
    var end := [mark] + tail;
    var after := s.after + end;
    assert SpotBytes(ft, s) + end == s.before + (TextBytes(ft, s.text) + after);
    BlankSkipped(s.before, TextBytes(ft, s.text) + after);
    TextStarts(ft, s.text, after);
    BlankEnded(s.after, end);
    TextReads(ft, s.text, depth, after);
    BlankSkipped(s.after, end);
    Settled(mark, tail);
  }

  lemma {:induction false} SpotsRead(ft: FloatText, spots: seq<Spot>, depth: nat, tail: seq<byte>)
    requires spots != [] && forall s :: s in spots ==> IsSpot(ft, s)
    requires depth + ItemsNesting(SpotsMeaning(ft, spots)) <= MAX_DEPTH
    ensures var bs := SkipSpace(SpotsBytes(ft, spots) + tail);
      && bs != [] && bs[0] != CLOSE_BRACKET
      && TakeItems(ft, bs, depth) == Some((SpotsMeaning(ft, spots), tail))
    decreases spots, 2
  {
    hide TakeValue, SpotBytes, IsSpot, Nesting, SpotMeaning;
    var mark: byte := if |spots| == 1 then CLOSE_BRACKET else COMMA;
    var more := if |spots| == 1 then tail else SpotsBytes(ft, spots[1..]) + tail;
    assert SpotsBytes(ft, spots) + tail == SpotBytes(ft, spots[0]) + ([mark] + more);
    SpotReads(ft, spots[0], depth + 1, mark, more);
    var bs := SkipSpace(SpotsBytes(ft, spots) + tail);
    assert SkipSpace(bs) == bs;
    assert ([mark] + more)[1..] == more;
    if |spots| > 1 {
      SpotsRead(ft, spots[1..], depth, tail);
      ItemsSkip(ft, more, depth);
    } else {
      assert SpotsMeaning(ft, spots) == [SpotMeaning(ft, spots[0])];
    }
  }

  lemma {:induction false} FieldReads(ft: FloatText, f: Labelled, depth: nat, mark: byte, tail: seq<byte>)
    requires IsLabelled(ft, f) && depth + 1 + Nesting(SpotMeaning(ft, f.spot)) <= MAX_DEPTH
    requires mark == COMMA || mark == CLOSE_BRACE
    ensures var bs := LabelledBytes(ft, f) + ([mark] + tail);
      && At(SkipSpace(bs), QUOTE)
      && TakeMember(ft, bs, depth) ==
           Some((FieldMeaning(ft, f), [mark] + tail))
    decreases f, 2
  {
    hide TakeValue, TakeString, SpotBytes, IsSpot, Blank, StringBytes, SpotMeaning, SkipSpace, AllSpelled, PiecesMeaning;
    var value := SpotBytes(ft, f.spot) + ([mark] + tail);
    var colon := [COLON] + value;
    var gap := f.gap + colon;
    assert LabelledBytes(ft, f) + ([mark] + tail) == f.lead + (StringBytes(f.key) + gap);
    StringReads(f.key, gap);
    BlankSkipped(f.lead, StringBytes(f.key) + gap);
    QuoteSettled(StringBytes(f.key) + gap);
    BlankSkipped(f.gap, colon);
    Settled(COLON, value);
    assert colon[1..] == value;
    SpotReads(ft, f.spot, depth + 1, mark, tail);
  }

  lemma QuoteSettled(bs: seq<byte>)
    requires At(bs, QUOTE)
    ensures SkipSpace(bs) == bs
  {
  }

  lemma {:induction false} FieldsRead(ft: FloatText, fields: seq<Labelled>, depth: nat, tail: seq<byte>)
    requires fields != [] && forall f :: f in fields ==> IsLabelled(ft, f)
    requires depth + EntriesNesting(FieldsMeaning(ft, fields)) <= MAX_DEPTH
    ensures var bs := SkipSpace(FieldsBytes(ft, fields) + tail);
      && bs != [] && bs[0] != CLOSE_BRACE
      && TakeEntries(ft, bs, depth) == Some((FieldsMeaning(ft, fields), tail))
    decreases fields, 3
  {
    hide TakeMember, LabelledBytes, IsSpot, SkipSpace, SpotMeaning, PiecesMeaning, AllSpelled, Blank;
    var mark: byte := if |fields| == 1 then CLOSE_BRACE else COMMA;
    var more := if |fields| == 1 then tail else FieldsBytes(ft, fields[1..]) + tail;
    var whole := FieldsBytes(ft, fields) + tail;
    assert whole == LabelledBytes(ft, fields[0]) + ([mark] + more);
    FieldReads(ft, fields[0], depth, mark, more);
    EntriesSkip(ft, whole, depth);
    assert ([mark] + more)[1..] == more;
    if |fields| > 1 {
      FieldsRead(ft, fields[1..], depth, tail);
      EntriesSkip(ft, more, depth);
    } else {
      assert FieldsMeaning(ft, fields) == [FieldMeaning(ft, fields[0])];
    }
  }

  // Everything that is read is a text.

  lemma WordSpelled(bs: seq<byte>) returns (v: Value)
    requires TakeLiteral(bs).Some?
    ensures (v.Null? || v.Bool?) && TakeLiteral(bs).value.0 == v && bs == WordBytes(v) + TakeLiteral(bs).value.1
  {
    v := TakeLiteral(bs).value.0;
    assert bs == bs[..|WordBytes(v)|] + bs[|WordBytes(v)|..];
  }

  lemma StringSpelled(bs: seq<byte>) returns (ps: seq<Piece>)
    requires At(bs, QUOTE) && TakeString(bs).Some?
    ensures AllSpelled(ps) && PiecesMeaning(ps) == TakeString(bs).value.0
    ensures bs == StringBytes(ps) + TakeString(bs).value.1
  {
    hide TakeChars;
    ps := PiecesSpelled(bs[1..]);
    var rest := TakeString(bs).value.1;
    assert bs == [QUOTE] + bs[1..];
    assert [QUOTE] + (PiecesBytes(ps) + ([QUOTE] + rest)) == ([QUOTE] + (PiecesBytes(ps) + [QUOTE])) + rest;
  }

  lemma {:induction false} TextSpelled(ft: FloatText, bs: seq<byte>, depth: nat) returns (t: Text)
    requires TakeValue(ft, bs, depth).Some?
    ensures IsText(ft, t) && TextMeaning(ft, t) == TakeValue(ft, bs, depth).value.0
    ensures bs == TextBytes(ft, t) + TakeValue(ft, bs, depth).value.1
    decreases |bs|, 2
  {
    hide TakeChars, TakeNumber, TakeLiteral, TakeEntries, TakeItems, SkipSpace, NumeralBytes, PiecesBytes, SpotsBytes,
      FieldsBytes, Blank, StringBytes, PiecesMeaning, WordBytes;
    if bs[0] == OPEN_BRACE {
      t := ObjectSpelled(ft, bs, depth);
    } else if bs[0] == OPEN_BRACKET {
      t := ArraySpelled(ft, bs, depth);
    } else if bs[0] == QUOTE {
      var ps := StringSpelled(bs);
      t := Str(ps);
    } else if bs[0] == MINUS || IsDigit(bs[0]) {
      var n := NumeralSpelled(ft, bs);
      t := Num(n);
    } else {
      var v := WordSpelled(bs);
      t := Word(v);
    }
  }

  lemma {:induction false} ObjectSpelled(ft: FloatText, bs: seq<byte>, depth: nat) returns (t: Text)
    requires bs != [] && bs[0] == OPEN_BRACE && TakeObject(ft, bs, depth).Some?
    ensures IsText(ft, t) && TextMeaning(ft, t) == TakeObject(ft, bs, depth).value.0
    ensures bs == TextBytes(ft, t) + TakeObject(ft, bs, depth).value.1
    decreases |bs|, 1
  {
    hide TakeEntries, SkipSpace, FieldsBytes, Blank, IsLabelled;
    var pad := SkippedBlank(bs[1..]);
    var inner := SkipSpace(bs[1..]);
    assert bs == [OPEN_BRACE] + (pad + inner);
    if At(inner, CLOSE_BRACE) {
      t := Obj(pad, []);
      assert inner == [CLOSE_BRACE] + inner[1..];
      assert [OPEN_BRACE] + (pad + ([CLOSE_BRACE] + inner[1..])) == ([OPEN_BRACE] + (pad + [CLOSE_BRACE])) + inner[1..];
    } else {
      var fields := FieldsSpelled(ft, pad, inner, depth);
      t := Obj([], fields);
      BlankNone();
      var rest := TakeEntries(ft, inner, depth).value.1;
      assert [OPEN_BRACE] + (FieldsBytes(ft, fields) + rest) == ([OPEN_BRACE] + FieldsBytes(ft, fields)) + rest;
    }
  }

  lemma BlankNone()
    ensures Blank([])
  {
  }

  /** The members, the blanks in front of the first one among them. */
  lemma {:induction false} FieldsSpelled(ft: FloatText, pad: seq<byte>, bs: seq<byte>, depth: nat)
    returns (fields: seq<Labelled>)
    requires Blank(pad) && TakeEntries(ft, bs, depth).Some?
    ensures fields != [] && forall f :: f in fields ==> IsLabelled(ft, f)
    ensures FieldsMeaning(ft, fields) == TakeEntries(ft, bs, depth).value.0
    ensures pad + bs == FieldsBytes(ft, fields) + TakeEntries(ft, bs, depth).value.1
    decreases |bs|, 4
  {
    hide TakeMember, Blank, IsLabelled, LabelledBytes, FieldMeaning;
    var first := FieldSpelled(ft, pad, bs, depth);
    var rest := TakeMember(ft, bs, depth).value.1;
    var end := TakeEntries(ft, bs, depth).value.1;
    if At(rest, COMMA) {
      BlankNone();
      var more := FieldsSpelled(ft, [], rest[1..], depth);
      fields := [first] + more;
      assert fields[1..] == more;
      NothingFirst(rest[1..]);
      assert rest == [COMMA] + rest[1..];
      Regroup(LabelledBytes(ft, first), [COMMA], FieldsBytes(ft, more), end);
    } else {
      fields := [first];
      assert rest == [CLOSE_BRACE] + end;
      Joined(LabelledBytes(ft, first), [CLOSE_BRACE], end);
      assert FieldsMeaning(ft, fields) == [FieldMeaning(ft, first)];
    }
  }

  lemma {:induction false} FieldSpelled(ft: FloatText, pad: seq<byte>, bs: seq<byte>, depth: nat) returns (f: Labelled)
    requires Blank(pad) && TakeMember(ft, bs, depth).Some?
    ensures IsLabelled(ft, f) && FieldMeaning(ft, f) == TakeMember(ft, bs, depth).value.0
    ensures pad + bs == LabelledBytes(ft, f) + TakeMember(ft, bs, depth).value.1
    decreases |bs|, 3
  {
    hide TakeChars, TakeString, TakeValue, Blank, StringBytes, SkipSpace, IsText, TextBytes, TextMeaning, PiecesMeaning,
      AllSpelled;
    var lead := SkippedBlank(bs);
    var bs1 := SkipSpace(bs);
    var key := StringSpelled(bs1);
    var bs2 := TakeString(bs1).value.1;
    var gap := SkippedBlank(bs2);
    var bs3 := SkipSpace(bs2);
    var before := SkippedBlank(bs3[1..]);
    var inner := SkipSpace(bs3[1..]);
    var t := TextSpelled(ft, inner, depth + 1);
    var bs4 := TakeValue(ft, inner, depth + 1).value.1;
    var after := SkippedBlank(bs4);
    var rest := SkipSpace(bs4);
    BlankJoins(pad, lead);
    f := Labelled(pad + lead, key, gap, Spot(before, t, after));
    assert bs3 == [COLON] + bs3[1..];
    assert TakeMember(ft, bs, depth).value.1 == rest;
    assert pad + (lead + (StringBytes(key) + (gap + ([COLON] + (before + (TextBytes(ft, t) + (after + rest))))))) ==
           LabelledBytes(ft, f) + rest by {
      Regrouped(pad, lead, StringBytes(key), gap, before, TextBytes(ft, t), after, rest);
    }
  }

  lemma BlankJoins(a: seq<byte>, b: seq<byte>)
    requires Blank(a) && Blank(b)
    ensures Blank(a + b)
  {
  }

  lemma Regrouped(pad: seq<byte>, lead: seq<byte>, key: seq<byte>, gap: seq<byte>, before: seq<byte>, text: seq<byte>,
      after: seq<byte>, rest: seq<byte>)
    ensures pad + (lead + (key + (gap + ([COLON] + (before + (text + (after + rest))))))) ==
            ((pad + lead) + (key + (gap + ([COLON] + (before + (text + after)))))) + rest
  {
    var value := before + (text + after);
    assert before + (text + (after + rest)) == value + rest;
    assert gap + ([COLON] + (value + rest)) == (gap + ([COLON] + value)) + rest;
    var tail := gap + ([COLON] + value);
    assert key + (tail + rest) == (key + tail) + rest;
  }

  lemma {:induction false} ArraySpelled(ft: FloatText, bs: seq<byte>, depth: nat) returns (t: Text)
    requires bs != [] && bs[0] == OPEN_BRACKET && TakeArray(ft, bs, depth).Some?
    ensures IsText(ft, t) && TextMeaning(ft, t) == TakeArray(ft, bs, depth).value.0
    ensures bs == TextBytes(ft, t) + TakeArray(ft, bs, depth).value.1
    decreases |bs|, 1
  {
    hide TakeItems, SkipSpace, SpotsBytes, Blank, IsSpot;
    var pad := SkippedBlank(bs[1..]);
    var inner := SkipSpace(bs[1..]);
    assert bs == [OPEN_BRACKET] + (pad + inner);
    if At(inner, CLOSE_BRACKET) {
      t := Arr(pad, []);
      assert inner == [CLOSE_BRACKET] + inner[1..];
      assert [OPEN_BRACKET] + (pad + ([CLOSE_BRACKET] + inner[1..])) ==
             ([OPEN_BRACKET] + (pad + [CLOSE_BRACKET])) + inner[1..];
    } else {
      var spots := SpotsSpelled(ft, pad, inner, depth);
      t := Arr([], spots);
      BlankNone();
      var rest := TakeItems(ft, inner, depth).value.1;
      assert [OPEN_BRACKET] + (SpotsBytes(ft, spots) + rest) == ([OPEN_BRACKET] + SpotsBytes(ft, spots)) + rest;
    }
  }

  lemma Spaced<T>(pad: seq<T>, lead: seq<T>, text: seq<T>, after: seq<T>, rest: seq<T>)
    ensures pad + (lead + (text + (after + rest))) == ((pad + lead) + (text + after)) + rest
  {
  }

  /** One item with its blanks, and those in front of it. */
  lemma {:induction false} SpotSpelled(ft: FloatText, pad: seq<byte>, bs: seq<byte>, depth: nat) returns (s: Spot)
    requires Blank(pad) && TakeValue(ft, SkipSpace(bs), depth).Some?
    ensures IsSpot(ft, s) && SpotMeaning(ft, s) == TakeValue(ft, SkipSpace(bs), depth).value.0
    ensures pad + bs == SpotBytes(ft, s) + SkipSpace(TakeValue(ft, SkipSpace(bs), depth).value.1)
    decreases |bs|, 3
  {
    hide TakeValue, Blank, IsText, TextBytes, TextMeaning, SkipSpace;
    var lead := SkippedBlank(bs);
    var inner := SkipSpace(bs);
    var t := TextSpelled(ft, inner, depth);
    var after := SkippedBlank(TakeValue(ft, inner, depth).value.1);
    BlankJoins(pad, lead);
    s := Spot(pad + lead, t, after);
    Spaced(pad, lead, TextBytes(ft, t), after, SkipSpace(TakeValue(ft, inner, depth).value.1));
  }

  /** The items, the blanks in front of the first one among them. */
  lemma {:induction false} SpotsSpelled(ft: FloatText, pad: seq<byte>, bs: seq<byte>, depth: nat)
    returns (spots: seq<Spot>)
    requires Blank(pad) && TakeItems(ft, bs, depth).Some?
    ensures spots != [] && forall s :: s in spots ==> IsSpot(ft, s)
    ensures SpotsMeaning(ft, spots) == TakeItems(ft, bs, depth).value.0
    ensures pad + bs == SpotsBytes(ft, spots) + TakeItems(ft, bs, depth).value.1
    decreases |bs|, 4
  {
    hide TakeValue, Blank, SkipSpace, SpotBytes, IsSpot, SpotMeaning;
    var first := SpotSpelled(ft, pad, bs, depth + 1);
    var rest := SkipSpace(TakeValue(ft, SkipSpace(bs), depth + 1).value.1);
    var end := TakeItems(ft, bs, depth).value.1;
    if At(rest, COMMA) {
      BlankNone();
      var more := SpotsSpelled(ft, [], rest[1..], depth);
      spots := [first] + more;
      assert spots[1..] == more;
      NothingFirst(rest[1..]);
      assert rest == [COMMA] + rest[1..];
      Regroup(SpotBytes(ft, first), [COMMA], SpotsBytes(ft, more), end);
    } else {
      spots := [first];
      assert rest == [CLOSE_BRACKET] + end;
      Joined(SpotBytes(ft, first), [CLOSE_BRACKET], end);
      assert SpotsMeaning(ft, spots) == [SpotMeaning(ft, first)];
    }
  }

  // Whole documents.

  /** The bytes are a text of this value with nothing but white space around it. */
  ghost predicate DocumentOf(ft: FloatText, bytes: seq<byte>, v: Value, before: seq<byte>, t: Text, after: seq<byte>) {
    && Blank(before) && IsText(ft, t) && TextMeaning(ft, t) == v && Blank(after)
    && bytes == before + (TextBytes(ft, t) + after)
  }

  lemma BlankEndsNumber(bs: seq<byte>)
    requires Blank(bs)
    ensures EndsNumber(bs) && SkipSpace(bs) == []
  {
    assert bs + [] == bs;
    BlankSkipped(bs, []);
  }

  /**
    The parser, exactly: bytes parse to a value if and only if they are one of its texts, nested no
    deeper than the limit, with nothing but white space before and after it. Whatever else there is - a
    missing comma, colon or quote, a bad escape, half a document, anything after the end - is refused.
   */
  lemma ParseIff(ft: FloatText, bytes: seq<byte>, v: Value)
    ensures ParseBytes(ft, bytes) == Some(v) <==>
      Nesting(v) <= 32 && exists before, t, after :: DocumentOf(ft, bytes, v, before, t, after)
  {
    hide TakeValue, SkipSpace, IsText, TextBytes, TextMeaning, Blank, Nesting;
    if ParseBytes(ft, bytes) == Some(v) {
      var before := SkippedBlank(bytes);
      var bs := SkipSpace(bytes);
      ValueNesting(ft, bs, 0);
      var t := TextSpelled(ft, bs, 0);
      var after := TakeValue(ft, bs, 0).value.1;
      var pad := SkippedBlank(after);
      assert after == pad + [] == pad;
      assert DocumentOf(ft, bytes, v, before, t, after);
    }
    if before, t, after :| Nesting(v) <= 32 && DocumentOf(ft, bytes, v, before, t, after) {
      BlankSkipped(before, TextBytes(ft, t) + after);
      TextStarts(ft, t, after);
      BlankEndsNumber(after);
      TextReads(ft, t, 0, after);
    }
  }
}
