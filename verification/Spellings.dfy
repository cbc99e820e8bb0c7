/**
  How the values of the catalog are spelled: which field of the document holds what, the digits of an id
  and of an integer, the letters of the capability envelope, and the number a double stands for.
 */
module Spellings {
  import opened Prelude
  import opened Identity
  import opened Floats
  import opened Model
  import opened Catalogs
  import opened Json
  import opened JsonText
  import opened Decimal
  import opened Documents
  import opened Offer

  // The document.

  /** The fields of a point's entry. */
  lemma EntryFields(ft: FloatText, w: Waypoint)
    ensures var v := EntryValue(ft, w);
      && Field(v, "id") == Some(String(UuidText(w.id)))
      && Field(v, "publisherId") == Some(String(UuidText(w.publisherId)))
      && Field(v, "publisherName") == Some(String(w.publisherName))
      && Field(v, "name") == Some(String(w.body.name))
      && Field(v, "dimensionId") == Some(String(w.body.dimensionId))
      && Field(v, "x") == Some(Number(ft.show(w.body.x)))
      && Field(v, "y") == Some(Number(ft.show(w.body.y)))
      && Field(v, "z") == Some(Number(ft.show(w.body.z)))
      && Field(v, "colorArgb") == Some(Number(IntText(w.body.color)))
      && Field(v, "type") == Some(String(if w.body.kind.Normal? then "NORMAL" else "DEATH"))
      && Field(v, "iconItemId") == Some(String(w.body.iconItemId))
      && Field(v, "markerLabel") == Some(String(w.body.markerLabel))
      && Field(v, "createdAtEpochMs") == Some(Number(IntText(w.createdAtMs)))
      && Field(v, "revision") == Some(Number(IntText(w.revision)))
  {
    hide Field, EntryValue, IntText, UuidText;
    FieldAt(ft, w, 0);
    FieldAt(ft, w, 1);
    FieldAt(ft, w, 2);
    FieldAt(ft, w, 3);
    FieldAt(ft, w, 4);
    FieldAt(ft, w, 5);
    FieldAt(ft, w, 6);
    FieldAt(ft, w, 7);
    FieldAt(ft, w, 8);
    FieldAt(ft, w, 9);
    FieldAt(ft, w, 10);
    FieldAt(ft, w, 11);
    FieldAt(ft, w, 12);
    FieldAt(ft, w, 13);
  }

  /** The fields of the document: the schema, the revision, the owner, and one entry a point, in order. */
  lemma DocumentFields(ft: FloatText, owner: Option<Id>, c: Catalog)
    ensures var v := RootValue(ft, owner, c);
      && Field(v, "schemaVersion") == Some(Number("2"))
      && Field(v, "revision") == Some(Number(IntText(c.revision)))
      && Field(v, "ownerInstanceId") == Some(if owner.Some? then String(UuidText(owner.value)) else Null)
      && Field(v, "waypoints").Some? && Field(v, "waypoints").value.Array?
      && |Field(v, "waypoints").value.items| == |c.points|
      && forall k :: 0 <= k < |c.points| ==> Field(v, "waypoints").value.items[k] == EntryValue(ft, c.points[k])
  {
    hide Field, RootValue, UuidText, EntrySlots, EntryValue;
    RootFieldAt(ft, owner, c, 0);
    RootFieldAt(ft, owner, c, 1);
    RootFieldAt(ft, owner, c, 2);
    RootFieldAt(ft, owner, c, 3);
    SlotsMeaning(ft, c.points);
    assert NatText(2) == "2";
  }

  // Ids.

  /** Where digit `k` of an id's text stands: eight, four, four, four and twelve digits around four dashes. */
  function Place(k: nat): nat {
    if k < 8 then k else if k < 12 then k + 1 else if k < 16 then k + 2 else if k < 20 then k + 3 else k + 4
  }

  function Sixteens(k: nat): (p: nat)
    ensures p >= 1
  {
    if k == 0 then 1 else 16 * Sixteens(k - 1)
  }

  lemma {:induction false} NibbleAt(v: nat, n: nat, k: nat)
    requires k < n
    ensures Nibbles(v, n)[k] == v / Sixteens(n - 1 - k) % 16
    decreases n
  {
    if k < n - 1 {
      NibbleAt(v / 16, n - 1, k);
      DivideTwice(v, Sixteens(n - 2 - k));
      assert Sixteens(n - 1 - k) == 16 * Sixteens(n - 2 - k);
    }
  }

  lemma DivideTwice(v: nat, p: nat)
    requires p >= 1
    ensures v / 16 / p == v / (16 * p)
  {
    var q, r := v / 16 / p, v / 16 % p;
    assert v / 16 == p * q + r;
    assert v == 16 * (p * q) + (16 * r + v % 16);
    assert 16 * (p * q) == (16 * p) * q;
    Quotient(v, 16 * p, q, 16 * r + v % 16);
  }

  lemma Multiples(d: int, k: int)
    requires d >= 1
    ensures k >= 1 ==> d * k >= d
    ensures k <= -1 ==> d * k <= -d
  {
  }

  lemma Quotient(v: nat, d: nat, q: nat, r: nat)
    requires d >= 1 && v == d * q + r && r < d
    ensures v / d == q
  {
    Multiples(d, q - v / d);
    assert d * (q - v / d) == v % d - r;
  }

  /**
    An id's text: its thirty-two hexadecimal digits in lower case, the high word's first and in each word
    the greatest first, with dashes after the eighth, twelfth, sixteenth and twentieth.
   */
  lemma UuidSpells(id: Id)
    ensures var text := UuidText(id);
      && |text| == 36 && text[8] == text[13] == text[18] == text[23] == '-'
      && (forall k :: 0 <= k < 16 ==> text[Place(k)] == "0123456789abcdef"[id.high / Sixteens(15 - k) % 16])
      && (forall k :: 16 <= k < 32 ==> text[Place(k)] == "0123456789abcdef"[id.low / Sixteens(31 - k) % 16])
  {
    hide Nibbles;
    var text := UuidText(id);
    forall k | 0 <= k < 16
      ensures text[Place(k)] == "0123456789abcdef"[id.high / Sixteens(15 - k) % 16]
    {
      NibbleAt(id.high, 16, k);
      DigitSpells(Nibbles(id.high, 16)[k]);
    }
    forall k | 16 <= k < 32
      ensures text[Place(k)] == "0123456789abcdef"[id.low / Sixteens(31 - k) % 16]
    {
      NibbleAt(id.low, 16, k - 16);
      DigitSpells(Nibbles(id.low, 16)[k - 16]);
    }
  }

  lemma DigitSpells(n: nibble)
    ensures DigitByte(n) as char == "0123456789abcdef"[n]
  {
  }

  // Integers.

  /** A sign, if any, and digits spell this integer. */
  predicate SpellsInt(sign: string, digits: string, n: int) {
    && (sign == "" || sign == "+" || sign == "-") && digits != [] && AllDigits(digits)
    && n == (if sign == "-" then -1 else 1) * (ReadNat(digits) as int)
  }

  /** What is read as a 64-bit integer: an optional sign, then digits, of a number in range. */
  lemma ReadI64Iff(s: string, n: i64)
    ensures ReadI64(s) == Some(n) <==> exists sign, digits :: s == sign + digits && SpellsInt(sign, digits, n)
  {
    hide AllDigits, ReadNat;
    if ReadI64(s) == Some(n) {
      var signed := s[0] == '-' || s[0] == '+';
      var sign, digits := if signed then s[..1] else [], if signed then s[1..] else s;
      assert s == sign + digits && SpellsInt(sign, digits, n);
    }
    if sign, digits :| s == sign + digits && SpellsInt(sign, digits, n) {
      SignIsNoDigit(digits);
      if sign == "" {
        assert s == digits;
      } else {
        assert s[0] == sign[0] && s[1..] == digits;
      }
    }
  }

  lemma SignIsNoDigit(digits: string)
    requires digits != [] && AllDigits(digits)
    ensures digits[0] != '-' && digits[0] != '+'
  {
  }

  // The capability envelope's letters.

  /** The URL-safe alphabet: capitals, small letters, digits, a hyphen and an underscore. */
  lemma AlphabetIs(n: sextet)
    ensures n < 26 ==> AlphabetByte(n) == 'A' as int + n
    ensures 26 <= n < 52 ==> AlphabetByte(n) == 'a' as int + (n - 26)
    ensures 52 <= n < 62 ==> AlphabetByte(n) == '0' as int + (n - 52)
    ensures n == 62 ==> AlphabetByte(n) == '-' as int
    ensures n == 63 ==> AlphabetByte(n) == '_' as int
  {
  }

  /** A letter of that alphabet. */
  predicate IsLetter(b: byte) {
    || 'A' as int <= b <= 'Z' as int || 'a' as int <= b <= 'z' as int || '0' as int <= b <= '9' as int
    || b == '-' as int || b == '_' as int
  }

  lemma {:induction false} FedIff(s: State, text: seq<byte>)
    requires s.Valid()
    ensures FeedAll(s, text).Some? <==> forall k :: 0 <= k < |text| ==> IsLetter(text[k]) || text[k] == '=' as int
    decreases |text|
  {
    hide Feed;
    if text != [] {
      if text[0] == PAD {
        FedIff(s, text[1..]);
      } else if SextetOf(text[0]).Some? {
        FedIff(Feed(s, SextetOf(text[0]).value), text[1..]);
      }
      assert forall k :: 1 <= k < |text| ==> text[k] == text[1..][k - 1];
    }
  }

  /** A text decodes exactly when it holds nothing but letters and padding. */
  lemma DecodesIff(text: seq<byte>)
    ensures Base64Decode(text).Some? <==> forall k :: 0 <= k < |text| ==> IsLetter(text[k]) || text[k] == '=' as int
  {
    hide FeedAll, IsLetter;
    FedIff(State(0, 0, []), text);
  }

  /** An envelope is version 2, one to eight profiles and at most thirty-two pairs, each list after its count, and no more. */
  lemma OpensIff(bytes: seq<byte>, profiles: seq<byte>, pairs: seq<Capability>)
    ensures OpenEnvelope(bytes) == Some((profiles, pairs)) <==>
      && 1 <= |profiles| <= 8 && |pairs| <= 32
      && bytes == [2, |profiles|] + (profiles + ([|pairs|] + CapabilityBytes(pairs)))
  {
    hide OpenEnvelope, CapabilityBytes;
    if 1 <= |profiles| <= 8 && |pairs| <= 32 {
      OpenInverse(profiles, pairs);
    }
  }

  // Doubles.

  lemma PowerUp(k: int)
    ensures PowerOfTwo(k + 1) == 2.0 * PowerOfTwo(k)
  {
  }

  function Magnitude(exponent: nat, mantissa: nat): (f: F64)
    requires exponent < 0x7ff && mantissa < TWO_52
    ensures IsFinite(f) && Exponent(f) == exponent && Mantissa(f) == mantissa && f.bits < TWO_63
  {
    MagnitudeFits(exponent, mantissa);
    F64(exponent * TWO_52 + mantissa)
  }

  lemma MagnitudeFits(exponent: nat, mantissa: nat)
    requires exponent < 0x7ff && mantissa < TWO_52
    ensures exponent * TWO_52 + mantissa < TWO_63
    ensures (exponent * TWO_52 + mantissa) / TWO_52 == exponent && (exponent * TWO_52 + mantissa) % TWO_52 == mantissa
  {
  }

  lemma Negative52()
    ensures PowerOfTwo(-52) * 4503599627370496.0 == 1.0
  {
    assert PowerOfTwo(-4) == 1.0 / 16.0 by { assert PowerOfTwo(-2) == 1.0 / 4.0; }
    Quarter(-4);
    Quarter(-8);
    Quarter(-12);
    Quarter(-16);
    Quarter(-20);
    Quarter(-24);
    Quarter(-28);
    Quarter(-32);
    Quarter(-36);
    Quarter(-40);
    Quarter(-44);
    Quarter(-48);
  }

  lemma Quarter(k: int)
    ensures PowerOfTwo(k - 4) == PowerOfTwo(k) / 16.0
  {
    PowerUp(k - 1);
    PowerUp(k - 2);
    PowerUp(k - 3);
    PowerUp(k - 4);
  }

  lemma ValueOfOne()
    ensures Floats.Value(Magnitude(1023, 0)) == 1.0
  {
    hide PowerOfTwo;
    Negative52();
    assert Floats.Value(Magnitude(1023, 0)) == 4503599627370496.0 * PowerOfTwo(-52);
  }

  /** The value of a double without its sign. */
  lemma MagnitudeIs(exponent: nat, mantissa: nat)
    requires exponent < 0x7ff && mantissa < TWO_52
    ensures exponent >= 1 ==>
      Floats.Value(Magnitude(exponent, mantissa)) == (TWO_52 + mantissa) as real * PowerOfTwo(exponent - 1075)
    ensures exponent == 0 ==> Floats.Value(Magnitude(exponent, mantissa)) == mantissa as real * PowerOfTwo(-1074)
  {
    hide PowerOfTwo;
  }

  lemma SignNegates(f: F64)
    requires IsFinite(f) && f.bits < TWO_63
    ensures IsFinite(F64(f.bits + TWO_63)) && Floats.Value(F64(f.bits + TWO_63)) == -Floats.Value(f)
  {
    hide PowerOfTwo, Exponent, Mantissa;
    SignOnly(f);
  }

  lemma SignOnly(f: F64)
    requires IsFinite(f) && f.bits < TWO_63
    ensures var g := F64(f.bits + TWO_63); Exponent(g) == Exponent(f) && Mantissa(g) == Mantissa(f)
  {
  }

  /** Scaling a product of reals. */
  lemma Scaled(m: real, p: real, k: real)
    ensures (m * p) * k == (k * p) * m && m * (2.0 * p) == 2.0 * (m * p)
  {
  }

  lemma SubnormalIs(mantissa: nat)
    requires mantissa < TWO_52
    ensures Floats.Value(Magnitude(0, mantissa)) * 4503599627370496.0 == Floats.Value(Magnitude(1, 0)) * mantissa as real
  {
    hide PowerOfTwo, Floats.Value, Magnitude;
    MagnitudeIs(0, mantissa);
    MagnitudeIs(1, 0);
    Scaled(mantissa as real, PowerOfTwo(-1074), 4503599627370496.0);
  }

  lemma NormalIs(exponent: nat, mantissa: nat)
    requires 1 <= exponent < 0x7ff && mantissa < TWO_52
    ensures exponent < 0x7fe ==>
      Floats.Value(Magnitude(exponent + 1, mantissa)) == 2.0 * Floats.Value(Magnitude(exponent, mantissa))
    ensures Floats.Value(Magnitude(exponent, mantissa)) * 4503599627370496.0 ==
      Floats.Value(Magnitude(exponent, 0)) * (4503599627370496 + mantissa) as real
  {
    hide PowerOfTwo, Floats.Value, Magnitude;
    var more, p := (4503599627370496 + mantissa) as real, PowerOfTwo(exponent - 1075);
    MagnitudeIs(exponent, mantissa);
    MagnitudeIs(exponent, 0);
    Scaled(more, p, 4503599627370496.0);
    if exponent < 0x7fe {
      MagnitudeIs(exponent + 1, mantissa);
      PowerUp(exponent - 1075);
      Scaled(more, p, 2.0);
    }
  }

  /**
    The number a double stands for is fixed by these laws: the word of one is 1, one exponent more is
    twice as much, the mantissa counts in parts of two to the 52nd, a subnormal counts in parts of the
    least normal, and the sign bit negates.
   */
  lemma ValueLaws(exponent: nat, mantissa: nat)
    requires exponent < 0x7ff && mantissa < TWO_52
    ensures Floats.Value(Magnitude(1023, 0)) == 1.0
    ensures 1 <= exponent < 0x7fe ==>
      Floats.Value(Magnitude(exponent + 1, mantissa)) == 2.0 * Floats.Value(Magnitude(exponent, mantissa))
    ensures 1 <= exponent ==>
      Floats.Value(Magnitude(exponent, mantissa)) * 4503599627370496.0 ==
        Floats.Value(Magnitude(exponent, 0)) * (4503599627370496 + mantissa) as real
    ensures Floats.Value(Magnitude(0, mantissa)) * 4503599627370496.0 == Floats.Value(Magnitude(1, 0)) * mantissa as real
    ensures var f := Magnitude(exponent, mantissa);
      IsFinite(F64(f.bits + TWO_63)) && Floats.Value(F64(f.bits + TWO_63)) == -Floats.Value(f)
  {
    hide PowerOfTwo, Floats.Value, Magnitude, IsFinite;
    ValueOfOne();
    SignNegates(Magnitude(exponent, mantissa));
    SubnormalIs(mantissa);
    if exponent >= 1 {
      NormalIs(exponent, mantissa);
    }
  }
}
