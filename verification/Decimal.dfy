/** Integers as text: what the document writer prints and what `str::parse::<i64>` reads. */
module Decimal {
  import opened Prelude
  import opened Json
  import opened JsonText
  import opened Floats

  function DigitChar(d: nat): (c: char)
    requires d < 10
    ensures '0' <= c <= '9' && c as int - 0x30 == d
  {
    (0x30 + d) as char
  }

  function NatText(n: nat): (s: string)
    ensures s != []
  {
    if n < 10 then [DigitChar(n)] else NatText(n / 10) + [DigitChar(n % 10)]
  }

  function IntText(n: int): string {
    if n < 0 then "-" + NatText(-n) else NatText(n)
  }

  predicate AllDigits(s: string) {
    forall k :: 0 <= k < |s| ==> '0' <= s[k] <= '9'
  }

  function ReadNat(s: string): nat
    requires AllDigits(s)
  {
    if s == [] then 0 else ReadNat(s[..|s| - 1]) * 10 + (s[|s| - 1] as int - 0x30)
  }

  /** An optional sign and at least one digit, within the 64-bit range. */
  function ReadI64(s: string): Option<i64> {
    var signed := s != [] && (s[0] == '-' || s[0] == '+');
    var digits := if signed then s[1..] else s;
    if digits == [] || !AllDigits(digits) then None
    else
      var n: int := if signed && s[0] == '-' then -(ReadNat(digits) as int) else ReadNat(digits);
      if I64_MIN <= n <= I64_MAX then Some(n) else None
  }

  lemma {:induction false} NatTextReads(n: nat)
    ensures AllDigits(NatText(n)) && ReadNat(NatText(n)) == n
  {
    if n >= 10 {
      NatTextReads(n / 10);
      var s := NatText(n);
      assert s[..|s| - 1] == NatText(n / 10);
    } else {
      assert ReadNat([]) == 0;
      assert NatText(n)[..0] == [];
    }
  }

  /** Every 64-bit integer is read back from its text. */
  lemma IntTextReads(n: i64)
    ensures ReadI64(IntText(n)) == Some(n)
  {
    hide ReadNat, NatText;
    if n < 0 {
      var m: int := -(n as int);
      NatTextReads(m);
      assert IntText(n)[1..] == NatText(m);
    } else {
      NatTextReads(n);
      var first := NatText(n)[0];
      assert '0' <= first <= '9';
    }
  }

  lemma {:induction false} NatTextLength(n: nat)
    requires n <= 0x8000_0000_0000_0000
    ensures |NatText(n)| <= 19
  {
    assert Pow10(6) == 1000 * Pow10(3) && Pow10(3) == 1000 by { assert Pow10(1) == 10; assert Pow10(4) == 10 * Pow10(3); }
    assert Pow10(9) == 1000 * Pow10(6) by { assert Pow10(7) == 10 * Pow10(6); }
    assert Pow10(12) == 1000 * Pow10(9) by { assert Pow10(10) == 10 * Pow10(9); }
    assert Pow10(15) == 1000 * Pow10(12) by { assert Pow10(13) == 10 * Pow10(12); }
    assert Pow10(18) == 1000 * Pow10(15) by { assert Pow10(16) == 10 * Pow10(15); }
    assert Pow10(19) == 10 * Pow10(18);
    LengthWithin(n, 19);
  }

  lemma {:induction false} DigitsAreScanned(s: string)
    requires AllDigits(s)
    ensures IsAscii(s) && DigitsLength(Bytes(s)) == |s|
  {
    if s != [] {
      DigitsAreScanned(s[1..]);
      assert Bytes(s)[1..] == Bytes(s[1..]);
    }
  }

  /** Every integer's text is a number the scanner consumes whole. */
  lemma IntLexeme(n: int)
    ensures NumberLexeme(IntText(n))
  {
    hide NatText, DigitsLength, ReadNat;
    var digits := NatText(if n < 0 then -n else n);
    NatTextReads(if n < 0 then -n else n);
    DigitsAreScanned(digits);
    var bs := Bytes(digits);
    assert bs[|bs|..] == [];
    assert UnsignedLength(bs) == |bs|;
    assert '0' <= digits[0] <= '9';
    if n < 0 {
      assert Bytes(IntText(n)) == [MINUS] + bs;
      assert Bytes(IntText(n))[1..] == bs;
    } else {
      assert bs[0] == digits[0] as int;
    }
  }

  function Pow10(k: nat): (p: nat)
    ensures p >= 1
  {
    if k == 0 then 1 else 10 * Pow10(k - 1)
  }

  lemma {:induction false} LengthWithin(n: nat, k: nat)
    requires k >= 1 && n < Pow10(k)
    ensures |NatText(n)| <= k
  {
    if n >= 10 {
      LengthWithin(n / 10, k - 1);
    }
  }
}
