/** IEEE 754 doubles (section 3.4): the word that travels, and the real number it stands for. */
module Floats {
  import opened Prelude

  datatype F64 = F64(bits: u64)

  const TWO_52 := 0x10_0000_0000_0000
  const TWO_63 := 0x8000_0000_0000_0000

  function Exponent(f: F64): nat {
    f.bits / TWO_52 % 0x800
  }

  function Mantissa(f: F64): nat {
    f.bits % TWO_52
  }

  predicate IsFinite(f: F64) {
    Exponent(f) != 0x7ff
  }

  predicate IsNan(f: F64) {
    Exponent(f) == 0x7ff && Mantissa(f) != 0
  }

  function PowerOfTwo(k: int): real
    decreases if k < 0 then -k else k
  {
    if k == 0 then 1.0
    else if k > 0 then 2.0 * PowerOfTwo(k - 1)
    else PowerOfTwo(k + 1) / 2.0
  }

  /** The number a finite double stands for. */
  function Value(f: F64): real
    requires IsFinite(f)
  {
    var magnitude :=
      if Exponent(f) == 0 then Mantissa(f) as real * PowerOfTwo(-1074)
      else (TWO_52 + Mantissa(f)) as real * PowerOfTwo(Exponent(f) - 1075);
    if f.bits >= TWO_63 then -magnitude else magnitude
  }

  function Abs(r: real): real {
    if r < 0.0 then -r else r
  }

  /** The `==` of doubles: not-a-number differs from itself, and the two zeros are equal. */
  predicate Equal(a: F64, b: F64) {
    !IsNan(a) && !IsNan(b) && if IsFinite(a) && IsFinite(b) then Value(a) == Value(b) else a == b
  }

  /** Floors into a 64-bit integer; the cast saturates at the one value past the upper end. */
  function FloorToI64(f: F64): Option<i64> {
    if !IsFinite(f) then None
    else
      var floored := Value(f).Floor;
      if floored < -TWO_63 || floored > TWO_63 then None else Some(Min(floored, I64_MAX))
  }
}
