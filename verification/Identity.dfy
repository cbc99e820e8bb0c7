/**
  The 128-bit identity of players, points and operations, its canonical text, and the parser of
  that text (section 4 of RFC 9562).
 */
module Identity {
  import opened Prelude

  datatype Id = Id(high: u64, low: u64)

  type nibble = n: int | 0 <= n < 16

  const DASH: byte := 0x2d
  const UUID_BYTES := 36

  // Sixteen hexadecimal digits and the word they spell.

  function Pow16(k: nat): (p: nat)
    ensures p >= 1
  {
    if k == 0 then 1 else 16 * Pow16(k - 1)
  }

  /** The last `k` hexadecimal digits of `v`, most significant first. */
  function Nibbles(v: nat, k: nat): (ns: seq<nibble>)
    ensures |ns| == k
  {
    if k == 0 then [] else Nibbles(v / 16, k - 1) + [v % 16]
  }

  function FromNibbles(ns: seq<nibble>): nat {
    if ns == [] then 0 else FromNibbles(ns[..|ns| - 1]) * 16 + ns[|ns| - 1]
  }

  lemma SplitDigit(v: nat, p: nat)
    requires v < 16 * p
    ensures v / 16 < p && v / 16 * 16 + v % 16 == v
  {
  }

  lemma {:induction false} NibblesInverse(v: nat, k: nat)
    requires v < Pow16(k)
    ensures FromNibbles(Nibbles(v, k)) == v
  {
    if k != 0 {
      SplitDigit(v, Pow16(k - 1));
      var front, last := Nibbles(v / 16, k - 1), v % 16;
      NibblesInverse(v / 16, k - 1);
      assert Nibbles(v, k) == front + [last];
      FromNibblesSnoc(front, last);
    }
  }

  lemma FromNibblesSnoc(ns: seq<nibble>, last: nibble)
    ensures FromNibbles(ns + [last]) == FromNibbles(ns) * 16 + last
  {
    assert (ns + [last])[..|ns|] == ns;
  }

  lemma {:induction false} NibblesBound(ns: seq<nibble>)
    ensures FromNibbles(ns) < Pow16(|ns|)
  {
    if ns != [] {
      NibblesBound(ns[..|ns| - 1]);
    }
  }

  lemma WordBound()
    ensures Pow16(16) == 0x1_0000_0000_0000_0000
  {
    assert Pow16(4) == 16 * 16 * Pow16(2);
    assert Pow16(8) == 16 * 16 * 16 * 16 * Pow16(4) by {
      assert Pow16(6) == 16 * 16 * Pow16(4);
    }
    assert Pow16(12) == 16 * 16 * 16 * 16 * Pow16(8) by {
      assert Pow16(10) == 16 * 16 * Pow16(8);
    }
    assert Pow16(14) == 16 * 16 * Pow16(12);
  }

  function NibbleOf(b: byte): Option<nibble> {
    if 0x30 <= b <= 0x39 then Some(b - 0x30)
    else if 0x61 <= b <= 0x66 then Some(b - 0x61 + 10)
    else if 0x41 <= b <= 0x46 then Some(b - 0x41 + 10)
    else None
  }

  // The 8-4-4-4-12 form.

  predicate IsDashSlot(i: nat) {
    i == 8 || i == 13 || i == 18 || i == 23
  }

  /** How many dash slots come before byte `i`. */
  function SlotsBefore(i: nat): (n: nat)
    ensures n <= 4 && n <= i
  {
    if i <= 8 then 0 else if i <= 13 then 1 else if i <= 18 then 2 else if i <= 23 then 3 else 4
  }

  /** Where digit `k` of the 32 stands. */
  function DigitAt(k: nat): (i: nat)
    ensures !IsDashSlot(i) && i - SlotsBefore(i) == k
    ensures k < 32 ==> i < UUID_BYTES
  {
    if k < 8 then k else if k < 12 then k + 1 else if k < 16 then k + 2 else if k < 20 then k + 3 else k + 4
  }

  /** Thirty-six bytes: dashes in the four slots, hexadecimal digits of either case elsewhere. */
  predicate IsUuidForm(bytes: seq<byte>) {
    && |bytes| == UUID_BYTES
    && forall i :: 0 <= i < UUID_BYTES ==> if IsDashSlot(i) then bytes[i] == DASH else NibbleOf(bytes[i]).Some?
  }

  function UuidNibbles(bytes: seq<byte>): (ns: seq<nibble>)
    requires IsUuidForm(bytes)
    ensures |ns| == 32
  {
    seq(32, k requires 0 <= k < 32 => NibbleOf(bytes[DigitAt(k)]).value)
  }

  /** The identity a byte string spells, when it has the form. */
  function UuidOf(bytes: seq<byte>): Option<Id> {
    if !IsUuidForm(bytes) then None
    else
      var ns := UuidNibbles(bytes);
      WordBound();
      NibblesBound(ns[..16]);
      NibblesBound(ns[16..]);
      Some(Id(FromNibbles(ns[..16]), FromNibbles(ns[16..])))
  }

  function DigitByte(n: nibble): (b: byte)
    ensures 0x30 <= b <= 0x39 || 0x61 <= b <= 0x66
    ensures NibbleOf(b) == Some(n)
  {
    if n < 10 then 0x30 + n else 0x61 + n - 10
  }

  function UuidByte(id: Id, i: nat): (b: byte)
    requires i < UUID_BYTES
    ensures b == DASH || 0x30 <= b <= 0x39 || 0x61 <= b <= 0x66
  {
    if IsDashSlot(i) then DASH
    else
      var ns := Nibbles(id.high, 16) + Nibbles(id.low, 16);
      DigitByte(ns[i - SlotsBefore(i)])
  }

  /** The canonical lower-case text, as bytes. */
  function UuidBytes(id: Id): (bytes: seq<byte>)
    ensures |bytes| == UUID_BYTES
    ensures forall i :: 0 <= i < UUID_BYTES ==> bytes[i] == UuidByte(id, i)
  {
    seq(UUID_BYTES, i requires 0 <= i < UUID_BYTES => UuidByte(id, i))
  }

  /** The canonical lower-case text. */
  function UuidText(id: Id): (text: string)
    ensures |text| == UUID_BYTES
  {
    var bytes := UuidBytes(id);
    seq(UUID_BYTES, i requires 0 <= i < UUID_BYTES => bytes[i] as char)
  }

  /** Parsing inverts printing, for every identity. */
  lemma UuidInverse(id: Id)
    ensures UuidOf(UuidBytes(id)) == Some(id)
  {
    var bytes := UuidBytes(id);
    var ns := Nibbles(id.high, 16) + Nibbles(id.low, 16);
    forall i | 0 <= i < UUID_BYTES
      ensures if IsDashSlot(i) then bytes[i] == DASH else NibbleOf(bytes[i]) == Some(ns[i - SlotsBefore(i)])
    {
    }
    assert UuidNibbles(bytes) == ns;
    WordBound();
    NibblesInverse(id.high, 16);
    NibblesInverse(id.low, 16);
  }

  /** The digits between the dashes, in order; any other shape is refused. */
  method GatherDigits(bytes: seq<byte>) returns (r: Option<seq<nibble>>)
    requires |bytes| == UUID_BYTES
    ensures r.Some? <==> IsUuidForm(bytes)
    ensures r.Some? ==> r.value == UuidNibbles(bytes)
  {
    var digits: seq<nibble> := seq(32, _ => 0);
    var count: nat := 0;
    for index := 0 to UUID_BYTES
      invariant |digits| == 32 && count <= 32
      invariant index - SlotsBefore(index) <= count <= index
      invariant forall i :: 0 <= i < index && !IsDashSlot(i) ==> NibbleOf(bytes[i]).Some?
      invariant count == index - SlotsBefore(index) <==> forall i :: 0 <= i < index && IsDashSlot(i) ==> bytes[i] == DASH
      invariant count == index - SlotsBefore(index) ==>
        forall i :: 0 <= i < index && !IsDashSlot(i) ==> digits[i - SlotsBefore(i)] == NibbleOf(bytes[i]).value
    {
      var byte := bytes[index];
      if byte == DASH {
        if !IsDashSlot(index) {
          return None;
        }
      } else {
        if count == 32 {
          return None;
        }
        var digit := NibbleOf(byte);
        if digit == None {
          return None;
        }
        digits := digits[count := digit.value];
        count := count + 1;
      }
    }
    if count != 32 {
      return None;
    }
    forall k | 0 <= k < 32
      ensures digits[k] == UuidNibbles(bytes)[k]
    {
      assert digits[DigitAt(k) - SlotsBefore(DigitAt(k))] == NibbleOf(bytes[DigitAt(k)]).value;
    }
    assert digits == UuidNibbles(bytes);
    return Some(digits);
  }

  /** The parser: accepts exactly the form, and reads the two words it spells. */
  method ParseUuid(bytes: seq<byte>) returns (r: Option<Id>)
    ensures r == UuidOf(bytes)
  {
    hide IsUuidForm, UuidNibbles;
    if |bytes| != UUID_BYTES {
      assert !IsUuidForm(bytes) by { FormLength(bytes); }
      return None;
    }
    var digits :- GatherDigits(bytes);
    var high: nat, low: nat := 0, 0;
    for index := 0 to 32
      invariant high == FromNibbles(digits[..if index < 16 then index else 16])
      invariant low == if index < 16 then 0 else FromNibbles(digits[16..index])
    {
      if index < 16 {
        assert digits[..index + 1][..index] == digits[..index];
        high := high * 16 + digits[index] as int;
      } else {
        assert digits[16..index + 1][..index - 16] == digits[16..index];
        low := low * 16 + digits[index] as int;
      }
    }
    assert digits[16..32] == digits[16..];
    WordBound();
    NibblesBound(digits[..16]);
    NibblesBound(digits[16..]);
    return Some(Id(high, low));
  }

  lemma FormLength(bytes: seq<byte>)
    ensures IsUuidForm(bytes) ==> |bytes| == UUID_BYTES
  {
  }
}
