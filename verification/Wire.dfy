/**
  The big-endian wire primitives. Every primitive is an encoding function `Enc..`, the function
  `Take..` that reads one off the front of a byte string, and the two laws that make them
  inverse: whatever was encoded is read back whatever follows it, and whatever is read is the
  only encoding of the value read.
 */
module Wire {
  import opened Prelude
  import opened Identity
  import Utf8

  /** A value read off the front of a byte string, with the bytes after it. */
  type Parsed<+T> = Option<(T, seq<byte>)>

  const TWO_32 := 0x1_0000_0000
  const TWO_64 := 0x1_0000_0000_0000_0000

  function Pow256(k: nat): (p: nat)
    ensures p >= 1
  {
    if k == 0 then 1 else 256 * Pow256(k - 1)
  }

  function BigEndian(v: nat, k: nat): (bs: seq<byte>)
    ensures |bs| == k
  {
    if k == 0 then [] else BigEndian(v / 256, k - 1) + [v % 256]
  }

  function FromBigEndian(bs: seq<byte>): (v: nat) {
    if bs == [] then 0 else FromBigEndian(bs[..|bs| - 1]) * 256 + bs[|bs| - 1]
  }

  lemma {:induction false} BigEndianInverse(v: nat, k: nat)
    requires v < Pow256(k)
    ensures FromBigEndian(BigEndian(v, k)) == v
  {
    if k != 0 {
      var bs := BigEndian(v, k);
      assert bs[..k - 1] == BigEndian(v / 256, k - 1);
      BigEndianInverse(v / 256, k - 1);
    }
  }

  lemma {:induction false} BigEndianCanonical(bs: seq<byte>)
    ensures FromBigEndian(bs) < Pow256(|bs|)
    ensures BigEndian(FromBigEndian(bs), |bs|) == bs
  {
    if bs != [] {
      var front := bs[..|bs| - 1];
      BigEndianCanonical(front);
      assert bs == front + [bs[|bs| - 1]];
    }
  }

  lemma Powers()
    ensures Pow256(2) == 0x1_0000 && Pow256(4) == TWO_32 && Pow256(8) == TWO_64
  {
    assert Pow256(4) == 256 * 256 * Pow256(2);
    assert Pow256(6) == 256 * 256 * Pow256(4);
    assert Pow256(8) == 256 * 256 * Pow256(6);
  }

  // Encodings.

  function EncU16(v: u16): (bs: seq<byte>)
    ensures |bs| == 2
  {
    BigEndian(v, 2)
  }

  function EncU64(v: u64): (bs: seq<byte>)
    ensures |bs| == 8
  {
    BigEndian(v, 8)
  }

  /** Two's complement. */
  function EncI32(v: i32): (bs: seq<byte>)
    ensures |bs| == 4
  {
    BigEndian(if v < 0 then v + TWO_32 else v, 4)
  }

  /** Two's complement. */
  function EncI64(v: i64): (bs: seq<byte>)
    ensures |bs| == 8
  {
    BigEndian(if v < 0 then v + TWO_64 else v, 8)
  }

  function EncBool(b: bool): (bs: seq<byte>)
    ensures |bs| == 1
  {
    [if b then 1 else 0]
  }

  function EncId(id: Id): (bs: seq<byte>)
    ensures |bs| == 16
  {
    EncU64(id.high) + EncU64(id.low)
  }

  predicate FitsUtf(s: string, max: nat) {
    |Utf8.Encode(s)| <= max
  }

  /** A 16-bit byte count, truncated by the cast, then the bytes. */
  function EncUtf(s: string): (bs: seq<byte>)
    ensures |bs| == 2 + |Utf8.Encode(s)|
  {
    EncU16(|Utf8.Encode(s)| % 0x1_0000) + Utf8.Encode(s)
  }

  // Reading off the front.

  function TakeU8(bs: seq<byte>): (r: Parsed<byte>)
    ensures r.Some? ==> bs == [r.value.0] + r.value.1
  {
    if |bs| == 0 then None else Some((bs[0], bs[1..]))
  }

  function TakeBytes(bs: seq<byte>, k: nat): (r: Parsed<seq<byte>>)
    ensures r.Some? ==> |r.value.0| == k && bs == r.value.0 + r.value.1
  {
    if |bs| < k then None else Some((bs[..k], bs[k..]))
  }

  function TakeU16(bs: seq<byte>): (r: Parsed<u16>)
    ensures r.Some? ==> bs == EncU16(r.value.0) + r.value.1
  {
    match TakeBytes(bs, 2)
    case None => None
    case Some((field, rest)) =>
      Powers();
      BigEndianCanonical(field);
      Some((FromBigEndian(field), rest))
  }

  function TakeU64(bs: seq<byte>): (r: Parsed<u64>)
    ensures r.Some? ==> bs == EncU64(r.value.0) + r.value.1
  {
    match TakeBytes(bs, 8)
    case None => None
    case Some((field, rest)) =>
      Powers();
      BigEndianCanonical(field);
      Some((FromBigEndian(field), rest))
  }

  function TakeI32(bs: seq<byte>): (r: Parsed<i32>)
    ensures r.Some? ==> bs == EncI32(r.value.0) + r.value.1
  {
    match TakeBytes(bs, 4)
    case None => None
    case Some((field, rest)) =>
      Powers();
      BigEndianCanonical(field);
      var v := FromBigEndian(field);
      Some((if v > I32_MAX then v - TWO_32 else v, rest))
  }

  function TakeI64(bs: seq<byte>): (r: Parsed<i64>)
    ensures r.Some? ==> bs == EncI64(r.value.0) + r.value.1
  {
    match TakeBytes(bs, 8)
    case None => None
    case Some((field, rest)) =>
      Powers();
      BigEndianCanonical(field);
      var v := FromBigEndian(field);
      Some((if v > I64_MAX then v - TWO_64 else v, rest))
  }

  function TakeBool(bs: seq<byte>): (r: Parsed<bool>)
    ensures r.Some? ==> bs == EncBool(r.value.0) + r.value.1
  {
    match TakeU8(bs)
    case None => None
    case Some((b, rest)) =>
      if b == 0 then Some((false, rest)) else if b == 1 then Some((true, rest)) else None
  }

  function TakeId(bs: seq<byte>): (r: Parsed<Id>)
    ensures r.Some? ==> bs == EncId(r.value.0) + r.value.1
  {
    match TakeU64(bs)
    case None => None
    case Some((high, rest)) =>
      match TakeU64(rest)
      case None => None
      case Some((low, tail)) =>
        ConcatAssoc(EncU64(high), EncU64(low), tail);
        Some((Id(high, low), tail))
  }

  /** `len` bytes of UTF-8. */
  function TakeText(bs: seq<byte>, len: nat): (r: Parsed<string>)
    ensures r.Some? ==> |Utf8.Encode(r.value.0)| == len && bs == Utf8.Encode(r.value.0) + r.value.1
  {
    hide Utf8.Encode, Utf8.Decode;
    match TakeBytes(bs, len)
    case None => None
    case Some((field, tail)) =>
      match Utf8.Decode(field)
      case None => None
      case Some(s) =>
        Utf8.EncodeDecode(field);
        Some((s, tail))
  }

  function TakeUtf(bs: seq<byte>, max: nat): (r: Parsed<string>)
    requires max <= 0xffff
    ensures r.Some? ==> FitsUtf(r.value.0, max) && bs == EncUtf(r.value.0) + r.value.1
  {
    hide TakeU16, EncU16, Utf8.Encode, TakeText;
    match TakeU16(bs)
    case None => None
    case Some((len, rest)) =>
      if len > max then None
      else
        match TakeText(rest, len)
        case None => None
        case Some((s, tail)) =>
          ConcatAssoc(EncU16(len), Utf8.Encode(s), tail);
          Some((s, tail))
  }

  lemma ConcatAssoc(a: seq<byte>, b: seq<byte>, c: seq<byte>)
    ensures a + (b + c) == (a + b) + c
  {
  }

  // Whatever was encoded is read back.

  lemma TakeU16Inverse(v: u16, tail: seq<byte>)
    ensures TakeU16(EncU16(v) + tail) == Some((v, tail))
  {
    Powers();
    BigEndianInverse(v, 2);
    assert (EncU16(v) + tail)[..2] == EncU16(v) && (EncU16(v) + tail)[2..] == tail;
  }

  lemma TakeU64Inverse(v: u64, tail: seq<byte>)
    ensures TakeU64(EncU64(v) + tail) == Some((v, tail))
  {
    Powers();
    BigEndianInverse(v, 8);
    assert (EncU64(v) + tail)[..8] == EncU64(v) && (EncU64(v) + tail)[8..] == tail;
  }

  lemma TakeI32Inverse(v: i32, tail: seq<byte>)
    ensures TakeI32(EncI32(v) + tail) == Some((v, tail))
  {
    Powers();
    BigEndianInverse(if v < 0 then v + TWO_32 else v, 4);
    assert (EncI32(v) + tail)[..4] == EncI32(v) && (EncI32(v) + tail)[4..] == tail;
  }

  lemma TakeI64Inverse(v: i64, tail: seq<byte>)
    ensures TakeI64(EncI64(v) + tail) == Some((v, tail))
  {
    Powers();
    BigEndianInverse(if v < 0 then v + TWO_64 else v, 8);
    assert (EncI64(v) + tail)[..8] == EncI64(v) && (EncI64(v) + tail)[8..] == tail;
  }

  lemma TakeBoolInverse(b: bool, tail: seq<byte>)
    ensures TakeBool(EncBool(b) + tail) == Some((b, tail))
  {
    assert (EncBool(b) + tail)[1..] == tail;
  }

  lemma TakeIdInverse(id: Id, tail: seq<byte>)
    ensures TakeId(EncId(id) + tail) == Some((id, tail))
  {
    hide EncU64, TakeU64;
    assert EncId(id) + tail == EncU64(id.high) + (EncU64(id.low) + tail);
    TakeU64Inverse(id.high, EncU64(id.low) + tail);
    TakeU64Inverse(id.low, tail);
  }

  lemma TakeUtfInverse(s: string, max: nat, tail: seq<byte>)
    requires max <= 0xffff && FitsUtf(s, max)
    ensures TakeUtf(EncUtf(s) + tail, max) == Some((s, tail))
  {
    hide EncU16, TakeU16, Utf8.Encode, Utf8.Decode;
    var field := Utf8.Encode(s);
    assert EncUtf(s) + tail == EncU16(|field|) + (field + tail);
    TakeU16Inverse(|field|, field + tail);
    assert (field + tail)[..|field|] == field && (field + tail)[|field|..] == tail;
    Utf8.DecodeEncode(s);
  }

  /** `r` and the bytes left are what reading by `spec` gives. */
  ghost predicate Follows<T>(r: Option<T>, rest: seq<byte>, spec: Parsed<T>) {
    match spec
    case None => r == None
    case Some((v, tail)) => r == Some(v) && rest == tail
  }

  /** A bounds-checked cursor over an untrusted payload. */
  class Reader {
    const buf: seq<byte>
    var pos: nat

    ghost predicate Valid()
      reads this
    {
      pos <= |buf|
    }

    ghost function Rest(): seq<byte>
      requires Valid()
      reads this
    {
      buf[pos..]
    }

    constructor (buf: seq<byte>)
      ensures Valid() && Rest() == buf
    {
      this.buf := buf;
      pos := 0;
    }

    method U8() returns (r: Option<byte>)
      requires Valid()
      modifies this
      ensures Valid() && Follows(r, Rest(), TakeU8(old(Rest())))
      ensures pos == old(pos) + if r.Some? then 1 else 0
    {
      if pos == |buf| {
        return None;
      }
      var value := buf[pos];
      pos := pos + 1;
      return Some(value);
    }

    /** Fills `k` bytes one at a time. */
    method Fill(k: nat) returns (r: Option<seq<byte>>)
      requires Valid()
      modifies this
      ensures Valid() && Follows(r, Rest(), TakeBytes(old(Rest()), k))
    {
      ghost var start := pos;
      var bytes: seq<byte> := [];
      while |bytes| < k
        invariant Valid() && |bytes| <= k && pos == start + |bytes| && bytes == buf[start..pos]
      {
        var next := U8();
        if next == None {
          return None;
        }
        bytes := bytes + [next.value];
      }
      assert buf[start..][..k] == bytes && buf[start..][k..] == Rest();
      return Some(bytes);
    }

    method U16() returns (r: Option<u16>)
      requires Valid()
      modifies this
      ensures Valid() && Follows(r, Rest(), TakeU16(old(Rest())))
    {
      ghost var all := Rest();
      var hi :- U8();
      var lo :- U8();
      assert all[..2] == [hi, lo] && all[2..] == Rest();
      assert [hi, lo][..1] == [hi] && FromBigEndian([hi][..0]) == 0;
      assert FromBigEndian([hi, lo]) == hi as int * 0x100 + lo as int;
      return Some(hi as int * 0x100 + lo as int);
    }

    method I32() returns (r: Option<i32>)
      requires Valid()
      modifies this
      ensures Valid() && Follows(r, Rest(), TakeI32(old(Rest())))
    {
      var bytes :- Fill(4);
      Powers();
      BigEndianCanonical(bytes);
      var v := FromBigEndian(bytes);
      return Some(if v > I32_MAX then v - TWO_32 else v);
    }

    method I64() returns (r: Option<i64>)
      requires Valid()
      modifies this
      ensures Valid() && Follows(r, Rest(), TakeI64(old(Rest())))
    {
      var bytes :- Fill(8);
      Powers();
      BigEndianCanonical(bytes);
      var v := FromBigEndian(bytes);
      return Some(if v > I64_MAX then v - TWO_64 else v);
    }

    /** The word of an IEEE 754 double. */
    method F64Bits() returns (r: Option<u64>)
      requires Valid()
      modifies this
      ensures Valid() && Follows(r, Rest(), TakeU64(old(Rest())))
    {
      var bytes :- Fill(8);
      Powers();
      BigEndianCanonical(bytes);
      return Some(FromBigEndian(bytes));
    }

    method Bool() returns (r: Option<bool>)
      requires Valid()
      modifies this
      ensures Valid() && Follows(r, Rest(), TakeBool(old(Rest())))
    {
      var value :- U8();
      match value
      case 0 => return Some(false);
      case 1 => return Some(true);
      case _ => return None;
    }

    method Utf(maxBytes: nat) returns (r: Option<string>)
      requires Valid() && maxBytes <= 0xffff
      modifies this
      ensures Valid() && Follows(r, Rest(), TakeUtf(old(Rest()), maxBytes))
    {
      hide TakeU16, Utf8.Decode;
      var len :- U16();
      if len > maxBytes || |buf| - pos < len {
        return None;
      }
      var slice := buf[pos..pos + len];
      assert Rest()[..len] == slice && Rest()[len..] == buf[pos + len..];
      pos := pos + len;
      return Utf8.Decode(slice);
    }

    /** Two 64-bit halves, most significant first; the cast to unsigned undoes the sign. */
    method Uuid() returns (r: Option<Id>)
      requires Valid()
      modifies this
      ensures Valid() && Follows(r, Rest(), TakeId(old(Rest())))
    {
      ghost var all := Rest();
      var high :- I64();
      ghost var middle := Rest();
      SignedAndUnsigned(all);
      var low :- I64();
      SignedAndUnsigned(middle);
      return Some(Id(if high < 0 then high + TWO_64 else high, if low < 0 then low + TWO_64 else low));
    }

    method Remaining() returns (n: nat)
      requires Valid()
      ensures n == |Rest()|
    {
      n := |buf| - pos;
    }
  }

  /** Reading eight bytes as signed and casting is reading them as unsigned. */
  lemma SignedAndUnsigned(bs: seq<byte>)
    ensures TakeI64(bs).None? <==> TakeU64(bs).None?
    ensures TakeI64(bs).Some? ==>
      var (v, rest) := TakeI64(bs).value;
      TakeU64(bs) == Some((if v < 0 then v + TWO_64 else v, rest))
  {
    hide FromBigEndian, BigEndian;
    if |bs| >= 8 {
      Powers();
      BigEndianCanonical(bs[..8]);
    }
  }
}
