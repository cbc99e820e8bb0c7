/**
  UTF-8 (section 3 of RFC 3629). A `char` is a Unicode scalar value, so a `string` holds
  exactly what a Rust `str` can hold, and `Decode` is what `core::str::from_utf8` accepts.
 */
module Utf8 {
  import opened Prelude

  function EncodeScalar(c: char): (bs: seq<byte>)
    ensures 1 <= |bs| <= 4
    ensures |bs| == 1 <==> c as int < 0x80
  {
    var v := c as int;
    if v < 0x80 then [v]
    else if v < 0x800 then [0xc0 + v / 0x40, 0x80 + v % 0x40]
    else if v < 0x1_0000 then [0xe0 + v / 0x1000, 0x80 + v / 0x40 % 0x40, 0x80 + v % 0x40]
    else [0xf0 + v / 0x4_0000, 0x80 + v / 0x1000 % 0x40, 0x80 + v / 0x40 % 0x40, 0x80 + v % 0x40]
  }

  function Encode(s: string): (bs: seq<byte>)
    ensures |s| <= |bs| <= 4 * |s|
  {
    if s == [] then [] else EncodeScalar(s[0]) + Encode(s[1..])
  }

  predicate IsContinuation(b: int) {
    0x80 <= b < 0xc0
  }

  function Join2(a: int, b: int): int {
    (a - 0xc0) * 0x40 + (b - 0x80)
  }

  function Join3(a: int, b: int, c: int): int {
    (a - 0xe0) * 0x1000 + (b - 0x80) * 0x40 + (c - 0x80)
  }

  function Join4(a: int, b: int, c: int, d: int): int {
    (a - 0xf0) * 0x4_0000 + (b - 0x80) * 0x1000 + (c - 0x80) * 0x40 + (d - 0x80)
  }

  /** The first scalar of `bs` and how many bytes it takes, when `bs` starts with one. */
  function DecodeScalar(bs: seq<byte>): (r: Option<(char, nat)>)
    ensures r.Some? ==> 1 <= r.value.1 <= 4 && r.value.1 <= |bs|
  {
    if |bs| == 0 then None
    else if bs[0] < 0x80 then Some((bs[0] as char, 1))
    else if 0xc2 <= bs[0] < 0xe0 then
      if |bs| < 2 || !IsContinuation(bs[1]) then None
      else Some((Join2(bs[0], bs[1]) as char, 2))
    else if 0xe0 <= bs[0] < 0xf0 then
      if |bs| < 3 || !IsContinuation(bs[1]) || !IsContinuation(bs[2]) then None
      else
        var v := Join3(bs[0], bs[1], bs[2]);
        if v < 0x800 || 0xd800 <= v < 0xe000 then None else Some((v as char, 3))
    else if 0xf0 <= bs[0] < 0xf5 then
      if |bs| < 4 || !IsContinuation(bs[1]) || !IsContinuation(bs[2]) || !IsContinuation(bs[3]) then None
      else
        var v := Join4(bs[0], bs[1], bs[2], bs[3]);
        if v < 0x1_0000 || 0x11_0000 <= v then None else Some((v as char, 4))
    else None
  }

  function Decode(bs: seq<byte>): Option<string>
    decreases |bs|
  {
    if bs == [] then Some([])
    else
      match DecodeScalar(bs)
      case None => None
      case Some((c, n)) =>
        match Decode(bs[n..])
        case None => None
        case Some(rest) => Some([c] + rest)
  }

  lemma Split3(v: int)
    requires 0x800 <= v < 0x1_0000
    ensures Join3(0xe0 + v / 0x1000, 0x80 + v / 0x40 % 0x40, 0x80 + v % 0x40) == v
  {
  }

  lemma Split4(v: int)
    requires 0x1_0000 <= v < 0x11_0000
    ensures Join4(0xf0 + v / 0x4_0000, 0x80 + v / 0x1000 % 0x40, 0x80 + v / 0x40 % 0x40, 0x80 + v % 0x40) == v
  {
    var w := v / 0x40;
    assert v == w * 0x40 + v % 0x40;
    assert w == w / 0x40 * 0x40 + w % 0x40;
    assert v / 0x1000 == w / 0x40;
    var u := w / 0x40;
    assert u == u / 0x40 * 0x40 + u % 0x40;
    assert v / 0x4_0000 == u / 0x40;
  }

  lemma ScalarInverse(c: char, tail: seq<byte>)
    ensures DecodeScalar(EncodeScalar(c) + tail) == Some((c, |EncodeScalar(c)|))
  {
    var v := c as int;
    if 0x800 <= v < 0x1_0000 {
      Split3(v);
    } else if 0x1_0000 <= v {
      Split4(v);
    }
  }

  lemma ScalarCanonical(bs: seq<byte>)
    requires DecodeScalar(bs).Some?
    ensures var (c, n) := DecodeScalar(bs).value; bs[..n] == EncodeScalar(c)
  {
    if 0xe0 <= bs[0] < 0xf0 {
      Canonical3(bs[0], bs[1], bs[2]);
    } else if 0xf0 <= bs[0] {
      Canonical4(bs[0], bs[1], bs[2], bs[3]);
    }
  }

  lemma Canonical3(a: int, b: int, c: int)
    requires IsContinuation(b) && IsContinuation(c)
    ensures var v := Join3(a, b, c);
      a == 0xe0 + v / 0x1000 && b == 0x80 + v / 0x40 % 0x40 && c == 0x80 + v % 0x40
  {
  }

  lemma Canonical4(a: int, b: int, c: int, d: int)
    requires IsContinuation(b) && IsContinuation(c) && IsContinuation(d)
    ensures var v := Join4(a, b, c, d);
      && a == 0xf0 + v / 0x4_0000 && b == 0x80 + v / 0x1000 % 0x40
      && c == 0x80 + v / 0x40 % 0x40 && d == 0x80 + v % 0x40
  {
    var v, w := Join4(a, b, c, d), (a - 0xf0) * 0x1000 + (b - 0x80) * 0x40 + (c - 0x80);
    assert v / 0x40 == w && v % 0x40 == d - 0x80;
    assert w / 0x40 == (a - 0xf0) * 0x40 + (b - 0x80) && w % 0x40 == c - 0x80;
    assert v / 0x1000 == w / 0x40;
    assert v / 0x4_0000 == a - 0xf0;
  }

  lemma {:induction false} DecodeEncode(s: string)
    ensures Decode(Encode(s)) == Some(s)
  {
    hide EncodeScalar, DecodeScalar;
    if s != [] {
      ScalarInverse(s[0], Encode(s[1..]));
      assert Encode(s)[|EncodeScalar(s[0])|..] == Encode(s[1..]);
      DecodeEncode(s[1..]);
      assert s == [s[0]] + s[1..];
    }
  }

  lemma {:induction false} EncodeDecode(bs: seq<byte>)
    requires Decode(bs).Some?
    ensures Encode(Decode(bs).value) == bs
    decreases |bs|
  {
    hide EncodeScalar, DecodeScalar;
    if bs != [] {
      var (c, n) := DecodeScalar(bs).value;
      ScalarCanonical(bs);
      EncodeDecode(bs[n..]);
      assert Decode(bs).value == [c] + Decode(bs[n..]).value;
    }
  }

  lemma {:induction false} EncodeConcat(s: string, t: string)
    ensures Encode(s + t) == Encode(s) + Encode(t)
  {
    hide EncodeScalar;
    if s == [] {
      assert s + t == t;
    } else {
      assert (s + t)[0] == s[0] && (s + t)[1..] == s[1..] + t;
      EncodeConcat(s[1..], t);
      var head, rest, last := EncodeScalar(s[0]), Encode(s[1..]), Encode(t);
      assert head + (rest + last) == (head + rest) + last;
    }
  }
}
