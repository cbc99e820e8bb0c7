/**
  The capability offer a client hides in its greeting: the base64url decoder with its unmasked
  32-bit accumulator (section 5 of RFC 4648), and the envelope it carries.
 */
module Offer {
  import opened Prelude
  import opened Wire

  const NEGOTIATION_VERSION: byte := 2
  const MAX_CORRECTION_PROFILES := 8
  const MAX_CAPABILITIES := 32
  const PAD: byte := 0x3d

  type sextet = n: int | 0 <= n < 64

  // The alphabet.

  function AlphabetByte(n: sextet): byte {
    if n < 26 then 0x41 + n
    else if n < 52 then 0x61 + n - 26
    else if n < 62 then 0x30 + n - 52
    else if n == 62 then 0x2d
    else 0x5f
  }

  function SextetOf(b: byte): Option<sextet> {
    if 0x41 <= b <= 0x5a then Some(b - 0x41)
    else if 0x61 <= b <= 0x7a then Some(b - 0x61 + 26)
    else if 0x30 <= b <= 0x39 then Some(b - 0x30 + 52)
    else if b == 0x2d then Some(62)
    else if b == 0x5f then Some(63)
    else None
  }

  lemma AlphabetInverse(n: sextet)
    ensures SextetOf(AlphabetByte(n)) == Some(n) && AlphabetByte(n) != PAD
  {
  }

  /** The encoding of the standard: three bytes make four letters, and a short last group fewer. */
  function Base64Url(bytes: seq<byte>): seq<byte> {
    if |bytes| == 0 then []
    else if |bytes| == 1 then
      [AlphabetByte(bytes[0] / 4), AlphabetByte(bytes[0] % 4 * 16)]
    else if |bytes| == 2 then
      [AlphabetByte(bytes[0] / 4), AlphabetByte(bytes[0] % 4 * 16 + bytes[1] / 16),
       AlphabetByte(bytes[1] % 16 * 4)]
    else
      [AlphabetByte(bytes[0] / 4), AlphabetByte(bytes[0] % 4 * 16 + bytes[1] / 16),
       AlphabetByte(bytes[1] % 16 * 4 + bytes[2] / 64), AlphabetByte(bytes[2] % 64)] + Base64Url(bytes[3..])
  }

  // The decoder.

  /** The decoder between letters: the accumulator as the machine holds it, never masked. */
  datatype State = State(accumulator: nat, bits: nat, out: seq<byte>) {
    predicate Valid() {
      accumulator < TWO_32 && bits < 8
    }
  }

  function Shift(bits: nat): (p: nat)
    ensures p >= 1
  {
    if bits == 0 then 1 else 2 * Shift(bits - 1)
  }

  function Feed(s: State, value: sextet): (t: State)
    requires s.Valid()
    ensures t.Valid()
  {
    var accumulator := (s.accumulator * 64 + value) % TWO_32;
    var bits := s.bits + 6;
    if bits >= 8 then State(accumulator, bits - 8, s.out + [accumulator / Shift(bits - 8) % 256])
    else State(accumulator, bits, s.out)
  }

  /** Feeding a text letter by letter; padding is skipped wherever it stands. */
  function FeedAll(s: State, text: seq<byte>): Option<State>
    requires s.Valid()
    decreases |text|
  {
    if text == [] then Some(s)
    else if text[0] == PAD then FeedAll(s, text[1..])
    else
      var value :- SextetOf(text[0]);
      FeedAll(Feed(s, value), text[1..])
  }

  function Base64Decode(text: seq<byte>): Option<seq<byte>> {
    var s :- FeedAll(State(0, 0, []), text);
    Some(s.out)
  }

  lemma {:induction false} FeedAllSplit(s: State, a: seq<byte>, b: seq<byte>)
    requires s.Valid() && FeedAll(s, a).Some? && FeedAll(s, a).value.Valid()
    ensures FeedAll(s, a + b) == FeedAll(FeedAll(s, a).value, b)
    decreases |a|
  {
    hide Feed, SextetOf;
    if a == [] {
      assert a + b == b;
    } else {
      assert (a + b)[0] == a[0] && (a + b)[1..] == a[1..] + b;
      if a[0] == PAD {
        FeedAllSplit(s, a[1..], b);
      } else {
        FeedAllSplit(Feed(s, SextetOf(a[0]).value), a[1..], b);
      }
    }
  }

  lemma FeedLetter(s: State, n: sextet, rest: seq<byte>)
    requires s.Valid()
    ensures FeedAll(s, [AlphabetByte(n)] + rest) == FeedAll(Feed(s, n), rest)
  {
    hide Feed, SextetOf, AlphabetByte;
    AlphabetInverse(n);
    assert ([AlphabetByte(n)] + rest)[1..] == rest;
  }

  /** The letters decoded so far, whatever the accumulator still holds above the pending bits. */
  predicate Pending(s: State, bits: nat, low: nat, out: seq<byte>) {
    s.Valid() && s.bits == bits && s.out == out && s.accumulator % Shift(bits) == low
  }

  lemma Divide4(a: int, q: int, r: int)
    requires a == q * 4 + r && 0 <= r < 4
    ensures a / 4 == q && a % 4 == r
  {
  }

  lemma Divide16(a: int, q: int, r: int)
    requires a == q * 16 + r && 0 <= r < 16
    ensures a / 16 == q && a % 16 == r
  {
  }

  lemma Divide64(a: int, q: int, r: int)
    requires a == q * 64 + r && 0 <= r < 64
    ensures a / 64 == q && a % 64 == r
  {
  }

  lemma Divide256(a: int, q: int, r: int)
    requires a == q * 256 + r && 0 <= r < 256
    ensures a / 256 == q && a % 256 == r
  {
  }

  /** Wrapping to 32 bits does not disturb the twelve low bits. */
  lemma LowBits(accumulator: nat, n: sextet) returns (k: nat)
    ensures (accumulator * 64 + n) % TWO_32 == k * 0x1000 + (accumulator % 64 * 64 + n)
  {
    var x, low := accumulator * 64 + n, accumulator % 64 * 64 + n;
    assert x == accumulator / 64 * 0x1000 + low;
    var q := x / TWO_32;
    assert x % TWO_32 == x - q * 0x1_0000_0000;
    var j := accumulator / 64 - q * 0x10_0000;
    assert x % TWO_32 == j * 0x1000 + low;
    assert j >= 0;
    k := j;
  }

  lemma FirstNumbers(accumulator: nat, n: sextet)
    ensures (accumulator * 64 + n) % TWO_32 % 64 == n
  {
    var k := LowBits(accumulator, n);
    Divide64((accumulator * 64 + n) % TWO_32, k * 64 + accumulator % 64, n);
  }

  lemma SecondNumbers(accumulator: nat, n: sextet)
    ensures var x := (accumulator * 64 + n) % TWO_32;
      x / 16 % 256 == accumulator % 64 * 4 + n / 16 && x % 16 == n % 16
  {
    var x, h := (accumulator * 64 + n) % TWO_32, accumulator % 64;
    var k := LowBits(accumulator, n);
    Divide16(x, k * 256 + (h * 4 + n / 16), n % 16);
    Divide256(x / 16, k, h * 4 + n / 16);
  }

  lemma ThirdNumbers(accumulator: nat, n: sextet)
    ensures var x := (accumulator * 64 + n) % TWO_32;
      x / 4 % 256 == accumulator % 16 * 16 + n / 4 && x % 4 == n % 4
  {
    var x, h := (accumulator * 64 + n) % TWO_32, accumulator % 64;
    var k := LowBits(accumulator, n);
    Divide16(accumulator, accumulator / 64 * 4 + h / 16, h % 16);
    Divide4(x, k * 1024 + h * 16 + n / 4, n % 4);
    Divide256(x / 4, k * 4 + h / 16, h % 16 * 16 + n / 4);
  }

  lemma FourthNumbers(accumulator: nat, n: sextet)
    ensures (accumulator * 64 + n) % TWO_32 % 256 == accumulator % 4 * 64 + n
  {
    var x, h := (accumulator * 64 + n) % TWO_32, accumulator % 64;
    var k := LowBits(accumulator, n);
    Divide4(accumulator, accumulator / 64 * 16 + h / 4, h % 4);
    Divide256(x, k * 16 + h / 4, h % 4 * 64 + n);
  }

  lemma FeedFirst(s: State, n: sextet, out: seq<byte>)
    requires Pending(s, 0, 0, out)
    ensures Pending(Feed(s, n), 6, n, out)
  {
    Shifts();
    hide Shift;
    FirstNumbers(s.accumulator, n);
  }

  lemma FeedSecond(s: State, low: nat, n: sextet, out: seq<byte>)
    requires Pending(s, 6, low, out) && low < 64
    ensures Pending(Feed(s, n), 4, n % 16, out + [low * 4 + n / 16])
  {
    Shifts();
    hide Shift;
    SecondNumbers(s.accumulator, n);
  }

  lemma FeedThird(s: State, low: nat, n: sextet, out: seq<byte>)
    requires Pending(s, 4, low, out) && low < 16
    ensures Pending(Feed(s, n), 2, n % 4, out + [low * 16 + n / 4])
  {
    Shifts();
    hide Shift;
    ThirdNumbers(s.accumulator, n);
  }

  lemma FeedFourth(s: State, low: nat, n: sextet, out: seq<byte>)
    requires Pending(s, 2, low, out) && low < 4
    ensures Pending(Feed(s, n), 0, 0, out + [low * 64 + n])
  {
    Shifts();
    hide Shift;
    FourthNumbers(s.accumulator, n);
  }

  lemma Shifts()
    ensures Shift(0) == 1 && Shift(2) == 4 && Shift(4) == 16 && Shift(6) == 64
  {
    assert Shift(4) == 2 * 2 * Shift(2);
  }

  lemma FeedPair(s: State, a: byte, n: sextet)
    requires Pending(s, 0, 0, s.out) && n / 16 == a % 4
    ensures Pending(Feed(Feed(s, a / 4), n), 4, n % 16, s.out + [a])
  {
    hide Feed, Shift;
    FeedFirst(s, a / 4, s.out);
    FeedSecond(Feed(s, a / 4), a / 4, n, s.out);
  }

  lemma FeedTriple(s: State, a: byte, b: byte, n: sextet)
    requires Pending(s, 0, 0, s.out) && n / 4 == b % 16
    ensures Pending(Feed(Feed(Feed(s, a / 4), a % 4 * 16 + b / 16), n), 2, n % 4, s.out + [a] + [b])
  {
    hide Feed, Shift;
    FeedPair(s, a, a % 4 * 16 + b / 16);
    FeedThird(Feed(Feed(s, a / 4), a % 4 * 16 + b / 16), b / 16, n, s.out + [a]);
  }

  lemma FeedGroup(s: State, a: byte, b: byte, c: byte)
    requires Pending(s, 0, 0, s.out)
    ensures Pending(Feed(Feed(Feed(Feed(s, a / 4), a % 4 * 16 + b / 16), b % 16 * 4 + c / 64), c % 64),
                    0, 0, s.out + [a] + [b] + [c])
  {
    hide Feed, Shift;
    FeedTriple(s, a, b, b % 16 * 4 + c / 64);
    FeedFourth(Feed(Feed(Feed(s, a / 4), a % 4 * 16 + b / 16), b % 16 * 4 + c / 64), c / 64, c % 64, s.out + [a] + [b]);
  }

  lemma {:induction false} FeedGroups(s: State, bytes: seq<byte>)
    requires Pending(s, 0, 0, s.out)
    ensures s.Valid()
    ensures FeedAll(s, Base64Url(bytes)).Some?
    ensures FeedAll(s, Base64Url(bytes)).value.out == s.out + bytes
    decreases |bytes|
  {
    hide Feed, AlphabetByte, Shift, FeedAll;
    if |bytes| == 0 {
      assert s.out + bytes == s.out;
      FeedNothing(s);
    } else if |bytes| == 1 {
      FeedPair(s, bytes[0], bytes[0] % 4 * 16);
      Letters2(s, bytes[0] / 4, bytes[0] % 4 * 16);
      assert s.out + bytes == s.out + [bytes[0]];
    } else if |bytes| == 2 {
      FeedTriple(s, bytes[0], bytes[1], bytes[1] % 16 * 4);
      Letters3(s, bytes[0] / 4, bytes[0] % 4 * 16 + bytes[1] / 16, bytes[1] % 16 * 4);
      assert s.out + bytes == s.out + [bytes[0]] + [bytes[1]];
    } else {
      var a, b, c := bytes[0], bytes[1], bytes[2];
      FeedGroup(s, a, b, c);
      Letters4(s, a / 4, a % 4 * 16 + b / 16, b % 16 * 4 + c / 64, c % 64, Base64Url(bytes[3..]));
      FeedGroups(Feed(Feed(Feed(Feed(s, a / 4), a % 4 * 16 + b / 16), b % 16 * 4 + c / 64), c % 64), bytes[3..]);
      assert s.out + bytes == s.out + [a] + [b] + [c] + bytes[3..];
    }
  }

  lemma FeedNothing(s: State)
    requires s.Valid()
    ensures FeedAll(s, []) == Some(s)
  {
  }

  lemma Letters2(s: State, a: sextet, b: sextet)
    requires s.Valid()
    ensures FeedAll(s, [AlphabetByte(a), AlphabetByte(b)]) == Some(Feed(Feed(s, a), b))
  {
    hide Feed, AlphabetByte, SextetOf;
    var x, y := AlphabetByte(a), AlphabetByte(b);
    assert [x, y] == [x] + [y] && [y] == [y] + [];
    FeedLetter(s, a, [y]);
    FeedLetter(Feed(s, a), b, []);
  }

  lemma Letters3(s: State, a: sextet, b: sextet, c: sextet)
    requires s.Valid()
    ensures FeedAll(s, [AlphabetByte(a), AlphabetByte(b), AlphabetByte(c)]) == Some(Feed(Feed(Feed(s, a), b), c))
  {
    hide Feed, AlphabetByte, SextetOf;
    var x, y, z := AlphabetByte(a), AlphabetByte(b), AlphabetByte(c);
    assert [x, y, z] == [x] + [y, z];
    FeedLetter(s, a, [y, z]);
    Letters2(Feed(s, a), b, c);
  }

  lemma Letters4(s: State, a: sextet, b: sextet, c: sextet, d: sextet, rest: seq<byte>)
    requires s.Valid()
    ensures FeedAll(s, [AlphabetByte(a), AlphabetByte(b), AlphabetByte(c), AlphabetByte(d)] + rest) ==
            FeedAll(Feed(Feed(Feed(Feed(s, a), b), c), d), rest)
  {
    hide Feed, AlphabetByte, SextetOf;
    var w, x, y, z := AlphabetByte(a), AlphabetByte(b), AlphabetByte(c), AlphabetByte(d);
    assert [w, x, y, z] + rest == [w] + ([x] + ([y] + ([z] + rest)));
    FeedLetter(s, a, [x] + ([y] + ([z] + rest)));
    FeedLetter(Feed(s, a), b, [y] + ([z] + rest));
    FeedLetter(Feed(Feed(s, a), b), c, [z] + rest);
    FeedLetter(Feed(Feed(Feed(s, a), b), c), d, rest);
  }

  /** Text that differs from `plain` only by padding bytes. */
  function Unpadded(text: seq<byte>): seq<byte> {
    if text == [] then []
    else if text[0] == PAD then Unpadded(text[1..])
    else [text[0]] + Unpadded(text[1..])
  }

  lemma {:induction false} PaddingIgnored(s: State, text: seq<byte>)
    requires s.Valid()
    ensures FeedAll(s, text) == FeedAll(s, Unpadded(text))
    decreases |text|
  {
    hide Feed, SextetOf;
    if text != [] {
      if text[0] == PAD {
        PaddingIgnored(s, text[1..]);
      } else {
        assert Unpadded(text)[1..] == Unpadded(text[1..]);
        if SextetOf(text[0]).Some? {
          PaddingIgnored(Feed(s, SextetOf(text[0]).value), text[1..]);
        }
      }
    }
  }

  /** Decoding inverts the standard encoding of every byte string, however it is padded. */
  lemma Base64Inverse(bytes: seq<byte>, text: seq<byte>)
    requires Unpadded(text) == Base64Url(bytes)
    ensures Base64Decode(text) == Some(bytes)
  {
    hide FeedAll, Base64Url, Unpadded;
    var start := State(0, 0, []);
    PaddingIgnored(start, text);
    FeedGroups(start, bytes);
    assert [] + bytes == bytes;
  }

  method DecodeBase64(text: seq<byte>) returns (r: Option<seq<byte>>)
    ensures r == Base64Decode(text)
  {
    hide Shift;
    var accumulator: nat, bits: nat, out: seq<byte> := 0, 0, [];
    for i := 0 to |text|
      invariant State(accumulator, bits, out).Valid()
      invariant FeedAll(State(0, 0, []), text) == FeedAll(State(accumulator, bits, out), text[i..])
    {
      var byte := text[i];
      assert text[i..][1..] == text[i + 1..];
      if byte != PAD {
        var value := SextetOf(byte);
        if value == None {
          return None;
        }
        accumulator := (accumulator * 64 + value.value) % TWO_32;
        bits := bits + 6;
        if bits >= 8 {
          bits := bits - 8;
          out := out + [accumulator / Shift(bits) % 256];
        }
      }
    }
    return Some(out);
  }

  // The envelope.

  datatype Capability = Capability(id: byte, version: byte)

  function CapabilityBytes(pairs: seq<Capability>): seq<byte> {
    if pairs == [] then [] else [pairs[0].id, pairs[0].version] + CapabilityBytes(pairs[1..])
  }

  /** The version-2 envelope: the profiles the client knows, then its capabilities. */
  function Envelope(profiles: seq<byte>, pairs: seq<Capability>): seq<byte>
    requires |profiles| <= MAX_CORRECTION_PROFILES && |pairs| <= MAX_CAPABILITIES
  {
    [NEGOTIATION_VERSION, |profiles|] + (profiles + ([|pairs|] + CapabilityBytes(pairs)))
  }

  predicate WellFormed(profiles: seq<byte>, pairs: seq<Capability>) {
    1 <= |profiles| <= MAX_CORRECTION_PROFILES && |pairs| <= MAX_CAPABILITIES
  }

  ghost predicate DistinctIds(offered: seq<Capability>) {
    forall i, j :: 0 <= i < j < |offered| ==> offered[i].id != offered[j].id
  }

  ghost predicate Offered(pairs: seq<Capability>, offered: seq<Capability>) {
    forall i :: 0 <= i < |offered| ==> offered[i] in pairs && offered[i].version > 0
  }

  ghost predicate Covers(offered: seq<Capability>, p: Capability) {
    exists i :: 0 <= i < |offered| && offered[i].id == p.id && p.version <= offered[i].version
  }

  ghost predicate CoversAll(pairs: seq<Capability>, offered: seq<Capability>) {
    forall p :: p in pairs && p.version > 0 ==> Covers(offered, p)
  }

  /** Each offered id once, at the greatest version offered for it; version zero offers nothing. */
  ghost predicate Strongest(pairs: seq<Capability>, offered: seq<Capability>) {
    DistinctIds(offered) && Offered(pairs, offered) && CoversAll(pairs, offered)
  }

  lemma {:induction false} CapabilityLength(pairs: seq<Capability>)
    ensures |CapabilityBytes(pairs)| == 2 * |pairs|
  {
    if pairs != [] {
      CapabilityLength(pairs[1..]);
    }
  }

  /** The list of pairs that a run of bytes spells. */
  function PairsOf(bytes: seq<byte>): (pairs: seq<Capability>)
    requires |bytes| % 2 == 0
    ensures CapabilityBytes(pairs) == bytes
  {
    if bytes == [] then [] else [Capability(bytes[0], bytes[1])] + PairsOf(bytes[2..])
  }

  lemma RaiseKeepsCover(pairs: seq<Capability>, offered: seq<Capability>, i: nat, c: Capability)
    requires i < |offered| && offered[i].id == c.id && CoversAll(pairs, offered)
    ensures CoversAll(pairs + [c], offered[i := c.(version := Max(offered[i].version, c.version))])
  {
    var r := offered[i := c.(version := Max(offered[i].version, c.version))];
    forall p | p in pairs + [c] && p.version > 0
      ensures Covers(r, p)
    {
      if p == c {
        assert r[i].id == p.id && p.version <= r[i].version;
      } else {
        assert Covers(offered, p);
        var j :| 0 <= j < |offered| && offered[j].id == p.id && p.version <= offered[j].version;
        assert r[j].id == p.id && p.version <= r[j].version;
      }
    }
  }

  lemma AppendKeepsCover(pairs: seq<Capability>, offered: seq<Capability>, c: Capability)
    requires CoversAll(pairs, offered)
    ensures CoversAll(pairs + [c], offered + [c])
  {
    var r := offered + [c];
    forall p | p in pairs + [c] && p.version > 0
      ensures Covers(r, p)
    {
      if p == c {
        assert r[|offered|] == p;
      } else {
        assert Covers(offered, p);
        var j :| 0 <= j < |offered| && offered[j].id == p.id && p.version <= offered[j].version;
        assert r[j] == offered[j];
      }
    }
  }

  /** Folds one pair into what was offered so far: raises its id's version, or appends it. */
  method Fold(offered: seq<Capability>, c: Capability, ghost pairs: seq<Capability>) returns (r: seq<Capability>)
    requires Strongest(pairs, offered)
    ensures Strongest(pairs + [c], r)
  {
    hide CoversAll;
    if c.version == 0 {
      assert CoversAll(pairs + [c], offered) by { ZeroKeepsCover(pairs, offered, c); }
      return offered;
    }
    for i := 0 to |offered|
      invariant forall j :: 0 <= j < i ==> offered[j].id != c.id
    {
      if offered[i].id == c.id {
        r := offered[i := c.(version := Max(offered[i].version, c.version))];
        RaiseKeepsCover(pairs, offered, i, c);
        assert r[i] == offered[i] || r[i] == c;
        return;
      }
    }
    AppendKeepsCover(pairs, offered, c);
    return offered + [c];
  }

  lemma ZeroKeepsCover(pairs: seq<Capability>, offered: seq<Capability>, c: Capability)
    requires c.version == 0 && CoversAll(pairs, offered)
    ensures CoversAll(pairs + [c], offered)
  {
  }

  method ReadCapability(r: Reader) returns (c: Option<Capability>)
    requires r.Valid()
    modifies r
    ensures r.Valid()
    ensures c.Some? <==> 2 <= old(|r.Rest()|)
    ensures c.Some? ==> [c.value.id, c.value.version] == old(r.Rest())[..2] && r.Rest() == old(r.Rest())[2..]
  {
    var id :- r.U8();
    var version :- r.U8();
    return Some(Capability(id, version));
  }

  /**
    Reads the capability pairs: every id once, at its greatest positive version; `None` when the
    bytes run out.
   */
  method ReadCapabilities(r: Reader, count: nat) returns (offered: Option<seq<Capability>>)
    requires r.Valid()
    modifies r
    ensures r.Valid()
    ensures offered.Some? <==> 2 * count <= old(|r.Rest()|)
    ensures offered.Some? ==> r.Rest() == old(r.Rest())[2 * count..]
    ensures offered.Some? ==> Strongest(PairsOf(old(r.Rest())[..2 * count]), offered.value)
  {
    hide PairsOf, CapabilityBytes;
    ghost var all := r.Rest();
    var list: seq<Capability> := [];
    ghost var pairs: seq<Capability> := [];
    assert CapabilityBytes(pairs) == [] by { CapabilityLength([]); }
    assert Strongest(pairs, list);
    hide Strongest;
    for i := 0 to count
      invariant r.Valid() && 2 * i <= |all| && r.Rest() == all[2 * i..]
      invariant CapabilityBytes(pairs) == all[..2 * i]
      invariant Strongest(pairs, list)
    {
      var c :- ReadCapability(r);
      list := Fold(list, c, pairs);
      CapabilitySnoc(pairs, c);
      assert all[..2 * (i + 1)] == all[..2 * i] + [c.id, c.version];
      pairs := pairs + [c];
    }
    PairsUnique(pairs);
    return Some(list);
  }

  lemma {:induction false} CapabilitySnoc(pairs: seq<Capability>, p: Capability)
    ensures CapabilityBytes(pairs + [p]) == CapabilityBytes(pairs) + [p.id, p.version]
  {
    if pairs == [] {
      assert pairs + [p] == [p];
    } else {
      assert (pairs + [p])[1..] == pairs[1..] + [p];
      CapabilitySnoc(pairs[1..], p);
    }
  }

  lemma {:induction false} PairsUnique(pairs: seq<Capability>)
    ensures |CapabilityBytes(pairs)| % 2 == 0
    ensures PairsOf(CapabilityBytes(pairs)) == pairs
  {
    CapabilityLength(pairs);
    if pairs != [] {
      PairsUnique(pairs[1..]);
      assert CapabilityBytes(pairs)[2..] == CapabilityBytes(pairs[1..]);
    }
  }

  /** The profiles and pairs an envelope carries; `None` for anything that is not one envelope. */
  function OpenEnvelope(bytes: seq<byte>): (r: Option<(seq<byte>, seq<Capability>)>)
    ensures r.Some? ==> WellFormed(r.value.0, r.value.1) && bytes == Envelope(r.value.0, r.value.1)
  {
    var (version, bs1) :- TakeU8(bytes);
    if version != NEGOTIATION_VERSION then None
    else
      var (profileCount, bs2) :- TakeU8(bs1);
      if profileCount < 1 || profileCount > MAX_CORRECTION_PROFILES then None
      else
        var (profiles, bs3) :- TakeBytes(bs2, profileCount);
        var pairs :- OpenPairs(bs3);
        assert bytes == [version, profileCount] + bs2;
        Some((profiles, pairs))
  }

  function OpenPairs(bytes: seq<byte>): (r: Option<seq<Capability>>)
    ensures r.Some? ==> |r.value| <= MAX_CAPABILITIES && bytes == [|r.value|] + CapabilityBytes(r.value)
  {
    var (count, body) :- TakeU8(bytes);
    if count > MAX_CAPABILITIES || |body| != 2 * count then None
    else
      CapabilityLength(PairsOf(body));
      Some(PairsOf(body))
  }

  lemma OpenInverse(profiles: seq<byte>, pairs: seq<Capability>)
    requires WellFormed(profiles, pairs)
    ensures OpenEnvelope(Envelope(profiles, pairs)) == Some((profiles, pairs))
  {
    hide CapabilityBytes, PairsOf;
    var bytes := Envelope(profiles, pairs);
    var body := [|pairs|] + CapabilityBytes(pairs);
    assert bytes[1..] == [|profiles|] + (profiles + body);
    assert bytes[1..][1..] == profiles + body;
    assert (profiles + body)[..|profiles|] == profiles && (profiles + body)[|profiles|..] == body;
    assert body[1..] == CapabilityBytes(pairs);
    CapabilityLength(pairs);
    PairsUnique(pairs);
  }

  method SkipProfiles(r: Reader, count: nat) returns (ok: bool)
    requires r.Valid()
    modifies r
    ensures r.Valid()
    ensures ok <==> TakeBytes(old(r.Rest()), count).Some?
    ensures ok ==> r.Rest() == old(r.Rest())[count..]
  {
    ghost var all := r.Rest();
    for i := 0 to count
      invariant r.Valid() && i <= |all| && r.Rest() == all[i..]
    {
      var profile := r.U8();
      if profile == None {
        return false;
      }
    }
    return true;
  }

  /** What an opened list offers; anything structurally wrong offers nothing. */
  ghost predicate UnderstoodPairs(pairs: Option<seq<Capability>>, offered: seq<Capability>) {
    match pairs
    case None => offered == []
    case Some(list) => Strongest(list, offered)
  }

  ghost predicate Understood(envelope: Option<(seq<byte>, seq<Capability>)>, offered: seq<Capability>) {
    match envelope
    case None => offered == []
    case Some((_, pairs)) => Strongest(pairs, offered)
  }

  method ReadPairs(r: Reader) returns (offered: seq<Capability>)
    requires r.Valid()
    modifies r
    ensures UnderstoodPairs(OpenPairs(old(r.Rest())), offered)
  {
    hide Strongest, PairsOf;
    var count := r.U8();
    if count == None || count.value > MAX_CAPABILITIES {
      return [];
    }
    ghost var body := r.Rest();
    var list := ReadCapabilities(r, count.value);
    if list == None {
      return [];
    }
    var left := r.Remaining();
    if left != 0 {
      return [];
    }
    assert body[..2 * count.value as int] == body;
    return list.value;
  }

  method ReadEnvelope(bytes: seq<byte>) returns (offered: seq<Capability>)
    ensures Understood(OpenEnvelope(bytes), offered)
  {
    hide Strongest, OpenPairs;
    var r := new Reader(bytes);
    var version := r.U8();
    if version != Some(NEGOTIATION_VERSION) {
      return [];
    }
    var profileCount := r.U8();
    if profileCount == None || profileCount.value < 1 || profileCount.value > MAX_CORRECTION_PROFILES {
      return [];
    }
    var ok := SkipProfiles(r, profileCount.value);
    if !ok {
      return [];
    }
    offered := ReadPairs(r);
  }

  /** What a client offered. */
  method DecodeOffer(encoded: seq<byte>) returns (offered: seq<Capability>)
    ensures match Base64Decode(encoded)
      case None => offered == []
      case Some(bytes) => Understood(OpenEnvelope(bytes), offered)
  {
    hide Base64Decode, OpenEnvelope, Understood;
    var bytes := DecodeBase64(encoded);
    if bytes == None {
      return [];
    }
    offered := ReadEnvelope(bytes.value);
  }

  /**
    The whole path: a client that encodes a well-formed envelope, padded or not, is understood to
    offer exactly its capabilities, each once at its greatest version.
   */
  lemma OfferUnderstood(profiles: seq<byte>, pairs: seq<Capability>, text: seq<byte>)
    requires WellFormed(profiles, pairs) && Unpadded(text) == Base64Url(Envelope(profiles, pairs))
    ensures Base64Decode(text).Some? && OpenEnvelope(Base64Decode(text).value) == Some((profiles, pairs))
  {
    hide Base64Decode, Base64Url, Unpadded, Envelope, OpenEnvelope;
    Base64Inverse(Envelope(profiles, pairs), text);
    OpenInverse(profiles, pairs);
  }
}
