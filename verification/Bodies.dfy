/**
  Which bodies and names are accepted, in full and in one place: what trimming leaves, what each field may
  hold, and that nothing else is changed.
 */
module Bodies {
  import opened Prelude
  import opened Identity
  import opened Floats
  import opened Model
  import Utf8

  ghost predicate AllBlank(s: string) {
    forall k :: 0 <= k < |s| ==> IsWhitespace(s[k])
  }

  /** Trimming takes white space off both ends, and only that. */
  lemma {:induction false} TrimIs(s: string) returns (before: string, after: string)
    ensures AllBlank(before) && AllBlank(after) && s == before + (Trim(s) + after)
    ensures Trim(s) != [] ==> !IsWhitespace(Trim(s)[0]) && !IsWhitespace(Trim(s)[|Trim(s)| - 1])
  {
    before := StartIs(s);
    after := EndIs(TrimStart(s));
  }

  lemma {:induction false} StartIs(s: string) returns (before: string)
    ensures AllBlank(before) && s == before + TrimStart(s)
  {
    if s != [] && IsWhitespace(s[0]) {
      var more := StartIs(s[1..]);
      before := [s[0]] + more;
      assert s == [s[0]] + s[1..];
    } else {
      before := [];
    }
  }

  lemma {:induction false} EndIs(s: string) returns (after: string)
    ensures AllBlank(after) && s == TrimEnd(s) + after
  {
    if s != [] && IsWhitespace(s[|s| - 1]) {
      var more := EndIs(s[..|s| - 1]);
      after := more + [s[|s| - 1]];
      assert s == s[..|s| - 1] + [s[|s| - 1]];
    } else {
      after := [];
    }
  }

  /** The white space of the Unicode standard: these twenty-five characters. */
  lemma WhiteIs(c: char)
    ensures IsWhitespace(c) <==> c as int in {
        0x9, 0xa, 0xb, 0xc, 0xd, 0x20, 0x85, 0xa0, 0x1680, 0x2000, 0x2001, 0x2002, 0x2003, 0x2004, 0x2005, 0x2006,
        0x2007, 0x2008, 0x2009, 0x200a, 0x2028, 0x2029, 0x202f, 0x205f, 0x3000}
  {
  }

  /** Its format characters, by the first and the last of each stretch. */
  const FORMAT: seq<(int, int)> := [
    (0xad, 0xad), (0x600, 0x605), (0x61c, 0x61c), (0x6dd, 0x6dd), (0x70f, 0x70f), (0x890, 0x891), (0x8e2, 0x8e2),
    (0x180e, 0x180e), (0x200b, 0x200f), (0x202a, 0x202e), (0x2060, 0x2064), (0x2066, 0x206f), (0xfeff, 0xfeff),
    (0xfff9, 0xfffb), (0x110bd, 0x110bd), (0x110cd, 0x110cd), (0x13430, 0x1343f), (0x1bca0, 0x1bca3),
    (0x1d173, 0x1d17a), (0xe0001, 0xe0001), (0xe0020, 0xe007f)]

  lemma FormatIs(c: char)
    ensures IsFormat(c) <==> exists k :: 0 <= k < |FORMAT| && FORMAT[k].0 <= c as int <= FORMAT[k].1
  {
    if IsFormat(c) {
      var v := c as int;
      var k :=
        if v <= 0xad then 0 else if v <= 0x605 then 1 else if v <= 0x61c then 2 else if v <= 0x6dd then 3
        else if v <= 0x70f then 4 else if v <= 0x891 then 5 else if v <= 0x8e2 then 6 else if v <= 0x180e then 7
        else if v <= 0x200f then 8 else if v <= 0x202e then 9 else if v <= 0x2064 then 10 else if v <= 0x206f then 11
        else if v <= 0xfeff then 12 else if v <= 0xfffb then 13 else if v <= 0x110bd then 14 else if v <= 0x110cd then 15
        else if v <= 0x1343f then 16 else if v <= 0x1bca3 then 17 else if v <= 0x1d17a then 18
        else if v <= 0xe0001 then 19 else 20;
      assert FORMAT[k].0 <= v <= FORMAT[k].1;
    }
  }

  /** A double whose floor a 64-bit integer, or the one value past its end, can hold. */
  predicate Floors(f: F64) {
    IsFinite(f) && -9223372036854775808.0 <= Value(f) < 9223372036854775809.0
  }

  /** A place has a block exactly when every coordinate floors, and then the block is the floors, capped at the end. */
  lemma LocatedIff(dimension: string, x: F64, y: F64, z: F64)
    ensures var key := LocationOf(dimension, x, y, z);
      && (key.Some? <==> Floors(x) && Floors(y) && Floors(z))
      && (key.Some? ==>
           && key.value.dimensionId == dimension
           && InBlock(x, key.value.blockX) && InBlock(y, key.value.blockY) && InBlock(z, key.value.blockZ))
  {
  }

  /** The coordinate is in the unit interval at this integer, or past the last one. */
  predicate InBlock(f: F64, n: i64) {
    IsFinite(f) && n as real <= Value(f) && (Value(f) < n as real + 1.0 || n == I64_MAX)
  }

  /** Text a client may show: no control character, no section sign, no format character. */
  ghost predicate Shows(s: string) {
    forall k :: 0 <= k < |s| ==>
      var v := s[k] as int;
      !(v < 0x20 || 0x7f <= v <= 0x9f) && v != 0xa7 && !IsFormat(s[k])
  }

  /** Lower-case letters, digits and these marks, at least one of them. */
  ghost predicate Spelled(s: string, marks: string) {
    s != [] && forall k :: 0 <= k < |s| ==> 'a' <= s[k] <= 'z' || '0' <= s[k] <= '9' || s[k] in marks
  }

  /** A path, or a namespace and a path around a colon, of at most 256 bytes. */
  ghost predicate NamesDimension(s: string) {
    && |Utf8.Encode(s)| <= 256
    && (Spelled(s, "_-./") ||
        exists n :: 0 <= n < |s| && s[n] == ':' && Spelled(s[..n], "_-.") && Spelled(s[n + 1..], "_-./"))
  }

  /** Nothing, or an item of the game's own namespace. */
  ghost predicate NamesIcon(s: string) {
    s == [] || (|s| > 10 && s[..10] == "minecraft:" && Spelled(s[10..], "_-./"))
  }

  predicate Within(f: F64, bound: real) {
    IsFinite(f) && -bound <= Value(f) <= bound
  }

  lemma {:induction false} FirstColon(s: string, n: nat)
    requires n < |s| && s[n] == ':' && forall k :: 0 <= k < n ==> s[k] != ':'
    ensures ColonIndex(s) == n
  {
    if n > 0 {
      FirstColon(s[1..], n - 1);
    }
  }

  lemma {:induction false} NoColon(s: string)
    requires forall k :: 0 <= k < |s| ==> s[k] != ':'
    ensures ColonIndex(s) == |s|
  {
    if s != [] {
      NoColon(s[1..]);
    }
  }

  lemma {:induction false} ColonAt(s: string)
    ensures ColonIndex(s) < |s| ==> s[ColonIndex(s)] == ':'
    ensures forall k :: 0 <= k < ColonIndex(s) ==> s[k] != ':'
  {
    if s != [] && s[0] != ':' {
      ColonAt(s[1..]);
    }
  }

  lemma PartIs(s: string)
    ensures ValidResourcePart(s, true) <==> Spelled(s, "_-./")
    ensures ValidResourcePart(s, false) <==> Spelled(s, "_-.")
  {
  }

  lemma DimensionIs(s: string)
    ensures ValidDimensionId(s) <==> NamesDimension(s)
  {
    hide ValidResourcePart, Utf8.Encode, ColonIndex;
    ColonAt(s);
    PartIs(s);
    var c := ColonIndex(s);
    if c < |s| {
      PartIs(s[..c]);
      PartIs(s[c + 1..]);
      assert s[c] !in "_-./";
      if n :| 0 <= n < |s| && s[n] == ':' && Spelled(s[..n], "_-.") && Spelled(s[n + 1..], "_-./") {
        assert forall k :: 0 <= k < n ==> s[k] == s[..n][k] && s[k] != ':';
        FirstColon(s, n);
      }
    }
  }

  lemma TextIs(s: string, most: nat)
    requires IsTrimmed(s)
    ensures ValidDisplayText(s, most) <==> 1 <= |s| <= most && Shows(s)
  {
    TrimFixed(s);
    hide Trim;
  }

  lemma IconIs(s: string)
    ensures NormalizeIconItemId(s) == if NamesIcon(Trim(s)) then Some(Trim(s)) else None
  {
    hide Trim;
    var t := Trim(s);
    if |t| >= 10 {
      assert VANILLA <= t <==> t[..10] == "minecraft:";
    }
  }

  lemma LabelIs(s: string)
    ensures NormalizeMarkerLabel(s) == if |Trim(s)| <= 3 && Shows(Trim(s)) then Some(Trim(s)) else None
  {
    hide Trim, ValidDisplayText;
    TextIs(Trim(s), 3);
  }

  /**
    What an accepted body is: the proposed one with its four texts trimmed and nothing else changed, a
    name of 1 to 64 characters that may be shown, a dimension, coordinates inside the world, a colour of
    full opacity, no icon or one of the game's, and a label of at most 3 characters that may be shown.
   */
  lemma ValidateIff(draft: Body, b: Body)
    ensures Validate(draft) == Some(b) <==>
      && b == draft.(name := Trim(draft.name), dimensionId := Trim(draft.dimensionId),
                     iconItemId := Trim(draft.iconItemId), markerLabel := Trim(draft.markerLabel))
      && 1 <= |b.name| <= 64 && Shows(b.name)
      && NamesDimension(b.dimensionId)
      && Within(b.x, 29999984.0) && Within(b.y, 30000000.0) && Within(b.z, 29999984.0)
      && b.color + 0x1_0000_0000 >= 0xff00_0000 && b.color < 0
      && NamesIcon(b.iconItemId)
      && |b.markerLabel| <= 3 && Shows(b.markerLabel)
  {
    hide Trim, ValidDisplayText, ValidDimensionId, NormalizeIconItemId, NormalizeMarkerLabel, Shows, NamesDimension,
      NamesIcon, Floats.Value;
    TextIs(Trim(draft.name), MAX_NAME_CODE_POINTS);
    DimensionIs(Trim(draft.dimensionId));
    IconIs(draft.iconItemId);
    LabelIs(draft.markerLabel);
  }

  /** What an accepted publisher name is: trimmed, 1 to 64 characters that may be shown. */
  lemma PublisherNameIff(s: string)
    ensures ValidPublisherName(s) <==> 1 <= |Trim(s)| <= 64 && Shows(Trim(s))
  {
    hide Trim, ValidDisplayText;
    TextIs(Trim(s), MAX_PUBLISHER_NAME_CODE_POINTS);
  }
}
