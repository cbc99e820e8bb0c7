/** The waypoint, the block it occupies, and the rules every untrusted body passes through. */
module Model {
  import opened Prelude
  import opened Identity
  import opened Floats
  import Utf8

  const MAX_NAME_CODE_POINTS := 64
  const MAX_PUBLISHER_NAME_CODE_POINTS := 64
  const MAX_LABEL_CODE_POINTS := 3
  const MAX_HORIZONTAL_COORDINATE := 29999984.0
  const MAX_ABSOLUTE_COORDINATE := 30000000.0

  datatype Kind = Normal | Death

  /** What a client proposes: the part of a point that a create or an update supplies. */
  datatype Body = Body(
    name: string,
    dimensionId: string,
    x: F64,
    y: F64,
    z: F64,
    color: i32,
    kind: Kind,
    iconItemId: string,
    markerLabel: string)

  /** One server-owned point. */
  datatype Waypoint = Waypoint(
    id: Id,
    publisherId: Id,
    publisherName: string,
    body: Body,
    createdAtMs: i64,
    revision: i64)

  /** The block a point sits in. */
  datatype LocationKey = LocationKey(dimensionId: string, blockX: i64, blockY: i64, blockZ: i64)

  function LocationOf(dimensionId: string, x: F64, y: F64, z: F64): Option<LocationKey> {
    match (FloorToI64(x), FloorToI64(y), FloorToI64(z))
    case (Some(blockX), Some(blockY), Some(blockZ)) => Some(LocationKey(dimensionId, blockX, blockY, blockZ))
    case _ => None
  }

  /** The block of a body; a body without one falls back to the origin of its dimension. */
  function BlockOf(b: Body): LocationKey {
    match LocationOf(b.dimensionId, b.x, b.y, b.z)
    case Some(key) => key
    case None => LocationKey(b.dimensionId, 0, 0, 0)
  }

  predicate IsWhitespace(c: char) {
    var v := c as int;
    || 0x9 <= v <= 0xd || v == 0x20 || v == 0x85 || v == 0xa0 || v == 0x1680
    || 0x2000 <= v <= 0x200a || v == 0x2028 || v == 0x2029 || v == 0x202f || v == 0x205f || v == 0x3000
  }

  predicate IsControl(c: char) {
    var v := c as int;
    v < 0x20 || 0x7f <= v < 0xa0
  }

  predicate IsFormat(c: char) {
    var v := c as int;
    || v == 0xad || 0x600 <= v <= 0x605 || v == 0x61c || v == 0x6dd || v == 0x70f
    || 0x890 <= v <= 0x891 || v == 0x8e2 || v == 0x180e || 0x200b <= v <= 0x200f
    || 0x202a <= v <= 0x202e || 0x2060 <= v <= 0x2064 || 0x2066 <= v <= 0x206f || v == 0xfeff
    || 0xfff9 <= v <= 0xfffb || v == 0x110bd || v == 0x110cd || 0x13430 <= v <= 0x1343f
    || 0x1bca0 <= v <= 0x1bca3 || 0x1d173 <= v <= 0x1d17a || v == 0xe0001 || 0xe0020 <= v <= 0xe007f
  }

  function TrimStart(s: string): (t: string)
    ensures |t| <= |s|
    ensures t != [] ==> !IsWhitespace(t[0])
    ensures s != [] && !IsWhitespace(s[0]) ==> t == s
  {
    if s != [] && IsWhitespace(s[0]) then TrimStart(s[1..]) else s
  }

  function TrimEnd(s: string): (t: string)
    ensures t <= s
    ensures t != [] ==> !IsWhitespace(t[|t| - 1])
    ensures s != [] && !IsWhitespace(s[|s| - 1]) ==> t == s
  {
    if s != [] && IsWhitespace(s[|s| - 1]) then TrimEnd(s[..|s| - 1]) else s
  }

  function Trim(s: string): (t: string)
    ensures t != [] ==> !IsWhitespace(t[0]) && !IsWhitespace(t[|t| - 1])
  {
    TrimEnd(TrimStart(s))
  }

  predicate IsTrimmed(s: string) {
    s == [] || (!IsWhitespace(s[0]) && !IsWhitespace(s[|s| - 1]))
  }

  lemma TrimFixed(s: string)
    requires IsTrimmed(s)
    ensures Trim(s) == s
  {
  }

  predicate Displayable(c: char) {
    !IsControl(c) && c as int != 0xa7 && !IsFormat(c)
  }

  predicate ValidDisplayText(s: string, maxCodePoints: nat) {
    Trim(s) != [] && |s| <= maxCodePoints && forall k :: 0 <= k < |s| ==> Displayable(s[k])
  }

  predicate ValidPublisherName(s: string) {
    ValidDisplayText(Trim(s), MAX_PUBLISHER_NAME_CODE_POINTS)
  }

  predicate IsLowerOrDigit(c: char) {
    'a' <= c <= 'z' || '0' <= c <= '9'
  }

  predicate ValidResourcePart(s: string, allowSlash: bool) {
    && s != []
    && forall k :: 0 <= k < |s| ==> IsLowerOrDigit(s[k]) || s[k] in "_-." || (allowSlash && s[k] == '/')
  }

  /** The position of the first `:`, or the length when there is none. */
  function ColonIndex(s: string): (n: nat)
    ensures n <= |s|
  {
    if s == [] || s[0] == ':' then 0 else 1 + ColonIndex(s[1..])
  }

  predicate ValidDimensionId(s: string) {
    && s != []
    && |Utf8.Encode(s)| <= 256
    && var n := ColonIndex(s);
       if n < |s| then ValidResourcePart(s[..n], false) && ValidResourcePart(s[n + 1..], true)
       else ValidResourcePart(s, true)
  }

  function NormalizeMarkerLabel(s: string): Option<string> {
    var trimmed := Trim(s);
    if !ValidDisplayText(trimmed, MAX_LABEL_CODE_POINTS) && trimmed != [] then None else Some(trimmed)
  }

  const VANILLA := "minecraft:"

  predicate ValidIconPath(s: string) {
    s != [] && forall k :: 0 <= k < |s| ==> IsLowerOrDigit(s[k]) || s[k] in "/._-"
  }

  function NormalizeIconItemId(s: string): Option<string> {
    var trimmed := Trim(s);
    if trimmed == [] then Some([])
    else if VANILLA <= trimmed && ValidIconPath(trimmed[|VANILLA|..]) then Some(trimmed)
    else None
  }

  predicate WithinWorld(x: F64, y: F64, z: F64) {
    && IsFinite(x) && IsFinite(y) && IsFinite(z)
    && Abs(Value(x)) <= MAX_ABSOLUTE_COORDINATE
    && Abs(Value(y)) <= MAX_ABSOLUTE_COORDINATE
    && Abs(Value(z)) <= MAX_ABSOLUTE_COORDINATE
    && Abs(Value(x)) <= MAX_HORIZONTAL_COORDINATE
    && Abs(Value(z)) <= MAX_HORIZONTAL_COORDINATE
  }

  /** The top byte of the colour, seen as an unsigned word, is 0xff. */
  predicate OpaqueColor(color: i32) {
    -0x100_0000 <= color < 0
  }

  function Validate(draft: Body): Option<Body> {
    var name, dimensionId := Trim(draft.name), Trim(draft.dimensionId);
    if !ValidDisplayText(name, MAX_NAME_CODE_POINTS) then None
    else if !ValidDimensionId(dimensionId) then None
    else if !WithinWorld(draft.x, draft.y, draft.z) then None
    else if !OpaqueColor(draft.color) then None
    else
      match (NormalizeIconItemId(draft.iconItemId), NormalizeMarkerLabel(draft.markerLabel))
      case (Some(icon), Some(marker)) =>
        Some(draft.(name := name, dimensionId := dimensionId, iconItemId := icon, markerLabel := marker))
      case _ => None
  }

  /** A body that validation accepts and leaves exactly as it is. */
  predicate Settled(b: Body) {
    Validate(b) == Some(b)
  }

  /** Validation is idempotent: what it returns passes again, unchanged. */
  lemma ValidateIdempotent(draft: Body)
    requires Validate(draft).Some?
    ensures Settled(Validate(draft).value)
  {
    hide ValidDisplayText, ValidDimensionId, WithinWorld, ValidIconPath;
    var b := Validate(draft).value;
    TrimFixed(b.name);
    TrimFixed(b.dimensionId);
    TrimFixed(b.iconItemId);
    TrimFixed(b.markerLabel);
  }

  lemma PublisherNameIdempotent(s: string)
    ensures ValidPublisherName(s) ==> Trim(Trim(s)) == Trim(s) && ValidPublisherName(Trim(s))
  {
    hide ValidDisplayText;
    TrimFixed(Trim(s));
  }

  lemma FloorBounded(x: F64)
    requires IsFinite(x) && Abs(Value(x)) <= MAX_ABSOLUTE_COORDINATE
    ensures FloorToI64(x).Some?
  {
    hide Value;
    assert -30000000.0 <= Value(x) <= 30000000.0;
    assert -30000001 <= Value(x).Floor <= 30000000;
  }

  /** The service's "no block" refusal cannot happen once a body is validated. */
  lemma ValidatedHasBlock(b: Body)
    requires Settled(b)
    ensures LocationOf(b.dimensionId, b.x, b.y, b.z) == Some(BlockOf(b))
  {
    hide Value, ValidDisplayText, ValidDimensionId, NormalizeIconItemId, NormalizeMarkerLabel, FloorToI64;
    FloorBounded(b.x);
    FloorBounded(b.y);
    FloorBounded(b.z);
  }

  predicate Contains(block: i64, x: F64)
    requires IsFinite(x)
  {
    block as real <= Value(x) < (block + 1) as real
  }

  /** The block of a validated body is the unit cube of its dimension that contains the point. */
  lemma BlockContains(b: Body)
    requires Settled(b)
    ensures IsFinite(b.x) && IsFinite(b.y) && IsFinite(b.z)
    ensures var key := BlockOf(b);
      key.dimensionId == b.dimensionId && Contains(key.blockX, b.x) && Contains(key.blockY, b.y) && Contains(key.blockZ, b.z)
  {
    hide Floats.Value, ValidDisplayText, ValidDimensionId, NormalizeIconItemId, NormalizeMarkerLabel, FloorToI64;
    ValidatedHasBlock(b);
    FloorIs(b.x);
    FloorIs(b.y);
    FloorIs(b.z);
  }

  lemma FloorIs(x: F64)
    requires IsFinite(x) && Abs(Value(x)) <= MAX_ABSOLUTE_COORDINATE
    ensures FloorToI64(x).Some? && Contains(FloorToI64(x).value, x)
  {
    hide Floats.Value;
    FloorBounded(x);
  }

  /** Every text field of a validated body fits the 256-byte wire field, the icon id aside. */
  lemma ValidatedTextFits(b: Body)
    requires Settled(b)
    ensures |Utf8.Encode(b.name)| <= 256
    ensures |Utf8.Encode(b.dimensionId)| <= 256
    ensures |Utf8.Encode(b.markerLabel)| <= 12
  {
    hide WithinWorld, Utf8.Encode;
  }
}
