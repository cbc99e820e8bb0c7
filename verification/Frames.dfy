/**
  Server-to-client frames: what each frame carries at a minor, how it is written, how long it can
  get, and that a peer reading it back recovers every field its minor carries.
 */
module Frames {
  import opened Prelude
  import opened Identity
  import opened Floats
  import opened Model
  import opened Wire
  import opened Proto
  import Utf8

  /** Most bytes one validated point can take in a frame. */
  const MAX_ENTRY_BYTES := 1124

  // What a frame shows.

  function ShownBody(b: Body, minor: int): Body {
    if minor < 3 then b.(iconItemId := [], markerLabel := []) else b
  }

  function ShownPoint(w: Waypoint, minor: int): Waypoint {
    w.(body := ShownBody(w.body, minor))
  }

  function ShownPoints(ws: seq<Waypoint>, minor: int): (shown: seq<Waypoint>)
    ensures |shown| == |ws|
  {
    seq(|ws|, k requires 0 <= k < |ws| => ShownPoint(ws[k], minor))
  }

  /**
    The part of a message that its minor carries: marker styles from 3, owner management from 2;
    a status always reports the negotiated minor, never this build's.
   */
  function Shown(m: Outbound, minor: i32): Outbound {
    match m
    case Status(_, _, _, _, _, _, _, _, _, _) =>
      m.(minor := Max(minor, 0), ownerManagementAllowed := minor >= 2 && m.ownerManagementAllowed)
    case Snapshot(_, _, ws) => m.(waypoints := ShownPoints(ws, minor))
    case Upsert(_, w) => m.(waypoint := ShownPoint(w, minor))
    case _ => m
  }

  predicate PointFits(w: Waypoint, minor: int) {
    FitsUtf(w.publisherName, MAX_UTF8_BYTES) && BodyFits(ShownBody(w.body, minor), minor)
  }

  predicate PointsFit(ws: seq<Waypoint>, minor: int) {
    forall k :: 0 <= k < |ws| ==> PointFits(ws[k], minor)
  }

  predicate OutboundFits(m: Outbound, minor: int) {
    match m
    case Status(_, _, _, _, _, worldId, _, _, _, _) => FitsUtf(worldId, MAX_UTF8_BYTES)
    case Snapshot(_, _, ws) => |ws| <= MAX_SNAPSHOT_WAYPOINTS && PointsFit(ws, minor)
    case Upsert(_, w) => PointFits(w, minor)
    case _ => true
  }

  // The layout. The byte after the kind is the retired operator lock, always zero.

  function EncFoot(w: Waypoint, minor: int, tail: seq<byte>): seq<byte>
    requires PointFits(w, minor)
  {
    EncBool(false) + (EncI64(w.createdAtMs) + (EncI64(w.revision) + EncStyle(ShownBody(w.body, minor), minor, tail)))
  }

  function EncPoint(w: Waypoint, minor: int, tail: seq<byte>): seq<byte>
    requires PointFits(w, minor)
  {
    EncId(w.id) + (EncId(w.publisherId) + (EncUtf(w.publisherName) + (EncUtf(w.body.name) +
      (EncUtf(w.body.dimensionId) + EncPlace(w.body, EncFoot(w, minor, tail))))))
  }

  function EncPoints(ws: seq<Waypoint>, minor: int): seq<byte>
    requires PointsFit(ws, minor)
  {
    if ws == [] then [] else EncPoint(ws[0], minor, EncPoints(ws[1..], minor))
  }

  function EncStatus(m: Outbound, minor: i32): seq<byte>
    requires m.Status? && OutboundFits(m, minor)
  {
    [MSG_STATUS] + (EncI32(m.major) + (EncI32(Max(minor, 0)) + (EncBool(m.supported) + (EncBool(m.enabled) +
      (EncBool(m.operator) + (EncUtf(m.worldId) + (EncI64(m.revision) + (EncI32(m.maxWorld) +
        (EncI32(m.maxPlayer) + (if minor >= 2 then EncBool(m.ownerManagementAllowed) else []))))))))))
  }

  function EncOutbound(m: Outbound, minor: i32): seq<byte>
    requires OutboundFits(m, minor)
  {
    match m
    case Status(_, _, _, _, _, _, _, _, _, _) => EncStatus(m, minor)
    case Snapshot(revision, operator, ws) =>
      [MSG_SNAPSHOT] + (EncI64(revision) + (EncBool(operator) + (EncU16(|ws|) + EncPoints(ws, minor))))
    case Upsert(revision, w) => [MSG_UPSERT] + (EncI64(revision) + EncPoint(w, minor, []))
    case Remove(revision, id) => [MSG_REMOVE] + (EncI64(revision) + (EncId(id) + []))
    case Outcome(op, status, error) => [MSG_RESULT] + (EncId(op) + (EncI32(status) + (EncI32(error) + [])))
  }

  // Reading a frame back, as a peer of the same minor does.

  function TakePoint(bs: seq<byte>, minor: int): Parsed<Waypoint> {
    var (id, bs1) :- TakeId(bs);
    var (publisherId, bs2) :- TakeId(bs1);
    var (publisherName, bs3) :- TakeUtf(bs2, MAX_UTF8_BYTES);
    var (name, bs4) :- TakeUtf(bs3, MAX_UTF8_BYTES);
    var (dimensionId, bs5) :- TakeUtf(bs4, MAX_UTF8_BYTES);
    var (placed, bs6) :- TakePlace(BLANK.(name := name, dimensionId := dimensionId), bs5);
    TakeFoot(Waypoint(id, publisherId, publisherName, placed, 0, 0), bs6, minor)
  }

  function TakeFoot(into: Waypoint, bs: seq<byte>, minor: int): Parsed<Waypoint> {
    var (_, bs1) :- TakeBool(bs);
    var (createdAtMs, bs2) :- TakeI64(bs1);
    var (revision, bs3) :- TakeI64(bs2);
    var (body, bs4) :- TakeStyle(into.body, bs3, minor);
    Some((into.(body := body, createdAtMs := createdAtMs, revision := revision), bs4))
  }

  function TakePoints(bs: seq<byte>, count: nat, minor: int): Parsed<seq<Waypoint>>
    decreases count
  {
    hide TakePoint;
    if count == 0 then Some(([], bs))
    else
      var (w, bs1) :- TakePoint(bs, minor);
      var (ws, bs2) :- TakePoints(bs1, count - 1, minor);
      Some(([w] + ws, bs2))
  }

  function TakeStatus(bs: seq<byte>, minor: int): Parsed<Outbound> {
    var (major, bs1) :- TakeI32(bs);
    var (theirs, bs2) :- TakeI32(bs1);
    var (supported, bs3) :- TakeBool(bs2);
    var (enabled, bs4) :- TakeBool(bs3);
    var (operator, bs5) :- TakeBool(bs4);
    var (worldId, bs6) :- TakeUtf(bs5, MAX_UTF8_BYTES);
    var (revision, bs7) :- TakeI64(bs6);
    var (maxWorld, bs8) :- TakeI32(bs7);
    var (maxPlayer, bs9) :- TakeI32(bs8);
    if minor >= 2 then
      var (owner, bs10) :- TakeBool(bs9);
      Some((Status(major, theirs, supported, enabled, operator, worldId, revision, maxWorld, maxPlayer, owner), bs10))
    else
      Some((Status(major, theirs, supported, enabled, operator, worldId, revision, maxWorld, maxPlayer, false), bs9))
  }

  function TakeOutbound(frame: seq<byte>, minor: int): Option<Outbound> {
    var (typeId, bs) :- TakeU8(frame);
    if typeId == MSG_STATUS then
      var (m, _) :- TakeStatus(bs, minor);
      Some(m)
    else if typeId == MSG_SNAPSHOT then
      var (revision, bs1) :- TakeI64(bs);
      var (operator, bs2) :- TakeBool(bs1);
      var (count, bs3) :- TakeU16(bs2);
      var (ws, _) :- TakePoints(bs3, count, minor);
      Some(Snapshot(revision, operator, ws))
    else if typeId == MSG_UPSERT then
      var (revision, bs1) :- TakeI64(bs);
      var (w, _) :- TakePoint(bs1, minor);
      Some(Upsert(revision, w))
    else if typeId == MSG_REMOVE then
      var (revision, bs1) :- TakeI64(bs);
      var (id, _) :- TakeId(bs1);
      Some(Remove(revision, id))
    else if typeId == MSG_RESULT then
      var (op, bs1) :- TakeId(bs);
      var (status, bs2) :- TakeI32(bs1);
      var (error, _) :- TakeI32(bs2);
      Some(Outcome(op, status, error))
    else None
  }

  lemma TakeFootInverse(into: Waypoint, w: Waypoint, minor: int, tail: seq<byte>)
    requires PointFits(w, minor)
    ensures TakeFoot(into, EncFoot(w, minor, tail), minor) ==
      Some((into.(body := into.body.(iconItemId := ShownBody(w.body, minor).iconItemId,
                                     markerLabel := ShownBody(w.body, minor).markerLabel),
                  createdAtMs := w.createdAtMs, revision := w.revision), tail))
  {
    hide EncBool, TakeBool, TakeI64, EncI64, TakeStyle, EncStyle, FitsUtf;
    var t3 := EncStyle(ShownBody(w.body, minor), minor, tail);
    var t2 := EncI64(w.revision) + t3;
    var t1 := EncI64(w.createdAtMs) + t2;
    TakeBoolInverse(false, t1);
    TakeI64Inverse(w.createdAtMs, t2);
    TakeI64Inverse(w.revision, t3);
    TakeStyleInverse(into.body, ShownBody(w.body, minor), minor, tail);
  }

  lemma TakePointInverse(w: Waypoint, minor: int, tail: seq<byte>)
    requires PointFits(w, minor)
    ensures TakePoint(EncPoint(w, minor, tail), minor) == Some((ShownPoint(w, minor), tail))
  {
    hide TakeId, EncId, TakeUtf, EncUtf, TakePlace, EncPlace, TakeFoot, EncFoot, FitsUtf;
    var t6 := EncFoot(w, minor, tail);
    var t5 := EncPlace(w.body, t6);
    var t4 := EncUtf(w.body.dimensionId) + t5;
    var t3 := EncUtf(w.body.name) + t4;
    var t2 := EncUtf(w.publisherName) + t3;
    var t1 := EncId(w.publisherId) + t2;
    TakeIdInverse(w.id, t1);
    TakeIdInverse(w.publisherId, t2);
    TakeUtfInverse(w.publisherName, MAX_UTF8_BYTES, t3);
    TakeUtfInverse(w.body.name, MAX_UTF8_BYTES, t4);
    TakeUtfInverse(w.body.dimensionId, MAX_UTF8_BYTES, t5);
    var named := BLANK.(name := w.body.name, dimensionId := w.body.dimensionId);
    TakePlaceInverse(named, w.body, t6);
    TakeFootInverse(Waypoint(w.id, w.publisherId, w.publisherName, TakePlace(named, t5).value.0, 0, 0), w, minor, tail);
  }

  lemma {:induction false} TakePointsInverse(ws: seq<Waypoint>, minor: int)
    requires PointsFit(ws, minor)
    ensures TakePoints(EncPoints(ws, minor), |ws|, minor) == Some((ShownPoints(ws, minor), []))
  {
    hide TakePoint, EncPoint, ShownPoint;
    if ws != [] {
      TakePointInverse(ws[0], minor, EncPoints(ws[1..], minor));
      TakePointsInverse(ws[1..], minor);
      assert ShownPoints(ws, minor) == [ShownPoint(ws[0], minor)] + ShownPoints(ws[1..], minor);
    }
  }

  lemma TakeStatusInverse(m: Outbound, minor: i32)
    requires m.Status? && OutboundFits(m, minor)
    ensures TakeStatus(EncStatus(m, minor)[1..], minor) == Some((Shown(m, minor), []))
  {
    hide TakeI32, TakeBool, TakeI64, TakeUtf, EncI32, EncBool, EncI64, EncUtf, FitsUtf;
    var t9 := if minor >= 2 then EncBool(m.ownerManagementAllowed) else [];
    var t8 := EncI32(m.maxPlayer) + t9;
    var t7 := EncI32(m.maxWorld) + t8;
    var t6 := EncI64(m.revision) + t7;
    var t5 := EncUtf(m.worldId) + t6;
    var t4 := EncBool(m.operator) + t5;
    var t3 := EncBool(m.enabled) + t4;
    var t2 := EncBool(m.supported) + t3;
    var t1 := EncI32(Max(minor, 0)) + t2;
    assert EncStatus(m, minor)[1..] == EncI32(m.major) + t1;
    TakeI32Inverse(m.major, t1);
    TakeI32Inverse(Max(minor, 0), t2);
    TakeBoolInverse(m.supported, t3);
    TakeBoolInverse(m.enabled, t4);
    TakeBoolInverse(m.operator, t5);
    TakeUtfInverse(m.worldId, MAX_UTF8_BYTES, t6);
    TakeI64Inverse(m.revision, t7);
    TakeI32Inverse(m.maxWorld, t8);
    TakeI32Inverse(m.maxPlayer, t9);
    assert t9 == t9 + [];
    TakeBoolInverse(m.ownerManagementAllowed, []);
  }

  lemma TakeSnapshotInverse(m: Outbound, minor: i32)
    requires m.Snapshot? && OutboundFits(m, minor)
    ensures TakeOutbound(EncOutbound(m, minor), minor) == Some(Shown(m, minor))
  {
    hide TakeBool, TakeI64, TakeU16, EncBool, EncI64, EncU16, TakePoints, EncPoints, ShownPoints;
    var t3 := EncPoints(m.waypoints, minor);
    var t2 := EncU16(|m.waypoints|) + t3;
    var t1 := EncBool(m.operator) + t2;
    assert EncOutbound(m, minor)[1..] == EncI64(m.revision) + t1;
    TakeI64Inverse(m.revision, t1);
    TakeBoolInverse(m.operator, t2);
    TakeU16Inverse(|m.waypoints|, t3);
    TakePointsInverse(m.waypoints, minor);
  }

  lemma TakeShortInverse(m: Outbound, minor: i32)
    requires m.Upsert? || m.Remove? || m.Outcome?
    requires OutboundFits(m, minor)
    ensures TakeOutbound(EncOutbound(m, minor), minor) == Some(Shown(m, minor))
  {
    hide TakeI32, TakeI64, TakeId, EncI32, EncI64, EncId, TakePoint, EncPoint, PointFits;
    match m
    case Upsert(revision, w) =>
      assert EncOutbound(m, minor)[1..] == EncI64(revision) + EncPoint(w, minor, []);
      TakeI64Inverse(revision, EncPoint(w, minor, []));
      TakePointInverse(w, minor, []);
    case Remove(revision, id) =>
      assert EncOutbound(m, minor)[1..] == EncI64(revision) + (EncId(id) + []);
      TakeI64Inverse(revision, EncId(id) + []);
      TakeIdInverse(id, []);
    case Outcome(op, status, error) =>
      var t2 := EncI32(error) + [];
      var t1 := EncI32(status) + t2;
      assert EncOutbound(m, minor)[1..] == EncId(op) + t1;
      TakeIdInverse(op, t1);
      TakeI32Inverse(status, t2);
      TakeI32Inverse(error, []);
  }

  /** A peer of the same minor reads back everything the minor carries. */
  lemma FrameReadBack(m: Outbound, minor: i32)
    requires OutboundFits(m, minor)
    ensures TakeOutbound(EncOutbound(m, minor), minor) == Some(Shown(m, minor))
  {
    if m.Status? {
      hide TakeStatus, EncStatus;
      TakeStatusInverse(m, minor);
      assert EncStatus(m, minor)[0] == MSG_STATUS by { StatusType(m, minor); }
    } else if m.Snapshot? {
      TakeSnapshotInverse(m, minor);
    } else {
      TakeShortInverse(m, minor);
    }
  }

  lemma StatusType(m: Outbound, minor: i32)
    requires m.Status? && OutboundFits(m, minor)
    ensures EncStatus(m, minor) != [] && EncStatus(m, minor)[0] == MSG_STATUS
  {
    hide EncI32, EncBool, EncI64, EncUtf, FitsUtf;
  }

  /** Two messages with the same frame agree on every field the minor carries. */
  lemma FrameDetermines(m: Outbound, n: Outbound, minor: i32)
    requires OutboundFits(m, minor) && OutboundFits(n, minor)
    requires EncOutbound(m, minor) == EncOutbound(n, minor)
    ensures Shown(m, minor) == Shown(n, minor)
  {
    hide *;
    FrameReadBack(m, minor);
    FrameReadBack(n, minor);
  }

  // Size.

  /** A stored point that came through validation, with an icon id the wire could carry. */
  predicate Storable(w: Waypoint) {
    && Settled(w.body)
    && ValidPublisherName(w.publisherName) && Trim(w.publisherName) == w.publisherName
    && |Utf8.Encode(w.body.iconItemId)| <= MAX_UTF8_BYTES
  }

  lemma StorableFits(w: Waypoint, minor: int)
    requires Storable(w)
    ensures PointFits(w, minor)
    ensures |EncUtf(w.publisherName)| <= 258 && |EncUtf(w.body.name)| <= 258 && |EncUtf(w.body.dimensionId)| <= 258
    ensures |EncStyle(ShownBody(w.body, minor), minor, [])| <= 272
  {
    hide Utf8.Encode, WithinWorld, ValidDimensionId, EncU16;
    ValidatedTextFits(w.body);
    assert |w.publisherName| <= 64;
    FiniteBody(w.body);
  }

  lemma FiniteBody(b: Body)
    requires Settled(b)
    ensures IsFinite(b.x) && IsFinite(b.y) && IsFinite(b.z)
  {
    hide Value, IsFinite, ValidDisplayText, ValidDimensionId, NormalizeIconItemId, NormalizeMarkerLabel;
  }

  lemma EntryLength(w: Waypoint, minor: int, tail: seq<byte>)
    requires Storable(w) && PointFits(w, minor)
    ensures |EncPoint(w, minor, tail)| <= MAX_ENTRY_BYTES + |tail|
  {
    hide EncId, EncUtf, EncI64, EncU64, EncI32, EncBool, EncMarker, Storable, FitsUtf;
    StorableFits(w, minor);
  }

  lemma {:induction false} PointsLength(ws: seq<Waypoint>, minor: int)
    requires PointsFit(ws, minor) && forall k :: 0 <= k < |ws| ==> Storable(ws[k])
    ensures |EncPoints(ws, minor)| <= MAX_ENTRY_BYTES * |ws|
  {
    hide EncPoint, Storable, PointFits;
    if ws != [] {
      PointsLength(ws[1..], minor);
      EntryLength(ws[0], minor, EncPoints(ws[1..], minor));
    }
  }

  /** Every catalog the service can hold is sendable at every minor, under the send cap. */
  lemma SnapshotSendable(revision: i64, operator: bool, ws: seq<Waypoint>, minor: i32)
    requires |ws| <= MAX_SNAPSHOT_WAYPOINTS && forall k :: 0 <= k < |ws| ==> Storable(ws[k])
    ensures OutboundFits(Snapshot(revision, operator, ws), minor)
    ensures |EncOutbound(Snapshot(revision, operator, ws), minor)| <= 12 + MAX_ENTRY_BYTES * |ws| < 1024 * 1024
  {
    hide Storable, PointFits, EncPoints, EncI64, EncBool, EncU16;
    forall k | 0 <= k < |ws|
      ensures PointFits(ws[k], minor)
    {
      StorableFits(ws[k], minor);
    }
    PointsLength(ws, minor);
  }

  // The encoder itself.

  method PutUtf(out: seq<byte>, s: string) returns (r: Option<seq<byte>>)
    ensures r.Some? <==> FitsUtf(s, MAX_UTF8_BYTES)
    ensures r.Some? ==> r.value == out + EncUtf(s)
  {
    var bytes := Utf8.Encode(s);
    if |bytes| > MAX_UTF8_BYTES {
      return None;
    }
    ConcatAssoc(out, EncU16(|bytes|), bytes);
    return Some(out + EncU16(|bytes|) + bytes);
  }

  method PutPlace(out: seq<byte>, b: Body) returns (r: Option<seq<byte>>)
    ensures r.Some? <==> IsFinite(b.x) && IsFinite(b.y) && IsFinite(b.z)
    ensures r.Some? ==> r.value == out + EncPlace(b, [])
  {
    hide EncU64, EncI32, IsFinite;
    if !IsFinite(b.x) {
      return None;
    }
    var o := out + EncU64(b.x.bits);
    if !IsFinite(b.y) {
      return None;
    }
    o := o + EncU64(b.y.bits);
    if !IsFinite(b.z) {
      return None;
    }
    o := o + EncU64(b.z.bits);
    o := o + EncI32(b.color);
    o := o + [EncKind(b.kind)];
    var t4 := [EncKind(b.kind)] + [];
    var t3 := EncI32(b.color) + t4;
    var t2 := EncU64(b.z.bits) + t3;
    var t1 := EncU64(b.y.bits) + t2;
    ConcatAssoc(out, EncU64(b.x.bits), t1);
    ConcatAssoc(out + EncU64(b.x.bits), EncU64(b.y.bits), t2);
    ConcatAssoc(out + EncU64(b.x.bits) + EncU64(b.y.bits), EncU64(b.z.bits), t3);
    ConcatAssoc(out + EncU64(b.x.bits) + EncU64(b.y.bits) + EncU64(b.z.bits), EncI32(b.color), t4);
    return Some(o);
  }

  lemma EncPlaceAppend(b: Body, s: seq<byte>, tail: seq<byte>)
    ensures EncPlace(b, s + tail) == EncPlace(b, s) + tail
    ensures EncPlace(b, tail) == EncPlace(b, []) + tail
  {
    hide EncU64, EncI32;
    EncPlaceAppendOne(b, s, tail);
    EncPlaceAppendOne(b, [], tail);
    assert [] + tail == tail;
  }

  lemma EncPlaceAppendOne(b: Body, s: seq<byte>, tail: seq<byte>)
    ensures EncPlace(b, s + tail) == EncPlace(b, s) + tail
  {
    hide EncU64, EncI32;
    var s4 := [EncKind(b.kind)] + s;
    var s3 := EncI32(b.color) + s4;
    var s2 := EncU64(b.z.bits) + s3;
    var s1 := EncU64(b.y.bits) + s2;
    ConcatAssoc([EncKind(b.kind)], s, tail);
    ConcatAssoc(EncI32(b.color), s4, tail);
    ConcatAssoc(EncU64(b.z.bits), s3, tail);
    ConcatAssoc(EncU64(b.y.bits), s2, tail);
    ConcatAssoc(EncU64(b.x.bits), s1, tail);
  }

  method PutFoot(out: seq<byte>, w: Waypoint, minor: int) returns (r: Option<seq<byte>>)
    requires FitsUtf(w.publisherName, MAX_UTF8_BYTES)
    requires FitsUtf(w.body.name, MAX_UTF8_BYTES) && FitsUtf(w.body.dimensionId, MAX_UTF8_BYTES)
    requires IsFinite(w.body.x) && IsFinite(w.body.y) && IsFinite(w.body.z)
    ensures r.Some? <==> PointFits(w, minor)
    ensures r.Some? ==> r.value == out + EncFoot(w, minor, [])
  {
    hide EncBool, EncI64, EncUtf, FitsUtf, IsFinite;
    var o := out + EncBool(false);
    o := o + EncI64(w.createdAtMs);
    o := o + EncI64(w.revision);
    ghost var foot := o;
    if minor >= 3 {
      o :- PutUtf(o, w.body.iconItemId);
      o :- PutUtf(o, w.body.markerLabel);
      ConcatAssoc(foot, EncUtf(w.body.iconItemId), EncUtf(w.body.markerLabel));
      assert EncUtf(w.body.markerLabel) + [] == EncUtf(w.body.markerLabel);
    }
    ghost var style := EncStyle(ShownBody(w.body, minor), minor, []);
    assert o == foot + style;
    ConcatAssoc(out + EncBool(false) + EncI64(w.createdAtMs), EncI64(w.revision), style);
    ConcatAssoc(out + EncBool(false), EncI64(w.createdAtMs), EncI64(w.revision) + style);
    ConcatAssoc(out, EncBool(false), EncI64(w.createdAtMs) + (EncI64(w.revision) + style));
    return Some(o);
  }

  method PutWaypoint(out: seq<byte>, w: Waypoint, minor: int) returns (r: Option<seq<byte>>)
    ensures r.Some? <==> PointFits(w, minor)
    ensures r.Some? ==> r.value == out + EncPoint(w, minor, [])
  {
    hide EncId, EncUtf, EncPlace, EncFoot, FitsUtf, IsFinite;
    var o := out + EncId(w.id);
    o := o + EncId(w.publisherId);
    ghost var ids := o;
    o :- PutUtf(o, w.publisherName);
    o :- PutUtf(o, w.body.name);
    o :- PutUtf(o, w.body.dimensionId);
    ghost var texts := o;
    o :- PutPlace(o, w.body);
    o :- PutFoot(o, w, minor);
    ghost var foot := EncFoot(w, minor, []);
    ghost var place := EncPlace(w.body, foot);
    EncPlaceAppend(w.body, [], foot);
    ConcatAssoc(texts, EncPlace(w.body, []), foot);
    assert o == texts + place;
    ghost var t3, t4 := EncUtf(w.body.dimensionId) + place, EncUtf(w.publisherName);
    ConcatAssoc(ids + t4 + EncUtf(w.body.name), EncUtf(w.body.dimensionId), place);
    ConcatAssoc(ids + t4, EncUtf(w.body.name), t3);
    ConcatAssoc(ids, t4, EncUtf(w.body.name) + t3);
    ConcatAssoc(out + EncId(w.id), EncId(w.publisherId), t4 + (EncUtf(w.body.name) + t3));
    ConcatAssoc(out, EncId(w.id), EncId(w.publisherId) + (t4 + (EncUtf(w.body.name) + t3)));
    return Some(o);
  }

  lemma EncFootAppend(w: Waypoint, minor: int, tail: seq<byte>)
    requires PointFits(w, minor)
    ensures EncFoot(w, minor, tail) == EncFoot(w, minor, []) + tail
  {
    hide EncMarker, EncI64, EncBool, FitsUtf;
    var b := ShownBody(w.body, minor);
    var icon, marker := EncMarker(b.iconItemId, minor), EncMarker(b.markerLabel, minor);
    assert marker + [] == marker;
    ConcatAssoc(icon, marker, tail);
    var style := EncStyle(b, minor, []);
    ConcatAssoc(EncI64(w.revision), style, tail);
    ConcatAssoc(EncI64(w.createdAtMs), EncI64(w.revision) + style, tail);
    ConcatAssoc(EncBool(false), EncI64(w.createdAtMs) + (EncI64(w.revision) + style), tail);
  }

  lemma EncPointAppend(w: Waypoint, minor: int, tail: seq<byte>)
    requires PointFits(w, minor)
    ensures EncPoint(w, minor, tail) == EncPoint(w, minor, []) + tail
  {
    hide EncId, EncUtf, EncPlace, EncFoot, PointFits;
    EncFootAppend(w, minor, tail);
    var place := EncPlace(w.body, EncFoot(w, minor, []));
    EncPlaceAppend(w.body, EncFoot(w, minor, []), tail);
    var t4 := EncUtf(w.body.dimensionId) + place;
    var t3 := EncUtf(w.body.name) + t4;
    var t2 := EncUtf(w.publisherName) + t3;
    ConcatAssoc(EncUtf(w.body.dimensionId), place, tail);
    ConcatAssoc(EncUtf(w.body.name), t4, tail);
    ConcatAssoc(EncUtf(w.publisherName), t3, tail);
    ConcatAssoc(EncId(w.publisherId), t2, tail);
    ConcatAssoc(EncId(w.id), EncId(w.publisherId) + t2, tail);
  }

  lemma {:induction false} EncPointsSnoc(ws: seq<Waypoint>, w: Waypoint, minor: int)
    requires PointsFit(ws + [w], minor)
    ensures PointsFit(ws, minor) && PointFits(w, minor)
    ensures EncPoints(ws + [w], minor) == EncPoints(ws, minor) + EncPoint(w, minor, [])
  {
    hide EncPoint, PointFits;
    assert (ws + [w])[|ws|] == w;
    assert forall k :: 0 <= k < |ws| ==> (ws + [w])[k] == ws[k];
    if ws == [] {
      assert ws + [w] == [w];
    } else {
      assert (ws + [w])[1..] == ws[1..] + [w];
      EncPointsSnoc(ws[1..], w, minor);
      EncPointAppend(ws[0], minor, EncPoints(ws[1..] + [w], minor));
      EncPointAppend(ws[0], minor, EncPoints(ws[1..], minor));
      ConcatAssoc(EncPoint(ws[0], minor, []), EncPoints(ws[1..], minor), EncPoint(w, minor, []));
    }
  }

  method PutWaypoints(out: seq<byte>, ws: seq<Waypoint>, minor: int) returns (r: Option<seq<byte>>)
    ensures r.Some? <==> PointsFit(ws, minor)
    ensures r.Some? ==> r.value == out + EncPoints(ws, minor)
  {
    hide EncPoint, PointFits;
    var o := out;
    for i := 0 to |ws|
      invariant PointsFit(ws[..i], minor)
      invariant o == out + EncPoints(ws[..i], minor)
    {
      assert ws[..i + 1] == ws[..i] + [ws[i]];
      var next := PutWaypoint(o, ws[i], minor);
      if next == None {
        return None;
      }
      EncPointsSnoc(ws[..i], ws[i], minor);
      ConcatAssoc(out, EncPoints(ws[..i], minor), EncPoint(ws[i], minor, []));
      o := next.value;
    }
    assert ws[..|ws|] == ws;
    return Some(o);
  }

  method PutStatus(m: Outbound, minor: i32) returns (r: Option<seq<byte>>)
    requires m.Status?
    ensures r.Some? <==> OutboundFits(m, minor)
    ensures r.Some? ==> r.value == EncStatus(m, minor)
  {
    hide EncI32, EncBool, EncI64, EncUtf, FitsUtf;
    var out := [MSG_STATUS] + EncI32(m.major);
    out := out + EncI32(Max(minor, 0));
    out := out + EncBool(m.supported);
    out := out + EncBool(m.enabled);
    out := out + EncBool(m.operator);
    ghost var flags := out;
    out :- PutUtf(out, m.worldId);
    out := out + EncI64(m.revision);
    out := out + EncI32(m.maxWorld);
    out := out + EncI32(m.maxPlayer);
    ghost var t9 := if minor >= 2 then EncBool(m.ownerManagementAllowed) else [];
    if minor >= 2 {
      out := out + EncBool(m.ownerManagementAllowed);
    } else {
      assert out == out + t9;
    }
    ghost var t8 := EncI32(m.maxPlayer) + t9;
    ghost var t7 := EncI32(m.maxWorld) + t8;
    ghost var t6 := EncI64(m.revision) + t7;
    ghost var t5 := EncUtf(m.worldId) + t6;
    ConcatAssoc(flags + EncUtf(m.worldId) + EncI64(m.revision) + EncI32(m.maxWorld), EncI32(m.maxPlayer), t9);
    ConcatAssoc(flags + EncUtf(m.worldId) + EncI64(m.revision), EncI32(m.maxWorld), t8);
    ConcatAssoc(flags + EncUtf(m.worldId), EncI64(m.revision), t7);
    ConcatAssoc(flags, EncUtf(m.worldId), t6);
    ghost var head := [MSG_STATUS] + EncI32(m.major) + EncI32(Max(minor, 0));
    ghost var t4 := EncBool(m.operator) + t5;
    ConcatAssoc(head + EncBool(m.supported) + EncBool(m.enabled), EncBool(m.operator), t5);
    ConcatAssoc(head + EncBool(m.supported), EncBool(m.enabled), t4);
    ConcatAssoc(head, EncBool(m.supported), EncBool(m.enabled) + t4);
    ghost var t2 := EncBool(m.supported) + (EncBool(m.enabled) + t4);
    ConcatAssoc([MSG_STATUS] + EncI32(m.major), EncI32(Max(minor, 0)), t2);
    ConcatAssoc([MSG_STATUS], EncI32(m.major), EncI32(Max(minor, 0)) + t2);
    return Some(out);
  }

  /** Encodes one server-to-client message: it succeeds exactly when every text and count fits. */
  method Encode(m: Outbound, minor: i32) returns (r: Option<seq<byte>>)
    ensures r.Some? <==> OutboundFits(m, minor)
    ensures r.Some? ==> r.value == EncOutbound(m, minor)
    ensures r.Some? ==> TakeOutbound(r.value, minor) == Some(Shown(m, minor))
  {
    hide TakeOutbound, Shown, EncI64, EncBool, EncU16, EncId, EncI32, EncPoints, EncPoint, PointFits, PointsFit;
    match m {
      case Status(_, _, _, _, _, _, _, _, _, _) =>
        r := PutStatus(m, minor);
      case Snapshot(revision, operator, ws) =>
        if |ws| > MAX_SNAPSHOT_WAYPOINTS {
          return None;
        }
        var out := [MSG_SNAPSHOT] + EncI64(revision);
        out := out + EncBool(operator);
        out := out + EncU16(|ws|);
        r := PutWaypoints(out, ws, minor);
        if r.Some? {
          ghost var points := EncPoints(ws, minor);
          ConcatAssoc([MSG_SNAPSHOT] + EncI64(revision) + EncBool(operator), EncU16(|ws|), points);
          ConcatAssoc([MSG_SNAPSHOT] + EncI64(revision), EncBool(operator), EncU16(|ws|) + points);
          ConcatAssoc([MSG_SNAPSHOT], EncI64(revision), EncBool(operator) + (EncU16(|ws|) + points));
        }
      case Upsert(revision, w) =>
        var out := [MSG_UPSERT] + EncI64(revision);
        r := PutWaypoint(out, w, minor);
        if r.Some? {
          ConcatAssoc([MSG_UPSERT], EncI64(revision), EncPoint(w, minor, []));
        }
      case Remove(revision, id) =>
        r := Some([MSG_REMOVE] + EncI64(revision) + EncId(id));
        ConcatAssoc([MSG_REMOVE], EncI64(revision), EncId(id));
      case Outcome(op, status, error) =>
        r := Some([MSG_RESULT] + EncId(op) + EncI32(status) + EncI32(error));
        ConcatAssoc([MSG_RESULT] + EncId(op), EncI32(status), EncI32(error));
        ConcatAssoc([MSG_RESULT], EncId(op), EncI32(status) + EncI32(error));
    }
    if r.Some? {
      FrameReadBack(m, minor);
    }
  }
}
