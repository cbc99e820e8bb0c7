/**
  The messages of the shared-waypoint channel, and the meaning of a client-to-server payload.
  `EncInbound` is the wire form a client writes; `DecodeInbound` is what the server reads.
 */
module Proto {
  import opened Prelude
  import opened Identity
  import opened Floats
  import opened Model
  import opened Wire

  const PROTO_MAJOR := 1
  const PROTO_MINOR := 3

  const MSG_HELLO: byte := 0x01
  const MSG_STATUS: byte := 0x02
  const MSG_SUBSCRIBE: byte := 0x03
  const MSG_CREATE: byte := 0x04
  const MSG_DELETE: byte := 0x05
  const MSG_LOCK: byte := 0x06
  const MSG_SNAPSHOT: byte := 0x07
  const MSG_UPSERT: byte := 0x08
  const MSG_REMOVE: byte := 0x09
  const MSG_RESULT: byte := 0x0a
  const MSG_UPDATE: byte := 0x0b

  const MAX_C2S_PAYLOAD := 8 * 1024
  const MAX_UTF8_BYTES := 256
  const MAX_SNAPSHOT_WAYPOINTS := 512

  /** A mutation request. */
  datatype Request =
    | Create(operationId: Id, expectedRevision: i64, body: Body)
    | Update(operationId: Id, id: Id, expectedRevision: i64, body: Body)
    | Delete(operationId: Id, id: Id, expectedRevision: i64)

  datatype Inbound =
    | Hello(major: i32, minor: i32)
    | Subscribe
    | Mutate(request: Request)
    | Lock(operationId: Id, id: Id, expectedRevision: i64, locked: bool)

  datatype Outbound =
    | Status(
        major: i32, minor: i32, supported: bool, enabled: bool, operator: bool, worldId: string,
        revision: i64, maxWorld: i32, maxPlayer: i32, ownerManagementAllowed: bool)
    | Snapshot(revision: i64, operator: bool, waypoints: seq<Waypoint>)
    | Upsert(revision: i64, waypoint: Waypoint)
    | Remove(revision: i64, id: Id)
    | Outcome(operationId: Id, status: i32, error: i32)

  // Fields.

  function EncKind(kind: Kind): byte {
    match kind
    case Normal => 0
    case Death => 1
  }

  function TakeKind(bs: seq<byte>): (r: Parsed<Kind>)
    ensures r.Some? ==> bs == [EncKind(r.value.0)] + r.value.1
  {
    var (b, rest) :- TakeU8(bs);
    if b == 0 then Some((Normal, rest)) else if b == 1 then Some((Death, rest)) else None
  }

  function TakeFinite(bs: seq<byte>): (r: Parsed<F64>)
    ensures r.Some? ==> IsFinite(r.value.0) && bs == EncU64(r.value.0.bits) + r.value.1
  {
    var (bits, rest) :- TakeU64(bs);
    if IsFinite(F64(bits)) then Some((F64(bits), rest)) else None
  }

  /** A marker-style field, present on the wire exactly when the connection negotiated it. */
  function TakeMarker(bs: seq<byte>, minor: int): Parsed<string> {
    if minor < 3 then Some(([], bs)) else TakeUtf(bs, MAX_UTF8_BYTES)
  }

  predicate MarkerFits(s: string, minor: int) {
    if minor < 3 then s == [] else FitsUtf(s, MAX_UTF8_BYTES)
  }

  function EncMarker(s: string, minor: int): seq<byte>
    requires MarkerFits(s, minor)
  {
    if minor < 3 then [] else EncUtf(s)
  }

  lemma TakeMarkerLaws(bs: seq<byte>, s: string, minor: int, tail: seq<byte>)
    requires MarkerFits(s, minor)
    ensures TakeMarker(EncMarker(s, minor) + tail, minor) == Some((s, tail))
    ensures TakeMarker(bs, minor).Some? ==>
      var (field, rest) := TakeMarker(bs, minor).value;
      MarkerFits(field, minor) && bs == EncMarker(field, minor) + rest
  {
    hide TakeUtf, EncUtf;
    if minor >= 3 {
      TakeUtfInverse(s, MAX_UTF8_BYTES, tail);
    } else {
      assert [] + tail == tail && [] + bs == bs;
    }
  }

  // The body of a create or an update.

  predicate BodyFits(b: Body, minor: int) {
    && FitsUtf(b.name, MAX_UTF8_BYTES) && FitsUtf(b.dimensionId, MAX_UTF8_BYTES)
    && IsFinite(b.x) && IsFinite(b.y) && IsFinite(b.z)
    && MarkerFits(b.iconItemId, minor) && MarkerFits(b.markerLabel, minor)
  }

  function EncBody(b: Body, minor: int, tail: seq<byte>): seq<byte>
    requires BodyFits(b, minor)
  {
    EncUtf(b.name) + (EncUtf(b.dimensionId) + EncPlace(b, EncStyle(b, minor, tail)))
  }

  function EncPlace(b: Body, tail: seq<byte>): seq<byte> {
    EncU64(b.x.bits) + (EncU64(b.y.bits) + (EncU64(b.z.bits) + (EncI32(b.color) + ([EncKind(b.kind)] + tail))))
  }

  function EncStyle(b: Body, minor: int, tail: seq<byte>): seq<byte>
    requires MarkerFits(b.iconItemId, minor) && MarkerFits(b.markerLabel, minor)
  {
    EncMarker(b.iconItemId, minor) + (EncMarker(b.markerLabel, minor) + tail)
  }

  /** The placement fields of a body, read into an otherwise given body. */
  function TakePlace(into: Body, bs: seq<byte>): Parsed<Body> {
    var (x, bs1) :- TakeFinite(bs);
    var (y, bs2) :- TakeFinite(bs1);
    var (z, bs3) :- TakeFinite(bs2);
    var (color, bs4) :- TakeI32(bs3);
    var (kind, bs5) :- TakeKind(bs4);
    Some((into.(x := x, y := y, z := z, color := color, kind := kind), bs5))
  }

  function TakeStyle(into: Body, bs: seq<byte>, minor: int): Parsed<Body> {
    var (icon, bs1) :- TakeMarker(bs, minor);
    var (marker, bs2) :- TakeMarker(bs1, minor);
    Some((into.(iconItemId := icon, markerLabel := marker), bs2))
  }

  const BLANK := Body([], [], F64(0), F64(0), F64(0), 0, Normal, [], [])

  function TakeBody(bs: seq<byte>, minor: int): Parsed<Body> {
    var (name, bs1) :- TakeUtf(bs, MAX_UTF8_BYTES);
    var (dimensionId, bs2) :- TakeUtf(bs1, MAX_UTF8_BYTES);
    var (placed, bs3) :- TakePlace(BLANK.(name := name, dimensionId := dimensionId), bs2);
    TakeStyle(placed, bs3, minor)
  }

  lemma TakeFiniteInverse(f: F64, tail: seq<byte>)
    requires IsFinite(f)
    ensures TakeFinite(EncU64(f.bits) + tail) == Some((f, tail))
  {
    hide EncU64, TakeU64;
    TakeU64Inverse(f.bits, tail);
  }

  lemma TakePlaceInverse(into: Body, b: Body, tail: seq<byte>)
    requires IsFinite(b.x) && IsFinite(b.y) && IsFinite(b.z)
    ensures TakePlace(into, EncPlace(b, tail)) ==
            Some((into.(x := b.x, y := b.y, z := b.z, color := b.color, kind := b.kind), tail))
  {
    hide TakeFinite, TakeI32, EncU64, EncI32;
    var t4 := [EncKind(b.kind)] + tail;
    var t3 := EncI32(b.color) + t4;
    var t2 := EncU64(b.z.bits) + t3;
    var t1 := EncU64(b.y.bits) + t2;
    TakeFiniteInverse(b.x, t1);
    TakeFiniteInverse(b.y, t2);
    TakeFiniteInverse(b.z, t3);
    TakeI32Inverse(b.color, t4);
    assert t4[1..] == tail;
  }

  lemma TakePlaceCanonical(into: Body, bs: seq<byte>)
    requires TakePlace(into, bs).Some?
    ensures var (b, rest) := TakePlace(into, bs).value;
      && IsFinite(b.x) && IsFinite(b.y) && IsFinite(b.z)
      && b == into.(x := b.x, y := b.y, z := b.z, color := b.color, kind := b.kind)
      && bs == EncPlace(b, rest)
  {
    hide TakeFinite, TakeI32, TakeKind, EncU64, EncI32;
  }

  lemma TakeStyleInverse(into: Body, b: Body, minor: int, tail: seq<byte>)
    requires MarkerFits(b.iconItemId, minor) && MarkerFits(b.markerLabel, minor)
    ensures TakeStyle(into, EncStyle(b, minor, tail), minor) ==
            Some((into.(iconItemId := b.iconItemId, markerLabel := b.markerLabel), tail))
  {
    hide TakeMarker, EncMarker;
    TakeMarkerLaws([], b.iconItemId, minor, EncMarker(b.markerLabel, minor) + tail);
    TakeMarkerLaws([], b.markerLabel, minor, tail);
  }

  lemma TakeStyleCanonical(into: Body, bs: seq<byte>, minor: int)
    requires TakeStyle(into, bs, minor).Some?
    ensures var (b, rest) := TakeStyle(into, bs, minor).value;
      && MarkerFits(b.iconItemId, minor) && MarkerFits(b.markerLabel, minor)
      && b == into.(iconItemId := b.iconItemId, markerLabel := b.markerLabel)
      && bs == EncStyle(b, minor, rest)
  {
    hide TakeMarker, EncMarker;
    TakeMarkerLaws(bs, [], minor, []);
    TakeMarkerLaws(TakeMarker(bs, minor).value.1, [], minor, []);
  }

  lemma TakeBodyInverse(b: Body, minor: int, tail: seq<byte>)
    requires BodyFits(b, minor)
    ensures TakeBody(EncBody(b, minor, tail), minor) == Some((b, tail))
  {
    hide TakeUtf, TakePlace, TakeStyle, EncUtf, EncPlace, EncStyle;
    var t2 := EncStyle(b, minor, tail);
    var t1 := EncPlace(b, t2);
    TakeUtfInverse(b.name, MAX_UTF8_BYTES, EncUtf(b.dimensionId) + t1);
    TakeUtfInverse(b.dimensionId, MAX_UTF8_BYTES, t1);
    var named := BLANK.(name := b.name, dimensionId := b.dimensionId);
    TakePlaceInverse(named, b, t2);
    TakeStyleInverse(TakePlace(named, t1).value.0, b, minor, tail);
  }

  lemma TakeBodyCanonical(bs: seq<byte>, minor: int)
    requires TakeBody(bs, minor).Some?
    ensures var (b, rest) := TakeBody(bs, minor).value;
      BodyFits(b, minor) && bs == EncBody(b, minor, rest)
  {
    hide TakeUtf, TakePlace, TakeStyle, EncUtf, EncPlace, EncStyle;
    var (name, bs1) := TakeUtf(bs, MAX_UTF8_BYTES).value;
    var (dimensionId, bs2) := TakeUtf(bs1, MAX_UTF8_BYTES).value;
    var named := BLANK.(name := name, dimensionId := dimensionId);
    TakePlaceCanonical(named, bs2);
    var (placed, bs3) := TakePlace(named, bs2).value;
    TakeStyleCanonical(placed, bs3, minor);
    var (b, rest) := TakeStyle(placed, bs3, minor).value;
    EncPlaceIgnoresStyle(placed, b, bs3);
  }

  lemma EncPlaceIgnoresStyle(a: Body, b: Body, tail: seq<byte>)
    requires b == a.(iconItemId := b.iconItemId, markerLabel := b.markerLabel)
    ensures EncPlace(a, tail) == EncPlace(b, tail)
  {
  }

  // Whole client-to-server messages.

  predicate RequestFits(r: Request, minor: int) {
    match r
    case Create(_, _, b) => BodyFits(b, minor)
    case Update(_, _, _, b) => BodyFits(b, minor)
    case Delete(_, _, _) => true
  }

  /** What a client can say on a connection of this minor. */
  predicate InboundFits(m: Inbound, minor: int) {
    m.Mutate? ==> RequestFits(m.request, minor)
  }

  function EncRequest(r: Request, minor: int): seq<byte>
    requires RequestFits(r, minor)
  {
    match r
    case Create(op, revision, b) => [MSG_CREATE] + (EncId(op) + (EncI64(revision) + EncBody(b, minor, [])))
    case Update(op, id, revision, b) =>
      [MSG_UPDATE] + (EncId(op) + (EncId(id) + (EncI64(revision) + EncBody(b, minor, []))))
    case Delete(op, id, revision) => [MSG_DELETE] + (EncId(op) + (EncId(id) + (EncI64(revision) + [])))
  }

  function EncInbound(m: Inbound, minor: int): seq<byte>
    requires InboundFits(m, minor)
  {
    match m
    case Hello(major, minor') => [MSG_HELLO] + (EncI32(major) + (EncI32(minor') + []))
    case Subscribe => [MSG_SUBSCRIBE]
    case Mutate(r) => EncRequest(r, minor)
    case Lock(op, id, revision, locked) =>
      [MSG_LOCK] + (EncId(op) + (EncId(id) + (EncI64(revision) + (EncBool(locked) + []))))
  }

  predicate IsKnown(typeId: byte) {
    MSG_HELLO <= typeId <= MSG_UPDATE
  }

  /** The message types only a server sends. */
  predicate IsServerbound(typeId: byte) {
    || typeId == MSG_STATUS || typeId == MSG_SNAPSHOT || typeId == MSG_UPSERT
    || typeId == MSG_REMOVE || typeId == MSG_RESULT
  }

  function TakeHello(bs: seq<byte>): Parsed<Inbound> {
    var (major, bs1) :- TakeI32(bs);
    var (minor, bs2) :- TakeI32(bs1);
    Some((Hello(major, minor), bs2))
  }

  function TakeCreate(bs: seq<byte>, minor: int): Parsed<Inbound> {
    var (op, bs1) :- TakeId(bs);
    var (revision, bs2) :- TakeI64(bs1);
    var (body, bs3) :- TakeBody(bs2, minor);
    Some((Mutate(Create(op, revision, body)), bs3))
  }

  function TakeUpdate(bs: seq<byte>, minor: int): Parsed<Inbound> {
    var (op, bs1) :- TakeId(bs);
    var (id, bs2) :- TakeId(bs1);
    var (revision, bs3) :- TakeI64(bs2);
    var (body, bs4) :- TakeBody(bs3, minor);
    Some((Mutate(Update(op, id, revision, body)), bs4))
  }

  function TakeDelete(bs: seq<byte>): Parsed<Inbound> {
    var (op, bs1) :- TakeId(bs);
    var (id, bs2) :- TakeId(bs1);
    var (revision, bs3) :- TakeI64(bs2);
    Some((Mutate(Delete(op, id, revision)), bs3))
  }

  function TakeLock(bs: seq<byte>): Parsed<Inbound> {
    var (op, bs1) :- TakeId(bs);
    var (id, bs2) :- TakeId(bs1);
    var (revision, bs3) :- TakeI64(bs2);
    var (locked, bs4) :- TakeBool(bs3);
    Some((Lock(op, id, revision, locked), bs4))
  }

  function TakeInbound(typeId: byte, bs: seq<byte>, minor: int): Parsed<Inbound> {
    if typeId == MSG_HELLO then TakeHello(bs)
    else if typeId == MSG_SUBSCRIBE then Some((Subscribe, bs))
    else if typeId == MSG_CREATE then TakeCreate(bs, minor)
    else if typeId == MSG_UPDATE then TakeUpdate(bs, minor)
    else if typeId == MSG_DELETE then TakeDelete(bs)
    else if typeId == MSG_LOCK then TakeLock(bs)
    else None
  }

  /** What the server makes of one payload: exactly one message, or nothing. */
  function DecodeInbound(payload: seq<byte>, minor: int): Option<Inbound> {
    if payload == [] || |payload| > MAX_C2S_PAYLOAD then None
    else if !IsKnown(payload[0]) || IsServerbound(payload[0]) then None
    else
      var (message, rest) :- TakeInbound(payload[0], payload[1..], minor);
      if rest != [] then None else Some(message)
  }

  lemma TakeCreateInverse(r: Request, minor: int)
    requires r.Create? && RequestFits(r, minor)
    ensures TakeInbound(MSG_CREATE, EncRequest(r, minor)[1..], minor) == Some((Mutate(r), []))
  {
    hide TakeId, TakeI64, TakeBody, EncId, EncI64, EncBody, BodyFits;
    var t2 := EncBody(r.body, minor, []);
    var t1 := EncI64(r.expectedRevision) + t2;
    assert EncRequest(r, minor)[1..] == EncId(r.operationId) + t1;
    TakeIdInverse(r.operationId, t1);
    TakeI64Inverse(r.expectedRevision, t2);
    TakeBodyInverse(r.body, minor, []);
  }

  lemma TakeUpdateInverse(r: Request, minor: int)
    requires r.Update? && RequestFits(r, minor)
    ensures TakeInbound(MSG_UPDATE, EncRequest(r, minor)[1..], minor) == Some((Mutate(r), []))
  {
    hide TakeId, TakeI64, TakeBody, EncId, EncI64, EncBody, BodyFits;
    var t3 := EncBody(r.body, minor, []);
    var t2 := EncI64(r.expectedRevision) + t3;
    var t1 := EncId(r.id) + t2;
    assert EncRequest(r, minor)[1..] == EncId(r.operationId) + t1;
    TakeIdInverse(r.operationId, t1);
    TakeIdInverse(r.id, t2);
    TakeI64Inverse(r.expectedRevision, t3);
    TakeBodyInverse(r.body, minor, []);
  }

  lemma TakeShortInverse(m: Inbound, minor: int)
    requires m.Hello? || m.Lock? || (m.Mutate? && m.request.Delete?)
    ensures var bs := EncInbound(m, minor); TakeInbound(bs[0], bs[1..], minor) == Some((m, []))
  {
    hide TakeId, TakeI64, TakeI32, TakeBool, EncId, EncI64, EncI32, EncBool;
    match m
    case Hello(major, minor') =>
      var t1 := EncI32(minor') + [];
      assert EncInbound(m, minor)[1..] == EncI32(major) + t1;
      TakeI32Inverse(major, t1);
      TakeI32Inverse(minor', []);
    case Lock(op, id, revision, locked) =>
      var t3 := EncBool(locked) + [];
      var t2 := EncI64(revision) + t3;
      var t1 := EncId(id) + t2;
      assert EncInbound(m, minor)[1..] == EncId(op) + t1;
      TakeIdInverse(op, t1);
      TakeIdInverse(id, t2);
      TakeI64Inverse(revision, t3);
      TakeBoolInverse(locked, []);
    case Mutate(Delete(op, id, revision)) =>
      var t2 := EncI64(revision) + [];
      var t1 := EncId(id) + t2;
      assert EncInbound(m, minor)[1..] == EncId(op) + t1;
      TakeIdInverse(op, t1);
      TakeIdInverse(id, t2);
      TakeI64Inverse(revision, []);
  }

  /** `decode` inverts the wire form of every message a client can say, at every minor. */
  lemma DecodeInverse(m: Inbound, minor: int)
    requires InboundFits(m, minor) && |EncInbound(m, minor)| <= MAX_C2S_PAYLOAD
    ensures DecodeInbound(EncInbound(m, minor), minor) == Some(m)
  {
    hide TakeHello, TakeCreate, TakeUpdate, TakeDelete, TakeLock, EncBody, BodyFits, EncId, EncI64, EncI32;
    if m.Mutate? && m.request.Create? {
      TakeCreateInverse(m.request, minor);
    } else if m.Mutate? && m.request.Update? {
      TakeUpdateInverse(m.request, minor);
    } else if !m.Subscribe? {
      TakeShortInverse(m, minor);
    }
  }

  lemma TakeRequestCanonical(typeId: byte, bs: seq<byte>, minor: int)
    requires typeId == MSG_CREATE || typeId == MSG_UPDATE || typeId == MSG_DELETE
    requires TakeInbound(typeId, bs, minor).Some? && TakeInbound(typeId, bs, minor).value.1 == []
    ensures var m := TakeInbound(typeId, bs, minor).value.0;
      m.Mutate? && RequestFits(m.request, minor) && [typeId] + bs == EncRequest(m.request, minor)
  {
    hide TakeId, TakeI64, TakeBody, EncId, EncI64, EncBody, BodyFits;
    if typeId == MSG_CREATE {
      TakeBodyCanonical(TakeI64(TakeId(bs).value.1).value.1, minor);
    } else if typeId == MSG_UPDATE {
      TakeBodyCanonical(TakeI64(TakeId(TakeId(bs).value.1).value.1).value.1, minor);
    }
  }

  /** An accepted payload is the one encoding of its message, all bytes consumed. */
  lemma DecodeCanonical(payload: seq<byte>, minor: int)
    requires DecodeInbound(payload, minor).Some?
    ensures var m := DecodeInbound(payload, minor).value;
      InboundFits(m, minor) && payload == EncInbound(m, minor)
  {
    hide TakeId, TakeI64, TakeI32, TakeBool, TakeBody, EncId, EncI64, EncI32, EncBool, EncBody, BodyFits;
    hide TakeCreate, TakeUpdate, TakeDelete;
    var typeId, bs := payload[0], payload[1..];
    assert payload == [typeId] + bs;
    if typeId == MSG_CREATE || typeId == MSG_UPDATE || typeId == MSG_DELETE {
      TakeRequestCanonical(typeId, bs, minor);
    }
  }

  /** Decoding, stated at once: the accepted payloads are exactly the encodings within the size cap. */
  lemma DecodeIff(payload: seq<byte>, m: Inbound, minor: int)
    ensures DecodeInbound(payload, minor) == Some(m) <==>
      InboundFits(m, minor) && payload == EncInbound(m, minor) && |payload| <= 8192
  {
    hide TakeInbound, EncInbound, InboundFits;
    if DecodeInbound(payload, minor).Some? {
      DecodeCanonical(payload, minor);
    }
    if InboundFits(m, minor) && payload == EncInbound(m, minor) && |payload| <= MAX_C2S_PAYLOAD {
      DecodeInverse(m, minor);
    }
  }

  // The decoder itself.

  method ReadFinite(r: Reader) returns (v: Option<F64>)
    requires r.Valid()
    modifies r
    ensures r.Valid() && Follows(v, r.Rest(), TakeFinite(old(r.Rest())))
  {
    hide TakeU64;
    var bits :- r.F64Bits();
    if !IsFinite(F64(bits)) {
      return None;
    }
    return Some(F64(bits));
  }

  method ReadKind(r: Reader) returns (v: Option<Kind>)
    requires r.Valid()
    modifies r
    ensures r.Valid() && Follows(v, r.Rest(), TakeKind(old(r.Rest())))
  {
    var value :- r.U8();
    match value
    case 0 => return Some(Normal);
    case 1 => return Some(Death);
    case _ => return None;
  }

  method ReadMarker(r: Reader, minor: int) returns (v: Option<string>)
    requires r.Valid()
    modifies r
    ensures r.Valid() && Follows(v, r.Rest(), TakeMarker(old(r.Rest()), minor))
  {
    hide TakeUtf;
    if minor < 3 {
      return Some([]);
    }
    v := r.Utf(MAX_UTF8_BYTES);
  }

  method ReadPlace(r: Reader, into: Body) returns (v: Option<Body>)
    requires r.Valid()
    modifies r
    ensures r.Valid() && Follows(v, r.Rest(), TakePlace(into, old(r.Rest())))
  {
    hide TakeFinite, TakeI32, TakeKind;
    var x :- ReadFinite(r);
    var y :- ReadFinite(r);
    var z :- ReadFinite(r);
    var color :- r.I32();
    var kind :- ReadKind(r);
    return Some(into.(x := x, y := y, z := z, color := color, kind := kind));
  }

  method ReadBody(r: Reader, minor: int) returns (v: Option<Body>)
    requires r.Valid()
    modifies r
    ensures r.Valid() && Follows(v, r.Rest(), TakeBody(old(r.Rest()), minor))
  {
    hide TakeUtf, TakePlace, TakeMarker;
    var name :- r.Utf(MAX_UTF8_BYTES);
    var dimensionId :- r.Utf(MAX_UTF8_BYTES);
    var placed :- ReadPlace(r, BLANK.(name := name, dimensionId := dimensionId));
    var icon :- ReadMarker(r, minor);
    var marker :- ReadMarker(r, minor);
    return Some(placed.(iconItemId := icon, markerLabel := marker));
  }

  method ReadInbound(typeId: byte, r: Reader, minor: int) returns (v: Option<Inbound>)
    requires r.Valid()
    modifies r
    ensures r.Valid() && Follows(v, r.Rest(), TakeInbound(typeId, old(r.Rest()), minor))
  {
    hide TakeId, TakeI64, TakeI32, TakeBool, TakeBody;
    if typeId == MSG_HELLO {
      var major :- r.I32();
      var theirs :- r.I32();
      return Some(Hello(major, theirs));
    } else if typeId == MSG_SUBSCRIBE {
      return Some(Subscribe);
    } else if typeId == MSG_CREATE {
      var op :- r.Uuid();
      var revision :- r.I64();
      var body :- ReadBody(r, minor);
      return Some(Mutate(Create(op, revision, body)));
    } else if typeId == MSG_UPDATE {
      var op :- r.Uuid();
      var id :- r.Uuid();
      var revision :- r.I64();
      var body :- ReadBody(r, minor);
      return Some(Mutate(Update(op, id, revision, body)));
    } else if typeId == MSG_DELETE {
      var op :- r.Uuid();
      var id :- r.Uuid();
      var revision :- r.I64();
      return Some(Mutate(Delete(op, id, revision)));
    } else if typeId == MSG_LOCK {
      var op :- r.Uuid();
      var id :- r.Uuid();
      var revision :- r.I64();
      var locked :- r.Bool();
      return Some(Lock(op, id, revision, locked));
    } else {
      return None;
    }
  }

  /** Decodes exactly one client-to-server message. */
  method Decode(payload: seq<byte>, minor: int) returns (v: Option<Inbound>)
    ensures v == DecodeInbound(payload, minor)
    ensures v.Some? ==> InboundFits(v.value, minor) && payload == EncInbound(v.value, minor)
  {
    hide TakeInbound, EncInbound, InboundFits;
    if payload == [] || |payload| > MAX_C2S_PAYLOAD {
      return None;
    }
    var typeId := payload[0];
    if !IsKnown(typeId) || IsServerbound(typeId) {
      return None;
    }
    var r := new Reader(payload[1..]);
    var message :- ReadInbound(typeId, r, minor);
    var left := r.Remaining();
    if left != 0 {
      return None;
    }
    DecodeCanonical(payload, minor);
    return Some(message);
  }
}
