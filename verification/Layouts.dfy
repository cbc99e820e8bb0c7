/**
  The wire layout of every message, as a table: which fields, in which order, how wide, and what the
  bytes of each field count. Every message this side reads or writes is laid out as its table says.
 */
module Layouts {
  import opened Prelude
  import opened Identity
  import opened Floats
  import opened Model
  import opened Wire
  import opened Proto
  import opened Frames
  import Utf8

  datatype Field =
    | Byte(b: byte)
    | Short(n: nat)
    | Int(v: i32)
    | Long(n64: i64)
    | Word(w: u64)
    | Ident(id: Id)
    | Text(s: string)

  /** What two, four and eight bytes count, the first byte counting most. */
  function Count2(bs: seq<byte>): nat
    requires |bs| == 2
  {
    (bs[0] as int) * 0x100 + bs[1]
  }

  function Count4(bs: seq<byte>): nat
    requires |bs| == 4
  {
    (bs[0] as int) * 0x100_0000 + (bs[1] as int) * 0x1_0000 + (bs[2] as int) * 0x100 + bs[3]
  }

  function Count8(bs: seq<byte>): nat
    requires |bs| == 8
  {
    Count4(bs[..4]) * 0x1_0000_0000 + Count4(bs[4..])
  }

  function Size(f: Field): nat {
    match f
    case Byte(_) => 1
    case Short(_) => 2
    case Int(_) => 4
    case Long(_) => 8
    case Word(_) => 8
    case Ident(_) => 16
    case Text(s) => 2 + |Utf8.Encode(s)|
  }

  /** The bytes are this field: integers in two's complement, text after the count of its bytes. */
  ghost predicate Shows(bs: seq<byte>, f: Field)
    requires |bs| == Size(f)
  {
    match f
    case Byte(b) => bs[0] == b
    case Short(n) => Count2(bs) == n
    case Int(v) => Count4(bs) == if v < 0 then v + 0x1_0000_0000 else v
    case Long(v) => Count8(bs) == if v < 0 then v + 0x1_0000_0000_0000_0000 else v
    case Word(w) => Count8(bs) == w
    case Ident(id) => Count8(bs[..8]) == id.high && Count8(bs[8..]) == id.low
    case Text(s) => Count2(bs[..2]) == |Utf8.Encode(s)| && bs[2..] == Utf8.Encode(s)
  }

  /** The bytes are these fields, one after the other, and nothing else. */
  ghost predicate Laid(bs: seq<byte>, fields: seq<Field>) {
    if fields == [] then bs == []
    else Size(fields[0]) <= |bs| && Shows(bs[..Size(fields[0])], fields[0]) && Laid(bs[Size(fields[0])..], fields[1..])
  }

  // The tables.

  function StyleFields(b: Body, minor: int): seq<Field> {
    if minor >= 3 then [Text(b.iconItemId), Text(b.markerLabel)] else []
  }

  function PlaceFields(b: Body): seq<Field> {
    [Word(b.x.bits), Word(b.y.bits), Word(b.z.bits), Int(b.color), Byte(if b.kind.Normal? then 0 else 1)]
  }

  function BodyFields(b: Body, minor: int): seq<Field> {
    [Text(b.name), Text(b.dimensionId)] + (PlaceFields(b) + StyleFields(b, minor))
  }

  function InboundFields(m: Inbound, minor: int): seq<Field> {
    match m
    case Hello(major, theirs) => [Byte(1), Int(major), Int(theirs)]
    case Subscribe => [Byte(3)]
    case Mutate(Create(op, revision, b)) => [Byte(4), Ident(op), Long(revision)] + BodyFields(b, minor)
    case Mutate(Delete(op, id, revision)) => [Byte(5), Ident(op), Ident(id), Long(revision)]
    case Lock(op, id, revision, locked) =>
      [Byte(6), Ident(op), Ident(id), Long(revision), Byte(if locked then 1 else 0)]
    case Mutate(Update(op, id, revision, b)) => [Byte(11), Ident(op), Ident(id), Long(revision)] + BodyFields(b, minor)
  }

  function PointFields(w: Waypoint, minor: int): seq<Field> {
    [Ident(w.id), Ident(w.publisherId), Text(w.publisherName), Text(w.body.name), Text(w.body.dimensionId)] +
    (PlaceFields(w.body) + ([Byte(0), Long(w.createdAtMs), Long(w.revision)] + StyleFields(w.body, minor)))
  }

  function PointsFields(ws: seq<Waypoint>, minor: int): seq<Field> {
    if ws == [] then [] else PointFields(ws[0], minor) + PointsFields(ws[1..], minor)
  }

  function Flag(b: bool): Field {
    Byte(if b then 1 else 0)
  }

  function OutboundFields(m: Outbound, minor: i32): seq<Field> {
    match m
    case Status(major, _, supported, enabled, operator, worldId, revision, maxWorld, maxPlayer, owners) =>
      [Byte(2), Int(major), Int(Max(minor, 0)), Flag(supported), Flag(enabled), Flag(operator)] +
      ([Text(worldId), Long(revision), Int(maxWorld), Int(maxPlayer)] + (if minor >= 2 then [Flag(owners)] else []))
    case Snapshot(revision, operator, ws) =>
      [Byte(7), Long(revision), Flag(operator), Short(|ws|)] + PointsFields(ws, minor)
    case Upsert(revision, w) => [Byte(8), Long(revision)] + PointFields(w, minor)
    case Remove(revision, id) => [Byte(9), Long(revision), Ident(id)]
    case Outcome(op, status, error) => [Byte(10), Ident(op), Int(status), Int(error)]
  }

  // One field.

  /** The bytes of a number, one by one. */
  lemma {:induction false} LastByte(v: nat, k: nat)
    requires k >= 1
    ensures BigEndian(v, k) == BigEndian(v / 256, k - 1) + [v % 256]
  {
  }

  lemma Counts2(v: nat)
    requires v < 0x1_0000
    ensures Count2(BigEndian(v, 2)) == v
  {
    LastByte(v, 2);
    LastByte(v / 256, 1);
  }

  lemma Bytes4(v: nat)
    requires v < 0x1_0000_0000
    ensures var a := v / 256;
      var b := a / 256;
      var c := b / 256;
      BigEndian(v, 4) == [c, b % 256, a % 256, v % 256] && c < 256
  {
    var a := v / 256;
    var b := a / 256;
    var c := b / 256;
    LastByte(v, 4);
    LastByte(a, 3);
    LastByte(b, 2);
    LastByte(c, 1);
    assert BigEndian(c / 256, 0) == [];
  }

  lemma Counts4(v: nat)
    requires v < 0x1_0000_0000
    ensures Count4(BigEndian(v, 4)) == v
  {
    hide BigEndian;
    Bytes4(v);
  }

  lemma Bytes8(v: nat)
    requires v < 0x1_0000_0000_0000_0000
    ensures var a := v / 256;
      var b := a / 256;
      var c := b / 256;
      var d := c / 256;
      && d < 0x1_0000_0000
      && BigEndian(v, 8) == BigEndian(d, 4) + [c % 256, b % 256, a % 256, v % 256]
  {
    hide BigEndian;
    var a := v / 256;
    var b := a / 256;
    var c := b / 256;
    var d := c / 256;
    LastByte(v, 8);
    LastByte(a, 7);
    LastByte(b, 6);
    LastByte(c, 5);
    assert BigEndian(d, 4) + [c % 256] + [b % 256] + [a % 256] + [v % 256] ==
           BigEndian(d, 4) + [c % 256, b % 256, a % 256, v % 256];
  }

  lemma Counts8(v: nat)
    requires v < 0x1_0000_0000_0000_0000
    ensures Count8(BigEndian(v, 8)) == v
  {
    hide BigEndian;
    var a := v / 256;
    var b := a / 256;
    var c := b / 256;
    var d := c / 256;
    Bytes8(v);
    Counts4(d);
    var bs := BigEndian(v, 8);
    assert bs[..4] == BigEndian(d, 4);
    assert bs[4..] == [c % 256, b % 256, a % 256, v % 256];
  }

  lemma IntShown(v: i32)
    ensures Shows(EncI32(v), Int(v))
  {
    hide BigEndian, Count4;
    Counts4(if v < 0 then v + 0x1_0000_0000 else v);
  }

  lemma LongShown(v: i64)
    ensures Shows(EncI64(v), Long(v))
  {
    hide BigEndian, Count8;
    Counts8(if v < 0 then v + 0x1_0000_0000_0000_0000 else v);
  }

  lemma WordShown(w: u64)
    ensures Shows(EncU64(w), Word(w))
  {
    hide BigEndian, Count8;
    Counts8(w);
  }

  lemma ShortShown(n: nat)
    requires n < 0x1_0000
    ensures Shows(EncU16(n), Short(n))
  {
    hide BigEndian, Count2;
    Counts2(n);
  }

  lemma IdentShown(id: Id)
    ensures Shows(EncId(id), Ident(id))
  {
    hide BigEndian, Count8;
    Counts8(id.high);
    Counts8(id.low);
    assert EncId(id)[..8] == EncU64(id.high) && EncId(id)[8..] == EncU64(id.low);
  }

  lemma TextShown(s: string)
    requires FitsUtf(s, MAX_UTF8_BYTES)
    ensures |EncUtf(s)| == Size(Text(s)) && Shows(EncUtf(s), Text(s))
  {
    hide BigEndian, Count2, Utf8.Encode;
    Counts2(|Utf8.Encode(s)|);
    assert EncUtf(s)[..2] == EncU16(|Utf8.Encode(s)|) && EncUtf(s)[2..] == Utf8.Encode(s);
  }

  // Fields in a row.

  /** One field's bytes in front of a row. */
  lemma LaidCons(bs: seq<byte>, f: Field, rest: seq<byte>, fields: seq<Field>)
    requires |bs| == Size(f) && Shows(bs, f) && Laid(rest, fields)
    ensures Laid(bs + rest, [f] + fields)
  {
    hide Size, Shows;
    assert (bs + rest)[..|bs|] == bs && (bs + rest)[|bs|..] == rest;
    assert ([f] + fields)[1..] == fields;
  }

  lemma LaidNone()
    ensures Laid([], [])
  {
  }

  lemma ByteCons(b: byte, rest: seq<byte>, fields: seq<Field>)
    requires Laid(rest, fields)
    ensures Laid([b] + rest, [Byte(b)] + fields)
  {
    hide Laid;
    LaidCons([b], Byte(b), rest, fields);
  }

  lemma TextCons(s: string, rest: seq<byte>, fields: seq<Field>)
    requires FitsUtf(s, MAX_UTF8_BYTES) && Laid(rest, fields)
    ensures Laid(EncUtf(s) + rest, [Text(s)] + fields)
  {
    hide Laid, EncUtf, Utf8.Encode;
    TextShown(s);
    LaidCons(EncUtf(s), Text(s), rest, fields);
  }

  lemma IdentCons(id: Id, rest: seq<byte>, fields: seq<Field>)
    requires Laid(rest, fields)
    ensures Laid(EncId(id) + rest, [Ident(id)] + fields)
  {
    hide Laid;
    IdentShown(id);
    LaidCons(EncId(id), Ident(id), rest, fields);
  }

  lemma LongCons(v: i64, rest: seq<byte>, fields: seq<Field>)
    requires Laid(rest, fields)
    ensures Laid(EncI64(v) + rest, [Long(v)] + fields)
  {
    hide Laid;
    LongShown(v);
    LaidCons(EncI64(v), Long(v), rest, fields);
  }

  lemma IntCons(v: i32, rest: seq<byte>, fields: seq<Field>)
    requires Laid(rest, fields)
    ensures Laid(EncI32(v) + rest, [Int(v)] + fields)
  {
    hide Laid;
    IntShown(v);
    LaidCons(EncI32(v), Int(v), rest, fields);
  }

  lemma WordCons(w: u64, rest: seq<byte>, fields: seq<Field>)
    requires Laid(rest, fields)
    ensures Laid(EncU64(w) + rest, [Word(w)] + fields)
  {
    hide Laid;
    WordShown(w);
    LaidCons(EncU64(w), Word(w), rest, fields);
  }

  lemma Rows<T>(a: T, b: seq<T>, c: seq<T>)
    ensures ([a] + b) + c == [a] + (b + c)
  {
  }

  // Bodies and points.

  lemma MarkerLaid(s: string, minor: int, rest: seq<byte>, fields: seq<Field>)
    requires MarkerFits(s, minor) && Laid(rest, fields)
    ensures Laid(EncMarker(s, minor) + rest, (if minor >= 3 then [Text(s)] else []) + fields)
  {
    hide Laid, EncUtf, FitsUtf;
    if minor >= 3 {
      TextCons(s, rest, fields);
    } else {
      assert [] + rest == rest && [] + fields == fields;
    }
  }

  lemma StyleLaid(b: Body, minor: int, tail: seq<byte>, fields: seq<Field>)
    requires MarkerFits(b.iconItemId, minor) && MarkerFits(b.markerLabel, minor) && Laid(tail, fields)
    ensures Laid(EncStyle(b, minor, tail), StyleFields(b, minor) + fields)
  {
    hide Laid, EncMarker, MarkerFits;
    var second := if minor >= 3 then [Text(b.markerLabel)] else [];
    MarkerLaid(b.markerLabel, minor, tail, fields);
    MarkerLaid(b.iconItemId, minor, EncMarker(b.markerLabel, minor) + tail, second + fields);
    if minor >= 3 {
      assert [Text(b.iconItemId)] + (second + fields) == StyleFields(b, minor) + fields;
    } else {
      assert [] + ([] + fields) == StyleFields(b, minor) + fields;
    }
  }

  lemma PlaceLaid(b: Body, tail: seq<byte>, fields: seq<Field>)
    requires Laid(tail, fields)
    ensures Laid(EncPlace(b, tail), PlaceFields(b) + fields)
  {
    hide Laid, EncU64, EncI32;
    var kind := EncKind(b.kind);
    ByteCons(kind, tail, fields);
    var f4 := [Byte(kind)] + fields;
    IntCons(b.color, [kind] + tail, f4);
    var t3, f3 := EncI32(b.color) + ([kind] + tail), [Int(b.color)] + f4;
    WordCons(b.z.bits, t3, f3);
    WordCons(b.y.bits, EncU64(b.z.bits) + t3, [Word(b.z.bits)] + f3);
    WordCons(b.x.bits, EncU64(b.y.bits) + (EncU64(b.z.bits) + t3), [Word(b.y.bits)] + ([Word(b.z.bits)] + f3));
    assert PlaceFields(b) + fields ==
           [Word(b.x.bits)] + ([Word(b.y.bits)] + ([Word(b.z.bits)] + ([Int(b.color)] + ([Byte(kind)] + fields))));
  }

  lemma BodyLaid(b: Body, minor: int)
    requires BodyFits(b, minor)
    ensures Laid(EncBody(b, minor, []), BodyFields(b, minor))
  {
    hide Laid, EncUtf, EncPlace, EncStyle, PlaceFields, StyleFields, FitsUtf, MarkerFits;
    var style := StyleFields(b, minor);
    LaidNone();
    StyleLaid(b, minor, [], []);
    assert style + [] == style;
    PlaceLaid(b, EncStyle(b, minor, []), style);
    var t, f := EncPlace(b, EncStyle(b, minor, [])), PlaceFields(b) + style;
    TextCons(b.dimensionId, t, f);
    TextCons(b.name, EncUtf(b.dimensionId) + t, [Text(b.dimensionId)] + f);
    assert BodyFields(b, minor) == [Text(b.name)] + ([Text(b.dimensionId)] + f);
  }

  // What a client says.

  /** Every message a client can say is laid out as its table says; nothing else is ever decoded as it. */
  lemma InboundLaid(m: Inbound, minor: int)
    requires InboundFits(m, minor)
    ensures Laid(EncInbound(m, minor), InboundFields(m, minor))
  {
    hide Laid, EncId, EncI64, EncI32, EncBody, BodyFields, BodyFits;
    LaidNone();
    match m
    case Hello(major, theirs) =>
      IntCons(theirs, [], []);
      IntCons(major, EncI32(theirs) + [], [Int(theirs)] + []);
      ByteCons(1, EncI32(major) + (EncI32(theirs) + []), [Int(major)] + ([Int(theirs)] + []));
      assert InboundFields(m, minor) == [Byte(1)] + ([Int(major)] + ([Int(theirs)] + []));
    case Subscribe => ByteCons(3, [], []);
      assert [MSG_SUBSCRIBE] == [3] + [] && InboundFields(m, minor) == [Byte(3)] + [];
    case Mutate(r) => RequestLaid(r, minor);
    case Lock(op, id, revision, locked) =>
      var flag: byte := if locked then 1 else 0;
      ByteCons(flag, [], []);
      NamedLaid(6, op, id, revision, EncBool(locked) + [], [Byte(flag)] + []);
      assert InboundFields(m, minor) == [Byte(6)] + ([Ident(op)] + ([Ident(id)] + ([Long(revision)] + ([Byte(flag)] + []))));
  }

  /** A message's type, its operation, the point it names and the revision it expects, in front of the rest. */
  lemma NamedLaid(tag: byte, op: Id, id: Id, revision: i64, rest: seq<byte>, fields: seq<Field>)
    requires Laid(rest, fields)
    ensures Laid([tag] + (EncId(op) + (EncId(id) + (EncI64(revision) + rest))),
                 [Byte(tag)] + ([Ident(op)] + ([Ident(id)] + ([Long(revision)] + fields))))
  {
    hide Laid, EncId, EncI64;
    LongCons(revision, rest, fields);
    var t, f := EncI64(revision) + rest, [Long(revision)] + fields;
    IdentCons(id, t, f);
    IdentCons(op, EncId(id) + t, [Ident(id)] + f);
    ByteCons(tag, EncId(op) + (EncId(id) + t), [Ident(op)] + ([Ident(id)] + f));
  }

  lemma RequestLaid(r: Request, minor: int)
    requires RequestFits(r, minor)
    ensures Laid(EncInbound(Mutate(r), minor), InboundFields(Mutate(r), minor))
  {
    hide Laid, EncId, EncI64, EncBody, BodyFields, BodyFits;
    LaidNone();
    match r
    case Create(op, revision, b) =>
      BodyLaid(b, minor);
      var t, f := EncBody(b, minor, []), BodyFields(b, minor);
      LongCons(revision, t, f);
      IdentCons(op, EncI64(revision) + t, [Long(revision)] + f);
      ByteCons(4, EncId(op) + (EncI64(revision) + t), [Ident(op)] + ([Long(revision)] + f));
      assert InboundFields(Mutate(r), minor) == [Byte(4)] + ([Ident(op)] + ([Long(revision)] + f));
    case Update(op, id, revision, b) =>
      BodyLaid(b, minor);
      var f := BodyFields(b, minor);
      NamedLaid(11, op, id, revision, EncBody(b, minor, []), f);
      assert InboundFields(Mutate(r), minor) == [Byte(11)] + ([Ident(op)] + ([Ident(id)] + ([Long(revision)] + f)));
    case Delete(op, id, revision) =>
      NamedLaid(5, op, id, revision, [], []);
      assert InboundFields(Mutate(r), minor) == [Byte(5)] + ([Ident(op)] + ([Ident(id)] + ([Long(revision)] + [])));
  }

  /** So a payload is decoded as a message only when it is laid out as that message's table says. */
  lemma DecodedIsLaid(payload: seq<byte>, minor: int)
    requires DecodeInbound(payload, minor).Some?
    ensures Laid(payload, InboundFields(DecodeInbound(payload, minor).value, minor)) && |payload| <= 8192
  {
    hide DecodeInbound, EncInbound, InboundFields, Laid;
    var m := DecodeInbound(payload, minor).value;
    DecodeIff(payload, m, minor);
    InboundLaid(m, minor);
  }

  // What the server says.

  lemma FootLaid(w: Waypoint, minor: int, tail: seq<byte>, fields: seq<Field>)
    requires PointFits(w, minor) && Laid(tail, fields)
    ensures Laid(EncFoot(w, minor, tail),
                 [Byte(0)] + ([Long(w.createdAtMs)] + ([Long(w.revision)] + (StyleFields(w.body, minor) + fields))))
  {
    hide Laid, EncI64, EncStyle, StyleFields, FitsUtf;
    assert StyleFields(ShownBody(w.body, minor), minor) == StyleFields(w.body, minor) by { ShownStyle(w.body, minor); }
    StyleLaid(ShownBody(w.body, minor), minor, tail, fields);
    var t, f := EncStyle(ShownBody(w.body, minor), minor, tail), StyleFields(w.body, minor) + fields;
    LongCons(w.revision, t, f);
    LongCons(w.createdAtMs, EncI64(w.revision) + t, [Long(w.revision)] + f);
    ByteCons(0, EncI64(w.createdAtMs) + (EncI64(w.revision) + t), [Long(w.createdAtMs)] + ([Long(w.revision)] + f));
  }

  lemma ShownStyle(b: Body, minor: int)
    ensures StyleFields(ShownBody(b, minor), minor) == StyleFields(b, minor)
  {
  }

  lemma PointLaid(w: Waypoint, minor: int, tail: seq<byte>, fields: seq<Field>)
    requires PointFits(w, minor) && Laid(tail, fields)
    ensures Laid(EncPoint(w, minor, tail), PointFields(w, minor) + fields)
  {
    hide Laid, EncId, EncUtf, EncPlace, EncFoot, PlaceFields, StyleFields, FitsUtf, MarkerFits;
    FootLaid(w, minor, tail, fields);
    var foot := [Byte(0)] + ([Long(w.createdAtMs)] + ([Long(w.revision)] + (StyleFields(w.body, minor) + fields)));
    PlaceLaid(w.body, EncFoot(w, minor, tail), foot);
    var t, f := EncPlace(w.body, EncFoot(w, minor, tail)), PlaceFields(w.body) + foot;
    TextCons(w.body.dimensionId, t, f);
    var t1, f1 := EncUtf(w.body.dimensionId) + t, [Text(w.body.dimensionId)] + f;
    TextCons(w.body.name, t1, f1);
    var t2, f2 := EncUtf(w.body.name) + t1, [Text(w.body.name)] + f1;
    TextCons(w.publisherName, t2, f2);
    var t3, f3 := EncUtf(w.publisherName) + t2, [Text(w.publisherName)] + f2;
    IdentCons(w.publisherId, t3, f3);
    IdentCons(w.id, EncId(w.publisherId) + t3, [Ident(w.publisherId)] + f3);
    PointRow(w, minor, fields);
  }

  lemma Joined<T>(a: seq<T>, b: seq<T>, c: seq<T>, d: seq<T>, e: seq<T>)
    ensures (a + (b + (c + d))) + e == a + (b + (c + (d + e)))
  {
  }

  lemma Row3<T>(a: T, b: T, c: T, rest: seq<T>)
    ensures [a, b, c] + rest == [a] + ([b] + ([c] + rest))
  {
  }

  lemma Row5<T>(a: T, b: T, c: T, d: T, e: T, rest: seq<T>)
    ensures [a, b, c, d, e] + rest == [a] + ([b] + ([c] + ([d] + ([e] + rest))))
  {
  }

  lemma PointRow(w: Waypoint, minor: int, fields: seq<Field>)
    ensures PointFields(w, minor) + fields ==
      [Ident(w.id)] + ([Ident(w.publisherId)] + ([Text(w.publisherName)] + ([Text(w.body.name)] +
        ([Text(w.body.dimensionId)] + (PlaceFields(w.body) +
          ([Byte(0)] + ([Long(w.createdAtMs)] + ([Long(w.revision)] + (StyleFields(w.body, minor) + fields)))))))))
  {
    hide PlaceFields, StyleFields;
    var head := [Ident(w.id), Ident(w.publisherId), Text(w.publisherName), Text(w.body.name), Text(w.body.dimensionId)];
    var foot, style := [Byte(0), Long(w.createdAtMs), Long(w.revision)], StyleFields(w.body, minor);
    Joined(head, PlaceFields(w.body), foot, style, fields);
    Row3(Byte(0), Long(w.createdAtMs), Long(w.revision), style + fields);
    Row5(Ident(w.id), Ident(w.publisherId), Text(w.publisherName), Text(w.body.name), Text(w.body.dimensionId),
         PlaceFields(w.body) + (foot + (style + fields)));
  }

  lemma {:induction false} PointsLaid(ws: seq<Waypoint>, minor: int)
    requires PointsFit(ws, minor)
    ensures Laid(EncPoints(ws, minor), PointsFields(ws, minor))
  {
    hide Laid, EncPoint, PointFields, PointFits;
    if ws == [] {
      LaidNone();
    } else {
      PointsLaid(ws[1..], minor);
      PointLaid(ws[0], minor, EncPoints(ws[1..], minor), PointsFields(ws[1..], minor));
    }
  }

  function OwnersFields(m: Outbound, minor: i32): seq<Field>
    requires m.Status?
  {
    if minor >= 2 then [Flag(m.ownerManagementAllowed)] else []
  }

  lemma StatusTail(m: Outbound, minor: i32)
    requires m.Status? && OutboundFits(m, minor)
    ensures Laid(EncUtf(m.worldId) + (EncI64(m.revision) + (EncI32(m.maxWorld) + (EncI32(m.maxPlayer) +
                   (if minor >= 2 then EncBool(m.ownerManagementAllowed) else [])))),
                 [Text(m.worldId)] + ([Long(m.revision)] + ([Int(m.maxWorld)] + ([Int(m.maxPlayer)] +
                   OwnersFields(m, minor)))))
  {
    hide Laid, EncI32, EncI64, EncUtf, FitsUtf;
    LaidNone();
    var owners: byte := if m.ownerManagementAllowed then 1 else 0;
    var t0, f0 := if minor >= 2 then EncBool(m.ownerManagementAllowed) else [], OwnersFields(m, minor);
    assert Laid(t0, f0) by {
      ByteCons(owners, [], []);
      assert [owners] + [] == [owners] && [Byte(owners)] + [] == [Byte(owners)];
    }
    IntCons(m.maxPlayer, t0, f0);
    var t1, f1 := EncI32(m.maxPlayer) + t0, [Int(m.maxPlayer)] + f0;
    IntCons(m.maxWorld, t1, f1);
    var t2, f2 := EncI32(m.maxWorld) + t1, [Int(m.maxWorld)] + f1;
    LongCons(m.revision, t2, f2);
    TextCons(m.worldId, EncI64(m.revision) + t2, [Long(m.revision)] + f2);
  }

  lemma Row4<T>(a: T, b: T, c: T, d: T, rest: seq<T>)
    ensures [a, b, c, d] + rest == [a] + ([b] + ([c] + ([d] + rest)))
  {
  }

  lemma Row6<T>(a: T, b: T, c: T, d: T, e: T, f: T, rest: seq<T>)
    ensures [a, b, c, d, e, f] + rest == [a] + ([b] + ([c] + ([d] + ([e] + ([f] + rest)))))
  {
  }

  lemma StatusRow(m: Outbound, minor: i32)
    requires m.Status?
    ensures OutboundFields(m, minor) ==
      [Byte(2)] + ([Int(m.major)] + ([Int(Max(minor, 0))] + ([Flag(m.supported)] + ([Flag(m.enabled)] + ([Flag(m.operator)] +
        ([Text(m.worldId)] + ([Long(m.revision)] + ([Int(m.maxWorld)] + ([Int(m.maxPlayer)] + OwnersFields(m, minor))))))))))
  {
    var owners := OwnersFields(m, minor);
    var tail := [Text(m.worldId), Long(m.revision), Int(m.maxWorld), Int(m.maxPlayer)] + owners;
    assert OutboundFields(m, minor) ==
      [Byte(2), Int(m.major), Int(Max(minor, 0)), Flag(m.supported), Flag(m.enabled), Flag(m.operator)] + tail;
    hide OutboundFields, OwnersFields, Flag;
    Row4(Text(m.worldId), Long(m.revision), Int(m.maxWorld), Int(m.maxPlayer), owners);
    Row6(Byte(2), Int(m.major), Int(Max(minor, 0)), Flag(m.supported), Flag(m.enabled), Flag(m.operator), tail);
  }

  lemma StatusLaid(m: Outbound, minor: i32)
    requires m.Status? && OutboundFits(m, minor)
    ensures Laid(EncOutbound(m, minor), OutboundFields(m, minor))
  {
    hide Laid, EncI32, EncI64, EncUtf, FitsUtf, OutboundFields, OwnersFields;
    StatusTail(m, minor);
    StatusRow(m, minor);
    StatusHead(m, minor,
               EncUtf(m.worldId) + (EncI64(m.revision) + (EncI32(m.maxWorld) + (EncI32(m.maxPlayer) +
                 (if minor >= 2 then EncBool(m.ownerManagementAllowed) else [])))),
               [Text(m.worldId)] + ([Long(m.revision)] + ([Int(m.maxWorld)] + ([Int(m.maxPlayer)] +
                 OwnersFields(m, minor)))));
  }

  lemma StatusHead(m: Outbound, minor: i32, rest: seq<byte>, fields: seq<Field>)
    requires m.Status? && Laid(rest, fields)
    ensures Laid([2] + (EncI32(m.major) + (EncI32(Max(minor, 0)) + (EncBool(m.supported) + (EncBool(m.enabled) +
                  (EncBool(m.operator) + rest))))),
                 [Byte(2)] + ([Int(m.major)] + ([Int(Max(minor, 0))] + ([Flag(m.supported)] + ([Flag(m.enabled)] +
                  ([Flag(m.operator)] + fields))))))
  {
    hide Laid, EncI32;
    var t1, f1 := EncBool(m.operator) + rest, [Flag(m.operator)] + fields;
    ByteCons(if m.operator then 1 else 0, rest, fields);
    var t2, f2 := EncBool(m.enabled) + t1, [Flag(m.enabled)] + f1;
    ByteCons(if m.enabled then 1 else 0, t1, f1);
    var t3, f3 := EncBool(m.supported) + t2, [Flag(m.supported)] + f2;
    ByteCons(if m.supported then 1 else 0, t2, f2);
    IntCons(Max(minor, 0), t3, f3);
    var t4, f4 := EncI32(Max(minor, 0)) + t3, [Int(Max(minor, 0))] + f3;
    IntCons(m.major, t4, f4);
    ByteCons(2, EncI32(m.major) + t4, [Int(m.major)] + f4);
  }

  lemma SnapshotLaid(revision: i64, operator: bool, ws: seq<Waypoint>, minor: i32)
    requires OutboundFits(Snapshot(revision, operator, ws), minor)
    ensures Laid(EncOutbound(Snapshot(revision, operator, ws), minor),
                 OutboundFields(Snapshot(revision, operator, ws), minor))
  {
    hide Laid, EncI64, EncU16, EncPoints, PointsFields, PointFits;
    PointsLaid(ws, minor);
    var t, f := EncPoints(ws, minor), PointsFields(ws, minor);
    ShortShown(|ws|);
    LaidCons(EncU16(|ws|), Short(|ws|), t, f);
    var t1, f1 := EncU16(|ws|) + t, [Short(|ws|)] + f;
    ByteCons(if operator then 1 else 0, t1, f1);
    LongCons(revision, EncBool(operator) + t1, [Flag(operator)] + f1);
    ByteCons(7, EncI64(revision) + (EncBool(operator) + t1), [Long(revision)] + ([Flag(operator)] + f1));
    Row4(Byte(7), Long(revision), Flag(operator), Short(|ws|), f);
  }

  lemma UpsertLaid(revision: i64, w: Waypoint, minor: i32)
    requires PointFits(w, minor)
    ensures Laid(EncOutbound(Upsert(revision, w), minor), OutboundFields(Upsert(revision, w), minor))
  {
    hide Laid, EncI64, EncPoint, PointFields, PointFits;
    LaidNone();
    PointLaid(w, minor, [], []);
    assert PointFields(w, minor) + [] == PointFields(w, minor);
    LongCons(revision, EncPoint(w, minor, []), PointFields(w, minor));
    ByteCons(8, EncI64(revision) + EncPoint(w, minor, []), [Long(revision)] + PointFields(w, minor));
    assert OutboundFields(Upsert(revision, w), minor) == [Byte(8)] + ([Long(revision)] + PointFields(w, minor));
  }

  /** Every frame the server writes is laid out as its table says, whatever the minor. */
  lemma OutboundLaid(m: Outbound, minor: i32)
    requires OutboundFits(m, minor)
    ensures Laid(EncOutbound(m, minor), OutboundFields(m, minor))
  {
    hide Laid, EncId, EncI64, EncI32, EncU16, EncPoint, EncPoints, EncStatus, PointFields, PointFits, PointsFields;
    LaidNone();
    match m
    case Status(_, _, _, _, _, _, _, _, _, _) => StatusLaid(m, minor);
    case Snapshot(revision, operator, ws) => SnapshotLaid(revision, operator, ws, minor);
    case Upsert(revision, w) => UpsertLaid(revision, w, minor);
    case Remove(revision, id) =>
      IdentCons(id, [], []);
      LongCons(revision, EncId(id) + [], [Ident(id)] + []);
      ByteCons(9, EncI64(revision) + (EncId(id) + []), [Long(revision)] + ([Ident(id)] + []));
      assert OutboundFields(m, minor) == [Byte(9)] + ([Long(revision)] + ([Ident(id)] + []));
    case Outcome(op, status, error) =>
      IntCons(error, [], []);
      IntCons(status, EncI32(error) + [], [Int(error)] + []);
      IdentCons(op, EncI32(status) + (EncI32(error) + []), [Int(status)] + ([Int(error)] + []));
      ByteCons(10, EncId(op) + (EncI32(status) + (EncI32(error) + [])), [Ident(op)] + ([Int(status)] + ([Int(error)] + [])));
      assert OutboundFields(m, minor) == [Byte(10)] + ([Ident(op)] + ([Int(status)] + ([Int(error)] + [])));
  }

  // What a frame keeps from an older peer.

  /** From minor 3 a frame shows everything; before, a point loses its icon and label, and nothing else. */
  lemma ShownIs(w: Waypoint, minor: int)
    ensures minor >= 3 ==> ShownPoint(w, minor) == w
    ensures minor < 3 ==> ShownPoint(w, minor) == w.(body := w.body.(iconItemId := "", markerLabel := ""))
  {
  }
}
