/**
  The catalog file: the document a catalog is written as, what a document is read as, and the
  round trip between them. The file itself is a byte string that a save replaces or leaves alone.
 */
module Documents {
  import opened Prelude
  import opened Identity
  import opened Floats
  import opened Model
  import opened Catalogs
  import opened Json
  import opened JsonText
  import opened Decimal
  import JsonParser
  import Utf8

  const SCHEMA_VERSION := 2
  const MAX_FILE_BYTES := 8 * 1024 * 1024
  const MAX_PERSISTED_WAYPOINTS := 512
  const MAX_FLOAT_TEXT := 400
  const MAX_ICON_BYTES := 256

  /** The promise of the host's number formatter: finite doubles survive, integers are numbers. */
  ghost predicate Faithful(ft: FloatText) {
    && (forall f: F64 :: IsFinite(f) ==>
         NumberLexeme(ft.show(f)) && ft.read(ft.show(f)) == Some(f) && |ft.show(f)| <= MAX_FLOAT_TEXT)
    && (forall n: int :: ft.read(IntText(n)).Some?)
  }

  /** A formatter that prints each double's word in decimal. */
  ghost function WordText(): FloatText {
    FloatText(
      (f: F64) => NatText(f.bits),
      (s: string) => if AllDigits(s) && ReadNat(s) < 0x1_0000_0000_0000_0000 then Some(F64(ReadNat(s))) else Some(F64(0)))
  }

  /** The promise can be kept: some formatter does. */
  lemma FormatterExists()
    ensures Faithful(WordText())
  {
    hide NumberLexeme, IsFinite, ReadNat, NatText;
    var ft := WordText();
    forall f: F64 | IsFinite(f)
      ensures NumberLexeme(ft.show(f)) && ft.read(ft.show(f)) == Some(f) && |ft.show(f)| <= MAX_FLOAT_TEXT
    {
      NatTextReads(f.bits);
      IntLexeme(f.bits);
      assert IntText(f.bits) == NatText(f.bits);
      Powers10();
      LengthWithin(f.bits, 20);
    }
  }

  lemma Powers10()
    ensures Pow10(20) == 100_000_000_000_000_000_000
  {
    assert Pow10(5) == 100_000 by { assert Pow10(2) == 100; }
    assert Pow10(10) == 100_000 * Pow10(5) by { assert Pow10(7) == 100 * Pow10(5); }
    assert Pow10(15) == 100_000 * Pow10(10) by { assert Pow10(12) == 100 * Pow10(10); }
    assert Pow10(20) == 100_000 * Pow10(15) by { assert Pow10(17) == 100 * Pow10(15); }
  }

  // The document of a catalog.

  const KEYS: seq<string> := [
    "id", "publisherId", "publisherName", "name", "dimensionId", "x", "y", "z", "colorArgb", "type",
    "iconItemId", "markerLabel", "createdAtEpochMs", "revision"]

  const ROOT_KEYS: seq<string> := ["schemaVersion", "revision", "ownerInstanceId", "waypoints"]

  function KindText(kind: Kind): string {
    match kind
    case Normal => "NORMAL"
    case Death => "DEATH"
  }

  /** The values of one point's fields, in the order of `KEYS`. */
  function FieldValues(ft: FloatText, w: Waypoint): (vs: seq<Value>)
    ensures |vs| == |KEYS|
  {
    [String(UuidText(w.id)), String(UuidText(w.publisherId)), String(w.publisherName),
     String(w.body.name), String(w.body.dimensionId),
     Number(ft.show(w.body.x)), Number(ft.show(w.body.y)), Number(ft.show(w.body.z)),
     Number(IntText(w.body.color)), String(KindText(w.body.kind)),
     String(w.body.iconItemId), String(w.body.markerLabel),
     Number(IntText(w.createdAtMs)), Number(IntText(w.revision))]
  }

  /** Members laid out one per line: `lead` before each key, `close` before the closing brace. */
  function Lines(keys: seq<string>, layouts: seq<Layout>, lead: string, close: string): (ms: seq<Member>)
    requires |keys| == |layouts|
    ensures |ms| == |keys|
  {
    seq(|keys|, k requires 0 <= k < |keys| =>
      Member(lead, keys[k], [], Slot(" ", layouts[k], if k == |keys| - 1 then close else [])))
  }

  function FieldLayouts(ft: FloatText, w: Waypoint): (ls: seq<Layout>)
    ensures |ls| == |KEYS|
  {
    var vs := FieldValues(ft, w);
    seq(|KEYS|, k requires 0 <= k < |KEYS| => Leaf(vs[k]))
  }

  function EntryLayout(ft: FloatText, w: Waypoint): Layout {
    ObjectOf([], Lines(KEYS, FieldLayouts(ft, w), "\n      ", "\n    "))
  }

  function EntrySlots(ft: FloatText, points: seq<Waypoint>): (slots: seq<Slot>)
    ensures |slots| == |points|
  {
    if points == [] then []
    else [Slot("\n    ", EntryLayout(ft, points[0]), if |points| == 1 then "\n  " else [])] + EntrySlots(ft, points[1..])
  }

  function OwnerValue(owner: Option<Id>): Value {
    match owner
    case None => Null
    case Some(id) => String(UuidText(id))
  }

  function RootLayouts(ft: FloatText, owner: Option<Id>, c: Catalog): (ls: seq<Layout>)
    ensures |ls| == |ROOT_KEYS|
  {
    [Leaf(Number(IntText(SCHEMA_VERSION))), Leaf(Number(IntText(c.revision))), Leaf(OwnerValue(owner)),
     ArrayOf("\n  ", EntrySlots(ft, c.points))]
  }

  function DocumentLayout(ft: FloatText, owner: Option<Id>, c: Catalog): Layout {
    ObjectOf([], Lines(ROOT_KEYS, RootLayouts(ft, owner, c), "\n  ", "\n"))
  }

  function DocumentText(ft: FloatText, owner: Option<Id>, c: Catalog): string {
    Render(DocumentLayout(ft, owner, c)) + "\n"
  }

  /** Whether a stored point may be written back out. */
  predicate Persistable(w: Waypoint, revision: i64) {
    && Validate(w.body).Some?
    && ValidPublisherName(w.publisherName)
    && w.createdAtMs >= 0
    && 1 <= w.revision <= revision
  }

  predicate AllPersistable(c: Catalog) {
    forall k :: 0 <= k < |c.points| ==> Persistable(c.points[k], c.revision)
  }

  function ToDocument(ft: FloatText, owner: Option<Id>, c: Catalog): Option<string> {
    if AllPersistable(c) then Some(DocumentText(ft, owner, c)) else None
  }

  // The catalog of a document.

  function Get(entries: seq<Entry>, key: string): Option<Value> {
    if entries == [] then None
    else if entries[0].key == key then Some(entries[0].value)
    else Get(entries[1..], key)
  }

  function Field(v: Value, key: string): Option<Value> {
    if v.Object? then Get(v.entries, key) else None
  }

  function TextField(v: Value, key: string): Option<string> {
    match Field(v, key)
    case Some(String(s)) => Some(s)
    case _ => None
  }

  function IntField(v: Value, key: string): Option<i64> {
    match Field(v, key)
    case Some(Number(text)) => ReadI64(text)
    case _ => None
  }

  function FloatField(ft: FloatText, v: Value, key: string): Option<F64> {
    match Field(v, key)
    case Some(Number(text)) => ft.read(text)
    case _ => None
  }

  function TextFieldOrEmpty(v: Value, key: string): string {
    match TextField(v, key)
    case Some(s) => s
    case None => []
  }

  /** The low 32 bits of an integer, as the cast keeps them. */
  function WrapI32(n: i64): i32 {
    var low := n % 0x1_0000_0000;
    if low > I32_MAX then low - 0x1_0000_0000 else low
  }

  function KindOf(s: string): Option<Kind> {
    if s == "NORMAL" then Some(Normal) else if s == "DEATH" then Some(Death) else None
  }

  function ParseId(s: string): Option<Id> {
    UuidOf(Utf8.Encode(s))
  }

  function DraftOf(ft: FloatText, v: Value): Option<Body> {
    var name :- TextField(v, "name");
    var dimensionId :- TextField(v, "dimensionId");
    var x :- FloatField(ft, v, "x");
    var y :- FloatField(ft, v, "y");
    var z :- FloatField(ft, v, "z");
    var color :- IntField(v, "colorArgb");
    var kindText :- TextField(v, "type");
    var kind :- KindOf(kindText);
    Some(Body(name, dimensionId, x, y, z, WrapI32(color), kind,
              TextFieldOrEmpty(v, "iconItemId"), TextFieldOrEmpty(v, "markerLabel")))
  }

  function FromEntry(ft: FloatText, v: Value): Option<Waypoint> {
    var idText :- TextField(v, "id");
    var id :- ParseId(idText);
    var publisherText :- TextField(v, "publisherId");
    var publisherId :- ParseId(publisherText);
    var publisherName :- TextField(v, "publisherName");
    var draft :- DraftOf(ft, v);
    var createdAtMs :- IntField(v, "createdAtEpochMs");
    var revision :- IntField(v, "revision");
    if createdAtMs < 0 || revision < 1 || !ValidPublisherName(publisherName) then None
    else
      var body :- Validate(draft);
      Some(Waypoint(id, publisherId, Trim(publisherName), body, createdAtMs, revision))
  }

  /** Every entry read, or nothing. */
  function ReadPoints(ft: FloatText, list: seq<Value>): (r: Option<seq<Waypoint>>)
    ensures r.Some? ==> |r.value| == |list|
    ensures r.Some? ==> forall k :: 0 <= k < |list| ==> FromEntry(ft, list[k]) == Some(r.value[k])
  {
    hide FromEntry;
    if list == [] then Some([])
    else
      var w :- FromEntry(ft, list[0]);
      var more :- ReadPoints(ft, list[1..]);
      Some([w] + more)
  }

  ghost function FromDocument(ft: FloatText, root: Value): Option<Catalog> {
    var revision :- IntField(root, "revision");
    if revision < 0 then None
    else
      match Field(root, "waypoints")
      case Some(Array(list)) =>
        if |list| > MAX_PERSISTED_WAYPOINTS then None
        else
          var points :- ReadPoints(ft, list);
          var c := Catalog(revision, points);
          if !ValidCatalog(c) then None else Some(c)
      case _ => None
  }

  /** What a file's bytes turn out to be. */
  datatype Reading =
    | Usable(schema: i64, catalog: Catalog)
    | Newer(version: i64)
    | Foreign
    | Unusable

  ghost function ReadDocument(ft: FloatText, owner: Option<Id>, bytes: seq<byte>): Reading {
    if |bytes| > MAX_FILE_BYTES || Utf8.Decode(bytes).None? then Unusable
    else
      match ParseBytes(ft, bytes)
      case Some(Object(entries)) => ReadRoot(ft, owner, Object(entries))
      case _ => Unusable
  }

  predicate OwnedByAnother(owner: Option<Id>, root: Value) {
    owner.Some? && TextField(root, "ownerInstanceId").Some? &&
    TextField(root, "ownerInstanceId").value != UuidText(owner.value)
  }

  ghost function ReadRoot(ft: FloatText, owner: Option<Id>, root: Value): Reading {
    match IntField(root, "schemaVersion")
    case None => Unusable
    case Some(schema) =>
      if schema > SCHEMA_VERSION then Newer(schema)
      else if schema < 1 then Unusable
      else if OwnedByAnother(owner, root) then Foreign
      else
        match FromDocument(ft, root)
        case None => Unusable
        case Some(c) => Usable(schema, c)
  }

  // What an accepted document promises.

  /** A point the service could have made: normalised, displayable, not from before the epoch. */
  predicate SoundPoint(w: Waypoint) {
    Settled(w.body) && ValidPublisherName(w.publisherName) && Trim(w.publisherName) == w.publisherName && w.createdAtMs >= 0
  }

  ghost predicate SoundCatalog(c: Catalog) {
    && ValidCatalog(c)
    && |c.points| <= MAX_PERSISTED_WAYPOINTS
    && forall k :: 0 <= k < |c.points| ==> SoundPoint(c.points[k])
  }

  lemma EntrySound(ft: FloatText, v: Value)
    requires FromEntry(ft, v).Some?
    ensures SoundPoint(FromEntry(ft, v).value)
  {
    hide Validate, DraftOf, TextField, IntField, ParseId, ValidDisplayText;
    ValidateIdempotent(DraftOf(ft, v).value);
    PublisherNameIdempotent(TextField(v, "publisherName").value);
  }

  lemma AcceptedIsSound(ft: FloatText, owner: Option<Id>, bytes: seq<byte>)
    requires ReadDocument(ft, owner, bytes).Usable?
    ensures SoundCatalog(ReadDocument(ft, owner, bytes).catalog)
  {
    hide IntField, FromEntry, ValidCatalog, ParseBytes, SoundPoint;
    var root := ParseBytes(ft, bytes).value;
    var list := Field(root, "waypoints").value.items;
    var c := ReadDocument(ft, owner, bytes).catalog;
    forall k | 0 <= k < |c.points|
      ensures SoundPoint(c.points[k])
    {
      EntrySound(ft, list[k]);
    }
  }

  /** Nothing an accepted document holds is refused when it is written back. */
  lemma SoundIsPersistable(c: Catalog)
    requires SoundCatalog(c)
    ensures AllPersistable(c)
  {
    hide Validate, ValidPublisherName, Trim;
  }

  // Reading back one entry.

  lemma {:induction false} GetAt(entries: seq<Entry>, k: nat)
    requires k < |entries|
    requires forall i, j :: 0 <= i < j < |entries| ==> entries[i].key != entries[j].key
    ensures Get(entries, entries[k].key) == Some(entries[k].value)
  {
    if k > 0 {
      assert entries[0].key != entries[k].key;
      assert entries[1..][k - 1] == entries[k];
      GetAt(entries[1..], k - 1);
    }
  }

  lemma {:induction false} MeaningsAt(ms: seq<Member>)
    ensures |MemberMeanings(ms)| == |ms|
    ensures forall k :: 0 <= k < |ms| ==> MemberMeanings(ms)[k] == Entry(ms[k].key, Meaning(ms[k].slot.layout))
  {
    hide Meaning;
    if ms != [] {
      MeaningsAt(ms[1..]);
    }
  }

  /** A length and a first letter tell all the keys apart. */
  lemma KeysDistinct(i: nat, j: nat)
    requires i < j < |KEYS|
    ensures KEYS[i] != KEYS[j]
  {
    assert |KEYS[0]| == 2 && |KEYS[1]| == 11 && |KEYS[2]| == 13 && |KEYS[3]| == 4 && |KEYS[4]| == 11;
    assert |KEYS[5]| == |KEYS[6]| == |KEYS[7]| == 1 && |KEYS[8]| == 9 && |KEYS[9]| == 4 && |KEYS[10]| == 10;
    assert |KEYS[11]| == 11 && |KEYS[12]| == 16 && |KEYS[13]| == 8;
    assert KEYS[1][0] == 'p' && KEYS[4][0] == 'd' && KEYS[11][0] == 'm';
    assert KEYS[3][0] == 'n' && KEYS[9][0] == 't';
    assert KEYS[5][0] == 'x' && KEYS[6][0] == 'y' && KEYS[7][0] == 'z';
  }

  function EntryValue(ft: FloatText, w: Waypoint): Value {
    Meaning(EntryLayout(ft, w))
  }

  lemma FieldAt(ft: FloatText, w: Waypoint, k: nat)
    requires k < |KEYS|
    ensures Field(EntryValue(ft, w), KEYS[k]) == Some(FieldValues(ft, w)[k])
  {
    hide FieldValues;
    var ms := Lines(KEYS, FieldLayouts(ft, w), "\n      ", "\n    ");
    MeaningsAt(ms);
    var entries := MemberMeanings(ms);
    forall i, j | 0 <= i < j < |entries|
      ensures entries[i].key != entries[j].key
    {
      KeysDistinct(i, j);
    }
    GetAt(entries, k);
  }

  lemma UuidTextReads(id: Id)
    ensures ParseId(UuidText(id)) == Some(id)
  {
    hide UuidOf;
    var text, bytes := UuidText(id), UuidBytes(id);
    EncodeAscii(text);
    assert Bytes(text) == bytes;
    UuidInverse(id);
  }

  lemma DraftInverse(ft: FloatText, w: Waypoint)
    requires Faithful(ft) && IsFinite(w.body.x) && IsFinite(w.body.y) && IsFinite(w.body.z)
    ensures DraftOf(ft, EntryValue(ft, w)) == Some(w.body)
  {
    hide Field, EntryValue, IsFinite, NumberLexeme, IntText, ReadI64, Validate, ValidPublisherName;
    var v := EntryValue(ft, w);
    FieldAt(ft, w, 3);
    FieldAt(ft, w, 4);
    FieldAt(ft, w, 5);
    FieldAt(ft, w, 6);
    FieldAt(ft, w, 7);
    FieldAt(ft, w, 8);
    FieldAt(ft, w, 9);
    FieldAt(ft, w, 10);
    FieldAt(ft, w, 11);
    IntTextReads(w.body.color);
    assert WrapI32(w.body.color) == w.body.color;
    assert KindOf(KindText(w.body.kind)) == Some(w.body.kind);
  }

  lemma SettledIsFinite(b: Body)
    requires Settled(b)
    ensures IsFinite(b.x) && IsFinite(b.y) && IsFinite(b.z)
  {
    hide Floats.Value, IsFinite, ValidDisplayText, ValidDimensionId, NormalizeIconItemId, NormalizeMarkerLabel;
  }

  /** Every sound point is read back from its entry, field for field. */
  lemma EntryInverse(ft: FloatText, w: Waypoint)
    requires Faithful(ft) && SoundPoint(w) && w.revision >= 1
    ensures FromEntry(ft, EntryValue(ft, w)) == Some(w)
  {
    hide Field, EntryValue, DraftOf, IntText, ReadI64, Validate, ValidPublisherName, ParseId, Faithful, Trim, IsFinite;
    FieldAt(ft, w, 0);
    FieldAt(ft, w, 1);
    FieldAt(ft, w, 2);
    FieldAt(ft, w, 12);
    FieldAt(ft, w, 13);
    UuidTextReads(w.id);
    UuidTextReads(w.publisherId);
    SettledIsFinite(w.body);
    DraftInverse(ft, w);
    IntTextReads(w.createdAtMs);
    IntTextReads(w.revision);
  }

  // Reading back the whole document.

  function RootValue(ft: FloatText, owner: Option<Id>, c: Catalog): Value {
    Meaning(DocumentLayout(ft, owner, c))
  }

  lemma RootKeysDistinct(i: nat, j: nat)
    requires i < j < |ROOT_KEYS|
    ensures ROOT_KEYS[i] != ROOT_KEYS[j]
  {
    assert |ROOT_KEYS[0]| == 13 && |ROOT_KEYS[1]| == 8 && |ROOT_KEYS[2]| == 15 && |ROOT_KEYS[3]| == 9;
  }

  lemma RootFieldAt(ft: FloatText, owner: Option<Id>, c: Catalog, k: nat)
    requires k < |ROOT_KEYS|
    ensures RootValue(ft, owner, c).Object?
    ensures Field(RootValue(ft, owner, c), ROOT_KEYS[k]) == Some(Meaning(RootLayouts(ft, owner, c)[k]))
  {
    hide RootLayouts;
    var ms := Lines(ROOT_KEYS, RootLayouts(ft, owner, c), "\n  ", "\n");
    MeaningsAt(ms);
    var entries := MemberMeanings(ms);
    forall i, j | 0 <= i < j < |entries|
      ensures entries[i].key != entries[j].key
    {
      RootKeysDistinct(i, j);
    }
    GetAt(entries, k);
  }

  lemma {:induction false} SlotsMeaning(ft: FloatText, points: seq<Waypoint>)
    ensures |SlotMeanings(EntrySlots(ft, points))| == |points|
    ensures forall k :: 0 <= k < |points| ==> SlotMeanings(EntrySlots(ft, points))[k] == EntryValue(ft, points[k])
  {
    hide EntryLayout, Meaning;
    if points != [] {
      SlotsMeaning(ft, points[1..]);
      assert EntrySlots(ft, points)[1..] == EntrySlots(ft, points[1..]);
    }
  }

  lemma {:induction false} PointsInverse(ft: FloatText, points: seq<Waypoint>, list: seq<Value>)
    requires Faithful(ft) && |list| == |points|
    requires forall k :: 0 <= k < |points| ==>
      SoundPoint(points[k]) && points[k].revision >= 1 && list[k] == EntryValue(ft, points[k])
    ensures ReadPoints(ft, list) == Some(points)
  {
    hide Faithful, SoundPoint, EntryValue, FromEntry;
    if points != [] {
      EntryInverse(ft, points[0]);
      PointsInverse(ft, points[1..], list[1..]);
      assert points == [points[0]] + points[1..];
    }
  }

  lemma HeadInverse(ft: FloatText, owner: Option<Id>, c: Catalog)
    ensures var root := RootValue(ft, owner, c);
      && root.Object?
      && IntField(root, "schemaVersion") == Some(SCHEMA_VERSION)
      && IntField(root, "revision") == Some(c.revision)
      && !OwnedByAnother(owner, root)
  {
    hide Field, RootValue, IntText, ReadI64, UuidText, EntrySlots;
    RootFieldAt(ft, owner, c, 0);
    RootFieldAt(ft, owner, c, 1);
    RootFieldAt(ft, owner, c, 2);
    IntTextReads(SCHEMA_VERSION);
    IntTextReads(c.revision);
  }

  lemma ListInverse(ft: FloatText, owner: Option<Id>, c: Catalog)
    requires Faithful(ft) && SoundCatalog(c)
    ensures var field := Field(RootValue(ft, owner, c), "waypoints");
      && field.Some? && field.value.Array? && |field.value.items| == |c.points|
      && ReadPoints(ft, field.value.items) == Some(c.points)
  {
    hide Field, RootValue, IntText, UuidText, EntrySlots, SoundPoint, Faithful, ReadPoints, ValidCatalog;
    RootFieldAt(ft, owner, c, 3);
    var list := SlotMeanings(EntrySlots(ft, c.points));
    SlotsMeaning(ft, c.points);
    ValidRevisions(c);
    PointsInverse(ft, c.points, list);
  }

  lemma RootInverse(ft: FloatText, owner: Option<Id>, c: Catalog)
    requires Faithful(ft) && SoundCatalog(c)
    ensures ReadRoot(ft, owner, RootValue(ft, owner, c)) == Usable(SCHEMA_VERSION, c)
  {
    hide Field, RootValue, IntField, OwnedByAnother, SoundPoint, Faithful, ReadPoints, ValidCatalog;
    HeadInverse(ft, owner, c);
    ListInverse(ft, owner, c);
    assert c.revision >= 0 by { ValidRevisions(c); }
  }

  lemma ValidRevisions(c: Catalog)
    requires ValidCatalog(c)
    ensures c.revision >= 0 && forall k :: 0 <= k < |c.points| ==> 1 <= c.points[k].revision <= c.revision
  {
  }

  // The text is well laid out.

  lemma FieldsWellLaid(ft: FloatText, w: Waypoint)
    requires Faithful(ft) && Settled(w.body)
    ensures forall k :: 0 <= k < |KEYS| ==> WellLaid(ft, FieldLayouts(ft, w)[k])
  {
    hide NumberLexeme, IntText, IsFinite, Settled;
    SettledIsFinite(w.body);
    IntLexeme(w.body.color);
    IntLexeme(w.createdAtMs);
    IntLexeme(w.revision);
  }

  lemma LinesWellLaid(ft: FloatText, keys: seq<string>, layouts: seq<Layout>, lead: string, close: string)
    requires |keys| == |layouts| && IsBlank(lead) && IsBlank(close)
    requires forall k :: 0 <= k < |layouts| ==> WellLaid(ft, layouts[k])
    ensures WellLaid(ft, ObjectOf([], Lines(keys, layouts, lead, close)))
  {
    var ms := Lines(keys, layouts, lead, close);
    forall m | m in ms
      ensures IsBlank(m.lead) && IsBlank(m.gap) && WellSlotted(ft, m.slot)
    {
      var k :| 0 <= k < |ms| && ms[k] == m;
      assert IsBlank(" ");
    }
  }

  lemma {:induction false} SlotsWellLaid(ft: FloatText, points: seq<Waypoint>)
    requires Faithful(ft) && forall k :: 0 <= k < |points| ==> Settled(points[k].body)
    ensures forall s :: s in EntrySlots(ft, points) ==> WellSlotted(ft, s)
  {
    hide WellLaid, Faithful, Settled, FieldLayouts, Lines;
    if points != [] {
      SlotsWellLaid(ft, points[1..]);
      FieldsWellLaid(ft, points[0]);
      LinesWellLaid(ft, KEYS, FieldLayouts(ft, points[0]), "\n      ", "\n    ");
      assert IsBlank("\n    ") && IsBlank("\n  ") && IsBlank([]);
    }
  }

  lemma DocumentWellLaid(ft: FloatText, owner: Option<Id>, c: Catalog)
    requires Faithful(ft) && SoundCatalog(c)
    ensures WellLaid(ft, DocumentLayout(ft, owner, c))
  {
    hide NumberLexeme, IntText, IsFinite, Settled, EntrySlots, Lines, WellSlotted, Trim, ValidPublisherName;
    IntLexeme(SCHEMA_VERSION);
    IntLexeme(c.revision);
    SlotsWellLaid(ft, c.points);
    assert IsBlank("\n  ");
    LinesWellLaid(ft, ROOT_KEYS, RootLayouts(ft, owner, c), "\n  ", "\n");
  }

  lemma {:induction false} LeafLinesNesting(entries: seq<Entry>)
    requires forall k :: 0 <= k < |entries| ==> Nesting(entries[k].value) == 0
    ensures EntriesNesting(entries) <= 1
  {
    if entries != [] {
      LeafLinesNesting(entries[1..]);
    }
  }

  lemma EntryNesting(ft: FloatText, w: Waypoint)
    ensures Nesting(EntryValue(ft, w)) <= 1
  {
    var ms := Lines(KEYS, FieldLayouts(ft, w), "\n      ", "\n    ");
    MeaningsAt(ms);
    LeafLinesNesting(MemberMeanings(ms));
  }

  lemma {:induction false} ItemsNestingWithin(items: seq<Value>, n: nat)
    requires forall k :: 0 <= k < |items| ==> Nesting(items[k]) <= n
    ensures ItemsNesting(items) <= n + 1
  {
    hide Nesting;
    if items != [] {
      ItemsNestingWithin(items[1..], n);
    }
  }

  lemma {:induction false} EntriesNestingWithin(entries: seq<Entry>, n: nat)
    requires forall k :: 0 <= k < |entries| ==> Nesting(entries[k].value) <= n
    ensures EntriesNesting(entries) <= n + 1
  {
    hide Nesting;
    if entries != [] {
      EntriesNestingWithin(entries[1..], n);
    }
  }

  lemma DocumentNesting(ft: FloatText, owner: Option<Id>, c: Catalog)
    ensures Nesting(RootValue(ft, owner, c)) <= 3
  {
    hide EntryValue, Lines, EntrySlots, SlotMeanings, MemberMeanings, IntText, UuidText, ItemsNesting;
    var list := SlotMeanings(EntrySlots(ft, c.points));
    SlotsMeaning(ft, c.points);
    forall k | 0 <= k < |list|
      ensures Nesting(list[k]) <= 1
    {
      EntryNesting(ft, c.points[k]);
    }
    ItemsNestingWithin(list, 1);
    var ms := Lines(ROOT_KEYS, RootLayouts(ft, owner, c), "\n  ", "\n");
    MeaningsAt(ms);
    var entries := MemberMeanings(ms);
    forall k | 0 <= k < |entries|
      ensures Nesting(entries[k].value) <= 2
    {
      assert entries[k].value == Meaning(RootLayouts(ft, owner, c)[k]) by { LinesAt(ft, owner, c, k); }
    }
    EntriesNestingWithin(entries, 2);
  }

  lemma LinesAt(ft: FloatText, owner: Option<Id>, c: Catalog, k: nat)
    requires k < |ROOT_KEYS|
    ensures Lines(ROOT_KEYS, RootLayouts(ft, owner, c), "\n  ", "\n")[k].slot.layout == RootLayouts(ft, owner, c)[k]
  {
  }

  /** The parser, given the document of a sound catalog, returns that document's value. */
  lemma DocumentParses(ft: FloatText, owner: Option<Id>, c: Catalog)
    requires Faithful(ft) && SoundCatalog(c)
    ensures ParseBytes(ft, Utf8.Encode(DocumentText(ft, owner, c))) == Some(RootValue(ft, owner, c))
  {
    hide Utf8.Encode, Render, WellLaid, DocumentLayout, Nesting, ParseBytes;
    DocumentWellLaid(ft, owner, c);
    DocumentNesting(ft, owner, c);
    var l := DocumentLayout(ft, owner, c);
    assert IsBlank("") && IsBlank("\n");
    DocumentReadBack(ft, "", l, "\n");
    assert "" + (Render(l) + "\n") == Render(l) + "\n";
  }
}
