/**
  Which documents are accepted, in full: what an id, an entry and a root must say, and what is kept of
  them; and that a point is written out exactly when it would be read back.
 */
module Entries {
  import opened Prelude
  import opened Identity
  import opened Floats
  import opened Model
  import opened Catalogs
  import opened Json
  import opened Decimal
  import opened Documents
  import opened Spellings
  import Utf8

  // Ids.

  function Lower(b: byte): byte {
    if 0x41 <= b <= 0x46 then b + 0x20 else b
  }

  lemma {:induction false} DigitsInverse(ns: seq<nibble>)
    ensures Nibbles(FromNibbles(ns), |ns|) == ns
  {
    if ns != [] {
      var front, last := ns[..|ns| - 1], ns[|ns| - 1];
      DigitsInverse(front);
      var v := FromNibbles(front);
      assert (v * 16 + last) / 16 == v && (v * 16 + last) % 16 == last;
    }
  }

  lemma DigitIs(b: byte, n: nibble)
    ensures NibbleOf(b) == Some(n) <==> Lower(b) == DigitByte(n)
  {
  }

  /** A text is an id exactly when it is the text that id is printed as, letters in either case. */
  lemma UuidIff(bytes: seq<byte>, id: Id)
    ensures UuidOf(bytes) == Some(id) <==>
      |bytes| == 36 && forall i :: 0 <= i < 36 ==> Lower(bytes[i]) == UuidBytes(id)[i]
  {
    hide FromNibbles, Nibbles;
    if UuidOf(bytes) == Some(id) {
      var ns := UuidNibbles(bytes);
      DigitsInverse(ns[..16]);
      DigitsInverse(ns[16..]);
      forall i | 0 <= i < 36
        ensures Lower(bytes[i]) == UuidBytes(id)[i]
      {
        if !IsDashSlot(i) {
          DigitIs(bytes[i], ns[i - SlotsBefore(i)]);
        }
      }
    }
    if |bytes| == 36 && forall i :: 0 <= i < 36 ==> Lower(bytes[i]) == UuidBytes(id)[i] {
      SameDigits(bytes, id);
      UuidInverse(id);
    }
  }

  lemma SameDigits(bytes: seq<byte>, id: Id)
    requires |bytes| == 36 && forall i :: 0 <= i < 36 ==> Lower(bytes[i]) == UuidBytes(id)[i]
    ensures UuidOf(bytes) == UuidOf(UuidBytes(id))
  {
    hide FromNibbles, UuidBytes;
    var canonical := UuidBytes(id);
    forall i | 0 <= i < 36
      ensures NibbleOf(bytes[i]) == NibbleOf(canonical[i]) && (bytes[i] == DASH <==> canonical[i] == DASH)
    {
      assert canonical[i] == UuidByte(id, i);
    }
    if IsUuidForm(bytes) {
      assert UuidNibbles(bytes) == UuidNibbles(canonical);
    }
  }

  // Fields.

  /** A field is the first entry of that key. */
  lemma {:induction false} GetIff(entries: seq<Entry>, key: string, value: Value)
    ensures Get(entries, key) == Some(value) <==>
      exists k :: 0 <= k < |entries| && entries[k] == Entry(key, value) && forall j :: 0 <= j < k ==> entries[j].key != key
  {
    if entries != [] && entries[0].key != key {
      var rest := entries[1..];
      GetIff(rest, key, value);
      if Get(rest, key) == Some(value) {
        var k :| 0 <= k < |rest| && rest[k] == Entry(key, value) && forall j :: 0 <= j < k ==> rest[j].key != key;
        assert entries[k + 1] == Entry(key, value) && forall j :: 0 <= j < k + 1 ==> entries[j].key != key;
      }
      if k :| 0 <= k < |entries| && entries[k] == Entry(key, value) && forall j :: 0 <= j < k ==> entries[j].key != key {
        assert rest[k - 1] == Entry(key, value) && forall j :: 0 <= j < k - 1 ==> rest[j].key != key;
      }
    } else if entries != [] {
      assert entries[0] == Entry(key, entries[0].value);
    }
  }

  predicate HasText(v: Value, key: string, s: string) {
    Field(v, key) == Some(String(s))
  }

  /** The field is a number that spells this integer. */
  predicate HasInt(v: Value, key: string, n: int) {
    var field := Field(v, key);
    field.Some? && field.value.Number? && IsI64(n) && ReadI64(field.value.text) == Some(n)
  }

  predicate HasReal(ft: FloatText, v: Value, key: string, f: F64) {
    var field := Field(v, key);
    field.Some? && field.value.Number? && ft.read(field.value.text) == Some(f)
  }

  /** The field is an id's text, letters in either case. */
  ghost predicate HasId(v: Value, key: string, id: Id) {
    exists s :: HasText(v, key, s) && UuidOf(Utf8.Encode(s)) == Some(id)
  }

  /** The field's text, or none when it is absent or no text. */
  predicate MayHaveText(v: Value, key: string, s: string) {
    HasText(v, key, s) || (s == "" && (Field(v, key).None? || !Field(v, key).value.String?))
  }

  predicate IsI64(n: int) {
    -0x8000_0000_0000_0000 <= n < 0x8000_0000_0000_0000
  }

  /** What an entry says of the body of its point; of a colour the low 32 bits are kept. */
  ghost predicate SaysBody(ft: FloatText, v: Value, draft: Body) {
    && HasText(v, "name", draft.name) && HasText(v, "dimensionId", draft.dimensionId)
    && HasReal(ft, v, "x", draft.x) && HasReal(ft, v, "y", draft.y) && HasReal(ft, v, "z", draft.z)
    && (exists n :: HasInt(v, "colorArgb", n) && (n - draft.color) % 0x1_0000_0000 == 0)
    && HasText(v, "type", if draft.kind.Normal? then "NORMAL" else "DEATH")
    && MayHaveText(v, "iconItemId", draft.iconItemId) && MayHaveText(v, "markerLabel", draft.markerLabel)
  }

  /** The cast keeps the low 32 bits. */
  lemma WrapIff(n: i64, color: i32)
    ensures WrapI32(n) == color <==> (n - color) % 0x1_0000_0000 == 0
  {
  }

  lemma DraftSays(ft: FloatText, v: Value)
    requires DraftOf(ft, v).Some?
    ensures SaysBody(ft, v, DraftOf(ft, v).value)
  {
    hide Field, ReadI64, WrapI32;
    var n := IntField(v, "colorArgb").value;
    assert HasInt(v, "colorArgb", n);
    WrapIff(n, WrapI32(n));
  }

  lemma SaidDraft(ft: FloatText, v: Value, draft: Body)
    requires SaysBody(ft, v, draft)
    ensures DraftOf(ft, v) == Some(draft)
  {
    hide Field, ReadI64, WrapI32;
    var n :| HasInt(v, "colorArgb", n) && (n - draft.color) % 0x1_0000_0000 == 0;
    WrapIff(n, draft.color);
  }

  /** An entry is read as a point exactly when it says so, the body and the name are valid, and it is of this age. */
  lemma EntryReadIff(ft: FloatText, v: Value, w: Waypoint)
    ensures FromEntry(ft, v) == Some(w) <==>
      && HasId(v, "id", w.id) && HasId(v, "publisherId", w.publisherId)
      && (exists name :: HasText(v, "publisherName", name) && ValidPublisherName(name) && w.publisherName == Trim(name))
      && (exists draft :: SaysBody(ft, v, draft) && Validate(draft) == Some(w.body))
      && HasInt(v, "createdAtEpochMs", w.createdAtMs) && w.createdAtMs >= 0
      && HasInt(v, "revision", w.revision) && w.revision >= 1
  {
    hide Field, ReadI64, DraftOf, Validate, SaysBody, UuidOf, Trim, ValidPublisherName, Utf8.Encode;
    if DraftOf(ft, v).Some? {
      DraftSays(ft, v);
    }
    forall draft | SaysBody(ft, v, draft)
      ensures DraftOf(ft, v) == Some(draft)
    {
      SaidDraft(ft, v, draft);
    }
  }

  /**
    A root is read as a catalog exactly when it gives the revision and a list of at most 512 entries, each
    read as its point, none of a later revision and no two of one id.
   */
  lemma DocumentReadIff(ft: FloatText, root: Value, c: Catalog)
    ensures FromDocument(ft, root) == Some(c) <==>
      && HasInt(root, "revision", c.revision) && c.revision >= 0
      && |c.points| <= 512
      && (exists list :: Field(root, "waypoints") == Some(Array(list)) && |list| == |c.points|
           && forall k :: 0 <= k < |list| ==> FromEntry(ft, list[k]) == Some(c.points[k]))
      && (forall k :: 0 <= k < |c.points| ==> c.points[k].revision <= c.revision)
      && (forall i, j :: 0 <= i < j < |c.points| ==> c.points[i].id != c.points[j].id)
  {
    hide Field, ReadI64, FromEntry;
    forall list | |list| == |c.points| && forall k :: 0 <= k < |list| ==> FromEntry(ft, list[k]) == Some(c.points[k])
      ensures ReadPoints(ft, list) == Some(c.points)
      ensures forall k :: 0 <= k < |c.points| ==> c.points[k].revision >= 1
    {
      ReadAll(ft, list, c.points);
    }
    if FromDocument(ft, root) == Some(c) {
      var list := Field(root, "waypoints").value.items;
      assert Field(root, "waypoints") == Some(Array(list));
    }
  }

  lemma {:induction false} ReadAll(ft: FloatText, list: seq<Value>, points: seq<Waypoint>)
    requires |list| == |points| && forall k :: 0 <= k < |list| ==> FromEntry(ft, list[k]) == Some(points[k])
    ensures ReadPoints(ft, list) == Some(points) && forall k :: 0 <= k < |points| ==> points[k].revision >= 1
  {
    hide FromEntry;
    if list != [] {
      ReadAll(ft, list[1..], points[1..]);
      EntryAge(ft, list[0], points[0]);
      assert points == [points[0]] + points[1..];
    }
  }

  lemma EntryAge(ft: FloatText, v: Value, w: Waypoint)
    requires FromEntry(ft, v) == Some(w)
    ensures w.revision >= 1
  {
    hide DraftOf, Validate, ParseId, TextField;
  }

  /** A point is written out exactly when the entry it would be written as would be read back, at its revision or later. */
  lemma WrittenIff(ft: FloatText, w: Waypoint, revision: i64)
    requires Faithful(ft)
    ensures Persistable(w, revision) <==>
      && IsFinite(w.body.x) && IsFinite(w.body.y) && IsFinite(w.body.z)
      && FromEntry(ft, EntryValue(ft, w)).Some? && w.revision <= revision
  {
    hide Field, EntryValue, IntText, ReadI64, Validate, ValidPublisherName, ParseId, Faithful, Trim, UuidText, IsFinite,
      DraftOf;
    if Validate(w.body).Some? {
      ValidIsFinite(w.body);
    }
    if IsFinite(w.body.x) && IsFinite(w.body.y) && IsFinite(w.body.z) {
      EntryFields(ft, w);
      UuidTextReads(w.id);
      UuidTextReads(w.publisherId);
      IntTextReads(w.createdAtMs);
      IntTextReads(w.revision);
      DraftInverse(ft, w);
    }
  }

  lemma ValidIsFinite(b: Body)
    requires Validate(b).Some?
    ensures IsFinite(b.x) && IsFinite(b.y) && IsFinite(b.z)
  {
    hide Floats.Value, IsFinite, ValidDisplayText, ValidDimensionId, NormalizeIconItemId, NormalizeMarkerLabel;
  }
}
