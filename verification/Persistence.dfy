/** Durable storage for the catalog: one file, replaced whole by a save or left as it was. */
module Persistence {
  import opened Prelude
  import opened Identity
  import opened Model
  import opened Catalogs
  import opened Json
  import opened JsonText
  import opened Decimal
  import opened Documents
  import opened DocumentSize
  import JsonParser
  import Utf8

  /** The bytes of the catalog file, when there is one. */
  type File = Option<seq<byte>>

  datatype Loaded = Ready(catalog: Catalog) | UnsupportedSchema(version: i64)

  /** Who writes the file, and how numbers are printed. */
  datatype Writer = Writer(floats: FloatText, owner: Option<Id>)

  // What the operations do to the file.

  predicate CanSave(c: Catalog) {
    |c.points| <= MAX_PERSISTED_WAYPOINTS && AllPersistable(c)
  }

  function Content(writer: Writer, c: Catalog): seq<byte> {
    Utf8.Encode(DocumentText(writer.floats, writer.owner, c))
  }

  /** A save: `writable` says whether the file system takes the write. */
  function Saved(writer: Writer, file: File, c: Catalog, writable: bool): (bool, File) {
    if CanSave(c) && writable then (true, Some(Content(writer, c))) else (false, file)
  }

  /** A file moved aside, when the file system lets it be moved. */
  function Aside(file: File, movable: bool): File {
    if movable then None else file
  }

  ghost function LoadedFrom(writer: Writer, file: File, movable: bool, writable: bool): (Loaded, File) {
    match file
    case None => (Ready(EMPTY), None)
    case Some(bytes) =>
      match ReadDocument(writer.floats, writer.owner, bytes)
      case Newer(version) => (UnsupportedSchema(version), file)
      case Usable(schema, c) =>
        (Ready(c), if schema < SCHEMA_VERSION then Saved(writer, file, c, writable).1 else file)
      case _ => (Ready(EMPTY), Aside(file, movable))
  }

  /** Loading the file, whatever the file system then lets happen to it, gives exactly this catalog. */
  ghost predicate Holds(writer: Writer, file: File, c: Catalog) {
    match file
    case None => c == EMPTY
    case Some(bytes) =>
      var r := ReadDocument(writer.floats, writer.owner, bytes);
      r.Usable? && r.catalog == c
  }

  // The file's laws.

  /** A successful save is durable: the file now holds the saved catalog. */
  lemma SaveHolds(writer: Writer, file: File, c: Catalog, writable: bool)
    requires Faithful(writer.floats) && SoundCatalog(c) && SmallIcons(c)
    ensures Saved(writer, file, c, writable).0 == writable
    ensures Saved(writer, file, c, writable).0 ==> Holds(writer, Saved(writer, file, c, writable).1, c)
    ensures !Saved(writer, file, c, writable).0 ==> Saved(writer, file, c, writable).1 == file
  {
    hide Faithful, AllPersistable, DocumentText, ReadDocument;
    SoundIsPersistable(c);
    DocumentRoundTrip(writer.floats, writer.owner, c);
  }

  /** Loading is stable: what the file held is loaded, and the file still holds it afterwards. */
  lemma LoadHolds(writer: Writer, file: File, c: Catalog, movable: bool, writable: bool)
    requires Faithful(writer.floats) && Holds(writer, file, c) && SmallIcons(c)
    ensures SoundCatalog(c)
    ensures LoadedFrom(writer, file, movable, writable).0 == Ready(c)
    ensures Holds(writer, LoadedFrom(writer, file, movable, writable).1, c)
  {
    hide Faithful, ReadDocument, Saved, SmallIcons;
    match file
    case None =>
    case Some(bytes) =>
      AcceptedIsSound(writer.floats, writer.owner, bytes);
      SaveHolds(writer, file, c, writable);
  }

  // Writing.

  /** The entries of a document, comma-separated, without the bracket that closes them. */
  function EntriesText(ft: FloatText, points: seq<Waypoint>): string {
    if points == [] then []
    else
      "\n    " + (Render(EntryLayout(ft, points[0])) +
        (if |points| == 1 then [] else "," + EntriesText(ft, points[1..])))
  }

  lemma {:induction false} EntriesSnoc(ft: FloatText, points: seq<Waypoint>, w: Waypoint)
    ensures EntriesText(ft, points + [w]) ==
      EntriesText(ft, points) + ((if points == [] then [] else ",") + ("\n    " + Render(EntryLayout(ft, w))))
  {
    hide EntryLayout, Render;
    if points == [] {
      assert points + [w] == [w];
      assert Render(EntryLayout(ft, w)) + [] == Render(EntryLayout(ft, w));
    } else {
      assert (points + [w])[0] == points[0] && (points + [w])[1..] == points[1..] + [w];
      EntriesSnoc(ft, points[1..], w);
      var text, last := Render(EntryLayout(ft, points[0])), "\n    " + Render(EntryLayout(ft, w));
      if |points| == 1 {
        assert points[1..] == [] && [] + last == last && text + [] == text;
        Regroup("\n    ", text, [], "," + last);
        assert [] + ("," + last) == "," + last;
      } else {
        var more := EntriesText(ft, points[1..]);
        assert "," + (more + ("," + last)) == ("," + more) + ("," + last);
        Regroup("\n    ", text, "," + more, "," + last);
      }
    }
  }

  lemma Regroup(a: string, b: string, c: string, d: string)
    ensures a + (b + (c + d)) == (a + (b + c)) + d
  {
  }

  lemma {:induction false} SlotsText(ft: FloatText, points: seq<Waypoint>)
    requires points != []
    ensures RenderSlots(EntrySlots(ft, points)) == EntriesText(ft, points) + ("\n  " + "]")
  {
    hide EntryLayout, Render;
    var text := Render(EntryLayout(ft, points[0]));
    if |points| == 1 {
      assert points[1..] == [];
      assert EntrySlots(ft, points) == [Slot("\n    ", EntryLayout(ft, points[0]), "\n  ")];
      Regroup("\n    ", text, "\n  ", "]");
      Regroup("\n    ", text, [], "\n  " + "]");
      assert [] + ("\n  " + "]") == "\n  " + "]";
    } else {
      SlotsText(ft, points[1..]);
      var slots, more := EntrySlots(ft, points), EntriesText(ft, points[1..]);
      assert slots[1..] == EntrySlots(ft, points[1..]);
      assert slots[0] == Slot("\n    ", EntryLayout(ft, points[0]), []);
      assert text + [] == text;
      var close := "\n  " + "]";
      assert "," + (more + close) == ("," + more) + close;
      Regroup("\n    ", text, "," + more, close);
      assert ("\n    " + text) + (("," + more) + close) == "\n    " + (text + (("," + more) + close));
    }
  }

  /** The text of the list line, from its opening to its closing bracket. */
  lemma ListText(ft: FloatText, points: seq<Waypoint>)
    ensures Render(ArrayOf("\n  ", EntrySlots(ft, points))) == "[" + (EntriesText(ft, points) + ("\n  " + "]"))
  {
    hide EntryLayout;
    if points == [] {
      assert [] + ("\n  " + "]") == "\n  " + "]";
    } else {
      SlotsText(ft, points);
    }
  }

  /** One line of the document as the writer spells it: the key is not escaped. */
  function LineText(lead: string, key: string, text: string): string {
    lead + ("\"" + (key + ("\": " + text)))
  }

  predicate NeedsNoEscape(s: string) {
    forall k :: 0 <= k < |s| ==> s[k] as int >= 0x20 && s[k] != '\"' && s[k] != '\\'
  }

  lemma {:induction false} EscapePlain(s: string)
    requires NeedsNoEscape(s)
    ensures Escape(s) == s
  {
    if s != [] {
      EscapePlain(s[1..]);
      assert s == [s[0]] + s[1..];
    }
  }

  /** Not escaping a plain key changes nothing: the line is the layout's. */
  lemma LineIsMember(lead: string, key: string, l: Layout, close: string)
    requires NeedsNoEscape(key)
    ensures RenderMember(Member(lead, key, [], Slot(" ", l, close))) == LineText(lead, key, Render(l)) + close
  {
    hide Render;
    EscapePlain(key);
    hide Escape, NeedsNoEscape;
    Spelled(lead, key, Render(l), close);
  }

  lemma Spelled(lead: string, key: string, text: string, close: string)
    ensures lead + (("\"" + (key + "\"")) + ([] + (":" + (" " + (text + close))))) ==
            (lead + ("\"" + (key + ("\": " + text)))) + close
  {
    assert "\": " == "\"" + (":" + " ");
    var value := text + close;
    assert [] + (":" + (" " + value)) == (":" + " ") + value;
    assert ("\"" + (key + "\"")) + ((":" + " ") + value) == "\"" + (key + ("\": " + value));
    assert (lead + ("\"" + (key + ("\": " + text)))) + close == lead + ("\"" + (key + ("\": " + value)));
  }

  /** The document up to and including the bracket that opens the list. */
  function HeadText(owner: Option<Id>, revision: i64): string {
    "{" + (LineText("\n  ", "schemaVersion", IntText(SCHEMA_VERSION)) +
      ("," + (LineText("\n  ", "revision", IntText(revision)) +
        ("," + (LineText("\n  ", "ownerInstanceId", RenderLeaf(OwnerValue(owner))) +
          ("," + LineText("\n  ", "waypoints", "["))))))) 
  }

  lemma RootKeysPlain(k: nat)
    requires k < |ROOT_KEYS|
    ensures NeedsNoEscape(ROOT_KEYS[k])
  {
  }

  lemma FourMembers(a: Member, b: Member, c: Member, d: Member)
    ensures RenderMembers([a, b, c, d]) ==
      RenderMember(a) + ("," + (RenderMember(b) + ("," + (RenderMember(c) + ("," + (RenderMember(d) + "}"))))))
  {
    hide RenderMember;
    assert [a, b, c, d][1..] == [b, c, d] && [b, c, d][1..] == [c, d] && [c, d][1..] == [d];
    assert RenderMembers([d]) == RenderMember(d) + "}";
    assert RenderMembers([c, d]) == RenderMember(c) + ("," + RenderMembers([d]));
    assert RenderMembers([b, c, d]) == RenderMember(b) + ("," + RenderMembers([c, d]));
  }

  lemma ListLine(ft: FloatText, points: seq<Waypoint>)
    ensures LineText("\n  ", "waypoints", Render(ArrayOf("\n  ", EntrySlots(ft, points)))) + "\n" ==
            LineText("\n  ", "waypoints", "[") + (EntriesText(ft, points) + "\n  ]\n")
  {
    hide EntrySlots, Render;
    ListText(ft, points);
    var entries := EntriesText(ft, points);
    assert "\n  ]\n" == ("\n  " + "]") + "\n";
    assert ("[" + (entries + ("\n  " + "]"))) + "\n" == "[" + (entries + "\n  ]\n");
  }

  function RootLines(ft: FloatText, owner: Option<Id>, c: Catalog): (ms: seq<Member>)
    ensures |ms| == 4
  {
    Lines(ROOT_KEYS, RootLayouts(ft, owner, c), "\n  ", "\n")
  }

  lemma RootLineIs(ft: FloatText, owner: Option<Id>, c: Catalog, k: nat)
    requires k < 4
    ensures RenderMember(RootLines(ft, owner, c)[k]) ==
      LineText("\n  ", ROOT_KEYS[k], Render(RootLayouts(ft, owner, c)[k])) + (if k == 3 then "\n" else [])
  {
    hide EntrySlots, LineText, RenderMember, Render, RootLayouts, NeedsNoEscape;
    RootKeysPlain(k);
    LineIsMember("\n  ", ROOT_KEYS[k], RootLayouts(ft, owner, c)[k], if k == 3 then "\n" else []);
  }

  lemma DocumentShape(ft: FloatText, owner: Option<Id>, c: Catalog)
    ensures DocumentText(ft, owner, c) == ("{" + RenderMembers(RootLines(ft, owner, c))) + "\n"
  {
    hide RootLayouts, RenderMembers;
  }

  /** The whole document, as the writer assembles it. */
  lemma DocumentIs(ft: FloatText, owner: Option<Id>, c: Catalog)
    ensures DocumentText(ft, owner, c) == HeadText(owner, c.revision) + (EntriesText(ft, c.points) + "\n  ]\n}\n")
  {
    hide EntrySlots, LineText, RenderMember, RenderMembers, IntText, OwnerValue, RootLines, DocumentText, Quoted;
    var ms := RootLines(ft, owner, c);
    RootLineIs(ft, owner, c, 0);
    RootLineIs(ft, owner, c, 1);
    RootLineIs(ft, owner, c, 2);
    RootLineIs(ft, owner, c, 3);
    assert ms == [ms[0], ms[1], ms[2], ms[3]];
    FourMembers(ms[0], ms[1], ms[2], ms[3]);
    ListLine(ft, c.points);
    var a := LineText("\n  ", "schemaVersion", IntText(SCHEMA_VERSION));
    var b := LineText("\n  ", "revision", IntText(c.revision));
    var d := LineText("\n  ", "ownerInstanceId", RenderLeaf(OwnerValue(owner)));
    assert a + [] == a && b + [] == b && d + [] == d;
    DocumentShape(ft, owner, c);
    Assemble(a, b, d, LineText("\n  ", "waypoints", "["), EntriesText(ft, c.points));
  }

  lemma Assemble(a: string, b: string, d: string, open: string, rest: string)
    ensures ("{" + (a + ("," + (b + ("," + (d + ("," + ((open + (rest + "\n  ]\n")) + "}")))))))) + "\n" ==
      ("{" + (a + ("," + (b + ("," + (d + ("," + open))))))) + (rest + "\n  ]\n}\n")
  {
    assert "\n  ]\n}\n" == "\n  ]\n" + ("}" + "\n");
    var tail := rest + "\n  ]\n}\n";
    assert (open + (rest + "\n  ]\n")) + ("}" + "\n") == open + tail;
    var left := "{" + (a + ("," + (b + ("," + (d + ",")))));
    assert ("{" + (a + ("," + (b + ("," + (d + ("," + ((open + (rest + "\n  ]\n")) + "}")))))))) + "\n" ==
           left + ((open + (rest + "\n  ]\n")) + ("}" + "\n"));
    assert ("{" + (a + ("," + (b + ("," + (d + ("," + open))))))) + tail == left + (open + tail);
  }

  /** Serialises a snapshot, refusing a point that is not valid for the current revision. */
  method WriteDocument(writer: Writer, c: Catalog) returns (r: Option<string>)
    ensures r == ToDocument(writer.floats, writer.owner, c)
  {
    hide Persistable, EntryLayout, Render, DocumentText, HeadText;
    var ft := writer.floats;
    var out := HeadText(writer.owner, c.revision);
    ghost var head := out;
    assert out == head + EntriesText(ft, c.points[..0]);
    for i := 0 to |c.points|
      invariant forall k :: 0 <= k < i ==> Persistable(c.points[k], c.revision)
      invariant out == head + EntriesText(ft, c.points[..i])
    {
      if !Persistable(c.points[i], c.revision) {
        return None;
      }
      EntriesSnoc(ft, c.points[..i], c.points[i]);
      assert c.points[..i + 1] == c.points[..i] + [c.points[i]];
      var entry := (if i == 0 then [] else ",") + ("\n    " + Render(EntryLayout(ft, c.points[i])));
      assert (head + EntriesText(ft, c.points[..i])) + entry == head + (EntriesText(ft, c.points[..i]) + entry);
      out := out + entry;
    }
    assert c.points[..|c.points|] == c.points;
    DocumentIs(ft, writer.owner, c);
    assert (head + EntriesText(ft, c.points)) + "\n  ]\n}\n" == head + (EntriesText(ft, c.points) + "\n  ]\n}\n");
    return Some(out + "\n  ]\n}\n");
  }

  // Reading.

  /** Reads the entries one at a time, refusing a late revision or a repeated id. */
  method ReadEntries(ft: FloatText, list: seq<Value>, revision: i64) returns (r: Option<seq<Waypoint>>)
    requires revision >= 0
    ensures r == match ReadPoints(ft, list)
      case None => None
      case Some(points) => if ValidCatalog(Catalog(revision, points)) then Some(points) else None
  {
    hide FromEntry;
    var waypoints: seq<Waypoint> := [];
    for i := 0 to |list|
      invariant |waypoints| == i && ValidCatalog(Catalog(revision, waypoints))
      invariant forall k :: 0 <= k < i ==> FromEntry(ft, list[k]) == Some(waypoints[k])
    {
      var w := FromEntry(ft, list[i]);
      if w == None {
        return None;
      }
      EntryRevision(ft, list[i]);
      if w.value.revision > revision {
        return None;
      }
      if exists k :: 0 <= k < |waypoints| && waypoints[k].id == w.value.id {
        return None;
      }
      waypoints := waypoints + [w.value];
    }
    ReadPointsAre(ft, list, waypoints);
    return Some(waypoints);
  }

  lemma EntryRevision(ft: FloatText, v: Value)
    requires FromEntry(ft, v).Some?
    ensures FromEntry(ft, v).value.revision >= 1
  {
    hide DraftOf, Validate, TextField, IntField, ParseId;
  }

  lemma {:induction false} ReadPointsAre(ft: FloatText, list: seq<Value>, points: seq<Waypoint>)
    requires |points| == |list|
    requires forall k :: 0 <= k < |list| ==> FromEntry(ft, list[k]) == Some(points[k])
    ensures ReadPoints(ft, list) == Some(points)
  {
    hide FromEntry;
    if list != [] {
      ReadPointsAre(ft, list[1..], points[1..]);
      assert points == [points[0]] + points[1..];
    }
  }

  method ReadCatalog(ft: FloatText, root: Value) returns (r: Option<Catalog>)
    ensures r == FromDocument(ft, root)
  {
    hide IntField, Field, ReadPoints, ValidCatalog;
    var revision :- IntField(root, "revision");
    if revision < 0 {
      return None;
    }
    var listField :- Field(root, "waypoints");
    if !listField.Array? || |listField.items| > MAX_PERSISTED_WAYPOINTS {
      return None;
    }
    var points :- ReadEntries(ft, listField.items, revision);
    return Some(Catalog(revision, points));
  }

  method ReadBytes(writer: Writer, bytes: seq<byte>) returns (r: Reading)
    ensures r == ReadDocument(writer.floats, writer.owner, bytes)
  {
    hide IntField, ParseBytes, Utf8.Decode, FromDocument, OwnedByAnother;
    if |bytes| > MAX_FILE_BYTES {
      return Unusable;
    }
    var text := Utf8.Decode(bytes);
    if text == None {
      return Unusable;
    }
    Utf8.EncodeDecode(bytes);
    var parsed := JsonParser.Parse(writer.floats, text.value);
    if parsed == None || !parsed.value.Object? {
      return Unusable;
    }
    var root := parsed.value;
    var schema := IntField(root, "schemaVersion");
    if schema == None {
      return Unusable;
    }
    if schema.value > SCHEMA_VERSION {
      return Newer(schema.value);
    }
    if schema.value < 1 {
      return Unusable;
    }
    if OwnedByAnother(writer.owner, root) {
      return Foreign;
    }
    var c := ReadCatalog(writer.floats, root);
    return if c == None then Unusable else Usable(schema.value, c.value);
  }

  // The file object.

  class CatalogFile {
    const writer: Writer
    var content: File

    constructor (writer: Writer, content: File)
      ensures this.writer == writer && this.content == content
    {
      this.writer := writer;
      this.content := content;
    }

    /** Writes the catalog, replacing the previous file. */
    method Save(c: Catalog, writable: bool) returns (ok: bool)
      modifies this
      ensures (ok, content) == Saved(writer, old(content), c, writable)
    {
      hide Persistable, DocumentText, Utf8.Encode;
      if |c.points| > MAX_PERSISTED_WAYPOINTS {
        return false;
      }
      var document := WriteDocument(writer, c);
      if document == None || !writable {
        return false;
      }
      content := Some(Utf8.Encode(document.value));
      return true;
    }

    /** Moves the file aside, when that is possible, and starts empty. */
    method SetAside(movable: bool) returns (r: Loaded)
      modifies this
      ensures r == Ready(EMPTY) && content == Aside(old(content), movable)
    {
      if movable {
        content := None;
      }
      return Ready(EMPTY);
    }

    /** Reads the catalog, migrating an older schema forward. */
    method Load(movable: bool, writable: bool) returns (r: Loaded)
      modifies this
      ensures (r, content) == LoadedFrom(writer, old(content), movable, writable)
    {
      hide ReadDocument, Saved;
      if content == None {
        return Ready(EMPTY);
      }
      var reading := ReadBytes(writer, content.value);
      match reading {
        case Newer(version) => return UnsupportedSchema(version);
        case Usable(schema, c) =>
          if schema < SCHEMA_VERSION {
            var _ := Save(c, writable);
          }
          return Ready(c);
        case Foreign => r := SetAside(movable);
        case Unusable => r := SetAside(movable);
      }
    }
  }
}
