/** The document of a catalog of at most 512 points stays under the size a load accepts. */
module DocumentSize {
  import opened Prelude
  import opened Identity
  import opened Floats
  import opened Model
  import opened Catalogs
  import opened Json
  import opened JsonText
  import opened Decimal
  import opened Documents
  import Utf8

  const MAX_LINE := 600
  const MAX_ENTRY := 8500

  function ByteLength(s: string): nat {
    |Utf8.Encode(s)|
  }

  lemma LengthConcat(s: string, t: string)
    ensures ByteLength(s + t) == ByteLength(s) + ByteLength(t)
  {
    Utf8.EncodeConcat(s, t);
  }

  lemma LengthAscii(s: string)
    requires IsAscii(s)
    ensures ByteLength(s) == |s|
  {
    EncodeAscii(s);
  }

  /** No control characters, so an escape at most doubles a byte. */
  predicate IsPlain(s: string) {
    forall k :: 0 <= k < |s| ==> s[k] as int >= 0x20
  }

  lemma {:induction false} EscapeLength(s: string)
    requires IsPlain(s)
    ensures ByteLength(Escape(s)) <= 2 * ByteLength(s)
  {
    hide Utf8.EncodeScalar;
    if s != [] {
      EscapeLength(s[1..]);
      LengthConcat(EscapeChar(s[0]), Escape(s[1..]));
      assert s == [s[0]] + s[1..];
      LengthConcat([s[0]], s[1..]);
      hide ByteLength;
      EscapeCharLength(s[0]);
    }
  }

  lemma EscapeCharLength(c: char)
    requires c as int >= 0x20
    ensures ByteLength(EscapeChar(c)) <= 2 * ByteLength([c])
    ensures ByteLength([c]) >= 1
  {
    hide ByteLength, Utf8.Encode;
    if c == '\"' || c == '\\' {
      LengthAscii([c]);
      LengthAscii(EscapeChar(c));
    } else {
      assert ByteLength([c]) >= 1 by { Nonempty(c); }
    }
  }

  lemma Nonempty(c: char)
    ensures ByteLength([c]) >= 1
  {
    hide Utf8.EncodeScalar;
  }

  lemma QuotedLength(s: string, n: nat)
    requires IsPlain(s) && ByteLength(s) <= n
    ensures ByteLength(Quoted(s)) <= 2 * n + 2
  {
    hide ByteLength, Escape;
    LengthConcat("\"", Escape(s) + "\"");
    LengthConcat(Escape(s), "\"");
    LengthAscii("\"");
    EscapeLength(s);
  }

  // One line of an entry.

  /** A value whose text is short: plain text within a wire field, or a number's digits. */
  ghost predicate ShortLeaf(v: Value) {
    match v
    case Null => true
    case String(s) => IsPlain(s) && ByteLength(s) <= 256
    case Number(text) => IsAscii(text) && |text| <= MAX_FLOAT_TEXT
    case _ => false
  }

  lemma LeafLength(v: Value)
    requires ShortLeaf(v)
    ensures ByteLength(RenderLeaf(v)) <= 514
  {
    hide ByteLength, Quoted;
    match v
    case Null => LengthAscii("null");
    case String(s) => QuotedLength(s, 256);
    case Number(text) => LengthAscii(text);
  }

  lemma SlotLength(s: Slot, n: nat)
    requires IsAscii(s.before) && |s.before| <= 8 && IsAscii(s.after) && |s.after| <= 8
    requires ByteLength(Render(s.layout)) <= n
    ensures ByteLength(RenderSlot(s)) <= n + 16
  {
    hide ByteLength, Render;
    LengthConcat(s.before, Render(s.layout) + s.after);
    LengthConcat(Render(s.layout), s.after);
    LengthAscii(s.before);
    LengthAscii(s.after);
  }

  lemma MemberLength(m: Member, n: nat)
    requires IsAscii(m.lead) && |m.lead| <= 8 && m.gap == [] && IsPlain(m.key) && ByteLength(m.key) <= 16
    requires IsAscii(m.slot.before) && |m.slot.before| <= 8 && IsAscii(m.slot.after) && |m.slot.after| <= 8
    requires ByteLength(Render(m.slot.layout)) <= n
    ensures ByteLength(RenderMember(m)) <= n + 60
  {
    hide ByteLength, Render, Quoted, RenderSlot;
    var colon := ":" + RenderSlot(m.slot);
    assert m.gap + colon == colon;
    LengthConcat(m.lead, Quoted(m.key) + colon);
    LengthConcat(Quoted(m.key), colon);
    LengthConcat(":", RenderSlot(m.slot));
    LengthAscii(m.lead);
    LengthAscii(":");
    QuotedLength(m.key, 16);
    SlotLength(m.slot, n);
  }

  lemma {:induction false} MembersLength(ms: seq<Member>)
    requires forall m :: m in ms ==> ByteLength(RenderMember(m)) <= MAX_LINE
    ensures ByteLength(RenderMembers(ms)) <= |ms| * (MAX_LINE + 1)
  {
    hide ByteLength, RenderMember;
    if ms == [] {
      LengthAscii([]);
    } else if |ms| == 1 {
      LengthConcat(RenderMember(ms[0]), "}");
      LengthAscii("}");
    } else {
      LengthConcat(RenderMember(ms[0]), "," + RenderMembers(ms[1..]));
      LengthConcat(",", RenderMembers(ms[1..]));
      LengthAscii(",");
      MembersLength(ms[1..]);
    }
  }

  lemma {:induction false} SlotsLength(slots: seq<Slot>)
    requires forall s :: s in slots ==> ByteLength(RenderSlot(s)) <= MAX_ENTRY
    ensures ByteLength(RenderSlots(slots)) <= |slots| * (MAX_ENTRY + 1)
  {
    hide ByteLength, RenderSlot;
    if slots == [] {
      LengthAscii([]);
    } else if |slots| == 1 {
      LengthConcat(RenderSlot(slots[0]), "]");
      LengthAscii("]");
    } else {
      LengthConcat(RenderSlot(slots[0]), "," + RenderSlots(slots[1..]));
      LengthConcat(",", RenderSlots(slots[1..]));
      LengthAscii(",");
      SlotsLength(slots[1..]);
    }
  }

  // One entry.

  /** Every icon id fits the wire field it came in. */
  predicate SmallIcons(c: Catalog) {
    forall k :: 0 <= k < |c.points| ==> ByteLength(c.points[k].body.iconItemId) <= MAX_ICON_BYTES
  }

  lemma DisplayableIsPlain(s: string)
    requires ValidDisplayText(s, 64)
    ensures IsPlain(s)
  {
    hide Trim;
  }

  lemma DimensionIsPlain(s: string)
    requires ValidDimensionId(s)
    ensures IsPlain(s)
  {
    hide Utf8.Encode;
    var n := ColonIndex(s);
    forall k | 0 <= k < |s|
      ensures s[k] as int >= 0x20
    {
      if n < |s| {
        ColonThere(s);
        if k < n {
          assert s[..n][k] == s[k];
        } else if k > n {
          assert s[n + 1..][k - n - 1] == s[k];
        }
      }
    }
  }

  lemma {:induction false} ColonThere(s: string)
    ensures ColonIndex(s) < |s| ==> s[ColonIndex(s)] == ':'
  {
    if s != [] && s[0] != ':' {
      ColonThere(s[1..]);
    }
  }

  lemma IconIsPlain(s: string)
    requires NormalizeIconItemId(s) == Some(s)
    ensures IsPlain(s)
  {
    if s != [] {
      var path := s[|VANILLA|..];
      forall k | 0 <= k < |s|
        ensures s[k] as int >= 0x20
      {
        if k < |VANILLA| {
          assert s[k] == VANILLA[k];
        } else {
          assert s[k] == path[k - |VANILLA|];
        }
      }
    }
  }

  lemma LabelIsPlain(s: string)
    requires NormalizeMarkerLabel(s) == Some(s)
    ensures IsPlain(s)
  {
    hide Trim;
  }

  lemma BodyTextIsShort(b: Body)
    requires Settled(b) && ByteLength(b.iconItemId) <= MAX_ICON_BYTES
    ensures ShortLeaf(String(b.name)) && ShortLeaf(String(b.dimensionId))
    ensures ShortLeaf(String(b.iconItemId)) && ShortLeaf(String(b.markerLabel))
  {
    hide Utf8.Encode, WithinWorld, Trim, ValidDisplayText, ValidDimensionId, NormalizeIconItemId, NormalizeMarkerLabel;
    ValidatedTextFits(b);
    DisplayableIsPlain(b.name);
    DimensionIsPlain(b.dimensionId);
    IconIsPlain(b.iconItemId);
    LabelIsPlain(b.markerLabel);
  }

  lemma IntTextShort(n: i64)
    ensures ShortLeaf(Number(IntText(n)))
  {
    hide NatText, NumberLexeme;
    var m: int := n;
    NatTextLength(if m < 0 then -m else m);
    IntIsAscii(n);
  }

  lemma IntIsAscii(n: int)
    ensures IsAscii(IntText(n))
  {
    IntLexeme(n);
  }

  lemma UuidIsShort(id: Id)
    ensures ShortLeaf(String(UuidText(id)))
  {
    hide Utf8.Encode;
    LengthAscii(UuidText(id));
  }

  lemma KindIsShort(kind: Kind)
    ensures ShortLeaf(String(KindText(kind)))
  {
    hide Utf8.Encode;
    LengthAscii(KindText(kind));
  }

  lemma FieldsAreShort(ft: FloatText, w: Waypoint, k: nat)
    requires Faithful(ft) && SoundPoint(w) && ByteLength(w.body.iconItemId) <= MAX_ICON_BYTES && k < |KEYS|
    ensures ShortLeaf(FieldValues(ft, w)[k])
  {
    hide ByteLength, IntText, UuidText, KindText, Settled, ShortLeaf, Faithful, ValidPublisherName;
    UuidIsShort(w.id);
    UuidIsShort(w.publisherId);
    KindIsShort(w.body.kind);
    IntTextShort(w.body.color);
    IntTextShort(w.createdAtMs);
    IntTextShort(w.revision);
    BodyTextIsShort(w.body);
    PublisherIsShort(w.publisherName);
    FloatsAreShort(ft, w.body);
  }

  lemma PublisherIsShort(s: string)
    requires ValidPublisherName(s) && Trim(s) == s
    ensures ShortLeaf(String(s))
  {
    hide Utf8.Encode, Trim;
    DisplayableIsPlain(s);
  }

  lemma FloatsAreShort(ft: FloatText, b: Body)
    requires Faithful(ft) && Settled(b)
    ensures ShortLeaf(Number(ft.show(b.x))) && ShortLeaf(Number(ft.show(b.y))) && ShortLeaf(Number(ft.show(b.z)))
  {
    hide IntText, IsFinite, Settled, NumberLength;
    SettledIsFinite(b);
  }

  ghost predicate ShortKey(s: string) {
    IsAscii(s) && IsPlain(s) && |s| <= 16
  }

  lemma FirstKeysShort()
    ensures ShortKey(KEYS[0]) && ShortKey(KEYS[1]) && ShortKey(KEYS[2]) && ShortKey(KEYS[3]) && ShortKey(KEYS[4])
  {
  }

  lemma MiddleKeysShort()
    ensures ShortKey(KEYS[5]) && ShortKey(KEYS[6]) && ShortKey(KEYS[7]) && ShortKey(KEYS[8]) && ShortKey(KEYS[9])
  {
  }

  lemma LastKeysShort()
    ensures ShortKey(KEYS[10]) && ShortKey(KEYS[11]) && ShortKey(KEYS[12]) && ShortKey(KEYS[13])
  {
  }

  lemma KeyIsShort(k: nat)
    requires k < |KEYS|
    ensures IsPlain(KEYS[k]) && ByteLength(KEYS[k]) <= 16
  {
    hide ByteLength;
    assert ShortKey(KEYS[k]) by {
      hide ShortKey;
      FirstKeysShort();
      MiddleKeysShort();
      LastKeysShort();
    }
    LengthAscii(KEYS[k]);
  }

  lemma EntryLength(ft: FloatText, w: Waypoint)
    requires Faithful(ft) && SoundPoint(w) && ByteLength(w.body.iconItemId) <= MAX_ICON_BYTES
    ensures ByteLength(Render(EntryLayout(ft, w))) <= 8420
  {
    hide ByteLength, FieldValues, Faithful, SoundPoint, RenderMember, RenderMembers, IsPlain, ShortLeaf;
    var ms := Lines(KEYS, FieldLayouts(ft, w), "\n      ", "\n    ");
    forall m | m in ms
      ensures ByteLength(RenderMember(m)) <= MAX_LINE
    {
      var k :| 0 <= k < |ms| && ms[k] == m;
      FieldsAreShort(ft, w, k);
      LeafLength(FieldValues(ft, w)[k]);
      KeyIsShort(k);
      MemberLength(m, 514);
    }
    MembersLength(ms);
    LengthConcat("{", RenderMembers(ms));
    LengthAscii("{");
  }

  lemma {:induction false} EntriesLength(ft: FloatText, points: seq<Waypoint>)
    requires Faithful(ft)
    requires forall k :: 0 <= k < |points| ==> SoundPoint(points[k]) && ByteLength(points[k].body.iconItemId) <= MAX_ICON_BYTES
    ensures forall s :: s in EntrySlots(ft, points) ==> ByteLength(RenderSlot(s)) <= MAX_ENTRY
  {
    hide ByteLength, EntryLayout, Faithful, SoundPoint, RenderSlot;
    if points != [] {
      EntriesLength(ft, points[1..]);
      EntryLength(ft, points[0]);
      var s := EntrySlots(ft, points)[0];
      SlotLength(s, 8420);
    }
  }

  lemma RootLineLength(ft: FloatText, owner: Option<Id>, c: Catalog, k: nat)
    requires k < 3
    ensures ByteLength(RenderMember(Lines(ROOT_KEYS, RootLayouts(ft, owner, c), "\n  ", "\n")[k])) <= MAX_LINE
  {
    hide ByteLength, RenderMember, IntText, UuidText, IsPlain, EntrySlots;
    IntTextShort(SCHEMA_VERSION);
    IntTextShort(c.revision);
    if owner.Some? {
      UuidIsShort(owner.value);
    }
    assert ShortLeaf(Null);
    var m := Lines(ROOT_KEYS, RootLayouts(ft, owner, c), "\n  ", "\n")[k];
    LeafLength(m.slot.layout.value);
    RootKeyIsShort(k);
    MemberLength(m, 514);
  }

  lemma RootKeyIsShort(k: nat)
    requires k < |ROOT_KEYS|
    ensures IsPlain(ROOT_KEYS[k]) && ByteLength(ROOT_KEYS[k]) <= 16
  {
    hide ByteLength;
    LengthAscii(ROOT_KEYS[k]);
  }

  lemma PointsLineLength(ft: FloatText, owner: Option<Id>, c: Catalog)
    requires Faithful(ft) && SoundCatalog(c) && SmallIcons(c)
    ensures ByteLength(RenderMember(Lines(ROOT_KEYS, RootLayouts(ft, owner, c), "\n  ", "\n")[3])) <= 4400000
  {
    hide ByteLength, RenderMember, RenderSlots, RenderSlot, EntrySlots, IntText, UuidText, IsPlain, SoundPoint,
      Faithful, ValidCatalog;
    var slots := EntrySlots(ft, c.points);
    EntriesLength(ft, c.points);
    SlotsLength(slots);
    var l := ArrayOf("\n  ", slots);
    var inner := if slots == [] then "\n  " + "]" else RenderSlots(slots);
    LengthConcat("[", inner);
    LengthAscii("[");
    LengthAscii("\n  " + "]");
    assert ByteLength(Render(l)) <= 512 * 8501 + 10;
    RootKeyIsShort(3);
    MemberLength(Lines(ROOT_KEYS, RootLayouts(ft, owner, c), "\n  ", "\n")[3], 512 * 8501 + 10);
  }

  lemma FourLines(a: Member, b: Member, c: Member, d: Member)
    ensures ByteLength(RenderMembers([a, b, c, d])) ==
      ByteLength(RenderMember(a)) + ByteLength(RenderMember(b)) + ByteLength(RenderMember(c)) + ByteLength(RenderMember(d)) + 4
  {
    hide ByteLength, RenderMember;
    LengthAscii(",");
    LengthAscii("}");
    assert [a, b, c, d][1..] == [b, c, d] && [b, c, d][1..] == [c, d] && [c, d][1..] == [d];
    LengthConcat(RenderMember(d), "}");
    LengthConcat(",", RenderMembers([d]));
    LengthConcat(RenderMember(c), "," + RenderMembers([d]));
    LengthConcat(",", RenderMembers([c, d]));
    LengthConcat(RenderMember(b), "," + RenderMembers([c, d]));
    LengthConcat(",", RenderMembers([b, c, d]));
    LengthConcat(RenderMember(a), "," + RenderMembers([b, c, d]));
  }

  /** The document of every catalog the service can hold is small enough to be loaded again. */
  lemma DocumentFits(ft: FloatText, owner: Option<Id>, c: Catalog)
    requires Faithful(ft) && SoundCatalog(c) && SmallIcons(c)
    ensures ByteLength(DocumentText(ft, owner, c)) <= MAX_FILE_BYTES
  {
    hide ByteLength, RenderMember, RenderMembers, RootLayouts, Faithful, SoundCatalog, SmallIcons;
    var ms := Lines(ROOT_KEYS, RootLayouts(ft, owner, c), "\n  ", "\n");
    RootLineLength(ft, owner, c, 0);
    RootLineLength(ft, owner, c, 1);
    RootLineLength(ft, owner, c, 2);
    PointsLineLength(ft, owner, c);
    assert ms == [ms[0], ms[1], ms[2], ms[3]];
    FourLines(ms[0], ms[1], ms[2], ms[3]);
    LengthConcat("{", RenderMembers(ms));
    LengthConcat("{" + RenderMembers(ms), "\n");
    LengthAscii("{");
    LengthAscii("\n");
  }

  /**
    The round trip of the file: whatever the service can hold, its document is never refused, and
    loading the bytes gives back exactly the catalog, whoever the owner.
   */
  lemma DocumentRoundTrip(ft: FloatText, owner: Option<Id>, c: Catalog)
    requires Faithful(ft) && SoundCatalog(c) && SmallIcons(c)
    ensures ToDocument(ft, owner, c).Some?
    ensures ReadDocument(ft, owner, Utf8.Encode(ToDocument(ft, owner, c).value)) == Usable(SCHEMA_VERSION, c)
  {
    hide Utf8.Encode, DocumentText, ParseBytes, ReadRoot, RootValue, Faithful, SoundCatalog, SmallIcons, AllPersistable;
    SoundIsPersistable(c);
    DocumentFits(ft, owner, c);
    Utf8.DecodeEncode(DocumentText(ft, owner, c));
    DocumentParses(ft, owner, c);
    RootInverse(ft, owner, c);
    RootFieldAt(ft, owner, c, 0);
  }
}
