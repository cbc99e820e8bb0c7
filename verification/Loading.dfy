/**
  Files that are not simply served. One written by a newer build is left alone for good; one of
  another owner, or one that cannot be read, is at most moved aside and never served; one of an older
  schema is served and rewritten.
 */
module Loading {
  import opened Prelude
  import opened Identity
  import opened Model
  import opened Proto
  import opened Catalogs
  import opened Buckets
  import opened Players
  import opened Json
  import opened Documents
  import opened DocumentSize
  import opened Persistence
  import opened Mutations
  import opened MutationLaws
  import opened Hub
  import opened HubLaws
  import opened Runs
  import opened Convergence
  import Utf8

  // What the bytes are.

  /** The bytes are within the size limit, are text, and the text is an object with these entries. */
  ghost predicate Spells(writer: Writer, bytes: seq<byte>, entries: seq<Entry>) {
    && |bytes| <= 8 * 1024 * 1024 && Utf8.Decode(bytes).Some?
    && ParseBytes(writer.floats, bytes) == Some(Object(entries))
  }

  /** The object names this schema, an integer. */
  predicate OfSchema(entries: seq<Entry>, schema: i64) {
    IntField(Object(entries), "schemaVersion") == Some(schema)
  }

  /** The object names an owner, this server has a name of its own, and the two differ. */
  predicate OfAnother(writer: Writer, entries: seq<Entry>) {
    var theirs := TextField(Object(entries), "ownerInstanceId");
    theirs.Some? && writer.owner.Some? && theirs.value != UuidText(writer.owner.value)
  }

  ghost predicate FromNewerBuild(writer: Writer, bytes: seq<byte>) {
    exists entries, schema :: Spells(writer, bytes, entries) && OfSchema(entries, schema) && schema > 2
  }

  /** The bytes hold a catalog this server may serve. */
  ghost predicate Serves(writer: Writer, bytes: seq<byte>, schema: i64, c: Catalog) {
    exists entries ::
      && Spells(writer, bytes, entries) && OfSchema(entries, schema) && 1 <= schema <= 2
      && !OfAnother(writer, entries) && FromDocument(writer.floats, Object(entries)) == Some(c)
  }

  /** Neither: too large, no text, no object, no schema, another's, or no catalog. */
  ghost predicate Rejected(writer: Writer, bytes: seq<byte>) {
    !FromNewerBuild(writer, bytes) && forall schema, c :: !Serves(writer, bytes, schema, c)
  }

  lemma SpelledIs(writer: Writer, bytes: seq<byte>, entries: seq<Entry>)
    requires Spells(writer, bytes, entries)
    ensures ReadDocument(writer.floats, writer.owner, bytes) == ReadRoot(writer.floats, writer.owner, Object(entries))
    ensures forall other :: Spells(writer, bytes, other) ==> other == entries
  {
    hide ReadRoot, ParseBytes, Utf8.Decode;
  }

  lemma UnspelledIs(writer: Writer, bytes: seq<byte>)
    ensures ReadDocument(writer.floats, writer.owner, bytes) == Unusable || exists entries :: Spells(writer, bytes, entries)
  {
    hide ReadRoot, ParseBytes, Utf8.Decode;
    if |bytes| <= MAX_FILE_BYTES && Utf8.Decode(bytes).Some? {
      match ParseBytes(writer.floats, bytes)
      case Some(Object(entries)) => assert Spells(writer, bytes, entries);
      case _ =>
    }
  }

  /** The reading of a file, by what its bytes are. */
  lemma ReadingIs(writer: Writer, bytes: seq<byte>)
    ensures var reading := ReadDocument(writer.floats, writer.owner, bytes);
      && (reading.Newer? <==> FromNewerBuild(writer, bytes))
      && (forall schema, c :: reading == Usable(schema, c) <==> Serves(writer, bytes, schema, c))
      && (reading.Foreign? || reading.Unusable? <==> Rejected(writer, bytes))
  {
    hide IntField, TextField, ReadDocument, FromDocument, UuidText, Spells;
    var reading := ReadDocument(writer.floats, writer.owner, bytes);
    if entries :| Spells(writer, bytes, entries) {
      SpelledIs(writer, bytes, entries);
      if reading.Newer? {
        assert OfSchema(entries, reading.version);
      }
      if reading.Usable? {
        assert OfSchema(entries, reading.schema);
        assert Serves(writer, bytes, reading.schema, reading.catalog);
      }
    } else {
      UnspelledIs(writer, bytes);
    }
  }

  // A newer build's file.

  ghost predicate LeftAlone(h: HubState, bytes: seq<byte>) {
    h.file == Some(bytes) && h.service.None? && !h.settings.enabled
  }

  lemma StepLeavesAlone(writer: Writer, h: HubState, e: Event, bytes: seq<byte>)
    requires FromNewerBuild(writer, bytes) && LeftAlone(h, bytes)
    ensures LeftAlone(StepHub(writer, h, e), bytes)
  {
    hide Handle, Performs, ReadDocument, FromNewerBuild, Saved, RefreshAll, ClearFrames, Adopted;
    ReadingIs(writer, bytes);
    match e
    case Arrives(peer, payload, now, host) => IdlePayload(writer, h, peer, payload, now, host);
    case DiesOnPayload(peer, payload, now, host) => IdlePayload(writer, h, peer, payload, now, host);
    case _ =>
  }

  /** Without a service no payload reaches the file. */
  lemma IdlePayload(writer: Writer, h: HubState, peer: Peer, payload: seq<byte>, now: millis, host: Host)
    requires h.service.None?
    ensures var after := Handle(writer, h, peer, payload, now, host).0;
      after.file == h.file && after.service.None? && after.settings == h.settings
  {
    hide Handle, DecodeInbound, Perform, ErrorCode, Subscribers;
    HandleService(writer, h, peer, payload, now, host);
  }

  /**
    A file a newer build wrote, over every run: it stays byte for byte as it is, no service is ever
    built from it, and the feature is never on.
   */
  lemma {:induction false} NewerIsLeftAlone(writer: Writer, bytes: seq<byte>, events: seq<Event>)
    requires FromNewerBuild(writer, bytes)
    ensures var h := Run(writer, Some(bytes), events).hub;
      h.file == Some(bytes) && h.service.None? && !h.settings.enabled
  {
    hide FromNewerBuild, StepHub, OnDisk, PointMap, Record, DurableRequests, DurableDeltas, Emits, StepStreams;
    if events != [] {
      NewerIsLeftAlone(writer, bytes, events[..|events| - 1]);
      StepLeavesAlone(writer, Run(writer, Some(bytes), events[..|events| - 1]).hub, events[|events| - 1], bytes);
    }
  }

  // A rejected file.

  /** Nothing of the rejected file is served, and if it is still there it is as it was. */
  ghost predicate Unserved(h: HubState, bytes: seq<byte>) {
    && (h.file == Some(bytes) || h.file.None?)
    && (h.service.Some? ==>
         && h.service.value.catalog == Catalog(0, [])
         && ValidPlayers(h.service.value.players) && AllTruthful(h.service.value.players))
  }

  lemma EmptyAdopted()
    ensures Adopted(EMPTY) == EMPTY
  {
  }

  lemma StepUnserved(writer: Writer, h: HubState, e: Event, bytes: seq<byte>)
    requires Rejected(writer, bytes) && Unserved(h, bytes) && DurableRequests(writer, h, e) == []
    ensures Unserved(StepHub(writer, h, e), bytes)
  {
    hide Handle, Performs, ReadDocument, Rejected, Saved, RefreshAll, ClearFrames, Adopted, DurableRequests;
    ReadingIs(writer, bytes);
    EmptyAdopted();
    match e
    case Arrives(peer, payload, now, host) => UncommittedPayload(writer, h, peer, payload, now, host, e);
    case DiesOnPayload(peer, payload, now, host) => UncommittedPayload(writer, h, peer, payload, now, host, e);
    case _ =>
  }

  /** A payload that makes no request durable moves neither the file nor the catalog. */
  lemma UncommittedPayload(writer: Writer, h: HubState, peer: Peer, payload: seq<byte>, now: millis, host: Host,
      e: Event)
    requires e == Arrives(peer, payload, now, host) || e == DiesOnPayload(peer, payload, now, host)
    requires h.service.Some? ==> ValidPlayers(h.service.value.players) && AllTruthful(h.service.value.players)
    requires DurableRequests(writer, h, e) == []
    ensures var after := Handle(writer, h, peer, payload, now, host).0;
      && after.file == h.file && (after.service.Some? <==> h.service.Some?)
      && (h.service.Some? ==>
           && after.service.value.catalog == h.service.value.catalog
           && ValidPlayers(after.service.value.players) && AllTruthful(after.service.value.players))
  {
    hide Handle, Perform, DecodeInbound, ErrorCode, Subscribers, ValidPlayers, AllTruthful, Plan, CanSave;
    HandleService(writer, h, peer, payload, now, host);
    assert !Commits(writer, h, peer, payload, host);
    if Performs(h, peer, payload) {
      MutatePlayers(writer, h.service.value, h.file, ActorOf(peer), RequestOf(h, peer, payload), host);
      MutateCases(writer, h.service.value, h.file, ActorOf(peer), RequestOf(h, peer, payload), host);
    }
  }

  lemma {:induction false} RunUnserved(writer: Writer, bytes: seq<byte>, events: seq<Event>)
    requires Rejected(writer, bytes) && Run(writer, Some(bytes), events).log == []
    ensures Unserved(Run(writer, Some(bytes), events).hub, bytes)
  {
    hide Rejected, StepHub, OnDisk, PointMap, Record, DurableRequests, DurableDeltas, Emits, StepStreams;
    if events != [] {
      var w, e := Run(writer, Some(bytes), events[..|events| - 1]), events[|events| - 1];
      assert w.log == [] && DurableRequests(writer, w.hub, e) == [] by { NothingLogged(w.log, DurableRequests(writer, w.hub, e)); }
      RunUnserved(writer, bytes, events[..|events| - 1]);
      StepUnserved(writer, w.hub, e, bytes);
    }
  }

  /**
    A file that may not be served, over every run: until the first request is made durable the file is
    byte for byte as it was or gone - moved aside - and whatever is served is the empty catalog.
   */
  lemma RejectedIsNotServed(writer: Writer, bytes: seq<byte>, events: seq<Event>)
    requires Rejected(writer, bytes) && Run(writer, Some(bytes), events).log == []
    ensures var h := Run(writer, Some(bytes), events).hub;
      && (h.file == Some(bytes) || h.file.None?)
      && (h.service.Some? ==> h.service.value.catalog == Catalog(0, []))
  {
    hide Rejected, Run, ValidPlayers, AllTruthful;
    RunUnserved(writer, bytes, events);
  }

  lemma NothingLogged(log: seq<Request>, more: seq<Request>)
    requires log + more == []
    ensures log == [] && more == []
  {
    assert |log + more| == |log| + |more|;
  }

  /**
    Once it could be moved aside, it is as if it had never been: the server goes on exactly as one that
    started over no file, so everything proved of such runs holds.
   */
  lemma MovedAsideIsFresh(writer: Writer, h: HubState, settings: Settings, movable: bool, writable: bool, bytes: seq<byte>)
    requires Rejected(writer, bytes) && h.service.None? && h.file == Some(bytes)
    ensures var after, anew := Configure(writer, h, settings, movable, writable),
          Configure(writer, h.(file := None), settings, movable, writable);
      after == anew.(file := if movable then None else Some(bytes)) && anew.file.None?
  {
    hide ReadDocument, Rejected, Saved, Adopted, ClearSubscriptions;
    ReadingIs(writer, bytes);
  }

  // A file of an older schema.

  /**
    A file this server may serve: it is served as it reads; one of the current schema is not touched,
    one of an older schema is rewritten at the current one as soon as the disk takes a write.
   */
  lemma ServedAndMigrated(writer: Writer, bytes: seq<byte>, schema: i64, c: Catalog, movable: bool, writable: bool)
    requires Faithful(writer.floats) && SmallIcons(c) && Serves(writer, bytes, schema, c)
    ensures var (loaded, file) := LoadedFrom(writer, Some(bytes), movable, writable);
      && loaded == Ready(c)
      && (schema == 2 || !writable ==> file == Some(bytes))
      && (schema < 2 && writable ==> file.Some? && Serves(writer, file.value, 2, c))
  {
    hide Faithful, ReadDocument, SmallIcons, SoundCatalog, Serves, AllPersistable, DocumentText, Utf8.Encode;
    ReadingIs(writer, bytes);
    assert ReadDocument(writer.floats, writer.owner, bytes) == Usable(schema, c);
    AcceptedIsSound(writer.floats, writer.owner, bytes);
    SaveHolds(writer, Some(bytes), c, writable);
    SoundIsPersistable(c);
    DocumentRoundTrip(writer.floats, writer.owner, c);
    ReadingIs(writer, Content(writer, c));
  }
}
