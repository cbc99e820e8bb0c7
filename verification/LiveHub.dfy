/** The hub as an object: live sessions, the service once there is one, the settings and the queue. */
module LiveHub {
  import opened Prelude
  import opened Identity
  import opened Model
  import opened Proto
  import opened Catalogs
  import opened Buckets
  import opened Players
  import opened Documents
  import opened Persistence
  import opened Mutations
  import opened Stores
  import opened Services
  import opened Hub
  import Live = LiveSessions

  lemma {:induction false} SanitizeSnoc(points: seq<Waypoint>, w: Waypoint)
    ensures Sanitize(points + [w]) == Sanitize(points) + if ValidForWorld(w) then [w] else []
  {
    hide ValidForWorld;
    if points == [] {
      assert points + [w] == [w] && [w][1..] == [];
    } else {
      assert (points + [w])[1..] == points[1..] + [w];
      SanitizeSnoc(points[1..], w);
    }
  }

  class SharedHub {
    const sessions: Live.Sessions
    const file: CatalogFile
    var service: Service?
    var settings: Settings
    var refreshStatus: bool
    var pending: seq<Outbound>

    ghost function ServiceRepr(): set<object>
      reads this, if service == null then {} else {service.players}
    {
      if service == null then {} else service.Repr()
    }

    ghost function Repr(): set<object>
      reads this, sessions, if service == null then {} else {service.players}
    {
      {this, sessions, file} + sessions.Repr() + ServiceRepr()
    }

    ghost predicate Valid()
      reads Repr()
    {
      sessions.Valid() && (service != null ==> service.Valid() && service.persistence == file)
    }

    ghost function View(): HubState
      requires Valid()
      reads Repr()
    {
      HubState(sessions.View(), if service == null then None else Some(service.View()), settings, refreshStatus, pending, file.content)
    }

    /** A server process that has just started over this file. */
    constructor (file: CatalogFile)
      ensures Valid() && View() == Boot(file.content) && this.file == file
    {
      sessions := new Live.Sessions();
      this.file := file;
      service := null;
      settings := UNCONFIGURED;
      refreshStatus := false;
      pending := [];
    }

    /** The sessions and the service share nothing. */
    lemma {:induction false} NothingShared()
      ensures sessions.Repr() !! ServiceRepr() && this !in sessions.Repr() && this !in ServiceRepr() && file !in sessions.Repr()
      ensures sessions !in sessions.Repr() && sessions !in ServiceRepr()
    {
    }

    function SupportsPeer(id: Id): (compatible: bool)
      requires Valid()
      reads Repr()
      ensures compatible == SessionCompatible(View().sessions, id)
    {
      id in sessions.peers && IsCompatible(sessions.peers[id].View())
    }

    function PeerMinor(id: Id): (minor: i32)
      requires Valid()
      reads Repr()
      ensures minor == SessionMinor(View().sessions, id)
    {
      if id in sessions.peers then EffectiveMinor(sessions.peers[id].View()) else 0
    }

    /** A status frame for a peer. */
    function StatusFor(operator: bool, minor: i32, supported: bool): (frame: Outbound)
      requires Valid()
      reads Repr()
      ensures frame == StatusFrame(View(), operator, minor, supported)
    {
      Status(PROTO_MAJOR, minor, supported, supported && settings.enabled, operator, settings.worldId,
             if service == null then 0 else service.store.revision,
             AsI32(settings.limits.maxPerWorld), AsI32(settings.limits.maxPerPlayer),
             service != null && service.access == OwnerManaged)
    }

    function CatalogNow(): (c: Catalog)
      requires Valid()
      reads Repr()
      ensures c == (if View().service.Some? then View().service.value.catalog else EMPTY) && c.revision >= 0
    {
      if service == null then EMPTY else Catalog(service.store.revision, service.store.waypoints)
    }

    // Payloads.

    method Hello(peer: Peer, major: i32, minor: i32, now: millis) returns (action: Action)
      requires Valid()
      modifies sessions, sessions.Repr()
      ensures Valid() && fresh(sessions.Repr() - old(sessions.Repr()))
      ensures (View(), action) == HandleHello(old(View()), peer, major, minor, now)
    {
      hide Greet, StatusFrame, Live.ReprOf, Live.ViewOf, Live.Apart, Service.Valid, Service.View, SessionCompatible;
      NothingShared();
      var negotiated := sessions.Hello(peer.id, major, minor, peer.operator, now);
      if negotiated == None {
        return Silent;
      }
      return Reply([StatusFor(peer.operator, negotiated.value, SupportsPeer(peer.id))], negotiated.value);
    }

    /** Answers a subscription already paid for. */
    method Admit(peer: Peer, minor: i32) returns (action: Action)
      requires Valid()
      modifies sessions.Repr()
      ensures Valid() && sessions.peers == old(sessions.peers)
      ensures (View(), action) == Enroll(old(View()), peer, minor)
    {
      hide SetOperator, SetSubscribed, StatusFrame, Live.ReprOf, Live.ViewOf, Live.Apart, Service.Valid,
        Service.View, CatalogNow,
        StatusFor;
      NothingShared();
      sessions.SetOperator(peer.id, peer.operator);
      if !settings.enabled {
        sessions.SetSubscribed(peer.id, false);
        return Reply([StatusFor(peer.operator, minor, true)], minor);
      }
      sessions.SetSubscribed(peer.id, true);
      var c := CatalogNow();
      return Reply([Snapshot(c.revision, peer.operator, c.points)], minor);
    }

    method Subscribe(peer: Peer, minor: i32, now: millis) returns (action: Action)
      requires Valid()
      modifies sessions.Repr()
      ensures Valid() && sessions.peers == old(sessions.peers)
      ensures (View(), action) == HandleSubscribe(old(View()), peer, minor, now)
    {
      hide Charge, Enroll, Live.ReprOf, Live.ViewOf, Live.Apart, Service.Valid, Service.View, SessionCompatible,
        SupportsPeer;
      NothingShared();
      if !SupportsPeer(peer.id) {
        return Silent;
      }
      var ok := sessions.Charge(peer.id, now);
      if !ok {
        return Silent;
      }
      action := Admit(peer, minor);
    }

    /** The answer to a mutation while the feature is switched off. */
    method Disabled(peer: Peer, op: Id, minor: i32, now: millis) returns (action: Action)
      requires Valid()
      modifies sessions.Repr()
      ensures Valid() && sessions.peers == old(sessions.peers)
      ensures (View(), action) == HandleDisabled(old(View()), peer, op, minor, now)
    {
      hide Charge, SetOperator, StatusFrame, Live.ReprOf, Live.ViewOf, Live.Apart, Service.Valid, Service.View;
      NothingShared();
      var ok := sessions.Charge(peer.id, now);
      if !ok {
        return Reply([Outcome(op, STATUS_REJECTED, ERROR_RATE_LIMITED)], minor);
      }
      sessions.SetOperator(peer.id, peer.operator);
      return Reply([Outcome(op, STATUS_REJECTED, ERROR_DISABLED), StatusFor(peer.operator, minor, true)], minor);
    }

    method Lock(peer: Peer, op: Id, minor: i32, now: millis) returns (action: Action)
      requires Valid()
      modifies sessions.Repr()
      ensures Valid() && sessions.peers == old(sessions.peers)
      ensures (View(), action) == HandleLock(old(View()), peer, op, minor, now)
    {
      hide HandleDisabled, Live.ReprOf, Live.ViewOf, Live.Apart, Service.Valid, Service.View, SessionCompatible,
        SupportsPeer;
      if !SupportsPeer(peer.id) {
        return Silent;
      }
      if !settings.enabled {
        action := Disabled(peer, op, minor, now);
        return;
      }
      return Reply([Outcome(op, STATUS_REJECTED, ERROR_INVALID_REQUEST)], minor);
    }

    /** Turns a service result into the frames it produces. */
    function Finish(result: MutationResult, minor: i32): (action: Action)
      requires Valid()
      reads Repr()
      ensures action == FinishMutation(View(), result, minor)
    {
      var broadcast := if result.applied && !result.replayed then DeltaFrame(result.delta) else None;
      Mutation(OutcomeFrame(result, minor), minor, broadcast, if broadcast.Some? then sessions.Recipients() else map[])
    }

    /** Hands the request to the service. */
    method Ask(actor: Actor, r: Request, host: Host) returns (result: MutationResult)
      requires Valid() && service != null
      modifies service.Repr()
      ensures Valid() && service == old(service) && fresh(service.players.Repr() - old(service.players.Repr()))
      ensures var before := old(View());
        var st := Perform(file.writer, before.service.value, before.file, actor, r, host);
        result == st.result && View() == before.(service := Some(st.service), file := st.file)
    {
      hide Live.ViewOf, Live.Apart, Service.Valid, Service.View, Perform;
      NothingShared();
      if r.Create? {
        result := service.Create(actor, r, host);
      } else if r.Update? {
        result := service.Update(actor, r, host);
      } else {
        result := service.Delete(actor, r, host);
      }
    }

    method Mutate(peer: Peer, r: Request, minor: i32, now: millis, host: Host) returns (action: Action)
      requires Valid()
      modifies sessions.Repr(), ServiceRepr()
      ensures Valid() && service == old(service) && sessions.peers == old(sessions.peers) && fresh(ServiceRepr() - old(ServiceRepr()))
      ensures (View(), action) == HandleMutation(file.writer, old(View()), peer, r, minor, now, host)
    {
      hide HandleDisabled, Live.ReprOf, Live.ViewOf, Live.Apart, Service.Valid, Service.View, SessionCompatible,
        SupportsPeer, Perform,
        FinishMutation;
      NothingShared();
      if !SupportsPeer(peer.id) {
        return Silent;
      }
      if !settings.enabled {
        action := Disabled(peer, r.operationId, minor, now);
        return;
      }
      if service == null {
        return Silent;
      }
      var result := Ask(ActorOf(peer), r, host);
      return Finish(result, minor);
    }

    /** Records a malformed payload, muting a connection that keeps sending them. */
    method Strike(id: Id)
      requires Valid()
      modifies sessions.Repr()
      ensures Valid() && Repr() == old(Repr()) && View() == NoteMalformed(old(View()), id)
    {
      hide RecordMalformed, Live.ViewOf, Live.ReprOf, Live.Apart, Service.Valid, Service.View;
      NothingShared();
      sessions.Strike(id);
    }

    method Dispatch(peer: Peer, m: Inbound, minor: i32, now: millis, host: Host) returns (action: Action)
      requires Valid()
      modifies sessions, sessions.Repr(), ServiceRepr()
      ensures Valid() && fresh(Repr() - old(Repr()))
      ensures (View(), action) == HandleMessage(file.writer, old(View()), peer, m, minor, now, host)
    {
      hide HandleHello, HandleSubscribe, HandleMutation, HandleLock, Live.ReprOf, Live.ViewOf, Live.Apart,
        Service.Valid, Service.View;
      NothingShared();
      match m {
        case Hello(major, theirs) => action := Hello(peer, major, theirs, now);
        case Subscribe => action := Subscribe(peer, minor, now);
        case Mutate(r) => action := Mutate(peer, r, minor, now, host);
        case Lock(op, _, _, _) => action := Lock(peer, op, minor, now);
      }
    }

    /** Decodes a payload at the minor its sender negotiated, touching nothing. */
    method Read(id: Id, payload: seq<byte>) returns (minor: i32, decoded: Option<Inbound>)
      requires Valid()
      ensures Valid() && View() == old(View()) && Repr() == old(Repr()) && ServiceRepr() == old(ServiceRepr())
      ensures minor == SessionMinor(View().sessions, id) && decoded == DecodeInbound(payload, minor)
    {
      hide DecodeInbound, Live.ViewOf, Live.Apart, Service.Valid, Service.View, PeerMinor, EncInbound, InboundFits,
        SessionMinor;
      NothingShared();
      minor := PeerMinor(id);
      decoded := Decode(payload, minor);
    }

    /** Handles one payload. */
    method Receive(peer: Peer, payload: seq<byte>, now: millis, host: Host) returns (action: Action)
      requires Valid()
      modifies sessions, sessions.Repr(), ServiceRepr()
      ensures Valid() && fresh(Repr() - old(Repr()))
      ensures (View(), action) == Handle(file.writer, old(View()), peer, payload, now, host)
    {
      hide DecodeInbound, HandleMessage, NoteMalformed, Live.ReprOf, Live.ViewOf, Live.Apart, Service.Valid,
        Service.View, SessionMinor;
      var minor, decoded := Read(peer.id, payload);
      if decoded == None {
        Strike(peer.id);
        return Silent;
      }
      label read:
      action := Dispatch(peer, decoded.value, minor, now, host);
      assert forall o :: o in Repr() && o !in old(Repr()) ==> !old@read(allocated(o));
    }

    // The administrative clear.

    /** A store over this catalog, or an empty one if it contradicts itself. */
    static method Build(c: Catalog) returns (store: Store)
      ensures fresh(store) && store.Valid() && store.View() == if ValidCatalog(c) then c else EMPTY
    {
      var built := NewStore(c);
      if built.Ok? {
        return built.value;
      }
      store := new Store.Empty();
    }

    /** Starts serving this catalog, or an empty one if it contradicts itself; nobody is tracked. */
    method Install(c: Catalog, limits: Limits, access: AccessPolicy)
      requires Valid()
      modifies this`service
      ensures Valid() && service != null && fresh(service.store) && fresh(service.players) && service.players.Repr() == {}
      ensures View() == old(View()).(service := Some(NewService(if ValidCatalog(c) then c else EMPTY, limits, access)))
    {
      hide Live.ViewOf, Live.Apart, ValidCatalog, Service.View, Service.Valid;
      NothingShared();
      var store := Build(c);
      var created := new Service(store, file, limits, access);
      assert this !in created.Repr();
      service := created;
    }

    /** Writes a catalog, leaving everything in memory as it was. */
    method Write(c: Catalog, writable: bool) returns (saved: bool)
      requires Valid()
      modifies file
      ensures Valid() && (saved, file.content) == Saved(file.writer, old(file.content), c, writable)
      ensures View() == old(View()).(file := file.content)
    {
      hide Live.ViewOf, Live.Apart, Saved, Service.View, Service.Valid;
      NothingShared();
      saved := file.Save(c, writable);
    }

    /** Writes the empty catalog, then installs it and queues one removal a point. */
    method Wipe(c: Catalog, writable: bool) returns (done: bool)
      requires Valid() && c.revision >= 0 && c.revision + |c.points| <= I64_MAX
      modifies this`service, this`pending, file
      ensures Valid() && sessions.peers == old(sessions.peers)
      ensures service == old(service) || (service != null && fresh(service.store) && fresh(service.players) && service.players.Repr() == {})
      ensures var before, empty := old(View()), Catalog(c.revision + |c.points|, []);
        var (saved, file') := Saved(file.writer, before.file, empty, writable);
        done == saved &&
        View() == if !saved then before.(file := file')
                  else before.(service := Some(NewService(empty, before.settings.limits, before.settings.access)), file := file',
                               pending := ClearFrames(c.points, c.revision))
    {
      hide Live.ViewOf, Live.Apart, Saved, ValidCatalog, Service.Valid, Service.View, NewService, ClearFrames;
      var empty := Catalog(c.revision + |c.points|, []);
      EmptyIsValid(empty);
      done := Write(empty, writable);
      if done {
        Install(empty, settings.limits, settings.access);
        NothingShared();
        pending := ClearFrames(c.points, c.revision);
      }
    }

    /** Replaces the catalog with an empty one, one revision a point. */
    method ClearCatalog(writable: bool) returns (removed: Option<nat>)
      requires Valid()
      modifies this, file
      ensures Valid() && fresh(Repr() - old(Repr()))
      ensures (View(), removed) == Clear(file.writer, old(View()), writable)
    {
      hide Live.ViewOf, Live.ReprOf, Live.Apart, Saved, Service.Valid, Service.View, CatalogNow, NewService,
        ClearFrames;
      var c := CatalogNow();
      if service == null || c.points == [] {
        return Some(0);
      }
      if c.revision > I64_MAX - |c.points| {
        return None;
      }
      var done := Wipe(c, writable);
      return if done then Some(|c.points|) else None;
    }

    lemma {:induction false} EmptyIsValid(c: Catalog)
      requires c.points == [] && c.revision >= 0
      ensures ValidCatalog(c)
    {
    }

    // Configuration and ticks.

    /** Takes new settings while serving: a disable makes every subscription stale. */
    method Reconfigure(next: Settings)
      requires Valid() && service != null
      modifies this, sessions.Repr()
      ensures Valid() && Repr() == old(Repr())
      ensures var before := old(View());
        View() == before.(
          sessions := if before.settings.enabled && !next.enabled then ClearSubscriptions(before.sessions) else before.sessions,
          settings := next, refreshStatus := before.refreshStatus || before.settings != next)
    {
      hide Live.ViewOf, Live.ReprOf, Live.Apart, Service.Valid, Service.View, ClearSubscriptions;
      NothingShared();
      var changed := settings != next;
      if settings.enabled && !next.enabled {
        sessions.ClearAllSubscriptions();
      }
      settings := next;
      if changed {
        refreshStatus := true;
      }
    }

    /** Drops points that no longer validate; the survivors keep the loaded revision. */
    method SanitizeLoaded(c: Catalog) returns (kept: Catalog)
      ensures kept == Catalog(c.revision, Sanitize(c.points))
    {
      hide ValidForWorld;
      var points: seq<Waypoint> := [];
      for i := 0 to |c.points|
        invariant points == Sanitize(c.points[..i])
      {
        SanitizeSnoc(c.points[..i], c.points[i]);
        assert c.points[..i + 1] == c.points[..i] + [c.points[i]];
        if ValidForWorld(c.points[i]) {
          points := points + [c.points[i]];
        }
      }
      assert c.points[..|c.points|] == c.points;
      return Catalog(c.revision, points);
    }

    /** Loads what the file holds, sanitized: nothing when a newer build wrote it. */
    method Load(movable: bool, writable: bool) returns (kept: Option<Catalog>)
      requires Valid()
      modifies file
      ensures Valid()
      ensures var (loaded, content) := LoadedFrom(file.writer, old(file.content), movable, writable);
        View() == old(View()).(file := content) &&
        kept == if loaded.Ready? then Some(Catalog(loaded.catalog.revision, Sanitize(loaded.catalog.points))) else None
    {
      hide Live.ViewOf, Live.Apart, Service.Valid, Service.View, LoadedFrom, Sanitize;
      NothingShared();
      var loaded := file.Load(movable, writable);
      if loaded.UnsupportedSchema? {
        return None;
      }
      var sanitized := SanitizeLoaded(loaded.catalog);
      return Some(sanitized);
    }

    /** Starts serving what was loaded. */
    method Serve(c: Catalog, next: Settings)
      requires Valid()
      modifies this
      ensures Valid() && service != null && fresh(service.store) && fresh(service.players) && service.players.Repr() == {}
      ensures View() == old(View()).(
        service := Some(NewService(if ValidCatalog(c) then c else EMPTY, next.limits, next.access)), settings := next,
        refreshStatus := true)
    {
      hide Live.ReprOf, Live.ViewOf, Live.Apart, Service.Valid, Service.View, ValidCatalog, NewService;
      Install(c, next.limits, next.access);
      NothingShared();
      settings := next;
      refreshStatus := true;
    }

    /** Loads the catalog and starts serving it, or stays off when a newer build wrote the file. */
    method Start(next: Settings, movable: bool, writable: bool)
      requires Valid() && service == null
      modifies this, file
      ensures Valid() && fresh(Repr() - old(Repr()))
      ensures View() == Hub.Configure(file.writer, old(View()), next, movable, writable)
    {
      hide Live.ReprOf, Live.ViewOf, Live.Apart, Service.Valid, Service.View, LoadedFrom, Sanitize, ValidCatalog,
        NewService;
      var kept := Load(movable, writable);
      if kept.Some? {
        Serve(kept.value, next);
      } else {
        NothingShared();
        settings := next.(enabled := false);
      }
    }

    /** Applies the configuration, loading the catalog the first time. */
    method Configure(next: Settings, movable: bool, writable: bool)
      requires Valid()
      modifies this, file, sessions.Repr()
      ensures Valid() && fresh(Repr() - old(Repr()))
      ensures View() == Hub.Configure(file.writer, old(View()), next, movable, writable)
    {
      hide Live.ReprOf, Live.ViewOf, Live.Apart, Service.Valid, Service.View, LoadedFrom, Adopted, NewService,
        ClearSubscriptions;
      if service == null {
        Start(next, movable, writable);
      } else {
        Reconfigure(next);
      }
    }

    /** Records the live permission of each peer, one at a time; the ones that moved are returned. */
    method RefreshOperators(levels: seq<Level>) returns (moved: set<Id>)
      requires Valid()
      modifies sessions.Repr()
      ensures Valid() && Repr() == old(Repr())
      ensures var (after, ids) := RefreshAll(old(View()).sessions, levels); View() == old(View()).(sessions := after) && moved == ids
    {
      hide Live.ReprOf, Live.ViewOf, Live.Apart, Service.Valid, Service.View, RefreshOperator;
      NothingShared();
      moved := {};
      ghost var before := sessions.View();
      ghost var repr, peers := sessions.Repr(), sessions.peers;
      for i := 0 to |levels|
        invariant Valid() && sessions.peers == peers && sessions.Repr() == repr && service == old(service)
        invariant ServiceRepr() == old(ServiceRepr())
        invariant View() == old(View()).(sessions := RefreshAll(before, levels[..i]).0) && moved == RefreshAll(before, levels[..i]).1
      {
        assert levels[..i + 1][..i] == levels[..i];
        NothingShared();
        var ok := sessions.Refresh(levels[i].id, levels[i].operator);
        if ok {
          moved := moved + {levels[i].id};
        }
      }
      assert levels[..|levels|] == levels;
    }

    /** Refreshes operator status and hands over everything queued. */
    method OnTick(levels: seq<Level>) returns (flush: Flush)
      requires Valid()
      modifies this, sessions.Repr()
      ensures Valid() && Repr() == old(Repr())
      ensures (View(), flush) == Tick(old(View()), levels)
    {
      hide Live.ReprOf, Live.ViewOf, Live.Apart, Service.Valid, Service.View, RefreshAll, CompatiblePeers,
        StatusesFor, Subscribers;
      NothingShared();
      var targets: set<Id> := {};
      if refreshStatus {
        refreshStatus := false;
        targets := sessions.Compatible();
      }
      var moved := RefreshOperators(levels);
      NothingShared();
      var recipients := if pending == [] then map[] else sessions.Recipients();
      var deltas := pending;
      pending := [];
      return Flush(StatusesOf(targets + moved), deltas, recipients);
    }

    /** The status a peer with a session is sent. */
    function PeerStatus(id: Id): (frame: Outbound)
      requires Valid() && id in sessions.peers
      reads Repr()
      ensures id in View().sessions
      ensures var h := View();
        frame == StatusFrame(h, h.sessions[id].operator, EffectiveMinor(h.sessions[id]), h.service.Some?)
    {
      hide StatusFrame;
      StatusFor(sessions.peers[id].operator, EffectiveMinor(sessions.peers[id].View()), service != null)
    }

    function StatusesOf(targets: set<Id>): (statuses: map<Id, Outbound>)
      requires Valid()
      reads Repr()
      ensures statuses == StatusesFor(View(), targets)
    {
      hide StatusFrame, StatusFor, Service.Valid, Service.View, Live.ViewOf, Live.Apart, EffectiveMinor, IsCompatible;
      map id | id in targets && SupportsPeer(id) :: PeerStatus(id)
    }

    // Departures.

    method OnLeave(id: Id)
      requires Valid()
      modifies sessions
      ensures Valid() && View() == Leave(old(View()), id) && fresh(Repr() - old(Repr()))
    {
      hide Live.ReprOf, Live.ViewOf, Live.Apart, Service.Valid, Service.View;
      NothingShared();
      sessions.Remove(id);
    }

    method OnUnload()
      requires Valid()
      modifies sessions
      ensures Valid() && View() == Unload(old(View())) && fresh(Repr() - old(Repr()))
    {
      hide Live.ReprOf, Live.ViewOf, Live.Apart, Service.Valid, Service.View;
      NothingShared();
      sessions.Clear();
    }
  }
}
