/**
  Across evictions, clears, crashes and restarts, no request is made durable twice: the revisions it
  names are left behind by its own commit and never come back, not even for an id drawn again.
 */
module AtMostOnce {
  import opened Prelude
  import opened Identity
  import opened Floats
  import opened Model
  import opened Proto
  import opened Catalogs
  import opened Buckets
  import opened Players
  import opened Documents
  import opened DocumentSize
  import opened Persistence
  import opened Mutations
  import opened MutationLaws
  import opened Hub
  import opened HubLaws
  import opened Runs

  /** The catalog has moved past whatever this request expected to find. */
  ghost predicate Superseded(c: Catalog, r: Request) {
    && r.expectedRevision < c.revision
    && (!r.Create? ==> forall w :: w in c.points && w.id == r.id ==> r.expectedRevision < w.revision)
  }

  /** Every point of the later catalog was there before or carries a revision nobody had seen. */
  ghost predicate Grows(c: Catalog, next: Catalog) {
    && c.revision <= next.revision
    && forall w :: w in next.points ==> w in c.points || c.revision < w.revision
  }

  lemma GrowsNothing(c: Catalog)
    ensures Grows(c, c)
  {
  }

  lemma SupersededStays(c: Catalog, next: Catalog, r: Request)
    requires Superseded(c, r) && Grows(c, next)
    ensures Superseded(next, r)
  {
  }

  /** A plan stamps what it writes with the revision it makes. */
  lemma PlanStamps(s: ServiceState, actor: Actor, r: Request, host: Host)
    requires Plan(s, actor, r, host).Ok?
    ensures var p := Plan(s, actor, r, host).value;
      && (p.delta.Upserted? ==> p.delta.waypoint.revision == s.catalog.revision + 1)
      && (r.Update? ==> p.delta.Upserted? && p.delta.waypoint.id == r.id)
      && (r.Delete? ==> p.delta == Removed(s.catalog.revision + 1, r.id))
      && (ValidCatalog(s.catalog) ==> r.expectedRevision <= s.catalog.revision)
  {
    hide Plan, Validate, ValidPublisherName, Trim, CanManage, Displaces, BlockOf;
    match r
    case Create(_, _, _) => PlanCreateFacts(s, actor, r, host);
    case Update(_, _, _, _) => PlanUpdateFacts(s, actor, r, host);
    case Delete(_, _, _) => PlanDeleteFacts(s, actor, r, host);
  }

  lemma ApplyGrows(c: Catalog, next: Catalog, delta: Delta)
    requires next.revision == c.revision + 1 && next.points == Apply(c.points, delta)
    requires delta.Upserted? ==> c.revision < delta.waypoint.revision
    ensures Grows(c, next)
  {
    forall w | w in next.points
      ensures w in c.points || c.revision < w.revision
    {
      var k :| 0 <= k < |next.points| && next.points[k] == w;
      if delta.Removed? && Has(c.points, delta.id) {
        var n := IndexOf(c.points, delta.id);
        assert w == c.points[if k < n then k else k + 1];
      }
    }
  }

  lemma ReplacedIsNewest(points: seq<Waypoint>, w: Waypoint, v: Waypoint)
    requires UniqueIds(points) && v in Apply(points, Upserted(0, w)) && v.id == w.id
    ensures v == w
  {
  }

  lemma RemovedIsGone(points: seq<Waypoint>, id: Id, v: Waypoint)
    requires UniqueIds(points) && v in Apply(points, Removed(0, id))
    ensures v.id != id
  {
    var rest := Apply(points, Removed(0, id));
    var k :| 0 <= k < |rest| && rest[k] == v;
    if Has(points, id) {
      var n := IndexOf(points, id);
      assert v == points[if k < n then k else k + 1];
    }
  }

  /** A commit grows the catalog and supersedes its own request. */
  lemma CommitSupersedes(s: ServiceState, actor: Actor, r: Request, host: Host)
    requires ValidCatalog(s.catalog) && Plan(s, actor, r, host).Ok?
    ensures var next := Plan(s, actor, r, host).value.next;
      Grows(s.catalog, next) && Superseded(next, r)
  {
    hide Plan, Apply, CanManage, Grows;
    PlanApplies(s, actor, r, host);
    PlanStamps(s, actor, r, host);
    var p := Plan(s, actor, r, host).value;
    ApplyGrows(s.catalog, p.next, p.delta);
    forall w | w in p.next.points && !r.Create? && w.id == r.id
      ensures r.expectedRevision < w.revision
    {
      UpsertIgnoresRevision(s.catalog.points, p.delta);
      if r.Update? {
        ReplacedIsNewest(s.catalog.points, p.delta.waypoint, w);
      } else {
        RemovedIsGone(s.catalog.points, r.id, w);
      }
    }
  }

  lemma UpsertIgnoresRevision(points: seq<Waypoint>, delta: Delta)
    ensures delta.Upserted? ==> Apply(points, delta) == Apply(points, Upserted(0, delta.waypoint))
    ensures delta.Removed? ==> Apply(points, delta) == Apply(points, Removed(0, delta.id))
  {
  }

  /** Nothing plans a request the catalog has superseded, under whatever operation id it returns. */
  lemma SupersededIsRefused(s: ServiceState, actor: Actor, r: Request, host: Host, earlier: Request)
    requires Superseded(s.catalog, earlier) && (earlier == r || SameAsk(earlier, r))
    ensures Plan(s, actor, r, host).Err?
  {
    hide Equal, PlaceChanged, Validate, PlaceNew, ValidPublisherName, LocationOf, FindAt;
    if !r.Create? && Has(s.catalog.points, r.id) {
      assert s.catalog.points[IndexOf(s.catalog.points, r.id)] in s.catalog.points;
    }
  }

  lemma EventGrows(writer: Writer, h: HubState, e: Event)
    requires Faithful(writer.floats) && Reachable(writer, h)
    ensures Grows(OnDisk(writer, h.file), OnDisk(writer, StepHub(writer, h, e).file))
    ensures forall r :: r in DurableRequests(writer, h, e) ==> Superseded(OnDisk(writer, StepHub(writer, h, e).file), r)
  {
    hide Faithful, OnDisk, HubInvariant, GoodFile, ServiceInvariant, Handle, Clear, Configure, Tick, Grows,
      Superseded, Commits, Empties;
    var c := OnDisk(writer, h.file);
    GrowsNothing(c);
    match e
    case Arrives(peer, payload, now, host) => PayloadGrows(writer, h, peer, payload, now, host);
    case DiesOnPayload(peer, payload, now, host) => PayloadGrows(writer, h, peer, payload, now, host);
    case Clears(writable) => WipeGrows(writer, h, writable);
    case DiesOnClear(writable) => WipeGrows(writer, h, writable);
    case Configures(settings, movable, writable) => ConfigureDurable(writer, h, settings, movable, writable);
    case Ticks(levels) => TickDurable(writer, h, levels);
    case Leaves(id) =>
    case Unloads =>
    case Dies =>
  }

  lemma PayloadGrows(writer: Writer, h: HubState, peer: Peer, payload: seq<byte>, now: millis, host: Host)
    requires Faithful(writer.floats) && Reachable(writer, h)
    ensures var next := OnDisk(writer, Handle(writer, h, peer, payload, now, host).0.file);
      && Grows(OnDisk(writer, h.file), next)
      && (Commits(writer, h, peer, payload, host) ==> Superseded(next, RequestOf(h, peer, payload)))
  {
    hide Faithful, OnDisk, HubInvariant, GoodFile, Handle, Grows, Superseded, DecodeInbound, Perform, Plan,
      FinishMutation,
      ValidPlayers, AllTruthful, CanSave, Apply;
    HandleService(writer, h, peer, payload, now, host);
    HandleDurable(writer, h, peer, payload, now, host);
    GrowsNothing(OnDisk(writer, h.file));
    if Performs(h, peer, payload) {
      var s, r := h.service.value, RequestOf(h, peer, payload);
      MutateCases(writer, s, h.file, ActorOf(peer), r, host);
      if Commits(writer, h, peer, payload, host) {
        CommitSupersedes(s, ActorOf(peer), r, host);
      }
    }
  }

  lemma WipeGrows(writer: Writer, h: HubState, writable: bool)
    requires Faithful(writer.floats) && Reachable(writer, h)
    ensures Grows(OnDisk(writer, h.file), OnDisk(writer, Clear(writer, h, writable).0.file))
  {
    hide Faithful, OnDisk, HubInvariant, GoodFile, ServiceInvariant, Clear, PointMap, ApplyAll, Empties;
    WipeAdvances(writer, h, writable);
    if !Empties(writer, h, writable) {
      FailedClearKeepsFile(writer, h, writable);
    }
  }

  lemma CommittedWasNotSuperseded(writer: Writer, h: HubState, e: Event, earlier: Request)
    requires Faithful(writer.floats) && Reachable(writer, h) && Superseded(OnDisk(writer, h.file), earlier)
    ensures forall r :: r in DurableRequests(writer, h, e) ==> earlier != r && !SameAsk(earlier, r)
  {
    hide Faithful, OnDisk, HubInvariant, GoodFile, ServiceInvariant, Superseded, DecodeInbound, Perform, Plan, SameAsk;
    if DurableRequests(writer, h, e) != [] {
      var r := DurableRequests(writer, h, e)[0];
      MutateCases(writer, h.service.value, h.file, ActorOf(e.peer), r, e.host);
      if earlier == r || SameAsk(earlier, r) {
        SupersededIsRefused(h.service.value, ActorOf(e.peer), r, e.host, earlier);
      }
    }
  }

  ghost predicate OnceEach(writer: Writer, w: World) {
    && (forall i :: 0 <= i < |w.log| ==> Superseded(OnDisk(writer, w.hub.file), w.log[i]))
    && NoRepeats(w.log)
  }

  ghost predicate NoRepeats(log: seq<Request>) {
    forall i, j :: 0 <= i < j < |log| ==> log[i] != log[j] && !SameAsk(log[i], log[j])
  }

  lemma StepOnceEach(writer: Writer, w: World, e: Event)
    requires Faithful(writer.floats) && Reachable(writer, w.hub) && OnceEach(writer, w)
    ensures OnceEach(writer, StepWorld(writer, w, e))
  {
    hide Faithful, OnDisk, Reachable, StepHub, Superseded, Grows, SameAsk, DurableDeltas, Emits, StepStreams, Record,
      DurableRequests,
      NoRepeats;
    var more := DurableRequests(writer, w.hub, e);
    assert |more| <= 1 by { AtMostOneRequest(writer, w.hub, e); }
    EventGrows(writer, w.hub, e);
    forall i | 0 <= i < |w.log|
      ensures Superseded(OnDisk(writer, StepHub(writer, w.hub, e).file), w.log[i])
      ensures forall r :: r in more ==> w.log[i] != r && !SameAsk(w.log[i], r)
    {
      SupersededStays(OnDisk(writer, w.hub.file), OnDisk(writer, StepHub(writer, w.hub, e).file), w.log[i]);
      CommittedWasNotSuperseded(writer, w.hub, e, w.log[i]);
    }
    RepeatsExtend(w.log, more);
  }

  lemma RepeatsExtend(log: seq<Request>, more: seq<Request>)
    requires NoRepeats(log) && |more| <= 1
    requires forall i, r :: 0 <= i < |log| && r in more ==> log[i] != r && !SameAsk(log[i], r)
    ensures NoRepeats(log + more)
  {
    hide SameAsk;
    if more != [] {
      assert more[0] in more && log + more == log + [more[0]];
    }
  }

  lemma AtMostOneRequest(writer: Writer, h: HubState, e: Event)
    ensures |DurableRequests(writer, h, e)| <= 1
  {
    hide Commits;
  }

  /**
    At most once, over every run: no two durable commits come from the same request, nor from two
    that differ only in their operation id. Cache eviction, a clear, a crash between the write and
    the answer and a restart are all among the events.
   */
  lemma {:induction false} CommitsAtMostOnce(writer: Writer, file: File, events: seq<Event>)
    requires Faithful(writer.floats) && GoodFile(writer, file)
    ensures OnceEach(writer, Run(writer, file, events))
  {
    hide Faithful, GoodFile, Reachable, StepWorld, NoRepeats, Superseded;
    if events == [] {
      assert NoRepeats([]) by { NoneRepeats(); }
    } else {
      var w := Run(writer, file, events[..|events| - 1]);
      CommitsAtMostOnce(writer, file, events[..|events| - 1]);
      RunReachable(writer, file, events[..|events| - 1]);
      StepOnceEach(writer, w, events[|events| - 1]);
    }
  }

  lemma NoneRepeats()
    ensures NoRepeats([])
  {
  }
}
