/**
  Who can touch what, and how much, over whole runs: a publisher's points move only by an operator, a
  clear or the publisher; origins never change; and quotas hold for the catalog and every player.
 */
module Ownership {
  import opened Prelude
  import opened Identity
  import opened Model
  import opened Proto
  import opened Catalogs
  import opened Buckets
  import opened Players
  import opened Documents
  import opened DocumentSize
  import opened Persistence
  import opened Mutations
  import opened MutationLaws
  import opened Hub
  import opened HubLaws
  import opened Runs
  import opened Convergence

  /** A commit passed the right to create, where it created. */
  lemma CommitWasAllowed(writer: Writer, s: ServiceState, file: File, actor: Actor, r: Request, host: Host)
    requires Fresh(Perform(writer, s, file, actor, r, host).result)
    ensures r.Create? ==> CanCreate(actor, s.access)
  {
    hide Touched, WithState, TryConsume, Plan, Conclude, ReplayDecision;
    var (_, player) := Touched(s, actor.id, host.now);
    ReplayNotFresh(player, r, s.catalog.revision);
  }

  /** What a payload does to the durable catalog: one allowed plan, or nothing. */
  lemma PayloadPlan(writer: Writer, h: HubState, peer: Peer, payload: seq<byte>, now: millis, host: Host)
    requires Faithful(writer.floats) && Reachable(writer, h)
    ensures var c, next := OnDisk(writer, h.file), OnDisk(writer, Handle(writer, h, peer, payload, now, host).0.file);
      if Commits(writer, h, peer, payload, host) then
        var s, r := h.service.value, RequestOf(h, peer, payload);
        && s.catalog == c && ValidCatalog(c)
        && Plan(s, ActorOf(peer), r, host).Ok?
        && Plan(s, ActorOf(peer), r, host).value.next == next
        && Performed(writer, h, peer, payload, host).result.delta == Plan(s, ActorOf(peer), r, host).value.delta
        && (r.Create? ==> CanCreate(ActorOf(peer), s.access))
      else next == c
  {
    hide Faithful, HubInvariant, GoodFile, OnDisk, Handle, Perform, DecodeInbound, Plan, FinishMutation, CanCreate,
      ValidPlayers,
      AllTruthful, CanSave, ValidCatalog;
    HandleService(writer, h, peer, payload, now, host);
    HandleDurable(writer, h, peer, payload, now, host);
    if Performs(h, peer, payload) {
      var s, r := h.service.value, RequestOf(h, peer, payload);
      MutateCases(writer, s, h.file, ActorOf(peer), r, host);
      if Commits(writer, h, peer, payload, host) {
        CommitWasAllowed(writer, s, h.file, ActorOf(peer), r, host);
      }
    }
  }

  // Ownership.

  /** The points this player published. */
  function Owned(m: Points, publisher: Id): Points {
    map id | id in m && m[id].publisherId == publisher :: m[id]
  }

  /** An event that may touch this publisher's points: by an operator, by its publisher, by a clear. */
  predicate Entitled(h: HubState, e: Event, publisher: Id) {
    match e
    case Arrives(peer, _, _, _) => MayTouch(h, peer, publisher)
    case DiesOnPayload(peer, _, _, _) => MayTouch(h, peer, publisher)
    case Clears(_) => true
    case DiesOnClear(_) => true
    case _ => false
  }

  predicate MayTouch(h: HubState, peer: Peer, publisher: Id) {
    peer.operator || (peer.id == publisher && h.service.Some? && h.service.value.access == OwnerManaged)
  }

  /** The delta of an allowed plan by somebody not entitled leaves a publisher's points alone. */
  lemma PlanSparesOthers(s: ServiceState, actor: Actor, r: Request, host: Host, publisher: Id)
    requires Plan(s, actor, r, host).Ok? && ValidCatalog(s.catalog) && (r.Create? ==> CanCreate(actor, s.access))
    requires !actor.operator && (actor.id != publisher || s.access != OwnerManaged)
    ensures var delta, m := Plan(s, actor, r, host).value.delta, PointMap(s.catalog.points);
      Owned(ApplyToMap(m, delta), publisher) == Owned(m, publisher)
  {
    hide Plan, PointMap, Validate, ValidPublisherName, Trim, Displaces, BlockOf, IndexOf, PrepareUpdate,
      PrepareDelete, ValidCatalog;
    UniqueOf(s.catalog);
    var points := s.catalog.points;
    match r
    case Create(_, _, _) =>
      PlanCreateFacts(s, actor, r, host);
      HasIsIn(points, Plan(s, actor, r, host).value.delta.waypoint.id);
    case Update(_, _, _, _) =>
      PlanUpdateFacts(s, actor, r, host);
      LookUpAt(points, IndexOf(points, r.id));
    case Delete(_, _, _) =>
      PlanDeleteFacts(s, actor, r, host);
      LookUpAt(points, IndexOf(points, r.id));
  }

  lemma PayloadSparesOthers(writer: Writer, h: HubState, peer: Peer, payload: seq<byte>, now: millis, host: Host,
      publisher: Id)
    requires Faithful(writer.floats) && Reachable(writer, h) && !MayTouch(h, peer, publisher)
    ensures var c, next := OnDisk(writer, h.file), OnDisk(writer, Handle(writer, h, peer, payload, now, host).0.file);
      Owned(PointMap(next.points), publisher) == Owned(PointMap(c.points), publisher)
  {
    hide Faithful, Reachable, OnDisk, Handle, Perform, DecodeInbound, Plan, PointMap, ApplyAll, Owned, ValidCatalog,
      CanCreate;
    PayloadPlan(writer, h, peer, payload, now, host);
    PayloadAdvances(writer, h, peer, payload, now, host);
    if Commits(writer, h, peer, payload, host) {
      var s, r := h.service.value, RequestOf(h, peer, payload);
      PlanSparesOthers(s, ActorOf(peer), r, host, publisher);
      ApplyOne(PointMap(s.catalog.points), Plan(s, ActorOf(peer), r, host).value.delta);
    }
  }

  lemma EventSparesOthers(writer: Writer, h: HubState, e: Event, publisher: Id)
    requires Faithful(writer.floats) && Reachable(writer, h) && !Entitled(h, e, publisher)
    ensures var c, next := OnDisk(writer, h.file), OnDisk(writer, StepHub(writer, h, e).file);
      Owned(PointMap(next.points), publisher) == Owned(PointMap(c.points), publisher)
  {
    hide Faithful, Reachable, OnDisk, Handle, Configure, Tick, PointMap, ApplyAll, Owned, PayloadDeltas;
    EventAdvances(writer, h, e);
    ApplyNone(PointMap(OnDisk(writer, h.file).points));
    match e
    case Arrives(peer, payload, now, host) => PayloadSparesOthers(writer, h, peer, payload, now, host, publisher);
    case DiesOnPayload(peer, payload, now, host) => PayloadSparesOthers(writer, h, peer, payload, now, host, publisher);
    case _ =>
  }

  lemma ApplyNone(m: Points)
    ensures ApplyAll(m, []) == m
  {
  }

  /** No event of the run is entitled to touch this publisher's points. */
  ghost predicate Untouchable(writer: Writer, file: File, events: seq<Event>, publisher: Id) {
    events == [] ||
    (var front, last := events[..|events| - 1], events[|events| - 1];
     Untouchable(writer, file, front, publisher) && !Entitled(Run(writer, file, front).hub, last, publisher))
  }

  /**
    Ownership over every run: while nobody entitled acts, a publisher's points - none lost, none
    changed, none added in their name - are exactly the ones the file started with.
   */
  lemma {:induction false} OwnershipHolds(writer: Writer, file: File, events: seq<Event>, publisher: Id)
    requires Faithful(writer.floats) && GoodFile(writer, file) && Untouchable(writer, file, events, publisher)
    ensures Owned(PointMap(OnDisk(writer, Run(writer, file, events).hub.file).points), publisher) ==
            Owned(PointMap(OnDisk(writer, file).points), publisher)
  {
    hide Faithful, GoodFile, OnDisk, Reachable, StepHub, PointMap, Owned, Entitled, DurableDeltas, DurableRequests,
      Emits, Record, StepStreams;
    if events != [] {
      var front := events[..|events| - 1];
      OwnershipHolds(writer, file, front, publisher);
      RunReachable(writer, file, front);
      EventSparesOthers(writer, Run(writer, file, front).hub, events[|events| - 1], publisher);
    }
  }

  // Origins.

  /** Points that stay keep their publisher and creation; a changed one carries the new revision. */
  ghost predicate KeepsOrigins(m: Points, next: Points, revision: int) {
    forall id :: id in m && id in next ==>
      && next[id].publisherId == m[id].publisherId && next[id].publisherName == m[id].publisherName
      && next[id].createdAtMs == m[id].createdAtMs
      && (next[id] == m[id] || next[id].revision == revision)
  }

  lemma PlanKeepsOrigins(s: ServiceState, actor: Actor, r: Request, host: Host)
    requires Plan(s, actor, r, host).Ok? && ValidCatalog(s.catalog)
    ensures var delta, m := Plan(s, actor, r, host).value.delta, PointMap(s.catalog.points);
      KeepsOrigins(m, ApplyToMap(m, delta), s.catalog.revision + 1)
  {
    hide Plan, PointMap, Validate, ValidPublisherName, Trim, Displaces, BlockOf, IndexOf, PrepareUpdate,
      PrepareDelete, ValidCatalog,
      CanManage;
    UniqueOf(s.catalog);
    var points := s.catalog.points;
    match r
    case Create(_, _, _) =>
      PlanCreateFacts(s, actor, r, host);
      HasIsIn(points, Plan(s, actor, r, host).value.delta.waypoint.id);
    case Update(_, _, _, _) =>
      PlanUpdateFacts(s, actor, r, host);
      LookUpAt(points, IndexOf(points, r.id));
    case Delete(_, _, _) =>
      PlanDeleteFacts(s, actor, r, host);
  }

  /** The k-th of a run of changes keeps the origins the ones before it left. */
  ghost predicate KeepsAt(start: Points, deltas: seq<Delta>, base: int, k: int)
    requires 0 <= k < |deltas|
  {
    KeepsOrigins(ApplyAll(start, deltas[..k]), ApplyAll(start, deltas[..k + 1]), base + 1 + k)
  }

  ghost predicate AllKeepOrigins(start: Points, deltas: seq<Delta>, base: int) {
    forall k :: 0 <= k < |deltas| ==> KeepsAt(start, deltas, base, k)
  }

  lemma RemovalsKeepOrigins(start: Points, deltas: seq<Delta>, base: int)
    requires forall k :: 0 <= k < |deltas| ==> deltas[k].Removed?
    ensures AllKeepOrigins(start, deltas, base)
  {
    hide ApplyAll;
    forall k | 0 <= k < |deltas|
      ensures KeepsAt(start, deltas, base, k)
    {
      ApplyNext(start, deltas, k);
    }
  }

  lemma ApplyNext(start: Points, deltas: seq<Delta>, k: nat)
    requires k < |deltas|
    ensures ApplyAll(start, deltas[..k + 1]) == ApplyToMap(ApplyAll(start, deltas[..k]), deltas[k])
  {
    assert deltas[..k + 1][..k] == deltas[..k];
  }

  lemma PayloadKeepsOrigins(writer: Writer, h: HubState, peer: Peer, payload: seq<byte>, host: Host)
    requires Faithful(writer.floats) && Reachable(writer, h)
    ensures var c := OnDisk(writer, h.file);
      AllKeepOrigins(PointMap(c.points), PayloadDeltas(writer, h, peer, payload, host), c.revision)
  {
    hide Faithful, Reachable, OnDisk, Handle, Perform, DecodeInbound, Plan, PointMap, ApplyAll, KeepsOrigins,
      ValidCatalog, CanCreate,
      ApplyToMap;
    PayloadPlan(writer, h, peer, payload, host.now, host);
    if Commits(writer, h, peer, payload, host) {
      var s, r := h.service.value, RequestOf(h, peer, payload);
      var deltas, m := PayloadDeltas(writer, h, peer, payload, host), PointMap(s.catalog.points);
      PlanKeepsOrigins(s, ActorOf(peer), r, host);
      assert deltas[..1] == deltas && deltas[..0] == [];
      ApplyNone(m);
      ApplyOne(m, deltas[0]);
    }
  }

  lemma EventKeepsOrigins(writer: Writer, h: HubState, e: Event)
    requires Faithful(writer.floats) && Reachable(writer, h)
    ensures var c := OnDisk(writer, h.file);
      AllKeepOrigins(PointMap(c.points), DurableDeltas(writer, h, e), c.revision)
  {
    hide Faithful, Reachable, OnDisk, PointMap, AllKeepOrigins, PayloadDeltas, Clear;
    var c := OnDisk(writer, h.file);
    match e
    case Arrives(peer, payload, _, host) => PayloadKeepsOrigins(writer, h, peer, payload, host);
    case DiesOnPayload(peer, payload, _, host) => PayloadKeepsOrigins(writer, h, peer, payload, host);
    case _ => RemovalsKeepOrigins(PointMap(c.points), DurableDeltas(writer, h, e), c.revision);
  }

  /** From one revision of the history to the next, origins are kept. */
  ghost predicate OriginsKept(history: History) {
    forall r :: r in history && r - 1 in history ==> KeepsOrigins(history[r - 1], history[r], r)
  }

  lemma StepKeepsOrigins(writer: Writer, w: World, e: Event)
    requires Faithful(writer.floats) && Reachable(writer, w.hub)
    requires Recorded(w.history, OnDisk(writer, w.hub.file)) && OriginsKept(w.history)
    ensures OriginsKept(StepWorld(writer, w, e).history)
  {
    hide Faithful, OnDisk, Reachable, StepHub, DurableDeltas, Emits, StepStreams, DurableRequests, PointMap,
      ApplyAll, KeepsOrigins,
      Record;
    var c, deltas := OnDisk(writer, w.hub.file), DurableDeltas(writer, w.hub, e);
    EventAdvances(writer, w.hub, e);
    EventKeepsOrigins(writer, w.hub, e);
    RecordFacts(w.history, PointMap(c.points), deltas, c.revision);
    var later := Record(w.history, PointMap(c.points), deltas);
    forall r | r in later && r - 1 in later
      ensures KeepsOrigins(later[r - 1], later[r], r)
    {
      if r > c.revision {
        assert KeepsAt(PointMap(c.points), deltas, c.revision, r - c.revision - 1);
      }
    }
  }

  /** Id, publisher and creation time of a point never change, over every run. */
  lemma {:induction false} OriginsNeverChange(writer: Writer, file: File, events: seq<Event>)
    requires Faithful(writer.floats) && GoodFile(writer, file)
    ensures OriginsKept(Run(writer, file, events).history)
  {
    hide Faithful, GoodFile, OnDisk, Reachable, StepWorld, KeepsOrigins, TrueFrame, PointMap;
    if events != [] {
      var front := events[..|events| - 1];
      OriginsNeverChange(writer, file, front);
      RunReachable(writer, file, front);
      RunTruth(writer, file, front);
      StepKeepsOrigins(writer, Run(writer, file, front), events[|events| - 1]);
    }
  }

  // Quotas.

  lemma {:induction false} CountAppend(points: seq<Waypoint>, w: Waypoint, publisher: Id)
    ensures CountPublishedBy(points + [w], publisher) ==
            CountPublishedBy(points, publisher) + if w.publisherId == publisher then 1 else 0
  {
    if points == [] {
      assert points + [w] == [w] && [w][1..] == [];
    } else {
      assert (points + [w])[1..] == points[1..] + [w];
      CountAppend(points[1..], w, publisher);
    }
  }

  lemma {:induction false} CountWithout(points: seq<Waypoint>, n: nat, publisher: Id)
    requires n < |points|
    ensures CountPublishedBy(WithoutAt(points, n), publisher) <= CountPublishedBy(points, publisher)
  {
    if n == 0 {
      assert WithoutAt(points, 0) == points[1..];
    } else {
      assert WithoutAt(points, n)[1..] == WithoutAt(points[1..], n - 1);
      CountWithout(points[1..], n - 1, publisher);
    }
  }

  lemma {:induction false} CountReplace(points: seq<Waypoint>, n: nat, w: Waypoint, publisher: Id)
    requires n < |points| && w.publisherId == points[n].publisherId
    ensures CountPublishedBy(points[n := w], publisher) == CountPublishedBy(points, publisher)
  {
    if n == 0 {
      assert points[0 := w][1..] == points[1..];
    } else {
      assert points[n := w][1..] == points[1..][n - 1 := w];
      CountReplace(points[1..], n - 1, w, publisher);
    }
  }

  lemma PlanWithinQuota(s: ServiceState, actor: Actor, r: Request, host: Host, publisher: Id)
    requires Plan(s, actor, r, host).Ok?
    ensures var next := Plan(s, actor, r, host).value.next;
      && |next.points| <= Max(|s.catalog.points|, s.limits.maxPerWorld)
      && CountPublishedBy(next.points, publisher) <= Max(CountPublishedBy(s.catalog.points, publisher), s.limits.maxPerPlayer)
  {
    hide Plan, Validate, ValidPublisherName, Trim, Displaces, BlockOf, CanManage, CountPublishedBy, FindAt, WithoutAt;
    var points := s.catalog.points;
    match r
    case Create(_, _, _) =>
      PlanCreateFacts(s, actor, r, host);
      CountAppend(points, Plan(s, actor, r, host).value.delta.waypoint, publisher);
    case Update(_, _, _, _) =>
      PlanUpdateFacts(s, actor, r, host);
      CountReplace(points, IndexOf(points, r.id), Plan(s, actor, r, host).value.delta.waypoint, publisher);
    case Delete(_, _, _) =>
      PlanDeleteFacts(s, actor, r, host);
      CountWithout(points, IndexOf(points, r.id), publisher);
  }

  /** The catalog and one publisher's share of it stay within these bounds, and so do the limits. */
  ghost predicate WithinQuota(writer: Writer, h: HubState, publisher: Id, world: nat, player: nat) {
    && |OnDisk(writer, h.file).points| <= world
    && CountPublishedBy(OnDisk(writer, h.file).points, publisher) <= player
    && (h.service.Some? ==> LimitsWithin(h.service.value.limits, world, player) && LimitsWithin(h.settings.limits, world, player))
  }

  predicate LimitsWithin(limits: Limits, world: nat, player: nat) {
    limits.maxPerWorld <= world && limits.maxPerPlayer <= player
  }

  predicate AsksWithin(e: Event, world: nat, player: nat) {
    e.Configures? ==> LimitsWithin(e.settings.limits, world, player)
  }

  lemma PayloadWithinQuota(writer: Writer, h: HubState, peer: Peer, payload: seq<byte>, now: millis, host: Host,
      publisher: Id, world: nat, player: nat)
    requires Faithful(writer.floats) && Reachable(writer, h) && WithinQuota(writer, h, publisher, world, player)
    ensures var after := Handle(writer, h, peer, payload, now, host).0;
      WithinQuota(writer, after, publisher, world, player) && WithinQuota(writer, Boot(after.file), publisher, world, player)
  {
    hide Faithful, Reachable, OnDisk, Handle, Perform, DecodeInbound, Plan, FinishMutation, ValidCatalog, CanCreate,
      CountPublishedBy;
    HandleService(writer, h, peer, payload, now, host);
    PayloadPlan(writer, h, peer, payload, now, host);
    if Performs(h, peer, payload) {
      MutateCases(writer, h.service.value, h.file, ActorOf(peer), RequestOf(h, peer, payload), host);
      if Commits(writer, h, peer, payload, host) {
        PlanWithinQuota(h.service.value, ActorOf(peer), RequestOf(h, peer, payload), host, publisher);
      }
    }
  }

  lemma ClearWithinQuota(writer: Writer, h: HubState, writable: bool, publisher: Id, world: nat, player: nat)
    requires Faithful(writer.floats) && Reachable(writer, h) && WithinQuota(writer, h, publisher, world, player)
    ensures var after := Clear(writer, h, writable).0;
      WithinQuota(writer, after, publisher, world, player) && WithinQuota(writer, Boot(after.file), publisher, world, player)
  {
    hide Faithful, Reachable, OnDisk, PointMap, ApplyAll, Saved, ClearFrames, Empties;
    WipeAdvances(writer, h, writable);
    if !Empties(writer, h, writable) {
      FailedClearKeepsFile(writer, h, writable);
    }
    ClearLimits(writer, h, writable);
  }

  lemma ClearLimits(writer: Writer, h: HubState, writable: bool)
    ensures var after := Clear(writer, h, writable).0;
      && after.settings == h.settings
      && (after.service.Some? ==>
           && h.service.Some?
           && (after.service.value.limits == h.service.value.limits || after.service.value.limits == h.settings.limits))
  {
    hide Saved, ClearFrames;
  }

  lemma StepWithinQuota(writer: Writer, h: HubState, e: Event, publisher: Id, world: nat, player: nat)
    requires Faithful(writer.floats) && Reachable(writer, h) && WithinQuota(writer, h, publisher, world, player)
    requires AsksWithin(e, world, player)
    ensures WithinQuota(writer, StepHub(writer, h, e), publisher, world, player)
  {
    hide Faithful, HubInvariant, GoodFile, OnDisk, Handle, Clear, RefreshAll, LoadedFrom, ServiceInvariant,
      CountPublishedBy,
      ClearSubscriptions, Adopted;
    match e
    case Arrives(peer, payload, now, host) => PayloadWithinQuota(writer, h, peer, payload, now, host, publisher, world, player);
    case DiesOnPayload(peer, payload, now, host) => PayloadWithinQuota(writer, h, peer, payload, now, host, publisher, world, player);
    case Clears(writable) => ClearWithinQuota(writer, h, writable, publisher, world, player);
    case DiesOnClear(writable) => ClearWithinQuota(writer, h, writable, publisher, world, player);
    case Configures(settings, movable, writable) => ConfigureDurable(writer, h, settings, movable, writable);
    case _ =>
  }

  /**
    Quotas over every run: neither the catalog nor any publisher's share of it ever exceeds the
    larger of what the file started with and the largest limit configured.
   */
  lemma {:induction false} QuotasHold(writer: Writer, file: File, events: seq<Event>, publisher: Id, world: nat,
      player: nat)
    requires Faithful(writer.floats) && GoodFile(writer, file)
    requires |OnDisk(writer, file).points| <= world && CountPublishedBy(OnDisk(writer, file).points, publisher) <= player
    requires forall k :: 0 <= k < |events| ==> AsksWithin(events[k], world, player)
    ensures WithinQuota(writer, Run(writer, file, events).hub, publisher, world, player)
  {
    hide Faithful, GoodFile, OnDisk, Reachable, StepHub, CountPublishedBy, DurableDeltas, DurableRequests, Emits,
      Record, StepStreams,
      AsksWithin, PointMap;
    if events != [] {
      var front := events[..|events| - 1];
      QuotasHold(writer, file, front, publisher, world, player);
      RunReachable(writer, file, front);
      StepWithinQuota(writer, Run(writer, file, front).hub, events[|events| - 1], publisher, world, player);
    }
  }

  // Blocks.

  lemma StepSharesNothing(writer: Writer, h: HubState, e: Event)
    requires Faithful(writer.floats) && Reachable(writer, h)
    ensures SharedPairs(OnDisk(writer, StepHub(writer, h, e).file).points) <= SharedPairs(OnDisk(writer, h.file).points)
  {
    hide Faithful, Reachable, OnDisk, Handle, Clear, Configure, Tick, SharedPairs, Empties;
    match e
    case Arrives(peer, payload, now, host) => PayloadSharesNothing(writer, h, peer, payload, now, host);
    case DiesOnPayload(peer, payload, now, host) => PayloadSharesNothing(writer, h, peer, payload, now, host);
    case Clears(writable) => ClearSharesNothing(writer, h, writable);
    case DiesOnClear(writable) => ClearSharesNothing(writer, h, writable);
    case Configures(settings, movable, writable) => ReachableConfigures(writer, h, settings, movable, writable);
    case Ticks(levels) => TickKeepsFile(h, levels);
    case _ =>
  }

  lemma ReachableConfigures(writer: Writer, h: HubState, settings: Settings, movable: bool, writable: bool)
    requires Faithful(writer.floats) && Reachable(writer, h)
    ensures OnDisk(writer, Configure(writer, h, settings, movable, writable).file) == OnDisk(writer, h.file)
  {
    hide Faithful, OnDisk, HubInvariant, DurableInvariant, Configure;
    ConfigureDurable(writer, h, settings, movable, writable);
  }

  lemma TickKeepsFile(h: HubState, levels: seq<Level>)
    ensures Tick(h, levels).0.file == h.file
  {
    hide RefreshAll;
  }

  lemma PayloadSharesNothing(writer: Writer, h: HubState, peer: Peer, payload: seq<byte>, now: millis, host: Host)
    requires Faithful(writer.floats) && Reachable(writer, h)
    ensures var next := OnDisk(writer, Handle(writer, h, peer, payload, now, host).0.file);
      SharedPairs(next.points) <= SharedPairs(OnDisk(writer, h.file).points)
  {
    hide Faithful, Reachable, OnDisk, Handle, Perform, DecodeInbound, Plan, ValidCatalog, CanCreate, SharedPairs, Apply;
    PayloadPlan(writer, h, peer, payload, now, host);
    if Commits(writer, h, peer, payload, host) {
      PlanApplies(h.service.value, ActorOf(peer), RequestOf(h, peer, payload), host);
    }
  }

  lemma ClearSharesNothing(writer: Writer, h: HubState, writable: bool)
    requires Faithful(writer.floats) && Reachable(writer, h)
    ensures SharedPairs(OnDisk(writer, Clear(writer, h, writable).0.file).points) <= SharedPairs(OnDisk(writer, h.file).points)
  {
    hide Faithful, Reachable, OnDisk, Clear, PointMap, ApplyAll, Empties;
    WipeAdvances(writer, h, writable);
    if !Empties(writer, h, writable) {
      FailedClearKeepsFile(writer, h, writable);
    }
  }

  /** Over every run no two points come to share a block that did not share one in the starting file. */
  lemma {:induction false} BlocksStayApart(writer: Writer, file: File, events: seq<Event>)
    requires Faithful(writer.floats) && GoodFile(writer, file)
    ensures SharedPairs(OnDisk(writer, Run(writer, file, events).hub.file).points) <= SharedPairs(OnDisk(writer, file).points)
  {
    hide Faithful, GoodFile, OnDisk, Reachable, StepHub, SharedPairs, DurableDeltas, DurableRequests, Emits, Record,
      StepStreams, PointMap;
    if events != [] {
      var front := events[..|events| - 1];
      BlocksStayApart(writer, file, front);
      RunReachable(writer, file, front);
      StepSharesNothing(writer, Run(writer, file, front).hub, events[|events| - 1]);
    }
  }
}
