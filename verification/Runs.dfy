/**
  Whole runs: every interleaving of payloads, administrative clears, configurations, ticks,
  departures and crashes, a crash in the middle of a durable write included, each followed by
  whatever restarts the operator makes. A world carries, beside the hub and its file, the history
  a bystander would keep: every durable request, the points at every revision, every frame handed to
  the network, and the changes addressed to each subscriber.
 */
module Runs {
  import opened Prelude
  import opened Identity
  import opened Model
  import opened Proto
  import opened Catalogs
  import opened Buckets
  import opened Players
  import opened Documents
  import opened DocumentSize
  import opened Persistence
  import opened Mutations
  import opened MutationLaws
  import opened Hub
  import opened HubLaws

  datatype Event =
    | Arrives(peer: Peer, payload: seq<byte>, now: millis, host: Host)
    | DiesOnPayload(peer: Peer, payload: seq<byte>, now: millis, host: Host)
    | Clears(writable: bool)
    | DiesOnClear(writable: bool)
    | Configures(settings: Settings, movable: bool, writable: bool)
    | Ticks(levels: seq<Level>)
    | Leaves(id: Id)
    | Unloads
    | Dies

  type Points = map<Id, Waypoint>

  /** The changes addressed to one subscriber since the snapshot it was given at revision `base`. */
  datatype Stream = Stream(base: int, sent: seq<Outbound>)

  datatype World = World(
    hub: HubState,
    log: seq<Request>,
    history: map<int, Points>,
    emitted: set<Outbound>,
    streams: map<Id, Stream>)

  // The points as a map.

  function Ids(points: seq<Waypoint>): set<Id> {
    set k | 0 <= k < |points| :: points[k].id
  }

  function PointMap(points: seq<Waypoint>): (m: Points)
    ensures m.Keys == Ids(points)
  {
    hide IndexOf;
    map id | id in Ids(points) :: LookUp(points, id)
  }

  function LookUp(points: seq<Waypoint>, id: Id): Waypoint
    requires id in Ids(points)
  {
    points[IndexOf(points, id)]
  }

  function ApplyToMap(m: Points, delta: Delta): Points {
    match delta
    case Upserted(_, w) => m[w.id := w]
    case Removed(_, id) => m - {id}
    case Noop(_) => m
  }

  function ApplyAll(m: Points, deltas: seq<Delta>): Points {
    if deltas == [] then m else ApplyToMap(ApplyAll(m, deltas[..|deltas| - 1]), deltas[|deltas| - 1])
  }

  lemma HasIsIn(points: seq<Waypoint>, id: Id)
    ensures Has(points, id) <==> id in Ids(points)
  {
    if Has(points, id) {
      assert points[IndexOf(points, id)].id == id;
    }
  }

  lemma LookUpAt(points: seq<Waypoint>, k: nat)
    requires UniqueIds(points) && k < |points|
    ensures points[k].id in Ids(points) && PointMap(points)[points[k].id] == points[k]
  {
    IndexUnique(points, k);
  }

  /** A point map is determined by what it says of each position. */
  lemma PointMapIs(points: seq<Waypoint>, m: Points)
    requires UniqueIds(points) && m.Keys == Ids(points)
    requires forall k :: 0 <= k < |points| ==> points[k].id in m && m[points[k].id] == points[k]
    ensures PointMap(points) == m
  {
    forall id | id in m
      ensures PointMap(points)[id] == m[id]
    {
      var k :| 0 <= k < |points| && points[k].id == id;
      LookUpAt(points, k);
    }
  }

  /** Applying a delta to the list and to the map is the same change. */
  lemma ApplyCommutes(points: seq<Waypoint>, delta: Delta)
    requires UniqueIds(points) && UniqueIds(Apply(points, delta))
    ensures PointMap(Apply(points, delta)) == ApplyToMap(PointMap(points), delta)
  {
    hide PointMap, IndexOf;
    match delta
    case Noop(_) =>
    case Upserted(_, w) => UpsertCommutes(points, w);
    case Removed(_, id) => RemoveCommutes(points, id);
  }

  lemma UpsertCommutes(points: seq<Waypoint>, w: Waypoint)
    requires UniqueIds(points) && UniqueIds(Apply(points, Upserted(0, w)))
    ensures PointMap(Apply(points, Upserted(0, w))) == PointMap(points)[w.id := w]
  {
    hide PointMap;
    var next, m := Apply(points, Upserted(0, w)), PointMap(points)[w.id := w];
    HasIsIn(points, w.id);
    if Has(points, w.id) {
      var n := IndexOf(points, w.id);
      assert forall k :: 0 <= k < |points| ==> next[k].id == points[k].id;
      assert Ids(next) == Ids(points);
    } else {
      assert next[|points|] == w;
      assert forall k :: 0 <= k < |points| ==> next[k] == points[k];
      assert Ids(next) == Ids(points) + {w.id};
    }
    forall k | 0 <= k < |next|
      ensures next[k].id in m && m[next[k].id] == next[k]
    {
      if next[k] != w {
        assert next[k] == points[k];
        LookUpAt(points, k);
        assert next[k].id != w.id;
      }
    }
    PointMapIs(next, m);
  }

  lemma RemoveCommutes(points: seq<Waypoint>, id: Id)
    requires UniqueIds(points) && UniqueIds(Apply(points, Removed(0, id)))
    ensures PointMap(Apply(points, Removed(0, id))) == PointMap(points) - {id}
  {
    hide PointMap, UniqueIds, Ids;
    HasIsIn(points, id);
    if Has(points, id) {
      RemoveAtCommutes(points, IndexOf(points, id));
    } else {
      assert PointMap(points) - {id} == PointMap(points);
    }
  }

  lemma RemoveAtCommutes(points: seq<Waypoint>, n: nat)
    requires n < |points| && UniqueIds(points) && UniqueIds(WithoutAt(points, n))
    ensures PointMap(WithoutAt(points, n)) == PointMap(points) - {points[n].id}
  {
    hide PointMap, IndexOf, WithoutAt, Ids;
    var next, m := WithoutAt(points, n), PointMap(points) - {points[n].id};
    IdsWithout(points, n);
    forall k | 0 <= k < |next|
      ensures next[k].id in m && m[next[k].id] == next[k]
    {
      var k' := if k < n then k else k + 1;
      LookUpAt(points, k');
    }
    PointMapIs(next, m);
  }

  lemma IdsWithout(points: seq<Waypoint>, n: nat)
    requires n < |points| && UniqueIds(points)
    ensures Ids(WithoutAt(points, n)) == Ids(points) - {points[n].id}
  {
    hide WithoutAt;
    var next := WithoutAt(points, n);
    forall id | id in Ids(points) - {points[n].id}
      ensures id in Ids(next)
    {
      var k :| 0 <= k < |points| && points[k].id == id;
      assert next[if k < n then k else k - 1] == points[k];
    }
    forall id | id in Ids(next)
      ensures id in Ids(points) - {points[n].id}
    {
      var k :| 0 <= k < |next| && next[k].id == id;
      assert points[if k < n then k else k + 1] == next[k];
    }
  }

  // One event.

  /** The payload commits a change. */
  predicate Commits(writer: Writer, h: HubState, peer: Peer, payload: seq<byte>, host: Host) {
    Performs(h, peer, payload) && Fresh(Performed(writer, h, peer, payload, host).result)
  }

  function ClearDeltas(points: seq<Waypoint>, revision: i64): (deltas: seq<Delta>)
    requires revision + |points| <= I64_MAX
    ensures |deltas| == |points|
  {
    seq(|points|, k requires 0 <= k < |points| => Removed(revision + 1 + k, points[k].id))
  }

  /** Whether a clear, at this moment, empties anything. */
  predicate Empties(writer: Writer, h: HubState, writable: bool) {
    var (_, n) := Clear(writer, h, writable);
    n.Some? && n.value > 0
  }

  /** The changes an event makes durable, in revision order. */
  function DurableDeltas(writer: Writer, h: HubState, e: Event): seq<Delta> {
    match e
    case Arrives(peer, payload, _, host) => PayloadDeltas(writer, h, peer, payload, host)
    case DiesOnPayload(peer, payload, _, host) => PayloadDeltas(writer, h, peer, payload, host)
    case Clears(writable) => WipeDeltas(writer, h, writable)
    case DiesOnClear(writable) => WipeDeltas(writer, h, writable)
    case _ => []
  }

  function PayloadDeltas(writer: Writer, h: HubState, peer: Peer, payload: seq<byte>, host: Host): seq<Delta> {
    if Commits(writer, h, peer, payload, host) then [Performed(writer, h, peer, payload, host).result.delta] else []
  }

  function WipeDeltas(writer: Writer, h: HubState, writable: bool): seq<Delta> {
    if Empties(writer, h, writable) then
      ClearIsPossible(writer, h, writable);
      ClearDeltas(h.service.value.catalog.points, h.service.value.catalog.revision)
    else []
  }

  lemma ClearIsPossible(writer: Writer, h: HubState, writable: bool)
    requires Empties(writer, h, writable)
    ensures h.service.Some?
    ensures h.service.value.catalog.revision + |h.service.value.catalog.points| <= I64_MAX
  {
    hide Saved, ClearFrames;
  }

  ghost function StepHub(writer: Writer, h: HubState, e: Event): HubState {
    match e
    case Arrives(peer, payload, now, host) => Handle(writer, h, peer, payload, now, host).0
    case DiesOnPayload(peer, payload, now, host) => Boot(Handle(writer, h, peer, payload, now, host).0.file)
    case Clears(writable) => Clear(writer, h, writable).0
    case DiesOnClear(writable) => Boot(Clear(writer, h, writable).0.file)
    case Configures(settings, movable, writable) => Configure(writer, h, settings, movable, writable)
    case Ticks(levels) => Tick(h, levels).0
    case Leaves(id) => Leave(h, id)
    case Unloads => Unload(h)
    case Dies => Boot(h.file)
  }

  /** The requests an event makes durable: at most the one its payload carries. */
  function DurableRequests(writer: Writer, h: HubState, e: Event): seq<Request> {
    match e
    case Arrives(peer, payload, _, host) =>
      if Commits(writer, h, peer, payload, host) then [RequestOf(h, peer, payload)] else []
    case DiesOnPayload(peer, payload, _, host) =>
      if Commits(writer, h, peer, payload, host) then [RequestOf(h, peer, payload)] else []
    case _ => []
  }

  /** The points at each new revision, added to the ones before. */
  function Record(history: map<int, Points>, start: Points, deltas: seq<Delta>): map<int, Points> {
    if deltas == [] then history
    else
      var front, last := deltas[..|deltas| - 1], deltas[|deltas| - 1];
      Record(history, start, front)[last.revision := ApplyAll(start, deltas)]
  }

  function FramesOf(action: Action): set<Outbound> {
    match action
    case Silent => {}
    case Reply(frames, _) => set k | 0 <= k < |frames| :: frames[k]
    case Mutation(outcome, _, broadcast, _) => {outcome} + (if broadcast.Some? then {broadcast.value} else {})
  }

  /** The frames an event hands to the network, a tick's statuses aside. */
  function Emits(writer: Writer, h: HubState, e: Event): set<Outbound> {
    match e
    case Arrives(peer, payload, now, host) => FramesOf(Handle(writer, h, peer, payload, now, host).1)
    case Ticks(levels) => set k | 0 <= k < |h.pending| :: h.pending[k]
    case _ => {}
  }

  function Address(streams: map<Id, Stream>, recipients: set<Id>, frames: seq<Outbound>): map<Id, Stream> {
    map id | id in streams ::
      if id in recipients then streams[id].(sent := streams[id].sent + frames) else streams[id]
  }

  /** The revision a snapshot reply starts its subscriber at. */
  function SnapshotBase(action: Action): Option<int> {
    if action.Reply? && |action.frames| == 1 && action.frames[0].Snapshot? then Some(action.frames[0].revision) else None
  }

  function StepStreams(writer: Writer, h: HubState, streams: map<Id, Stream>, e: Event): map<Id, Stream> {
    match e
    case Arrives(peer, payload, now, host) =>
      var action := Handle(writer, h, peer, payload, now, host).1;
      if SnapshotBase(action).Some? then streams[peer.id := Stream(SnapshotBase(action).value, [])]
      else if action.Mutation? && action.broadcast.Some? then
        Address(streams, action.recipients.Keys, [action.broadcast.value])
      else streams
    case Ticks(levels) =>
      var flush := Tick(h, levels).1;
      Address(streams, flush.recipients.Keys, flush.deltas)
    case _ => streams
  }

  ghost function StepWorld(writer: Writer, w: World, e: Event): World {
    World(
      StepHub(writer, w.hub, e),
      w.log + DurableRequests(writer, w.hub, e),
      Record(w.history, PointMap(OnDisk(writer, w.hub.file).points), DurableDeltas(writer, w.hub, e)),
      w.emitted + Emits(writer, w.hub, e),
      StepStreams(writer, w.hub, w.streams, e))
  }

  ghost function Start(writer: Writer, file: File): World {
    var c := OnDisk(writer, file);
    World(Boot(file), [], map[c.revision as int := PointMap(c.points)], {}, map[])
  }

  ghost function Run(writer: Writer, file: File, events: seq<Event>): World {
    if events == [] then Start(writer, file)
    else StepWorld(writer, Run(writer, file, events[..|events| - 1]), events[|events| - 1])
  }

  // What every reachable hub keeps.

  ghost predicate Reachable(writer: Writer, h: HubState) {
    HubInvariant(h) && DurableInvariant(writer, h)
  }

  lemma BootReachable(writer: Writer, file: File)
    requires GoodFile(writer, file)
    ensures Reachable(writer, Boot(file))
  {
    hide GoodFile;
  }

  lemma StepReachable(writer: Writer, h: HubState, e: Event)
    requires Faithful(writer.floats) && Reachable(writer, h)
    ensures Reachable(writer, StepHub(writer, h, e))
  {
    hide Faithful, HubInvariant, GoodFile, Handle, Clear, Configure, Tick, Leave, Unload, OnDisk, ServiceInvariant;
    match e
    case Arrives(peer, payload, now, host) =>
      HandleKeepsHub(writer, h, peer, payload, now, host);
      HandleDurable(writer, h, peer, payload, now, host);
    case DiesOnPayload(peer, payload, now, host) =>
      HandleDurable(writer, h, peer, payload, now, host);
      BootReachable(writer, Handle(writer, h, peer, payload, now, host).0.file);
    case Clears(writable) =>
      ClearKeepsHub(writer, h, writable);
      ClearDurable(writer, h, writable);
    case DiesOnClear(writable) =>
      ClearDurable(writer, h, writable);
      BootReachable(writer, Clear(writer, h, writable).0.file);
    case Configures(settings, movable, writable) =>
      ConfigureKeepsHub(writer, h, settings, movable, writable);
      ConfigureDurable(writer, h, settings, movable, writable);
    case Ticks(levels) =>
      TickKeepsHub(h, levels);
      TickDurable(writer, h, levels);
    case Leaves(id) =>
      LeaveKeepsHub(h, id);
      LeaveDurable(writer, h, id);
    case Unloads =>
      LeaveKeepsHub(h, Id(0, 0));
      LeaveDurable(writer, h, Id(0, 0));
    case Dies => BootReachable(writer, h.file);
  }

  lemma ClearKeepsHub(writer: Writer, h: HubState, writable: bool)
    requires HubInvariant(h)
    ensures HubInvariant(Clear(writer, h, writable).0)
  {
    hide SessionsInvariant, Saved, ClearFrames;
  }

  lemma TickDurable(writer: Writer, h: HubState, levels: seq<Level>)
    requires DurableInvariant(writer, h)
    ensures DurableInvariant(writer, Tick(h, levels).0)
    ensures Tick(h, levels).0.file == h.file && Tick(h, levels).0.service == h.service
  {
    hide GoodFile, ServiceInvariant, OnDisk, RefreshAll;
  }

  lemma LeaveDurable(writer: Writer, h: HubState, id: Id)
    requires DurableInvariant(writer, h)
    ensures DurableInvariant(writer, Leave(h, id)) && DurableInvariant(writer, Unload(h))
  {
    hide GoodFile, ServiceInvariant, OnDisk;
  }

  lemma {:induction false} RunReachable(writer: Writer, file: File, events: seq<Event>)
    requires Faithful(writer.floats) && GoodFile(writer, file)
    ensures Reachable(writer, Run(writer, file, events).hub)
  {
    hide Faithful, GoodFile, Reachable, StepHub, DurableRequests, DurableDeltas, Emits, StepStreams, Record;
    if events == [] {
      BootReachable(writer, file);
    } else {
      RunReachable(writer, file, events[..|events| - 1]);
      StepReachable(writer, Run(writer, file, events[..|events| - 1]).hub, events[|events| - 1]);
    }
  }

  // How an event moves the durable catalog.

  ghost predicate Advances(c: Catalog, next: Catalog, deltas: seq<Delta>) {
    && next.revision == c.revision + |deltas|
    && (forall k :: 0 <= k < |deltas| ==> deltas[k].revision == c.revision + 1 + k && !deltas[k].Noop?)
    && PointMap(next.points) == ApplyAll(PointMap(c.points), deltas)
  }

  lemma AdvancesNothing(c: Catalog)
    ensures Advances(c, c, [])
  {
    hide PointMap;
  }

  lemma ApplyOne(m: Points, delta: Delta)
    ensures ApplyAll(m, [delta]) == ApplyToMap(m, delta)
  {
    assert [delta][..0] == [];
    assert ApplyAll(m, []) == m;
  }

  lemma PlanAdvances(s: ServiceState, actor: Actor, r: Request, host: Host)
    requires Plan(s, actor, r, host).Ok? && ValidCatalog(s.catalog)
    ensures Advances(s.catalog, Plan(s, actor, r, host).value.next, [Plan(s, actor, r, host).value.delta])
  {
    hide Plan, PointMap, Apply, ApplyAll, ValidCatalog;
    var p := Plan(s, actor, r, host).value;
    PlanApplies(s, actor, r, host);
    UniqueOf(s.catalog);
    UniqueOf(p.next);
    ApplyCommutes(s.catalog.points, p.delta);
    ApplyOne(PointMap(s.catalog.points), p.delta);
  }

  lemma PayloadAdvances(writer: Writer, h: HubState, peer: Peer, payload: seq<byte>, now: millis, host: Host)
    requires Faithful(writer.floats) && Reachable(writer, h)
    ensures var after := Handle(writer, h, peer, payload, now, host).0;
      Advances(OnDisk(writer, h.file), OnDisk(writer, after.file), PayloadDeltas(writer, h, peer, payload, host))
  {
    hide Faithful, HubInvariant, GoodFile, Handle, Perform, OnDisk, Plan, ValidPlayers, AllTruthful, ValidCatalog,
      DecodeInbound, FinishMutation, CanSave, Advances;
    HandleService(writer, h, peer, payload, now, host);
    HandleDurable(writer, h, peer, payload, now, host);
    AdvancesNothing(OnDisk(writer, h.file));
    if Performs(h, peer, payload) {
      var s, r := h.service.value, RequestOf(h, peer, payload);
      MutateCases(writer, s, h.file, ActorOf(peer), r, host);
      if Commits(writer, h, peer, payload, host) {
        PlanAdvances(s, ActorOf(peer), r, host);
      }
    }
  }

  lemma UniqueOf(c: Catalog)
    ensures ValidCatalog(c) ==> UniqueIds(c.points)
  {
  }

  lemma {:induction false} RemoveAll(points: seq<Waypoint>, deltas: seq<Delta>, m: Points)
    requires |deltas| <= |points| && forall k :: 0 <= k < |deltas| ==> deltas[k].Removed? && deltas[k].id == points[k].id
    ensures ApplyAll(m, deltas) == m - Ids(points[..|deltas|])
  {
    if deltas == [] {
      assert points[..0] == [];
    } else {
      var n := |deltas| - 1;
      RemoveAll(points, deltas[..n], m);
      assert Ids(points[..n + 1]) == Ids(points[..n]) + {points[n].id} by {
        assert points[..n + 1] == points[..n] + [points[n]];
        assert (points[..n] + [points[n]])[n] == points[n];
      }
    }
  }

  lemma WipeAdvances(writer: Writer, h: HubState, writable: bool)
    requires Faithful(writer.floats) && Reachable(writer, h)
    ensures Advances(OnDisk(writer, h.file), OnDisk(writer, Clear(writer, h, writable).0.file), WipeDeltas(writer, h, writable))
    ensures Empties(writer, h, writable) ==> OnDisk(writer, Clear(writer, h, writable).0.file).points == []
  {
    hide Faithful, HubInvariant, GoodFile, OnDisk, PointMap, ServiceInvariant, Saved, ApplyAll;
    var c := OnDisk(writer, h.file);
    ClearDurable(writer, h, writable);
    if Empties(writer, h, writable) {
      ClearIsPossible(writer, h, writable);
      var deltas := WipeDeltas(writer, h, writable);
      RemoveAll(c.points, deltas, PointMap(c.points));
      assert c.points[..|deltas|] == c.points;
      assert PointMap([]) == map[] by { EmptyMap(); }
    } else {
      AdvancesNothing(c);
      FailedClearKeepsFile(writer, h, writable);
    }
  }

  lemma EmptyMap()
    ensures PointMap([]) == map[]
  {
    assert Ids([]) == {};
  }

  lemma FailedClearKeepsFile(writer: Writer, h: HubState, writable: bool)
    requires !Empties(writer, h, writable)
    ensures Clear(writer, h, writable).0.file == h.file
  {
    hide Content, AllPersistable, ClearFrames;
  }

  /**
    The one way the durable catalog moves: by the event's changes, each one revision on. Everything
    else - refusals, retries, ticks, restarts, crashes - leaves it exactly where it was.
   */
  lemma EventAdvances(writer: Writer, h: HubState, e: Event)
    requires Faithful(writer.floats) && Reachable(writer, h)
    ensures Advances(OnDisk(writer, h.file), OnDisk(writer, StepHub(writer, h, e).file), DurableDeltas(writer, h, e))
  {
    hide Faithful, HubInvariant, GoodFile, OnDisk, PointMap, ServiceInvariant, Handle, Clear, Configure, Tick,
      PayloadDeltas, WipeDeltas, Advances;
    AdvancesNothing(OnDisk(writer, h.file));
    match e
    case Arrives(peer, payload, now, host) => PayloadAdvances(writer, h, peer, payload, now, host);
    case DiesOnPayload(peer, payload, now, host) => PayloadAdvances(writer, h, peer, payload, now, host);
    case Clears(writable) => WipeAdvances(writer, h, writable);
    case DiesOnClear(writable) => WipeAdvances(writer, h, writable);
    case Configures(settings, movable, writable) => ConfigureDurable(writer, h, settings, movable, writable);
    case Ticks(levels) => TickDurable(writer, h, levels);
    case Leaves(id) =>
    case Unloads =>
    case Dies =>
  }

  // Durability.

  /**
    Durability over every run: whenever a service is up, loading the file - now, or after a crash at
    this moment, whatever the file system then allows - gives exactly the catalog in memory.
   */
  lemma Durability(writer: Writer, file: File, events: seq<Event>, movable: bool, writable: bool)
    requires Faithful(writer.floats) && GoodFile(writer, file)
    ensures var h := Run(writer, file, events).hub;
      h.service.Some? ==> LoadedFrom(writer, h.file, movable, writable).0 == Ready(h.service.value.catalog)
  {
    hide Faithful, Holds, LoadedFrom, Run, OnDisk, HubInvariant, ServiceInvariant, SmallIcons, SoundCatalog;
    RunReachable(writer, file, events);
    var h := Run(writer, file, events).hub;
    LoadHolds(writer, h.file, OnDisk(writer, h.file), movable, writable);
  }

  /**
    A crash while a payload is handled leaves the disk where memory was, or ahead by exactly the one
    change nobody was told of; an answered change is on disk at its own revision.
   */
  lemma CrashIsAtMostOneAhead(writer: Writer, file: File, events: seq<Event>, peer: Peer, payload: seq<byte>,
      now: millis, host: Host)
    requires Faithful(writer.floats) && GoodFile(writer, file)
    ensures var h := Run(writer, file, events).hub;
      var disk := OnDisk(writer, StepHub(writer, h, DiesOnPayload(peer, payload, now, host)).file);
      && (h.service.Some? && !Commits(writer, h, peer, payload, host) ==> disk == h.service.value.catalog)
      && (Commits(writer, h, peer, payload, host) ==>
           var delta := Performed(writer, h, peer, payload, host).result.delta;
           disk.revision == delta.revision == h.service.value.catalog.revision + 1 &&
           PointMap(disk.points) == ApplyToMap(PointMap(h.service.value.catalog.points), delta))
  {
    hide Faithful, Run, OnDisk, HubInvariant, ServiceInvariant, GoodFile, Handle, PointMap, DecodeInbound, Perform,
      FinishMutation;
    RunReachable(writer, file, events);
    var h := Run(writer, file, events).hub;
    PayloadAdvances(writer, h, peer, payload, now, host);
    HandleService(writer, h, peer, payload, now, host);
    if Commits(writer, h, peer, payload, host) {
      ApplyOne(PointMap(h.service.value.catalog.points), Performed(writer, h, peer, payload, host).result.delta);
    } else if Performs(h, peer, payload) {
      UncommittedKeepsFile(writer, h, peer, payload, host);
    }
  }

  /** A crash inside a clear leaves the disk where memory was, or ahead by the one whole clear. */
  lemma CrashInClear(writer: Writer, file: File, events: seq<Event>, writable: bool)
    requires Faithful(writer.floats) && GoodFile(writer, file)
    ensures var h := Run(writer, file, events).hub;
      var disk := OnDisk(writer, StepHub(writer, h, DiesOnClear(writable)).file);
      if Empties(writer, h, writable) then
        h.service.Some? && disk == Catalog(h.service.value.catalog.revision + |h.service.value.catalog.points|, [])
      else h.service.Some? ==> disk == h.service.value.catalog
  {
    hide Faithful, Run, OnDisk, HubInvariant, ServiceInvariant, GoodFile, Clear, Empties, PointMap, ApplyAll;
    RunReachable(writer, file, events);
    var h := Run(writer, file, events).hub;
    WipeAdvances(writer, h, writable);
    if Empties(writer, h, writable) {
      ClearIsPossible(writer, h, writable);
    } else {
      FailedClearKeepsFile(writer, h, writable);
    }
  }

  lemma UncommittedKeepsFile(writer: Writer, h: HubState, peer: Peer, payload: seq<byte>, host: Host)
    requires Reachable(writer, h) && Performs(h, peer, payload) && !Commits(writer, h, peer, payload, host)
    ensures Performed(writer, h, peer, payload, host).file == h.file
    ensures Performed(writer, h, peer, payload, host).service.catalog == h.service.value.catalog
  {
    hide OnDisk, GoodFile, HubInvariant, Perform, DecodeInbound, SoundCatalog, SmallIcons;
    MutateCases(writer, h.service.value, h.file, ActorOf(peer), RequestOf(h, peer, payload), host);
  }
}
