/**
  Subscribers converge: a peer that starts from any snapshot and applies a change only when it is
  the very next revision always holds the server's catalog at the revision it has reached, whatever
  is lost, repeated, delayed or reordered on the way, clears and restarts included.
 */
module Convergence {
  import opened Prelude
  import opened Identity
  import opened Model
  import opened Proto
  import opened Frames
  import opened Catalogs
  import opened Buckets
  import opened Documents
  import opened DocumentSize
  import opened Persistence
  import opened Mutations
  import opened MutationLaws
  import opened Hub
  import opened HubLaws
  import opened Runs

  type History = map<int, Points>

  /** What a frame says agrees with what the catalog was. */
  ghost predicate TrueFrame(history: History, frame: Outbound) {
    match frame
    case Snapshot(r, _, ws) => r in history && UniqueIds(ws) && history[r] == PointMap(ws)
    case Upsert(r, w) => r - 1 in history && r in history && history[r] == history[r - 1][w.id := w]
    case Remove(r, id) => r - 1 in history && r in history && history[r] == history[r - 1] - {id}
    case _ => true
  }

  ghost predicate Recorded(history: History, c: Catalog) {
    && c.revision in history && history[c.revision] == PointMap(c.points)
    && forall r :: r in history ==> r <= c.revision
  }

  ghost predicate Truth(writer: Writer, w: World) {
    && Recorded(w.history, OnDisk(writer, w.hub.file))
    && (forall frame :: frame in w.emitted ==> TrueFrame(w.history, frame))
    && (forall k :: 0 <= k < |w.hub.pending| ==> TrueFrame(w.history, w.hub.pending[k]))
  }

  /** A later history remembers everything an earlier one did. */
  ghost predicate Remembers(later: History, history: History) {
    forall r :: r in history ==> r in later && later[r] == history[r]
  }

  lemma TrueStays(history: History, later: History, frame: Outbound)
    requires TrueFrame(history, frame) && Remembers(later, history)
    ensures TrueFrame(later, frame)
  {
    hide PointMap, UniqueIds;
  }

  /** Recording remembers everything before, and adds only the new revisions. */
  lemma {:induction false} RecordKeys(history: History, start: Points, deltas: seq<Delta>, base: int)
    requires forall r :: r in history ==> r <= base
    requires forall k :: 0 <= k < |deltas| ==> deltas[k].revision == base + 1 + k
    ensures var later := Record(history, start, deltas);
      && Remembers(later, history)
      && (forall r :: r in later ==> r in history || base < r <= base + |deltas|)
      && (forall r :: base < r <= base + |deltas| ==> r in later)
  {
    hide ApplyAll;
    if deltas != [] {
      RecordKeys(history, start, deltas[..|deltas| - 1], base);
    }
  }

  /** Each new revision is recorded with the changes up to it. */
  lemma {:induction false} RecordAt(history: History, start: Points, deltas: seq<Delta>, base: int, k: nat)
    requires forall r :: r in history ==> r <= base
    requires forall k :: 0 <= k < |deltas| ==> deltas[k].revision == base + 1 + k
    requires 1 <= k <= |deltas|
    ensures base + k in Record(history, start, deltas)
    ensures Record(history, start, deltas)[base + k] == ApplyAll(start, deltas[..k])
  {
    hide ApplyAll;
    var n := |deltas| - 1;
    if k == |deltas| {
      assert deltas[..k] == deltas;
    } else {
      RecordAt(history, start, deltas[..n], base, k);
      assert deltas[..n][..k] == deltas[..k];
    }
  }

  lemma RecordBase(history: History, start: Points, deltas: seq<Delta>, base: int)
    requires base in history && history[base] == start && Remembers(Record(history, start, deltas), history)
    ensures base in Record(history, start, deltas) && Record(history, start, deltas)[base] == ApplyAll(start, deltas[..0])
  {
    hide Record;
    assert deltas[..0] == [];
  }

  /** Recording writes exactly the new revisions, each with the changes up to it applied. */
  lemma RecordFacts(history: History, start: Points, deltas: seq<Delta>, base: int)
    requires base in history && history[base] == start && forall r :: r in history ==> r <= base
    requires forall k :: 0 <= k < |deltas| ==> deltas[k].revision == base + 1 + k
    ensures var later := Record(history, start, deltas);
      && Remembers(later, history)
      && (forall r :: r in later ==> r in history || base < r <= base + |deltas|)
      && (forall r :: base <= r <= base + |deltas| ==> r in later && later[r] == ApplyAll(start, deltas[..r - base]))
  {
    hide ApplyAll, Record, Remembers;
    RecordKeys(history, start, deltas, base);
    var later := Record(history, start, deltas);
    forall r | base <= r <= base + |deltas|
      ensures r in later && later[r] == ApplyAll(start, deltas[..r - base])
    {
      if r == base {
        RecordBase(history, start, deltas, base);
      } else {
        RecordAt(history, start, deltas, base, r - base);
      }
    }
  }

  /** After an event the history reaches to the new durable catalog and forgets nothing. */
  lemma StepRecords(writer: Writer, w: World, e: Event)
    requires Faithful(writer.floats) && Reachable(writer, w.hub) && Recorded(w.history, OnDisk(writer, w.hub.file))
    ensures var after := StepWorld(writer, w, e);
      && Recorded(after.history, OnDisk(writer, after.hub.file))
      && Remembers(after.history, w.history)
      && after.history == Record(w.history, PointMap(OnDisk(writer, w.hub.file).points), DurableDeltas(writer, w.hub, e))
  {
    hide Faithful, OnDisk, Reachable, StepHub, DurableDeltas, Emits, StepStreams, DurableRequests, PointMap, ApplyAll;
    var c, deltas := OnDisk(writer, w.hub.file), DurableDeltas(writer, w.hub, e);
    EventAdvances(writer, w.hub, e);
    RecordFacts(w.history, PointMap(c.points), deltas, c.revision);
    assert deltas[..|deltas|] == deltas;
  }

  /** The frame of the k-th of a run of changes is true once they are recorded. */
  lemma RecordedChangeIsTrue(history: History, c: Catalog, deltas: seq<Delta>, k: nat, frame: Outbound)
    requires Recorded(history, c) && k < |deltas| && DeltaFrame(deltas[k]) == Some(frame)
    requires forall j :: 0 <= j < |deltas| ==> deltas[j].revision == c.revision + 1 + j
    ensures TrueFrame(Record(history, PointMap(c.points), deltas), frame)
  {
    hide PointMap, Record, UniqueIds, ApplyToMap;
    var start := PointMap(c.points);
    RecordFacts(history, start, deltas, c.revision);
    assert deltas[..k + 1][..k] == deltas[..k] && deltas[..k + 1][k] == deltas[k];
    var r := c.revision + 1 + k;
    var later := Record(history, start, deltas);
    assert later[r - 1] == ApplyAll(start, deltas[..k]);
    assert later[r] == ApplyAll(start, deltas[..k + 1]) == ApplyToMap(ApplyAll(start, deltas[..k]), deltas[k]);
    AppliedIs(ApplyAll(start, deltas[..k]), deltas[k]);
  }

  lemma AppliedIs(m: Points, delta: Delta)
    ensures delta.Upserted? ==> ApplyToMap(m, delta) == m[delta.waypoint.id := delta.waypoint]
    ensures delta.Removed? ==> ApplyToMap(m, delta) == m - {delta.id}
  {
  }

  // What an event puts on the network is true.

  /** Everything a reply carries about the catalog is a snapshot of it as it is. */
  lemma RepliesShowTheCatalog(writer: Writer, h: HubState, peer: Peer, payload: seq<byte>, now: millis, host: Host)
    requires HubInvariant(h)
    ensures var action := Handle(writer, h, peer, payload, now, host).1;
      action.Reply? ==> forall k :: 0 <= k < |action.frames| ==>
        var frame := action.frames[k];
        frame.Status? || frame.Outcome? || SnapshotOf(h, frame)
  {
    hide DecodeInbound, Perform, FinishMutation, Greet, Charge, SessionsInvariant, StatusFrame;
    assert forall a, b, c, d :: StatusFrame(a, b, c, d).Status? by { StatusesAreStatuses(); }
    assert forall a, b, c :: FinishMutation(a, b, c).Mutation? by { FinishIsMutation(); }
  }

  ghost predicate SnapshotOf(h: HubState, frame: Outbound) {
    && frame.Snapshot? && h.service.Some?
    && frame.revision == h.service.value.catalog.revision && frame.waypoints == h.service.value.catalog.points
  }

  lemma StatusesAreStatuses()
    ensures forall h, operator, minor, supported :: StatusFrame(h, operator, minor, supported).Status?
  {
  }

  lemma PayloadFramesTrue(writer: Writer, w: World, peer: Peer, payload: seq<byte>, now: millis, host: Host)
    requires Faithful(writer.floats) && Reachable(writer, w.hub) && Recorded(w.history, OnDisk(writer, w.hub.file))
    ensures var e := Arrives(peer, payload, now, host);
      forall frame :: frame in Emits(writer, w.hub, e) ==> TrueFrame(StepWorld(writer, w, e).history, frame)
  {
    hide Faithful, OnDisk, HubInvariant, GoodFile, StepHub, StepStreams, DurableRequests, PointMap, ApplyAll, Handle,
      Perform,
      DecodeInbound, ErrorCode, Record, Recorded, TrueFrame, Remembers, SoundCatalog, SmallIcons;
    var h, e := w.hub, Arrives(peer, payload, now, host);
    var c := OnDisk(writer, h.file);
    StepRecords(writer, w, e);
    var later := StepWorld(writer, w, e).history;
    var action := Handle(writer, h, peer, payload, now, host).1;
    HandleService(writer, h, peer, payload, now, host);
    RepliesShowTheCatalog(writer, h, peer, payload, now, host);
    forall frame | frame in FramesOf(action)
      ensures TrueFrame(later, frame)
    {
      if frame.Status? || frame.Outcome? {
        OthersAreTrue(later, frame);
      } else if action.Reply? {
        assert SnapshotOf(h, frame);
        assert UniqueIds(c.points) by { DiskUnique(writer, h.file); }
        SnapshotIsTrue(w.history, c, frame);
        TrueStays(w.history, later, frame);
      } else {
        EventAdvances(writer, h, e);
        RecordedChangeIsTrue(w.history, c, DurableDeltas(writer, h, e), 0, frame);
      }
    }
  }

  lemma DiskUnique(writer: Writer, file: File)
    requires GoodFile(writer, file)
    ensures UniqueIds(OnDisk(writer, file).points)
  {
    hide OnDisk;
  }

  lemma OthersAreTrue(history: History, frame: Outbound)
    requires frame.Status? || frame.Outcome?
    ensures TrueFrame(history, frame)
  {
  }

  lemma SnapshotIsTrue(history: History, c: Catalog, frame: Outbound)
    requires Recorded(history, c) && UniqueIds(c.points)
    requires frame.Snapshot? && frame.revision == c.revision && frame.waypoints == c.points
    ensures TrueFrame(history, frame)
  {
    hide PointMap, UniqueIds;
  }

  lemma QueuedFramesTrue(writer: Writer, w: World, writable: bool)
    requires Faithful(writer.floats) && Reachable(writer, w.hub) && Truth(writer, w)
    ensures var after := StepWorld(writer, w, Clears(writable));
      forall k :: 0 <= k < |after.hub.pending| ==> TrueFrame(after.history, after.hub.pending[k])
  {
    hide Faithful, OnDisk, Reachable, StepStreams, DurableRequests, PointMap, ApplyAll, Record, Recorded, TrueFrame,
      Remembers,
      Saved;
    var h, e := w.hub, Clears(writable);
    var c, deltas := OnDisk(writer, h.file), DurableDeltas(writer, h, e);
    StepRecords(writer, w, e);
    EventAdvances(writer, h, e);
    var after := StepWorld(writer, w, e);
    forall k | 0 <= k < |after.hub.pending|
      ensures TrueFrame(after.history, after.hub.pending[k])
    {
      if Empties(writer, h, writable) {
        RecordedChangeIsTrue(w.history, c, deltas, k, after.hub.pending[k]);
      } else {
        TrueStays(w.history, after.history, w.hub.pending[k]);
      }
    }
  }

  lemma StepTruth(writer: Writer, w: World, e: Event)
    requires Faithful(writer.floats) && Reachable(writer, w.hub) && Truth(writer, w)
    ensures Truth(writer, StepWorld(writer, w, e))
  {
    hide Faithful, OnDisk, Reachable, PointMap, Record, Recorded, TrueFrame, Remembers, Handle, Clear, Configure,
      HubInvariant;
    StepRecords(writer, w, e);
    var after := StepWorld(writer, w, e);
    forall frame | frame in w.emitted
      ensures TrueFrame(after.history, frame)
    {
      TrueStays(w.history, after.history, frame);
    }
    forall k | 0 <= k < |w.hub.pending|
      ensures TrueFrame(after.history, w.hub.pending[k])
    {
      TrueStays(w.history, after.history, w.hub.pending[k]);
    }
    match e
    case Arrives(peer, payload, now, host) =>
      PayloadFramesTrue(writer, w, peer, payload, now, host);
      HandleService(writer, w.hub, peer, payload, now, host);
    case Clears(writable) => QueuedFramesTrue(writer, w, writable);
    case Configures(settings, movable, writable) => ConfigureQueuesNothing(writer, w.hub, settings, movable, writable);
    case _ =>
  }

  lemma ConfigureQueuesNothing(writer: Writer, h: HubState, settings: Settings, movable: bool, writable: bool)
    ensures Configure(writer, h, settings, movable, writable).pending == h.pending
  {
    hide LoadedFrom, Adopted, ClearSubscriptions;
  }

  lemma {:induction false} RunTruth(writer: Writer, file: File, events: seq<Event>)
    requires Faithful(writer.floats) && GoodFile(writer, file)
    ensures Truth(writer, Run(writer, file, events))
  {
    hide Faithful, GoodFile, OnDisk, Reachable, StepWorld, Truth;
    if events == [] {
      StartTruth(writer, file);
    } else {
      RunTruth(writer, file, events[..|events| - 1]);
      RunReachable(writer, file, events[..|events| - 1]);
      StepTruth(writer, Run(writer, file, events[..|events| - 1]), events[|events| - 1]);
    }
  }

  lemma StartTruth(writer: Writer, file: File)
    ensures Truth(writer, Start(writer, file))
  {
    hide OnDisk, PointMap;
  }

  // A peer.

  /** What a subscribed peer keeps: its revision and the points it shows. */
  datatype Replica = Replica(revision: int, points: Points)

  /** A snapshot replaces everything; a change is applied only when it is the next one. */
  function Receive(peer: Replica, frame: Outbound): Replica {
    match frame
    case Snapshot(r, _, ws) => Replica(r, PointMap(ws))
    case Upsert(r, w) => if r == peer.revision + 1 then Replica(r, peer.points[w.id := w]) else peer
    case Remove(r, id) => if r == peer.revision + 1 then Replica(r, peer.points - {id}) else peer
    case _ => peer
  }

  function ReceiveBytes(peer: Replica, payload: seq<byte>, minor: i32): Replica {
    match TakeOutbound(payload, minor)
    case None => peer
    case Some(frame) => Receive(peer, frame)
  }

  function ReceiveAll(peer: Replica, payloads: seq<seq<byte>>, minor: i32): Replica {
    if payloads == [] then peer
    else ReceiveBytes(ReceiveAll(peer, payloads[..|payloads| - 1], minor), payloads[|payloads| - 1], minor)
  }

  /** A payload the server has put on the network, for a peer of this minor. */
  ghost predicate WasSent(w: World, payload: seq<byte>, minor: i32) {
    exists frame :: frame in w.emitted && IsPayloadOf(payload, frame, minor)
  }

  predicate IsPayloadOf(payload: seq<byte>, frame: Outbound, minor: i32) {
    OutboundFits(frame, minor) && payload == EncOutbound(frame, minor)
  }

  /** The points as a minor shows them. */
  function ShownMap(m: Points, minor: int): (shown: Points)
    ensures shown.Keys == m.Keys
  {
    map id | id in m :: ShownPoint(m[id], minor)
  }

  lemma ShownMapOf(ws: seq<Waypoint>, minor: int)
    requires UniqueIds(ws)
    ensures PointMap(ShownPoints(ws, minor)) == ShownMap(PointMap(ws), minor)
  {
    hide PointMap, IndexOf;
    var shown, m := ShownPoints(ws, minor), ShownMap(PointMap(ws), minor);
    assert forall k :: 0 <= k < |ws| ==> shown[k].id == ws[k].id;
    assert Ids(shown) == Ids(ws);
    forall k | 0 <= k < |shown|
      ensures shown[k].id in m && m[shown[k].id] == shown[k]
    {
      LookUpAt(ws, k);
    }
    PointMapIs(shown, m);
  }

  /** What the peer shows is what the catalog was, at the revision the peer has reached. */
  ghost predicate InStep(history: History, peer: Replica, minor: int) {
    peer.revision in history && peer.points == ShownMap(history[peer.revision], minor)
  }

  lemma ReceiveKeepsStep(history: History, peer: Replica, frame: Outbound, minor: i32)
    requires TrueFrame(history, frame)
    requires InStep(history, peer, minor) || frame.Snapshot?
    ensures InStep(history, Receive(peer, Shown(frame, minor)), minor)
  {
    hide PointMap, ShownPoint, UniqueIds, ShownPoints;
    match frame
    case Snapshot(r, _, ws) => ShownMapOf(ws, minor);
    case Upsert(r, w) =>
      if r == peer.revision + 1 {
        assert ShownPoint(w, minor).id == w.id by { ShownId(w, minor); }
        assert history[r - 1] == history[peer.revision];
        assert ShownMap(history[r - 1][w.id := w], minor) == ShownMap(history[r - 1], minor)[w.id := ShownPoint(w, minor)];
      }
    case Remove(r, id) =>
      if r == peer.revision + 1 {
        assert history[r - 1] == history[peer.revision];
        assert ShownMap(history[r - 1] - {id}, minor) == ShownMap(history[r - 1], minor) - {id};
      }
    case _ =>
  }

  lemma ShownId(w: Waypoint, minor: int)
    ensures ShownPoint(w, minor).id == w.id
  {
  }

  lemma {:induction false} PayloadsKeepStep(w: World, peer: Replica, payloads: seq<seq<byte>>, minor: i32)
    requires forall frame :: frame in w.emitted ==> TrueFrame(w.history, frame)
    requires forall k :: 0 <= k < |payloads| ==> WasSent(w, payloads[k], minor)
    requires InStep(w.history, peer, minor)
    ensures InStep(w.history, ReceiveAll(peer, payloads, minor), minor)
  {
    hide TrueFrame, InStep, OutboundFits, TakeOutbound, EncOutbound, Receive;
    if payloads != [] {
      var front, last := payloads[..|payloads| - 1], payloads[|payloads| - 1];
      PayloadsKeepStep(w, peer, front, minor);
      var frame :| frame in w.emitted && IsPayloadOf(last, frame, minor);
      FrameReadBack(frame, minor);
      ReceiveKeepsStep(w.history, ReceiveAll(peer, front, minor), frame, minor);
    }
  }

  /** The peer shows the catalog of the revision it reached, and no later one; at the current revision, this one. */
  ghost predicate Converged(writer: Writer, w: World, peer: Replica, minor: int) {
    && InStep(w.history, peer, minor)
    && peer.revision <= OnDisk(writer, w.hub.file).revision
    && (w.hub.service.Some? && peer.revision == w.hub.service.value.catalog.revision ==>
         peer.points == ShownMap(PointMap(w.hub.service.value.catalog.points), minor))
  }

  /**
    Convergence over every run: a peer of any minor that reads a snapshot payload and then any
    payloads ever sent, in any order, any number of times, shows exactly the catalog as it was at
    the revision it reached; at the current revision, exactly the current catalog.
   */
  lemma Converges(writer: Writer, file: File, events: seq<Event>, peer: Replica, first: Outbound,
      payloads: seq<seq<byte>>, minor: i32)
    requires Faithful(writer.floats) && GoodFile(writer, file)
    requires var w := Run(writer, file, events);
      && first.Snapshot? && first in w.emitted && OutboundFits(first, minor)
      && forall k :: 0 <= k < |payloads| ==> WasSent(w, payloads[k], minor)
    ensures var w := Run(writer, file, events);
      var end := ReceiveAll(ReceiveBytes(peer, EncOutbound(first, minor), minor), payloads, minor);
      Converged(writer, w, end, minor)
  {
    hide Faithful, GoodFile, OnDisk, Run, HubInvariant, TrueFrame, PointMap, ShownMap, OutboundFits, TakeOutbound,
      EncOutbound,
      Receive, ServiceInvariant, WasSent, ReceiveAll;
    RunTruth(writer, file, events);
    RunReachable(writer, file, events);
    var w := Run(writer, file, events);
    FrameReadBack(first, minor);
    ReceiveKeepsStep(w.history, peer, first, minor);
    PayloadsKeepStep(w, ReceiveBytes(peer, EncOutbound(first, minor), minor), payloads, minor);
  }
}
