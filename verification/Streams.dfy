/**
  The change stream of one subscriber: from the snapshot at revision r on it is r+1, r+2, ... with
  nothing missing and nothing repeated, provided what a clear queued is flushed before the next
  snapshot, and before the next change or clear with somebody subscribed - and only then.
 */
module Streams {
  import opened Prelude
  import opened Identity
  import opened Model
  import opened Proto
  import opened Frames
  import opened Catalogs
  import opened Buckets
  import opened Documents
  import opened DocumentSize
  import opened Persistence
  import opened Mutations
  import opened MutationLaws
  import opened Hub
  import opened HubLaws
  import opened Acceptance
  import opened Runs
  import opened Convergence

  /** The revision a change frame carries; other frames carry none. */
  function RevisionOf(frame: Outbound): Option<int> {
    if frame.Upsert? || frame.Remove? then Some(frame.revision) else None
  }

  /** These frames are the changes after `base`, one revision each, in order. */
  ghost predicate Follow(base: int, frames: seq<Outbound>) {
    forall k :: 0 <= k < |frames| ==> RevisionOf(frames[k]) == Some(base + 1 + k)
  }

  /** What was sent and what is queued together lead from the snapshot to the catalog's revision. */
  ghost predicate Continuous(stream: Stream, pending: seq<Outbound>, revision: int) {
    stream.base + |stream.sent| + |pending| == revision && Follow(stream.base, stream.sent + pending)
  }

  ghost predicate InSync(writer: Writer, w: World) {
    forall id :: id in Subscribers(w.hub.sessions) ==>
      id in w.streams && Continuous(w.streams[id], w.hub.pending, OnDisk(writer, w.hub.file).revision)
  }

  /** The sender asks for a snapshot it will get: compatible, the feature on, and a token to pay with. */
  predicate Asks(h: HubState, peer: Peer, payload: seq<byte>, now: millis) {
    && DecodeInbound(payload, SessionMinor(h.sessions, peer.id)) == Some(Inbound.Subscribe)
    && SessionCompatible(h.sessions, peer.id) && h.settings.enabled
    && Refill(h.sessions[peer.id].control, now).tokens >= TOKEN
  }

  /** The payload carries a request that the service, as it stands, will apply. */
  ghost predicate Changes(h: HubState, peer: Peer, payload: seq<byte>, host: Host) {
    Performs(h, peer, payload) && Applies(h.service.value, ActorOf(peer), RequestOf(h, peer, payload), host)
  }

  /** A clear has something to remove, revisions left to number it with, and a disk that takes the write. */
  predicate Wipes(h: HubState, writable: bool) {
    && h.service.Some? && h.service.value.catalog.points != [] && writable
    && h.service.value.catalog.revision + |h.service.value.catalog.points| <= I64_MAX
  }

  /**
    An event that a queued clear must be flushed before, judged before it happens: a snapshot, or a
    change or another clear while somebody is subscribed.
   */
  ghost predicate Disturbs(h: HubState, e: Event) {
    match e
    case Arrives(peer, payload, now, host) =>
      Asks(h, peer, payload, now) || (Subscribers(h.sessions) != map[] && Changes(h, peer, payload, host))
    case Clears(writable) => Subscribers(h.sessions) != map[] && Wipes(h, writable)
    case _ => false
  }

  /** What the event turned out to do: a change, a snapshot or a clear that emptied something. */
  predicate Intervenes(writer: Writer, h: HubState, e: Event) {
    match e
    case Arrives(peer, payload, now, host) =>
      Commits(writer, h, peer, payload, host) || SnapshotBase(Handle(writer, h, peer, payload, now, host).1).Some?
    case Clears(writable) => Empties(writer, h, writable)
    case _ => false
  }

  // Who is subscribed.

  lemma ChargeSubscribesNobody(sessions: Sessions, id: Id, now: millis)
    ensures Subscribers(Charge(sessions, id, now).0).Keys == Subscribers(sessions).Keys
    ensures SessionCompatible(Charge(sessions, id, now).0, id) == SessionCompatible(sessions, id)
  {
    hide TryConsume;
  }

  lemma OperatorSubscribesNobody(sessions: Sessions, id: Id, operator: bool)
    ensures Subscribers(SetOperator(sessions, id, operator)).Keys == Subscribers(sessions).Keys
    ensures SessionCompatible(SetOperator(sessions, id, operator), id) == SessionCompatible(sessions, id)
  {
  }

  lemma SubscribedMark(sessions: Sessions, id: Id)
    ensures Subscribers(SetSubscribed(sessions, id, false)).Keys <= Subscribers(sessions).Keys
    ensures Subscribers(SetSubscribed(sessions, id, true)).Keys <= Subscribers(sessions).Keys + {id}
    ensures SessionCompatible(sessions, id) ==> id in Subscribers(SetSubscribed(sessions, id, true))
  {
  }

  lemma GreetSubscribesNobody(sessions: Sessions, id: Id, major: i32, minor: i32, operator: bool, now: millis)
    ensures Subscribers(Greet(sessions, id, major, minor, operator, now).0).Keys <= Subscribers(sessions).Keys
  {
    hide TryConsume;
  }

  lemma StrikesSubscribeNobody(h: HubState, id: Id)
    requires HubInvariant(h)
    ensures Subscribers(NoteMalformed(h, id).sessions).Keys <= Subscribers(h.sessions).Keys
  {
  }

  /** What an answer does to the subscriptions: nobody joins, or its sender does, with a snapshot. */
  ghost predicate SubscribesBySnapshot(h: HubState, id: Id, after: HubState, action: Action) {
    var subscribed := SnapshotBase(action).Some?;
    && Subscribers(after.sessions).Keys <= Subscribers(h.sessions).Keys + (if subscribed then {id} else {})
    && (subscribed ==>
         id in Subscribers(after.sessions) && h.service.Some? && SnapshotBase(action).value == h.service.value.catalog.revision)
  }

  lemma SubscribeSubscribes(h: HubState, peer: Peer, minor: i32, now: millis)
    requires HubInvariant(h)
    ensures var (after, action) := HandleSubscribe(h, peer, minor, now); SubscribesBySnapshot(h, peer.id, after, action)
  {
    hide Charge, SetOperator, SetSubscribed, Subscribers, SessionsInvariant, SessionCompatible, StatusFrame;
    assert forall a, b, c, d :: StatusFrame(a, b, c, d).Status? by { StatusesAreStatuses(); }
    ChargeSubscribesNobody(h.sessions, peer.id, now);
    var charged := Charge(h.sessions, peer.id, now).0;
    OperatorSubscribesNobody(charged, peer.id, peer.operator);
    SubscribedMark(SetOperator(charged, peer.id, peer.operator), peer.id);
  }

  lemma DisabledSubscribesNobody(h: HubState, peer: Peer, op: Id, minor: i32, now: millis)
    ensures var (after, action) := HandleDisabled(h, peer, op, minor, now); SubscribesBySnapshot(h, peer.id, after, action)
  {
    hide Charge, SetOperator, Subscribers, StatusFrame;
    ChargeSubscribesNobody(h.sessions, peer.id, now);
    OperatorSubscribesNobody(Charge(h.sessions, peer.id, now).0, peer.id, peer.operator);
  }

  lemma HelloSubscribesNobody(h: HubState, peer: Peer, major: i32, minor: i32, now: millis)
    ensures var (after, action) := HandleHello(h, peer, major, minor, now); SubscribesBySnapshot(h, peer.id, after, action)
  {
    hide Greet, Subscribers, StatusFrame;
    assert forall a, b, c, d :: StatusFrame(a, b, c, d).Status? by { StatusesAreStatuses(); }
    GreetSubscribesNobody(h.sessions, peer.id, major, minor, peer.operator, now);
  }

  /** A payload subscribes at most its sender, and that exactly with a snapshot of the catalog. */
  lemma PayloadSubscribes(writer: Writer, h: HubState, peer: Peer, payload: seq<byte>, now: millis, host: Host)
    requires HubInvariant(h)
    ensures var (after, action) := Handle(writer, h, peer, payload, now, host); SubscribesBySnapshot(h, peer.id, after, action)
  {
    hide DecodeInbound, Perform, FinishMutation, HandleHello, HandleSubscribe, HandleDisabled, NoteMalformed,
      Subscribers,
      HubInvariant, SessionCompatible;
    assert forall a, b, c :: FinishMutation(a, b, c).Mutation? by { FinishIsMutation(); }
    match DecodeInbound(payload, SessionMinor(h.sessions, peer.id))
    case None => StrikesSubscribeNobody(h, peer.id);
    case Some(m) =>
      match m
      case Hello(major, theirs) => HelloSubscribesNobody(h, peer, major, theirs, now);
      case Subscribe => SubscribeSubscribes(h, peer, SessionMinor(h.sessions, peer.id), now);
      case Mutate(r) => DisabledSubscribesNobody(h, peer, r.operationId, SessionMinor(h.sessions, peer.id), now);
      case Lock(op, _, _, _) => DisabledSubscribesNobody(h, peer, op, SessionMinor(h.sessions, peer.id), now);
  }

  lemma {:induction false} RefreshSubscribesSame(sessions: Sessions, levels: seq<Level>)
    ensures Subscribers(RefreshAll(sessions, levels).0).Keys == Subscribers(sessions).Keys
  {
    if levels != [] {
      RefreshSubscribesSame(sessions, levels[..|levels| - 1]);
    }
  }

  lemma FewerSubscribers(sessions: Sessions, id: Id)
    ensures Subscribers(sessions - {id}).Keys <= Subscribers(sessions).Keys
    ensures Subscribers(ClearSubscriptions(sessions)) == map[] && Subscribers(map[]) == map[]
  {
  }

  /** Subscribers change only by a snapshot, by leaving or by losing the subscription. */
  lemma StepSubscribes(writer: Writer, h: HubState, e: Event)
    requires Reachable(writer, h)
    ensures var after := Subscribers(StepHub(writer, h, e).sessions).Keys;
      && (!e.Arrives? ==> after <= Subscribers(h.sessions).Keys)
      && (e.Ticks? ==> Subscribers(RefreshAll(h.sessions, e.levels).0).Keys == Subscribers(h.sessions).Keys)
  {
    hide DurableInvariant, HubInvariant, Subscribers, Handle, Saved, LoadedFrom, Adopted, RefreshAll,
      ClearSubscriptions;
    FewerSubscribers(h.sessions, if e.Leaves? then e.id else Id(0, 0));
    if e.Ticks? {
      RefreshSubscribesSame(h.sessions, e.levels);
    }
  }

  // One step.

  lemma QuietStaysInSync(writer: Writer, w: World, after: World)
    requires InSync(writer, w) && after.streams == w.streams && after.hub.pending == w.hub.pending
    requires Subscribers(after.hub.sessions).Keys <= Subscribers(w.hub.sessions).Keys
    requires OnDisk(writer, after.hub.file).revision == OnDisk(writer, w.hub.file).revision
    ensures InSync(writer, after)
  {
    hide Subscribers, OnDisk, Continuous;
  }

  lemma ContinuousExtends(stream: Stream, frame: Outbound, revision: int)
    requires Continuous(stream, [], revision) && RevisionOf(frame) == Some(revision + 1)
    ensures Continuous(stream.(sent := stream.sent + [frame]), [], revision + 1)
  {
    assert stream.sent + [] == stream.sent;
    assert (stream.sent + [frame]) + [] == stream.sent + [frame];
  }

  lemma OvertakingBreaks(stream: Stream, pending: seq<Outbound>, frame: Outbound, revision: int)
    requires Continuous(stream, pending, revision) && pending != [] && RevisionOf(frame) == Some(revision + 1)
    ensures !Continuous(stream.(sent := stream.sent + [frame]), pending, revision + 1)
  {
    assert ((stream.sent + [frame]) + pending)[|stream.sent|] == frame;
  }

  lemma AddressOne(streams: map<Id, Stream>, recipients: set<Id>, frames: seq<Outbound>, id: Id)
    requires id in streams
    ensures id in Address(streams, recipients, frames)
    ensures id in recipients ==> Address(streams, recipients, frames)[id] == streams[id].(sent := streams[id].sent + frames)
  {
  }

  /** What a fresh change broadcasts, and to whom. */
  lemma CommitBroadcasts(writer: Writer, h: HubState, peer: Peer, payload: seq<byte>, now: millis, host: Host)
    requires Faithful(writer.floats) && Reachable(writer, h)
    ensures var (after, action) := Handle(writer, h, peer, payload, now, host);
      Performs(h, peer, payload) ==>
        && action.Mutation? && after.sessions == h.sessions
        && (Commits(writer, h, peer, payload, host) ==>
             && action.broadcast.Some? && action.recipients == Subscribers(h.sessions)
             && RevisionOf(action.broadcast.value) == Some(OnDisk(writer, h.file).revision + 1)
             && OnDisk(writer, after.file).revision == OnDisk(writer, h.file).revision + 1)
        && (!Commits(writer, h, peer, payload, host) ==>
             action.broadcast.None? && OnDisk(writer, after.file).revision == OnDisk(writer, h.file).revision)
  {
    hide Faithful, HubInvariant, GoodFile, OnDisk, Handle, Perform, DecodeInbound, PointMap, ApplyAll, ErrorCode,
      Subscribers,
      ServiceInvariant;
    HandleService(writer, h, peer, payload, now, host);
    PayloadAdvances(writer, h, peer, payload, now, host);
    if Commits(writer, h, peer, payload, host) {
      assert PayloadDeltas(writer, h, peer, payload, host)[0] == Performed(writer, h, peer, payload, host).result.delta;
    }
  }

  lemma PayloadInSync(writer: Writer, w: World, peer: Peer, payload: seq<byte>, now: millis, host: Host)
    requires Faithful(writer.floats) && Reachable(writer, w.hub) && InSync(writer, w)
    requires w.hub.pending == [] || !Intervenes(writer, w.hub, Arrives(peer, payload, now, host))
    ensures InSync(writer, StepWorld(writer, w, Arrives(peer, payload, now, host)))
  {
    hide Faithful, HubInvariant, GoodFile, OnDisk, Handle, Performs, Perform, Subscribers, Continuous, RevisionOf,
      Commits, Record,
      DurableRequests, Emits, ServiceInvariant, Address;
    var h := w.hub;
    var (hub, action) := Handle(writer, h, peer, payload, now, host);
    var after := StepWorld(writer, w, Arrives(peer, payload, now, host));
    HandleService(writer, h, peer, payload, now, host);
    CommitBroadcasts(writer, h, peer, payload, now, host);
    PayloadSubscribes(writer, h, peer, payload, now, host);
    if action.Mutation? && action.broadcast.Some? {
      assert Commits(writer, h, peer, payload, host);
      forall id | id in Subscribers(hub.sessions)
        ensures id in after.streams && Continuous(after.streams[id], [], OnDisk(writer, hub.file).revision)
      {
        ContinuousExtends(w.streams[id], action.broadcast.value, OnDisk(writer, h.file).revision);
        AddressOne(w.streams, action.recipients.Keys, [action.broadcast.value], id);
      }
    } else if SnapshotBase(action).Some? {
      forall id | id in Subscribers(hub.sessions)
        ensures id in after.streams && Continuous(after.streams[id], [], OnDisk(writer, hub.file).revision)
      {
        if id == peer.id {
          EmptyContinuous(SnapshotBase(action).value);
        }
      }
    } else {
      QuietStaysInSync(writer, w, after);
    }
  }

  lemma EmptyContinuous(revision: int)
    ensures Continuous(Stream(revision, []), [], revision)
  {
  }

  lemma PayloadBreaks(writer: Writer, w: World, peer: Peer, payload: seq<byte>, now: millis, host: Host)
    requires Faithful(writer.floats) && Reachable(writer, w.hub) && InSync(writer, w)
    requires w.hub.pending != [] && Intervenes(writer, w.hub, Arrives(peer, payload, now, host))
    requires Subscribers(Handle(writer, w.hub, peer, payload, now, host).0.sessions) != map[]
    ensures !InSync(writer, StepWorld(writer, w, Arrives(peer, payload, now, host)))
  {
    hide Faithful, HubInvariant, GoodFile, OnDisk, Handle, Perform, DecodeInbound, Subscribers, RevisionOf, Record,
      DurableRequests, Emits, ServiceInvariant, Address, Follow;
    var h := w.hub;
    var (hub, action) := Handle(writer, h, peer, payload, now, host);
    HandleService(writer, h, peer, payload, now, host);
    CommitBroadcasts(writer, h, peer, payload, now, host);
    PayloadSubscribes(writer, h, peer, payload, now, host);
    if Commits(writer, h, peer, payload, host) {
      var id :| id in Subscribers(hub.sessions).Keys;
      OvertakingBreaks(w.streams[id], h.pending, action.broadcast.value, OnDisk(writer, h.file).revision);
      AddressOne(w.streams, action.recipients.Keys, [action.broadcast.value], id);
    }
  }

  lemma ClearFollows(points: seq<Waypoint>, revision: i64)
    requires revision + |points| <= I64_MAX
    ensures Follow(revision, ClearFrames(points, revision))
  {
  }

  lemma ContinuousQueue(stream: Stream, frames: seq<Outbound>, revision: int)
    requires Continuous(stream, [], revision) && Follow(revision, frames)
    ensures Continuous(stream, frames, revision + |frames|)
  {
    assert stream.sent + [] == stream.sent;
  }

  /** What a clear that empties queues, and where it leaves the catalog and the sessions. */
  lemma ClearQueues(writer: Writer, h: HubState, writable: bool)
    requires Faithful(writer.floats) && Reachable(writer, h)
    ensures var after := Clear(writer, h, writable).0;
      && after.sessions == h.sessions
      && (Empties(writer, h, writable) ==>
           && after.pending != [] && Follow(OnDisk(writer, h.file).revision, after.pending)
           && OnDisk(writer, after.file).revision == OnDisk(writer, h.file).revision + |after.pending|)
      && (!Empties(writer, h, writable) ==>
           after.pending == h.pending && OnDisk(writer, after.file).revision == OnDisk(writer, h.file).revision)
  {
    hide Faithful, HubInvariant, GoodFile, OnDisk, ServiceInvariant, Saved, PointMap, ApplyAll, Follow;
    WipeAdvances(writer, h, writable);
    if Empties(writer, h, writable) {
      ClearFollows(h.service.value.catalog.points, h.service.value.catalog.revision);
    }
  }

  lemma ClearInSync(writer: Writer, w: World, writable: bool)
    requires Faithful(writer.floats) && Reachable(writer, w.hub) && InSync(writer, w)
    ensures var after := StepWorld(writer, w, Clears(writable));
      && (w.hub.pending == [] || !Empties(writer, w.hub, writable) ==> InSync(writer, after))
      && (w.hub.pending != [] && Empties(writer, w.hub, writable) && Subscribers(w.hub.sessions) != map[] ==> !InSync(writer, after))
  {
    hide Faithful, Reachable, OnDisk, Clear, Empties, Subscribers, Record, DurableRequests, Emits, Follow;
    ClearQueues(writer, w.hub, writable);
    var after := StepWorld(writer, w, Clears(writable));
    var before := OnDisk(writer, w.hub.file).revision;
    if !Empties(writer, w.hub, writable) {
      QuietStaysInSync(writer, w, after);
    } else if w.hub.pending == [] {
      forall id | id in Subscribers(w.hub.sessions)
        ensures Continuous(w.streams[id], after.hub.pending, OnDisk(writer, after.hub.file).revision)
      {
        ContinuousQueue(w.streams[id], after.hub.pending, before);
      }
    } else if Subscribers(w.hub.sessions) != map[] {
      var id :| id in Subscribers(w.hub.sessions).Keys;
      assert Continuous(w.streams[id], w.hub.pending, before);
    }
  }

  lemma TickInSync(writer: Writer, w: World, levels: seq<Level>)
    requires Reachable(writer, w.hub) && InSync(writer, w)
    ensures InSync(writer, StepWorld(writer, w, Ticks(levels)))
  {
    hide Reachable, OnDisk, Subscribers, Record, DurableRequests, Emits, RefreshAll, Address, Follow;
    var after := StepWorld(writer, w, Ticks(levels));
    StepSubscribes(writer, w.hub, Ticks(levels));
    forall id | id in Subscribers(after.hub.sessions).Keys
      ensures id in after.streams && Continuous(after.streams[id], [], OnDisk(writer, after.hub.file).revision)
    {
      AddressOne(w.streams, Tick(w.hub, levels).1.recipients.Keys, w.hub.pending, id);
      assert (w.streams[id].sent + w.hub.pending) + [] == w.streams[id].sent + w.hub.pending;
      assert Continuous(w.streams[id], w.hub.pending, OnDisk(writer, w.hub.file).revision);
      if w.hub.pending == [] {
        NobodyAddressed(w.streams, Tick(w.hub, levels).1.recipients.Keys, id);
        assert after.streams[id] == w.streams[id];
      } else {
        assert after.streams[id] == w.streams[id].(sent := w.streams[id].sent + w.hub.pending);
      }
    }
  }

  lemma NobodyAddressed(streams: map<Id, Stream>, recipients: set<Id>, id: Id)
    requires id in streams
    ensures id in Address(streams, recipients, []) && Address(streams, recipients, [])[id] == streams[id]
  {
    assert streams[id].sent + [] == streams[id].sent;
  }

  /** What a step does to the streams, by what it turned out to do. */
  lemma StepOutcome(writer: Writer, w: World, e: Event)
    requires Faithful(writer.floats) && Reachable(writer, w.hub) && InSync(writer, w)
    ensures var after := StepWorld(writer, w, e);
      InSync(writer, after) <==>
        w.hub.pending == [] || !Intervenes(writer, w.hub, e) || Subscribers(after.hub.sessions) == map[]
  {
    hide Faithful, Reachable, OnDisk, Subscribers, Record, DurableRequests, Emits, RefreshAll, Continuous, Handle,
      Clear, Configure,
      Commits, Empties, SnapshotBase;
    var after := StepWorld(writer, w, e);
    StepSubscribes(writer, w.hub, e);
    EventAdvances(writer, w.hub, e);
    match e
    case Arrives(peer, payload, now, host) =>
      if Intervenes(writer, w.hub, e) && w.hub.pending != [] && Subscribers(after.hub.sessions) != map[] {
        PayloadBreaks(writer, w, peer, payload, now, host);
      } else if w.hub.pending == [] || !Intervenes(writer, w.hub, e) {
        PayloadInSync(writer, w, peer, payload, now, host);
      }
    case Clears(writable) =>
      ClearInSync(writer, w, writable);
      ClearQueues(writer, w.hub, writable);
    case Ticks(levels) => TickInSync(writer, w, levels);
    case Configures(settings, movable, writable) =>
      ConfigureQueuesNothing(writer, w.hub, settings, movable, writable);
      QuietStaysInSync(writer, w, after);
    case Leaves(id) => QuietStaysInSync(writer, w, after);
    case Unloads => QuietStaysInSync(writer, w, after);
    case _ => FewerSubscribers(map[], Id(0, 0));
  }

  // The same condition, read off the state before the step.

  /** A payload is answered with a snapshot exactly when its sender asks for one it can have. */
  lemma AsksIs(writer: Writer, h: HubState, peer: Peer, payload: seq<byte>, now: millis, host: Host)
    ensures SnapshotBase(Handle(writer, h, peer, payload, now, host).1).Some? <==> Asks(h, peer, payload, now)
  {
    hide DecodeInbound, Perform, FinishMutation, Greet, SetOperator, SetSubscribed, StatusFrame, NoteMalformed, Refill,
      IsCompatible;
    assert forall a, b, c, d :: StatusFrame(a, b, c, d).Status? by { StatusesAreStatuses(); }
    assert forall a, b, c :: FinishMutation(a, b, c).Mutation? by { FinishIsMutation(); }
  }

  /** A payload commits a change exactly when it carries one the service will apply. */
  lemma ChangesIs(writer: Writer, h: HubState, peer: Peer, payload: seq<byte>, host: Host)
    requires Reachable(writer, h)
    ensures Commits(writer, h, peer, payload, host) <==> Changes(h, peer, payload, host)
  {
    hide DecodeInbound, Perform, HubInvariant, GoodFile, OnDisk, ServiceInvariant, Applies, SmallRequest, Fresh;
    if Performs(h, peer, payload) {
      DecodedIsSmall(payload, SessionMinor(h.sessions, peer.id));
      AppliesIff(writer, h.service.value, h.file, ActorOf(peer), RequestOf(h, peer, payload), host);
    }
  }

  lemma EmptyIsSavable(revision: i64)
    ensures CanSave(Catalog(revision, []))
  {
  }

  lemma WipesIs(writer: Writer, h: HubState, writable: bool)
    ensures Empties(writer, h, writable) <==> Wipes(h, writable)
  {
    hide CanSave, Content, ClearFrames, NewService;
    if h.service.Some? && h.service.value.catalog.revision + |h.service.value.catalog.points| <= I64_MAX {
      EmptyIsSavable(h.service.value.catalog.revision + |h.service.value.catalog.points|);
    }
  }

  lemma DisturbsIs(writer: Writer, h: HubState, e: Event)
    requires Faithful(writer.floats) && Reachable(writer, h)
    ensures Disturbs(h, e) <==> Intervenes(writer, h, e) && Subscribers(StepHub(writer, h, e).sessions) != map[]
  {
    hide Faithful, HubInvariant, DurableInvariant, Handle, Clear, Subscribers, Commits, Changes, Asks, Wipes, Empties,
      Configure, OnDisk, SnapshotBase;
    match e
    case Arrives(peer, payload, now, host) =>
      AsksIs(writer, h, peer, payload, now, host);
      ChangesIs(writer, h, peer, payload, host);
      CommitBroadcasts(writer, h, peer, payload, now, host);
      PayloadSubscribes(writer, h, peer, payload, now, host);
      CommitPerforms(writer, h, peer, payload, host);
    case Clears(writable) =>
      WipesIs(writer, h, writable);
      ClearQueues(writer, h, writable);
    case _ =>
  }

  lemma CommitPerforms(writer: Writer, h: HubState, peer: Peer, payload: seq<byte>, host: Host)
    ensures Commits(writer, h, peer, payload, host) ==> Performs(h, peer, payload)
  {
    hide Performs;
  }

  /**
    The flush rule, exactly: a step keeps every subscriber's stream free of gaps and repeats if and
    only if nothing is queued or the step, judged beforehand, disturbs nothing.
   */
  lemma FlushRule(writer: Writer, w: World, e: Event)
    requires Faithful(writer.floats) && Reachable(writer, w.hub) && InSync(writer, w)
    ensures InSync(writer, StepWorld(writer, w, e)) <==> w.hub.pending == [] || !Disturbs(w.hub, e)
  {
    hide Faithful, Reachable, InSync, Intervenes, Disturbs, StepHub, Subscribers, DurableRequests, DurableDeltas, Emits,
      StepStreams, Record;
    StepOutcome(writer, w, e);
    DisturbsIs(writer, w.hub, e);
  }

  // Why the flush must come first.

  lemma SubscribedIsOn(h: HubState, id: Id)
    requires HubInvariant(h) && id in Subscribers(h.sessions)
    ensures h.settings.enabled
  {
  }

  lemma SubscribeDecodes(minor: i32)
    ensures DecodeInbound([MSG_SUBSCRIBE], minor) == Some(Subscribe)
  {
    assert [MSG_SUBSCRIBE][1..] == [];
  }

  lemma ResubscribeAnswers(writer: Writer, h: HubState, peer: Peer, now: millis, host: Host)
    requires HubInvariant(h) && peer.id in Subscribers(h.sessions) && Charge(h.sessions, peer.id, now).1
    ensures var (after, action) := Handle(writer, h, peer, [MSG_SUBSCRIBE], now, host);
      && h.service.Some? && SnapshotBase(action) == Some(h.service.value.catalog.revision as int)
      && after.pending == h.pending && peer.id in Subscribers(after.sessions)
  {
    hide DecodeInbound, TryConsume, SessionsInvariant, SetOperator, SetSubscribed;
    SubscribeDecodes(SessionMinor(h.sessions, peer.id));
    SubscribedIsOn(h, peer.id);
    ChargeSubscribesNobody(h.sessions, peer.id, now);
    var charged := Charge(h.sessions, peer.id, now).0;
    OperatorSubscribesNobody(charged, peer.id, peer.operator);
    SubscribedMark(SetOperator(charged, peer.id, peer.operator), peer.id);
  }

  /** A stream of nothing but changes its snapshot already contains. */
  ghost predicate Stale(stream: Stream) {
    forall k :: 0 <= k < |stream.sent| ==> RevisionOf(stream.sent[k]).Some? && RevisionOf(stream.sent[k]).value <= stream.base
  }

  /**
    A subscriber that asks again between a clear and its flush is then sent nothing but changes its
    new snapshot already contains: the stream starts with stale repeats.
   */
  lemma SubscribeBeforeFlushRepeats(writer: Writer, w: World, peer: Peer, now: millis, host: Host)
    requires Faithful(writer.floats) && Reachable(writer, w.hub) && InSync(writer, w) && w.hub.pending != []
    requires peer.id in Subscribers(w.hub.sessions) && Charge(w.hub.sessions, peer.id, now).1
    ensures var after := StepWorld(writer, StepWorld(writer, w, Arrives(peer, [MSG_SUBSCRIBE], now, host)), Ticks([]));
      peer.id in after.streams && after.streams[peer.id].sent == w.hub.pending && Stale(after.streams[peer.id])
  {
    hide Faithful, OnDisk, Handle, HubInvariant, GoodFile, ServiceInvariant, Record, DurableRequests, DurableDeltas,
      Emits, Address,
      Subscribers, Charge, RevisionOf;
    ResubscribeAnswers(writer, w.hub, peer, now, host);
    var next := StepWorld(writer, w, Arrives(peer, [MSG_SUBSCRIBE], now, host));
    assert RefreshAll(next.hub.sessions, []).0 == next.hub.sessions;
    AddressOne(next.streams, Tick(next.hub, []).1.recipients.Keys, next.hub.pending, peer.id);
    assert [] + w.hub.pending == w.hub.pending;
    var before := w.streams[peer.id];
    assert forall k :: 0 <= k < |w.hub.pending| ==> (before.sent + w.hub.pending)[|before.sent| + k] == w.hub.pending[k];
    assert Continuous(before, w.hub.pending, OnDisk(writer, w.hub.file).revision);
  }

  // Whole runs.

  /** Every clear is flushed by a tick before the next event it would disturb. */
  ghost predicate Prompt(writer: Writer, file: File, events: seq<Event>) {
    events == [] ||
    (var front, last := events[..|events| - 1], events[|events| - 1];
     var h := Run(writer, file, front).hub;
     Prompt(writer, file, front) && (h.pending == [] || !Disturbs(h, last)))
  }

  lemma StartInSync(writer: Writer, file: File)
    ensures InSync(writer, Start(writer, file))
  {
    hide OnDisk, PointMap;
  }

  lemma {:induction false} RunInSync(writer: Writer, file: File, events: seq<Event>)
    requires Faithful(writer.floats) && GoodFile(writer, file) && Prompt(writer, file, events)
    ensures InSync(writer, Run(writer, file, events))
  {
    hide Faithful, GoodFile, Reachable, StepWorld, InSync, Disturbs;
    if events == [] {
      StartInSync(writer, file);
    } else {
      RunInSync(writer, file, events[..|events| - 1]);
      RunReachable(writer, file, events[..|events| - 1]);
      FlushRule(writer, Run(writer, file, events[..|events| - 1]), events[|events| - 1]);
    }
  }

  lemma PromptLast(writer: Writer, file: File, events: seq<Event>)
    requires Faithful(writer.floats) && GoodFile(writer, file) && events != []
    requires InSync(writer, Run(writer, file, events[..|events| - 1]))
    ensures Prompt(writer, file, events) <==>
      Prompt(writer, file, events[..|events| - 1]) && InSync(writer, Run(writer, file, events))
  {
    hide Faithful, GoodFile, Reachable, StepWorld, InSync, Disturbs;
    RunReachable(writer, file, events[..|events| - 1]);
    FlushRule(writer, Run(writer, file, events[..|events| - 1]), events[|events| - 1]);
  }

  ghost predicate SyncAfter(writer: Writer, file: File, events: seq<Event>) {
    InSync(writer, Run(writer, file, events))
  }

  /** Every subscriber's stream is free of gaps and repeats at every moment of the run. */
  ghost predicate AlwaysInSync(writer: Writer, file: File, events: seq<Event>) {
    forall n :: 0 <= n <= |events| ==> SyncAfter(writer, file, events[..n])
  }

  lemma AlwaysLast(writer: Writer, file: File, events: seq<Event>)
    requires events != []
    ensures AlwaysInSync(writer, file, events) <==>
      AlwaysInSync(writer, file, events[..|events| - 1]) && SyncAfter(writer, file, events)
  {
    hide SyncAfter;
    var front := events[..|events| - 1];
    assert events[..|events|] == events;
    assert forall n :: 0 <= n <= |front| ==> front[..n] == events[..n];
  }

  /**
    Promptness, exactly: a run flushes promptly if and only if every stream is free of gaps and
    repeats throughout it.
   */
  lemma {:induction false} PromptIff(writer: Writer, file: File, events: seq<Event>)
    requires Faithful(writer.floats) && GoodFile(writer, file)
    ensures Prompt(writer, file, events) <==> AlwaysInSync(writer, file, events)
  {
    hide Faithful, GoodFile, InSync, Disturbs, StepWorld, Start;
    if events == [] {
      StartInSync(writer, file);
    } else {
      var front := events[..|events| - 1];
      PromptIff(writer, file, front);
      AlwaysLast(writer, file, events);
      if AlwaysInSync(writer, file, front) {
        assert front[..|front|] == front;
        PromptLast(writer, file, events);
      }
    }
  }

  /**
    The gap-free stream, over every run that flushes promptly: with nothing queued, what each
    subscriber was sent since its snapshot at r is r+1, r+2, ... up to the catalog's revision.
   */
  lemma GapFree(writer: Writer, file: File, events: seq<Event>, id: Id)
    requires Faithful(writer.floats) && GoodFile(writer, file) && Prompt(writer, file, events)
    requires var h := Run(writer, file, events).hub; h.pending == [] && id in Subscribers(h.sessions)
    ensures var w := Run(writer, file, events);
      && w.hub.service.Some? && id in w.streams
      && Follow(w.streams[id].base, w.streams[id].sent)
      && w.streams[id].base + |w.streams[id].sent| == w.hub.service.value.catalog.revision
  {
    hide Faithful, GoodFile, Run, OnDisk, ServiceInvariant, SessionsInvariant, Follow;
    RunReachable(writer, file, events);
    RunInSync(writer, file, events);
    var w := Run(writer, file, events);
    assert w.streams[id].sent + [] == w.streams[id].sent;
    assert w.hub.settings.enabled by { SubscribedIsOn(w.hub, id); }
  }

  function ReceiveFrames(peer: Replica, frames: seq<Outbound>, minor: i32): Replica {
    if frames == [] then peer
    else Receive(ReceiveFrames(peer, frames[..|frames| - 1], minor), Shown(frames[|frames| - 1], minor))
  }

  lemma {:induction false} FollowAdvances(peer: Replica, frames: seq<Outbound>, minor: i32)
    requires Follow(peer.revision, frames)
    ensures ReceiveFrames(peer, frames, minor).revision == peer.revision + |frames|
  {
    hide ShownPoint, PointMap;
    if frames != [] {
      var n := |frames| - 1;
      FollowAdvances(peer, frames[..n], minor);
      assert RevisionOf(frames[n]) == Some(peer.revision + 1 + n);
    }
  }

  lemma {:induction false} FramesKeepStep(history: History, peer: Replica, frames: seq<Outbound>, minor: i32)
    requires InStep(history, peer, minor) && forall k :: 0 <= k < |frames| ==> TrueFrame(history, frames[k])
    ensures InStep(history, ReceiveFrames(peer, frames, minor), minor)
  {
    hide TrueFrame, InStep, Shown, Receive;
    if frames != [] {
      var n := |frames| - 1;
      FramesKeepStep(history, peer, frames[..n], minor);
      ReceiveKeepsStep(history, ReceiveFrames(peer, frames[..n], minor), frames[n], minor);
    }
  }

  /** Everything in a stream has been handed to the network. */
  ghost predicate StreamsEmitted(w: World) {
    forall id :: id in w.streams ==> forall k :: 0 <= k < |w.streams[id].sent| ==> w.streams[id].sent[k] in w.emitted
  }

  lemma AddressEmitted(streams: map<Id, Stream>, recipients: set<Id>, frames: seq<Outbound>, emitted: set<Outbound>)
    requires forall id :: id in streams ==> forall k :: 0 <= k < |streams[id].sent| ==> streams[id].sent[k] in emitted
    requires forall k :: 0 <= k < |frames| ==> frames[k] in emitted
    ensures var after := Address(streams, recipients, frames);
      forall id :: id in after ==> forall k :: 0 <= k < |after[id].sent| ==> after[id].sent[k] in emitted
  {
  }

  lemma StepEmitsStreams(writer: Writer, w: World, e: Event)
    requires StreamsEmitted(w)
    ensures StreamsEmitted(StepWorld(writer, w, e))
  {
    hide Handle, StepHub, Record, DurableRequests, DurableDeltas, OnDisk, PointMap, Address, RefreshAll, Subscribers;
    var emitted := w.emitted + Emits(writer, w.hub, e);
    match e
    case Arrives(peer, payload, now, host) =>
      var action := Handle(writer, w.hub, peer, payload, now, host).1;
      if action.Mutation? && action.broadcast.Some? {
        AddressEmitted(w.streams, action.recipients.Keys, [action.broadcast.value], emitted);
      }
    case Ticks(levels) =>
      AddressEmitted(w.streams, Tick(w.hub, levels).1.recipients.Keys, w.hub.pending, emitted);
    case _ =>
  }

  lemma {:induction false} RunEmitsStreams(writer: Writer, file: File, events: seq<Event>)
    ensures StreamsEmitted(Run(writer, file, events))
  {
    hide StepWorld, OnDisk, PointMap;
    if events != [] {
      RunEmitsStreams(writer, file, events[..|events| - 1]);
      StepEmitsStreams(writer, Run(writer, file, events[..|events| - 1]), events[|events| - 1]);
    }
  }

  /**
    Delivery, end to end: a subscriber in step at its snapshot's revision that then reads its stream
    in order shows exactly the catalog the server holds now.
   */
  lemma StreamDelivers(writer: Writer, file: File, events: seq<Event>, id: Id, peer: Replica, minor: i32)
    requires Faithful(writer.floats) && GoodFile(writer, file) && Prompt(writer, file, events)
    requires var w := Run(writer, file, events);
      && w.hub.pending == [] && id in Subscribers(w.hub.sessions)
      && id in w.streams && peer.revision == w.streams[id].base && InStep(w.history, peer, minor)
    ensures var w := Run(writer, file, events);
      && w.hub.service.Some?
      && ReceiveFrames(peer, w.streams[id].sent, minor) ==
           Replica(w.hub.service.value.catalog.revision, ShownMap(PointMap(w.hub.service.value.catalog.points), minor))
  {
    hide Faithful, GoodFile, Run, OnDisk, HubInvariant, ServiceInvariant, Follow, ShownMap, PointMap, TrueFrame,
      ReceiveFrames, Prompt;
    var w := Run(writer, file, events);
    GapFree(writer, file, events, id);
    RunReachable(writer, file, events);
    RunTruth(writer, file, events);
    RunEmitsStreams(writer, file, events);
    FollowAdvances(peer, w.streams[id].sent, minor);
    FramesKeepStep(w.history, peer, w.streams[id].sent, minor);
  }
}
