/**
  What a client ends with. It knows the minor of the last status it was sent, reads every payload at
  that minor, and holds the bytes it was sent since its snapshot, the snapshot first.
 */
module Clients {
  import opened Prelude
  import opened Identity
  import opened Model
  import opened Wire
  import opened Proto
  import opened Frames
  import opened Catalogs
  import opened Buckets
  import opened Documents
  import opened DocumentSize
  import opened Persistence
  import opened Mutations
  import opened MutationLaws
  import opened Hub
  import opened HubLaws
  import opened Control
  import opened Runs
  import opened Convergence
  import opened Delivery
  import opened Streams

  // The minor a client is told, and the minor it is written at.

  function LastStatus(frames: seq<Outbound>): Option<i32> {
    if frames == [] then None
    else if frames[|frames| - 1].Status? then Some(frames[|frames| - 1].minor)
    else LastStatus(frames[..|frames| - 1])
  }

  /** The minor in the status an event sends this connection, when it sends one. */
  function Tells(writer: Writer, h: HubState, e: Event, id: Id): Option<i32> {
    match e
    case Arrives(peer, payload, now, host) =>
      var action := Handle(writer, h, peer, payload, now, host).1;
      if peer.id == id && action.Reply? then LastStatus(action.frames) else None
    case Ticks(levels) =>
      var statuses := Tick(h, levels).1.statuses;
      if id in statuses then LastStatus([statuses[id]]) else None
    case _ => None
  }

  /** The minor of the last status this connection was sent. */
  ghost function ToldMinor(writer: Writer, file: File, events: seq<Event>, id: Id): Option<i32> {
    if events == [] then None
    else
      var front, last := events[..|events| - 1], events[|events| - 1];
      var told := Tells(writer, Run(writer, file, front).hub, last, id);
      if told.Some? then told else ToldMinor(writer, file, front, id)
  }

  /** The bytes an event sends a connection about the catalog; a snapshot starts them over. */
  function Sends(writer: Writer, h: HubState, e: Event, id: Id, before: seq<seq<byte>>): seq<seq<byte>> {
    match e
    case Arrives(peer, payload, now, host) =>
      var action := Handle(writer, h, peer, payload, now, host).1;
      if peer.id == id && SnapshotBase(action).Some? then PayloadsOf(action.frames, action.minor)
      else if action.Mutation? && action.broadcast.Some? && id in action.recipients then
        before + PayloadsOf([action.broadcast.value], action.recipients[id])
      else before
    case Ticks(levels) =>
      var flush := Tick(h, levels).1;
      if id in flush.recipients then before + PayloadsOf(flush.deltas, flush.recipients[id]) else before
    case _ => before
  }

  /** The payloads about the catalog this connection was sent from its last snapshot on. */
  ghost function SentTo(writer: Writer, file: File, events: seq<Event>, id: Id): seq<seq<byte>> {
    if events == [] then []
    else
      var front, last := events[..|events| - 1], events[|events| - 1];
      Sends(writer, Run(writer, file, front).hub, last, id, SentTo(writer, file, front, id))
  }

  // Every frame is written at the minor of the session it goes to.

  lemma SubscribersMinor(sessions: Sessions, id: Id)
    requires id in Subscribers(sessions)
    ensures Subscribers(sessions)[id] == SessionMinor(sessions, id) && SessionCompatible(sessions, id)
  {
  }

  /** Compatible or not as before, and reading the same minor. */
  predicate SameMinor(sessions: Sessions, after: Sessions, id: Id) {
    && (SessionCompatible(after, id) <==> SessionCompatible(sessions, id))
    && SessionMinor(after, id) == SessionMinor(sessions, id)
  }

  lemma MarksKeepMinor(sessions: Sessions, id: Id, operator: bool, subscribed: bool, now: millis)
    ensures SameMinor(sessions, Charge(sessions, id, now).0, id)
    ensures SameMinor(sessions, SetOperator(sessions, id, operator), id)
    ensures SameMinor(sessions, SetSubscribed(sessions, id, subscribed), id)
  {
    hide TryConsume;
  }

  lemma {:induction false} RefreshKeepsMinor(sessions: Sessions, levels: seq<Level>, id: Id)
    ensures SameMinor(sessions, RefreshAll(sessions, levels).0, id)
  {
    if levels != [] {
      RefreshKeepsMinor(sessions, levels[..|levels| - 1], id);
    }
  }

  /**
    How an answer treats the minor of its sender: what it says of it is what the session now has; one
    that says nothing of it leaves it alone, or leaves the peer incompatible.
   */
  predicate SpeaksOfMinor(sessions: Sessions, after: Sessions, id: Id, action: Action) {
    && (action.Reply? ==> action.minor == SessionMinor(after, id))
    && (action.Reply? && LastStatus(action.frames).Some? ==> LastStatus(action.frames).value == SessionMinor(after, id))
    && (!action.Reply? || LastStatus(action.frames).None? ==>
         SessionCompatible(after, id) ==> SessionCompatible(sessions, id) && SessionMinor(after, id) == SessionMinor(sessions, id))
    && (id in Subscribers(after) ==> SnapshotBase(action).Some? || SessionMinor(after, id) == SessionMinor(sessions, id))
  }

  lemma LastOfOne(frame: Outbound)
    ensures LastStatus([frame]) == if frame.Status? then Some(frame.minor) else None
  {
  }

  lemma LastOfTwo(first: Outbound, second: Outbound)
    requires second.Status?
    ensures LastStatus([first, second]) == Some(second.minor)
  {
  }

  lemma StatusMinor(h: HubState, operator: bool, minor: i32, supported: bool)
    ensures var frame := StatusFrame(h, operator, minor, supported); frame.Status? && frame.minor == minor
  {
  }

  lemma HelloSpeaks(h: HubState, peer: Peer, major: i32, minor: i32, now: millis)
    ensures var (after, action) := HandleHello(h, peer, major, minor, now);
      SpeaksOfMinor(h.sessions, after.sessions, peer.id, action)
  {
    hide StatusFrame, LastStatus, TryConsume;
    var (sessions, negotiated) := Greet(h.sessions, peer.id, major, minor, peer.operator, now);
    if negotiated.Some? {
      var after := h.(sessions := sessions);
      var frame := StatusFrame(after, peer.operator, negotiated.value, SessionCompatible(sessions, peer.id));
      StatusMinor(after, peer.operator, negotiated.value, SessionCompatible(sessions, peer.id));
      LastOfOne(frame);
    }
  }

  lemma SubscribeSpeaks(h: HubState, peer: Peer, minor: i32, now: millis)
    requires minor == SessionMinor(h.sessions, peer.id)
    ensures var (after, action) := HandleSubscribe(h, peer, minor, now);
      SpeaksOfMinor(h.sessions, after.sessions, peer.id, action)
  {
    hide StatusFrame, LastStatus, Charge, SetOperator, SetSubscribed, EffectiveMinor, IsSubscribed, IsCompatible;
    MarksKeepMinor(h.sessions, peer.id, peer.operator, true, now);
    var charged := Charge(h.sessions, peer.id, now).0;
    MarksKeepMinor(charged, peer.id, peer.operator, true, now);
    var refreshed := SetOperator(charged, peer.id, peer.operator);
    MarksKeepMinor(refreshed, peer.id, peer.operator, true, now);
    MarksKeepMinor(refreshed, peer.id, peer.operator, false, now);
    if !h.settings.enabled {
      var after := h.(sessions := SetSubscribed(refreshed, peer.id, false));
      StatusMinor(after, peer.operator, minor, true);
      LastOfOne(StatusFrame(after, peer.operator, minor, true));
    } else {
      var c := if h.service.Some? then h.service.value.catalog else EMPTY;
      LastOfOne(Snapshot(c.revision, peer.operator, c.points));
    }
  }

  lemma DisabledSpeaks(h: HubState, peer: Peer, op: Id, minor: i32, now: millis)
    requires minor == SessionMinor(h.sessions, peer.id)
    ensures var (after, action) := HandleDisabled(h, peer, op, minor, now);
      SpeaksOfMinor(h.sessions, after.sessions, peer.id, action)
  {
    hide StatusFrame, LastStatus, Charge, SetOperator, EffectiveMinor, IsCompatible;
    MarksKeepMinor(h.sessions, peer.id, peer.operator, true, now);
    var (sessions, ok) := Charge(h.sessions, peer.id, now);
    MarksKeepMinor(sessions, peer.id, peer.operator, true, now);
    LastOfOne(Outcome(op, STATUS_REJECTED, ERROR_RATE_LIMITED));
    var after := h.(sessions := SetOperator(sessions, peer.id, peer.operator));
    StatusMinor(after, peer.operator, minor, true);
    LastOfTwo(Outcome(op, STATUS_REJECTED, ERROR_DISABLED), StatusFrame(after, peer.operator, minor, true));
  }

  lemma StrikeSpeaks(h: HubState, id: Id)
    requires HubInvariant(h)
    ensures SpeaksOfMinor(h.sessions, NoteMalformed(h, id).sessions, id, Silent)
  {
  }

  lemma SameSpeaks(sessions: Sessions, id: Id, action: Action)
    requires action.Reply? ==> action.minor == SessionMinor(sessions, id) && LastStatus(action.frames).None?
    ensures SpeaksOfMinor(sessions, sessions, id, action)
  {
  }

  /** Whatever a connection sends, the answer is written at the minor its session then has. */
  lemma PayloadSpeaks(writer: Writer, h: HubState, peer: Peer, payload: seq<byte>, now: millis, host: Host)
    requires HubInvariant(h)
    ensures var (after, action) := Handle(writer, h, peer, payload, now, host);
      SpeaksOfMinor(h.sessions, after.sessions, peer.id, action)
  {
    hide DecodeInbound, Perform, FinishMutation, HandleHello, HandleSubscribe, HandleDisabled, NoteMalformed,
      HubInvariant, SessionCompatible, SpeaksOfMinor, LastStatus;
    var minor, action := SessionMinor(h.sessions, peer.id), Handle(writer, h, peer, payload, now, host).1;
    assert forall a, b, c :: FinishMutation(a, b, c).Mutation? by { FinishIsMutation(); }
    match DecodeInbound(payload, minor)
    case None => StrikeSpeaks(h, peer.id);
    case Some(m) =>
      match m
      case Hello(major, theirs) => HelloSpeaks(h, peer, major, theirs, now);
      case Subscribe => SubscribeSpeaks(h, peer, minor, now);
      case Mutate(r) =>
        DisabledSpeaks(h, peer, r.operationId, minor, now);
        if !action.Reply? {
          SameSpeaks(h.sessions, peer.id, action);
        }
      case Lock(op, _, _, _) =>
        DisabledSpeaks(h, peer, op, minor, now);
        LastOfOne(Outcome(op, STATUS_REJECTED, ERROR_INVALID_REQUEST));
        if !action.Reply? || h.settings.enabled {
          SameSpeaks(h.sessions, peer.id, action);
        }
  }

  /** Whoever an event addresses, what it sends is written at the minor of that connection's session. */
  lemma WrittenAtSessionMinor(writer: Writer, h: HubState, e: Event, id: Id)
    requires HubInvariant(h)
    ensures var after := StepHub(writer, h, e);
      match e
      case Arrives(peer, payload, now, host) =>
        (match Handle(writer, h, peer, payload, now, host).1
         case Silent => true
         case Reply(_, minor) => minor == SessionMinor(after.sessions, peer.id)
         case Mutation(_, minor, _, recipients) =>
           && minor == SessionMinor(after.sessions, peer.id)
           && (id in recipients ==> recipients[id] == SessionMinor(after.sessions, id)))
      case Ticks(levels) =>
        var flush := Tick(h, levels).1;
        id in flush.recipients ==> flush.recipients[id] == SessionMinor(after.sessions, id)
      case _ => true
  {
    hide HubInvariant, Perform, Handle, DecodeInbound, StatusFrame, RefreshAll, Subscribers, StatusesFor, SessionMinor,
      Performs, ErrorCode;
    match e
    case Arrives(peer, payload, now, host) =>
      PayloadSpeaks(writer, h, peer, payload, now, host);
      HandleService(writer, h, peer, payload, now, host);
      if id in Subscribers(h.sessions) {
        SubscribersMinor(h.sessions, id);
      }
    case Ticks(levels) =>
      if id in Subscribers(RefreshAll(h.sessions, levels).0) {
        SubscribersMinor(RefreshAll(h.sessions, levels).0, id);
      }
    case _ =>
  }

  // What a client knows, over every run.

  /** A compatible client was told the minor its session has, by the last status it was sent. */
  predicate Informed(sessions: Sessions, id: Id, told: Option<i32>) {
    SessionCompatible(sessions, id) ==> told == Some(SessionMinor(sessions, id))
  }

  lemma StepInforms(writer: Writer, h: HubState, e: Event, id: Id, told: Option<i32>)
    requires HubInvariant(h) && Informed(h.sessions, id, told)
    ensures var tells := Tells(writer, h, e, id);
      Informed(StepHub(writer, h, e).sessions, id, if tells.Some? then tells else told)
  {
    hide HubInvariant, Handle, RefreshAll, Saved, ClearFrames, LoadedFrom, Adopted, LastStatus, IsCompatible,
      StatusFrame;
    match e
    case Arrives(peer, payload, now, host) =>
      if peer.id == id {
        PayloadSpeaks(writer, h, peer, payload, now, host);
      } else {
        OtherPayloadTouchesNothing(writer, h, peer, payload, now, host, id);
      }
    case Ticks(levels) =>
      RefreshKeepsMinor(h.sessions, levels, id);
      TickStatusMinor(h, levels, id);
    case Configures(settings, movable, writable) => ClearingKeepsMinor(h.sessions, id);
    case _ =>
  }

  lemma TickStatusMinor(h: HubState, levels: seq<Level>, id: Id)
    ensures var (after, flush) := Tick(h, levels);
      id in flush.statuses ==> LastStatus([flush.statuses[id]]) == Some(SessionMinor(after.sessions, id))
  {
    hide RefreshAll, LastStatus, StatusFrame, CompatiblePeers;
    var (after, flush) := Tick(h, levels);
    if id in flush.statuses {
      var s := after.sessions[id];
      StatusMinor(after, s.operator, EffectiveMinor(s), after.service.Some?);
      LastOfOne(flush.statuses[id]);
    }
  }

  lemma ClearingKeepsMinor(sessions: Sessions, id: Id)
    ensures SameMinor(sessions, ClearSubscriptions(sessions), id)
  {
  }

  lemma {:induction false} RunInforms(writer: Writer, file: File, events: seq<Event>, id: Id)
    requires Faithful(writer.floats) && GoodFile(writer, file)
    ensures Informed(Run(writer, file, events).hub.sessions, id, ToldMinor(writer, file, events, id))
  {
    hide Faithful, GoodFile, StepHub, Informed, Tells, Record, DurableRequests, DurableDeltas, Emits, StepStreams, OnDisk,
      PointMap, HubInvariant, DurableInvariant;
    if events == [] {
      assert Informed(map[], id, None) by { NobodyInformed(id); }
    } else {
      var front := events[..|events| - 1];
      RunInforms(writer, file, front, id);
      RunReachable(writer, file, front);
      StepInforms(writer, Run(writer, file, front).hub, events[|events| - 1], id, ToldMinor(writer, file, front, id));
    }
  }

  lemma NobodyInformed(id: Id)
    ensures Informed(map[], id, None)
  {
  }

  // What a client was sent, over every run.

  /** The bytes are the snapshot the stream starts from and the stream's changes, written at this minor. */
  ghost predicate WiredFrom(w: World, id: Id, sent: seq<seq<byte>>, snapshot: Outbound) {
    && id in w.streams && snapshot.Snapshot? && snapshot.revision == w.streams[id].base && snapshot in w.emitted
    && sent == PayloadsOf([snapshot] + w.streams[id].sent, SessionMinor(w.hub.sessions, id))
  }

  ghost predicate Wired(w: World, id: Id, sent: seq<seq<byte>>) {
    id in Subscribers(w.hub.sessions) ==> exists snapshot :: WiredFrom(w, id, sent, snapshot)
  }

  lemma PayloadsConcat(frames: seq<Outbound>, more: seq<Outbound>, minor: i32)
    ensures PayloadsOf(frames + more, minor) == PayloadsOf(frames, minor) + PayloadsOf(more, minor)
  {
    hide OutboundFits, EncOutbound;
  }

  /** More was sent to a client, at its session's minor. */
  lemma WiredExtends(w: World, after: World, id: Id, sent: seq<seq<byte>>, more: seq<Outbound>)
    requires Wired(w, id, sent) && id in Subscribers(w.hub.sessions) && w.emitted <= after.emitted
    requires SessionMinor(after.hub.sessions, id) == SessionMinor(w.hub.sessions, id)
    requires id in w.streams ==> id in after.streams && after.streams[id] == w.streams[id].(sent := w.streams[id].sent + more)
    ensures Wired(after, id, sent + PayloadsOf(more, SessionMinor(after.hub.sessions, id)))
  {
    hide PayloadsOf, Subscribers, SessionMinor;
    var snapshot :| WiredFrom(w, id, sent, snapshot);
    var frames := [snapshot] + w.streams[id].sent;
    PayloadsConcat(frames, more, SessionMinor(w.hub.sessions, id));
    assert frames + more == [snapshot] + after.streams[id].sent;
    assert WiredFrom(after, id, sent + PayloadsOf(more, SessionMinor(after.hub.sessions, id)), snapshot);
  }

  lemma WiredStays(w: World, after: World, id: Id, sent: seq<seq<byte>>)
    requires Wired(w, id, sent) && w.emitted <= after.emitted
    requires id in Subscribers(after.hub.sessions) ==>
      && id in Subscribers(w.hub.sessions) && SessionMinor(after.hub.sessions, id) == SessionMinor(w.hub.sessions, id)
      && (id in w.streams ==> id in after.streams && after.streams[id] == w.streams[id])
    ensures Wired(after, id, sent)
  {
    hide PayloadsOf, Subscribers, SessionMinor;
    if id in Subscribers(after.hub.sessions) {
      var snapshot :| WiredFrom(w, id, sent, snapshot);
      assert WiredFrom(after, id, sent, snapshot);
    }
  }

  /** A payload's broadcast reaches every subscriber, at its session's minor; a snapshot starts a client over. */
  lemma PayloadWires(writer: Writer, w: World, peer: Peer, payload: seq<byte>, now: millis, host: Host, id: Id,
      sent: seq<seq<byte>>)
    requires HubInvariant(w.hub) && Wired(w, id, sent)
    ensures var e := Arrives(peer, payload, now, host);
      Wired(StepWorld(writer, w, e), id, Sends(writer, w.hub, e, id, sent))
  {
    hide HubInvariant, Handle, PayloadsOf, Subscribers, SessionMinor, Record, DurableRequests, DurableDeltas, OnDisk,
      PointMap, Performs, Perform, ErrorCode, Wired, LastStatus, SessionCompatible;
    var e := Arrives(peer, payload, now, host);
    var after := StepWorld(writer, w, e);
    var (hub, action) := Handle(writer, w.hub, peer, payload, now, host);
    PayloadSpeaks(writer, w.hub, peer, payload, now, host);
    PayloadSubscribes(writer, w.hub, peer, payload, now, host);
    HandleService(writer, w.hub, peer, payload, now, host);
    if peer.id == id && SnapshotBase(action).Some? {
      SnapshotWires(after, id, action, hub);
    } else {
      if peer.id != id {
        OtherPayloadTouchesNothing(writer, w.hub, peer, payload, now, host, id);
        UntouchedMinor(w.hub.sessions, hub.sessions, id);
      }
      if action.Mutation? && action.broadcast.Some? && id in Subscribers(w.hub.sessions) {
        SubscribersMinor(w.hub.sessions, id);
        WiredExtends(w, after, id, sent, [action.broadcast.value]);
      } else {
        WiredStays(w, after, id, sent);
      }
    }
  }

  lemma UntouchedMinor(sessions: Sessions, after: Sessions, id: Id)
    requires Untouched(sessions, after, id)
    ensures SessionMinor(after, id) == SessionMinor(sessions, id)
  {
  }

  lemma SnapshotWires(after: World, id: Id, action: Action, hub: HubState)
    requires SnapshotBase(action).Some? && after.hub == hub && action.minor == SessionMinor(hub.sessions, id)
    requires FramesOf(action) <= after.emitted
    requires id in after.streams && after.streams[id] == Stream(SnapshotBase(action).value, [])
    ensures Wired(after, id, PayloadsOf(action.frames, action.minor))
  {
    hide PayloadsOf, Subscribers, SessionMinor;
    var snapshot := action.frames[0];
    assert action.frames == [snapshot] + [] && snapshot in FramesOf(action);
    assert WiredFrom(after, id, PayloadsOf(action.frames, action.minor), snapshot);
  }

  lemma StepWires(writer: Writer, w: World, e: Event, id: Id, sent: seq<seq<byte>>)
    requires Reachable(writer, w.hub) && Wired(w, id, sent)
    ensures Wired(StepWorld(writer, w, e), id, Sends(writer, w.hub, e, id, sent))
  {
    hide HubInvariant, DurableInvariant, Handle, PayloadsOf, Subscribers, SessionMinor, Record, DurableRequests,
      DurableDeltas, OnDisk, PointMap, RefreshAll, Saved, ClearFrames, LoadedFrom, Adopted, ClearSubscriptions, Wired,
      StatusesFor, CompatiblePeers;
    var after := StepWorld(writer, w, e);
    StepSubscribes(writer, w.hub, e);
    match e
    case Arrives(peer, payload, now, host) => PayloadWires(writer, w, peer, payload, now, host, id, sent);
    case Ticks(levels) =>
      RefreshKeepsMinor(w.hub.sessions, levels, id);
      if w.hub.pending != [] && id in Subscribers(after.hub.sessions) {
        SubscribersMinor(after.hub.sessions, id);
        WiredExtends(w, after, id, sent, w.hub.pending);
      } else {
        WiredStays(w, after, id, sent);
      }
    case _ =>
      if id in Subscribers(after.hub.sessions) {
        StillSubscribed(writer, w.hub, e, id);
      }
      WiredStays(w, after, id, sent);
  }

  lemma StillSubscribed(writer: Writer, h: HubState, e: Event, id: Id)
    requires id in Subscribers(StepHub(writer, h, e).sessions) && !e.Arrives? && !e.Ticks?
    ensures SessionMinor(StepHub(writer, h, e).sessions, id) == SessionMinor(h.sessions, id)
  {
    hide Handle, Saved, ClearFrames, LoadedFrom, Adopted;
    assert Subscribers(map[]) == map[];
    ClearingKeepsMinor(h.sessions, id);
  }

  lemma {:induction false} RunWires(writer: Writer, file: File, events: seq<Event>, id: Id)
    requires Faithful(writer.floats) && GoodFile(writer, file)
    ensures Wired(Run(writer, file, events), id, SentTo(writer, file, events, id))
  {
    hide Faithful, GoodFile, StepWorld, Wired, Sends, OnDisk, PointMap, HubInvariant, DurableInvariant;
    if events == [] {
      NobodyWired(writer, file, id);
    } else {
      var front := events[..|events| - 1];
      RunWires(writer, file, front, id);
      RunReachable(writer, file, front);
      StepWires(writer, Run(writer, file, front), events[|events| - 1], id, SentTo(writer, file, front, id));
    }
  }

  lemma NobodyWired(writer: Writer, file: File, id: Id)
    ensures Wired(Start(writer, file), id, [])
  {
    hide OnDisk, PointMap;
  }

  // What a client makes of it.

  lemma {:induction false} BytesAreFrames(peer: Replica, frames: seq<Outbound>, minor: i32)
    requires forall k :: 0 <= k < |frames| ==> OutboundFits(frames[k], minor)
    ensures ReceiveAll(peer, PayloadsOf(frames, minor), minor) == ReceiveFrames(peer, frames, minor)
  {
    hide OutboundFits, EncOutbound, TakeOutbound, Receive, Shown;
    if frames != [] {
      var n := |frames| - 1;
      BytesAreFrames(peer, frames[..n], minor);
      assert PayloadsOf(frames, minor)[..n] == PayloadsOf(frames[..n], minor);
      FrameReadBack(frames[n], minor);
    }
  }

  lemma {:induction false} ReceiveHead(peer: Replica, first: Outbound, rest: seq<Outbound>, minor: i32)
    ensures ReceiveFrames(peer, [first] + rest, minor) == ReceiveFrames(Receive(peer, Shown(first, minor)), rest, minor)
  {
    hide Receive, Shown;
    if rest == [] {
      assert [first] + rest == [first] && [first][..0] == [];
      assert ReceiveFrames(peer, [], minor) == peer;
    } else {
      var n := |rest| - 1;
      assert ([first] + rest)[..n + 1] == [first] + rest[..n];
      ReceiveHead(peer, first, rest[..n], minor);
    }
  }

  /**
    The bytes, end to end: over every run that flushes promptly, with nothing queued, a subscriber that
    reads what it was sent since its snapshot, in order and at the minor of the last status it was
    sent, shows exactly the catalog the server holds, as that minor shows it - whatever it showed before.
   */
  lemma ClientShowsCatalog(writer: Writer, file: File, events: seq<Event>, id: Id, before: Replica)
    requires Faithful(writer.floats) && GoodFile(writer, file) && Prompt(writer, file, events)
    requires var h := Run(writer, file, events).hub; h.pending == [] && id in Subscribers(h.sessions)
    ensures var h := Run(writer, file, events).hub;
      && h.service.Some? && ToldMinor(writer, file, events, id).Some?
      && var minor := ToldMinor(writer, file, events, id).value;
         ReceiveAll(before, SentTo(writer, file, events, id), minor) ==
           Replica(h.service.value.catalog.revision, ShownMap(PointMap(h.service.value.catalog.points), minor))
  {
    hide Faithful, GoodFile, Run, OnDisk, HubInvariant, ServiceInvariant, Follow, ShownMap, PointMap, TrueFrame, Prompt,
      Subscribers, SessionMinor, SessionCompatible, PayloadsOf, OutboundFits, SentTo, ToldMinor, ReceiveAll, ReceiveFrames,
      Receive, Shown, InStep;
    var w, minor := Run(writer, file, events), SessionMinor(Run(writer, file, events).hub.sessions, id);
    RunReachable(writer, file, events);
    RunInforms(writer, file, events, id);
    SubscribersMinor(w.hub.sessions, id);
    RunWires(writer, file, events, id);
    var snapshot :| WiredFrom(w, id, SentTo(writer, file, events, id), snapshot);
    var frames := [snapshot] + w.streams[id].sent;
    RunEmitsStreams(writer, file, events);
    GapFree(writer, file, events, id);
    forall k | 0 <= k < |frames|
      ensures OutboundFits(frames[k], minor)
    {
      assert k > 0 ==> frames[k] == w.streams[id].sent[k - 1];
      StreamIsAboutCatalog(w.streams[id], k);
      SnapshotIsAbout(snapshot);
      EverythingIsSendable(writer, file, events, frames[k], minor);
    }
    BytesAreFrames(before, frames, minor);
    ReceiveHead(before, snapshot, w.streams[id].sent, minor);
    RunTruth(writer, file, events);
    ReceiveKeepsStep(w.history, before, snapshot, minor);
    SnapshotSetsRevision(before, snapshot, minor);
    StreamDelivers(writer, file, events, id, Receive(before, Shown(snapshot, minor)), minor);
  }

  lemma SnapshotSetsRevision(before: Replica, snapshot: Outbound, minor: i32)
    requires snapshot.Snapshot?
    ensures Receive(before, Shown(snapshot, minor)).revision == snapshot.revision
  {
    hide ShownPoints, PointMap;
  }

  lemma StreamIsAboutCatalog(stream: Stream, k: nat)
    requires Follow(stream.base, stream.sent) && k <= |stream.sent|
    ensures k > 0 ==> AboutCatalog(stream.sent[k - 1])
  {
    assert k > 0 ==> RevisionOf(stream.sent[k - 1]) == Some(stream.base + k);
  }
}
