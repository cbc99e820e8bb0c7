/**
  A mute lasts until the session is removed: through everybody's payloads, clears, configurations and
  ticks nothing is sent to the muted peer, and its own payloads are answered with silence.
 */
module Muting {
  import opened Prelude
  import opened Identity
  import opened Proto
  import opened Catalogs
  import opened Buckets
  import opened Documents
  import opened Persistence
  import opened Mutations
  import opened Hub
  import opened HubLaws
  import opened Control
  import opened Runs
  import opened Convergence

  predicate IsMuted(sessions: Sessions, id: Id) {
    id in sessions && sessions[id].muted
  }

  /** The peer leaves, the feature unloads or the server dies: its session is gone. */
  predicate Removes(e: Event, id: Id) {
    match e
    case Leaves(other) => other == id
    case Unloads => true
    case DiesOnPayload(_, _, _, _) => true
    case DiesOnClear(_) => true
    case Dies => true
    case _ => false
  }

  /** Everybody an event sends something to: a reply, an outcome, a broadcast, a status or a queued change. */
  function Addressed(writer: Writer, h: HubState, e: Event): set<Id> {
    match e
    case Arrives(peer, payload, now, host) =>
      (match Handle(writer, h, peer, payload, now, host).1
       case Silent => {}
       case Reply(_, _) => {peer.id}
       case Mutation(_, _, _, recipients) => {peer.id} + recipients.Keys)
    case Ticks(levels) =>
      var flush := Tick(h, levels).1;
      flush.statuses.Keys + flush.recipients.Keys
    case _ => {}
  }

  // One session.

  lemma MarksKeepMuted(sessions: Sessions, id: Id, other: Id, operator: bool, subscribed: bool, now: millis)
    requires IsMuted(sessions, id)
    ensures IsMuted(Charge(sessions, other, now).0, id)
    ensures IsMuted(SetOperator(sessions, other, operator), id)
    ensures IsMuted(SetSubscribed(sessions, other, subscribed), id)
  {
    hide TryConsume;
  }

  lemma GreetKeepsMuted(sessions: Sessions, id: Id, other: Id, major: i32, minor: i32, operator: bool, now: millis)
    requires IsMuted(sessions, id)
    ensures IsMuted(Greet(sessions, other, major, minor, operator, now).0, id)
  {
    hide TryConsume;
  }

  lemma StrikeKeepsMuted(h: HubState, id: Id, other: Id)
    requires HubInvariant(h) && IsMuted(h.sessions, id)
    ensures IsMuted(NoteMalformed(h, other).sessions, id)
  {
  }

  lemma {:induction false} RefreshKeepsMuted(sessions: Sessions, levels: seq<Level>, id: Id)
    requires IsMuted(sessions, id)
    ensures IsMuted(RefreshAll(sessions, levels).0, id) && id !in RefreshAll(sessions, levels).1
  {
    if levels != [] {
      RefreshKeepsMuted(sessions, levels[..|levels| - 1], id);
    }
  }

  lemma EnrollKeepsMuted(h: HubState, peer: Peer, minor: i32, id: Id)
    requires IsMuted(h.sessions, id)
    ensures IsMuted(Enroll(h, peer, minor).0.sessions, id)
  {
    hide SetOperator, SetSubscribed, StatusFrame;
    MarksKeepMuted(h.sessions, id, peer.id, peer.operator, true, 0);
    var refreshed := SetOperator(h.sessions, peer.id, peer.operator);
    MarksKeepMuted(refreshed, id, peer.id, peer.operator, true, 0);
    MarksKeepMuted(refreshed, id, peer.id, peer.operator, false, 0);
  }

  // One event.

  /** No payload, whoever sends it, lifts a mute. */
  lemma PayloadKeepsMuted(writer: Writer, h: HubState, peer: Peer, payload: seq<byte>, now: millis, host: Host, id: Id)
    requires HubInvariant(h) && IsMuted(h.sessions, id)
    ensures IsMuted(Handle(writer, h, peer, payload, now, host).0.sessions, id)
  {
    hide DecodeInbound, Perform, FinishMutation, Greet, Charge, SetOperator, Enroll, NoteMalformed, StatusFrame,
      IsMuted,
      HubInvariant, IsCompatible;
    MarksKeepMuted(h.sessions, id, peer.id, peer.operator, true, now);
    var charged := Charge(h.sessions, peer.id, now).0;
    MarksKeepMuted(charged, id, peer.id, peer.operator, true, now);
    EnrollKeepsMuted(h.(sessions := charged), peer, SessionMinor(h.sessions, peer.id), id);
    match DecodeInbound(payload, SessionMinor(h.sessions, peer.id))
    case None => StrikeKeepsMuted(h, id, peer.id);
    case Some(m) =>
      match m
      case Hello(major, theirs) => GreetKeepsMuted(h.sessions, id, peer.id, major, theirs, peer.operator, now);
      case _ =>
  }

  /** A mute outlasts every event but the removal of its session. */
  lemma StepKeepsMuted(writer: Writer, h: HubState, e: Event, id: Id)
    requires HubInvariant(h) && IsMuted(h.sessions, id) && !Removes(e, id)
    ensures IsMuted(StepHub(writer, h, e).sessions, id)
  {
    hide HubInvariant, Handle, Saved, ClearFrames, LoadedFrom, Adopted, RefreshAll;
    match e
    case Arrives(peer, payload, now, host) => PayloadKeepsMuted(writer, h, peer, payload, now, host, id);
    case Ticks(levels) => RefreshKeepsMuted(h.sessions, levels, id);
    case _ =>
  }

  lemma MutedIsNoSubscriber(sessions: Sessions, id: Id)
    requires IsMuted(sessions, id)
    ensures id !in Subscribers(sessions) && id !in CompatiblePeers(sessions) && !SessionCompatible(sessions, id)
  {
  }

  /** Nothing an event sends is addressed to a muted peer: no reply, outcome, broadcast, status or queued change. */
  lemma MutedIsUnaddressed(writer: Writer, h: HubState, e: Event, id: Id)
    requires HubInvariant(h) && IsMuted(h.sessions, id)
    ensures id !in Addressed(writer, h, e)
  {
    hide HubInvariant, Handle, Performs, RefreshAll, Subscribers, CompatiblePeers, StatusFrame, IsMuted, Perform;
    match e
    case Arrives(peer, payload, now, host) =>
      PayloadKeepsMuted(writer, h, peer, payload, now, host, id);
      MutedIsNoSubscriber(h.sessions, id);
      if peer.id == id {
        assert h.sessions[id].muted by { MutedSession(h.sessions, id); }
        MutedIsSilent(writer, h, peer, payload, now, host);
      }
      BroadcastToSubscribers(writer, h, peer, payload, now, host);
    case Ticks(levels) =>
      RefreshKeepsMuted(h.sessions, levels, id);
      MutedIsNoSubscriber(RefreshAll(h.sessions, levels).0, id);
    case _ =>
  }

  lemma MutedSession(sessions: Sessions, id: Id)
    requires IsMuted(sessions, id)
    ensures id in sessions && sessions[id].muted
  {
  }

  /** Whatever a mutation broadcasts goes to the subscribers of the moment. */
  lemma BroadcastToSubscribers(writer: Writer, h: HubState, peer: Peer, payload: seq<byte>, now: millis, host: Host)
    ensures var action := Handle(writer, h, peer, payload, now, host).1;
      action.Mutation? ==> action.recipients.Keys <= Subscribers(h.sessions).Keys
  {
    hide Handle, Performs, Perform, Subscribers, ErrorCode;
    HandleService(writer, h, peer, payload, now, host);
  }

  // Whole runs.

  function StreamOf(w: World, id: Id): Option<Stream> {
    if id in w.streams then Some(w.streams[id]) else None
  }

  /** A muted peer's stream stands still. */
  lemma MutedStreamStands(writer: Writer, w: World, e: Event, id: Id)
    requires HubInvariant(w.hub) && IsMuted(w.hub.sessions, id)
    ensures StreamOf(StepWorld(writer, w, e), id) == StreamOf(w, id)
  {
    hide HubInvariant, Handle, StepHub, DurableRequests, DurableDeltas, Emits, Record, RefreshAll, IsMuted, Subscribers,
      StatusesFor, CompatiblePeers, OnDisk, PointMap;
    MutedIsUnaddressed(writer, w.hub, e, id);
  }

  /**
    A mute over every run: from the state it holds in until the session is removed it goes on
    holding, the peer's stream does not grow, and whatever happens next is not addressed to it.
   */
  lemma {:induction false} MutedUntilRemoved(writer: Writer, file: File, before: seq<Event>, after: seq<Event>,
      next: Event, id: Id)
    requires Faithful(writer.floats) && GoodFile(writer, file)
    requires IsMuted(Run(writer, file, before).hub.sessions, id)
    requires forall k :: 0 <= k < |after| ==> !Removes(after[k], id)
    ensures var w := Run(writer, file, before + after);
      && IsMuted(w.hub.sessions, id)
      && StreamOf(w, id) == StreamOf(Run(writer, file, before), id)
      && id !in Addressed(writer, w.hub, next)
  {
    hide Faithful, GoodFile, IsMuted, StepWorld, StreamOf, Addressed, Removes, HubInvariant, DurableInvariant;
    if after == [] {
      assert before + after == before;
      RunReachable(writer, file, before);
      MutedIsUnaddressed(writer, Run(writer, file, before).hub, next, id);
    } else {
      var front, last := after[..|after| - 1], after[|after| - 1];
      MutedUntilRemoved(writer, file, before, front, last, id);
      var w, events := Run(writer, file, before + front), before + after;
      assert events[..|events| - 1] == before + front;
      RunReachable(writer, file, before + front);
      RunReachable(writer, file, events);
      MutedOneMore(writer, w, last, id);
      MutedIsUnaddressed(writer, Run(writer, file, events).hub, next, id);
    }
  }

  lemma MutedOneMore(writer: Writer, w: World, e: Event, id: Id)
    requires HubInvariant(w.hub) && IsMuted(w.hub.sessions, id) && !Removes(e, id)
    ensures IsMuted(StepWorld(writer, w, e).hub.sessions, id)
    ensures StreamOf(StepWorld(writer, w, e), id) == StreamOf(w, id)
  {
    hide HubInvariant, IsMuted, StepHub, StreamOf, DurableRequests, DurableDeltas, Emits, Record, StepStreams;
    StepKeepsMuted(writer, w.hub, e, id);
    MutedStreamStands(writer, w, e, id);
  }

  // Who earns a mute.

  /** How many payloads that say nothing this connection has sent since its session opened. */
  ghost function Malformed(writer: Writer, file: File, events: seq<Event>, id: Id): nat {
    if events == [] then 0
    else
      var front, last := events[..|events| - 1], events[|events| - 1];
      if id !in Run(writer, file, events).hub.sessions then 0
      else Malformed(writer, file, front, id) + if IsMalformed(Run(writer, file, front).hub, last, id) then 1 else 0
  }

  /** The event is a payload of this connection that does not decode, on a session already open. */
  predicate IsMalformed(h: HubState, e: Event, id: Id) {
    match e
    case Arrives(peer, payload, _, _) =>
      peer.id == id && id in h.sessions && DecodeInbound(payload, SessionMinor(h.sessions, id)).None?
    case _ => false
  }

  predicate Struck(sessions: Sessions, id: Id, malformed: nat) {
    if id in sessions then
      sessions[id].strikes == Min(malformed, 3) && (sessions[id].muted <==> malformed >= 3)
    else malformed == 0
  }

  /** The strikes of a session are the same in both; one that is new has none. */
  predicate SameStrikes(sessions: Sessions, after: Sessions, id: Id) {
    if id in sessions then
      id in after && after[id].strikes == sessions[id].strikes && after[id].muted == sessions[id].muted
    else id in after ==> after[id].strikes == 0 && !after[id].muted
  }

  lemma MarksKeepStrikes(sessions: Sessions, id: Id, operator: bool, subscribed: bool, now: millis)
    ensures SameStrikes(sessions, Charge(sessions, id, now).0, id)
    ensures SameStrikes(sessions, SetOperator(sessions, id, operator), id)
    ensures SameStrikes(sessions, SetSubscribed(sessions, id, subscribed), id)
    ensures id !in sessions ==>
      id !in Charge(sessions, id, now).0 && id !in SetOperator(sessions, id, operator)
  {
    hide TryConsume;
  }

  lemma GreetKeepsStrikes(sessions: Sessions, id: Id, major: i32, minor: i32, operator: bool, now: millis)
    ensures SameStrikes(sessions, Greet(sessions, id, major, minor, operator, now).0, id)
  {
    hide TryConsume;
  }

  lemma EnrollKeepsStrikes(h: HubState, peer: Peer, minor: i32)
    ensures SameStrikes(h.sessions, Enroll(h, peer, minor).0.sessions, peer.id)
  {
    hide SetOperator, SetSubscribed, StatusFrame;
    MarksKeepStrikes(h.sessions, peer.id, peer.operator, true, 0);
    var refreshed := SetOperator(h.sessions, peer.id, peer.operator);
    MarksKeepStrikes(refreshed, peer.id, peer.operator, true, 0);
    MarksKeepStrikes(refreshed, peer.id, peer.operator, false, 0);
  }

  /** A payload that says nothing is a strike, on a session there is; any other leaves the strikes alone. */
  lemma OwnStrikes(writer: Writer, h: HubState, peer: Peer, payload: seq<byte>, now: millis, host: Host)
    ensures var after := Handle(writer, h, peer, payload, now, host).0.sessions;
      if DecodeInbound(payload, SessionMinor(h.sessions, peer.id)).Some? then SameStrikes(h.sessions, after, peer.id)
      else if peer.id in h.sessions then peer.id in after && after[peer.id] == RecordMalformed(h.sessions[peer.id])
      else peer.id !in after
  {
    hide DecodeInbound, Perform, FinishMutation, StatusFrame, Greet, Charge, SetOperator, Enroll, EffectiveMinor,
      RecordMalformed, IsCompatible;
    MarksKeepStrikes(h.sessions, peer.id, peer.operator, true, now);
    var charged := Charge(h.sessions, peer.id, now).0;
    MarksKeepStrikes(charged, peer.id, peer.operator, true, now);
    EnrollKeepsStrikes(h.(sessions := charged), peer, SessionMinor(h.sessions, peer.id));
    match DecodeInbound(payload, SessionMinor(h.sessions, peer.id))
    case None =>
    case Some(m) =>
      match m
      case Hello(major, theirs) => GreetKeepsStrikes(h.sessions, peer.id, major, theirs, peer.operator, now);
      case _ =>
  }

  lemma {:induction false} RefreshStrikes(sessions: Sessions, levels: seq<Level>, id: Id, malformed: nat)
    requires Struck(sessions, id, malformed)
    ensures Struck(RefreshAll(sessions, levels).0, id, malformed)
  {
    if levels != [] {
      RefreshStrikes(sessions, levels[..|levels| - 1], id, malformed);
    }
  }

  lemma StepStrikes(writer: Writer, h: HubState, e: Event, id: Id, malformed: nat)
    requires Struck(h.sessions, id, malformed)
    ensures var after := StepHub(writer, h, e).sessions;
      Struck(after, id, if id in after then malformed + (if IsMalformed(h, e, id) then 1 else 0) else 0)
  {
    hide Handle, DecodeInbound, RefreshAll, Saved, ClearFrames, LoadedFrom, Adopted;
    match e
    case Arrives(peer, payload, now, host) =>
      if peer.id == id {
        OwnStrikes(writer, h, peer, payload, now, host);
      } else {
        OtherPayloadTouchesNothing(writer, h, peer, payload, now, host, id);
      }
    case Ticks(levels) => RefreshStrikes(h.sessions, levels, id, malformed);
    case _ =>
  }

  /**
    Who is muted, exactly, over every run: a connection that has sent three payloads nothing could be made
    of since its session opened, and no other.
   */
  lemma {:induction false} MutedIff(writer: Writer, file: File, events: seq<Event>, id: Id)
    ensures Struck(Run(writer, file, events).hub.sessions, id, Malformed(writer, file, events, id))
    ensures IsMuted(Run(writer, file, events).hub.sessions, id) <==> Malformed(writer, file, events, id) >= 3
  {
    hide StepHub, IsMalformed, Record, DurableRequests, DurableDeltas, Emits, StepStreams, OnDisk, PointMap;
    if events != [] {
      var front := events[..|events| - 1];
      MutedIff(writer, file, front, id);
      StepStrikes(writer, Run(writer, file, front).hub, events[|events| - 1], id, Malformed(writer, file, front, id));
    }
  }

  // Who has left.

  /** Without a session nothing is sent to a player, unless in answer to its own greeting. */
  lemma AbsentIsUnaddressed(writer: Writer, h: HubState, e: Event, id: Id)
    requires id !in h.sessions
    requires e.Arrives? && e.peer.id == id ==>
      var m := DecodeInbound(e.payload, 0); m.None? || !m.value.Hello?
    ensures id !in Addressed(writer, h, e) && id !in StepHub(writer, h, e).sessions
  {
    hide DecodeInbound, Perform, RefreshAll, StatusFrame, TryConsume, FinishMutation, Handle, Performs, Saved, ClearFrames,
      LoadedFrom, Adopted, ErrorCode, CompatiblePeers;
    match e
    case Arrives(peer, payload, now, host) =>
      if peer.id == id {
        StrangerIsSilent(writer, h, peer, payload, now, host);
      } else {
        OtherPayloadTouchesNothing(writer, h, peer, payload, now, host, id);
        BroadcastToSubscribers(writer, h, peer, payload, now, host);
      }
    case Ticks(levels) => RefreshKeepsAbsent(h.sessions, levels, id);
    case _ =>
  }

  lemma StrangerIsSilent(writer: Writer, h: HubState, peer: Peer, payload: seq<byte>, now: millis, host: Host)
    requires peer.id !in h.sessions
    requires var m := DecodeInbound(payload, 0); m.None? || !m.value.Hello?
    ensures var (after, action) := Handle(writer, h, peer, payload, now, host);
      action == Silent && peer.id !in after.sessions
  {
    hide DecodeInbound;
  }

  lemma {:induction false} RefreshKeepsAbsent(sessions: Sessions, levels: seq<Level>, id: Id)
    requires id !in sessions
    ensures id !in RefreshAll(sessions, levels).0
  {
    if levels != [] {
      RefreshKeepsAbsent(sessions, levels[..|levels| - 1], id);
    }
  }

  /** Leaving, unloading and every death of the server end the session. */
  lemma RemovedIsAbsent(writer: Writer, h: HubState, e: Event, id: Id)
    requires Removes(e, id)
    ensures id !in StepHub(writer, h, e).sessions
  {
    hide Handle, Saved, ClearFrames;
  }
}
