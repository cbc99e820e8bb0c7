/**
  What becomes of a connection's session, step by step: when a subscription begins and ends, and what each
  payload costs; and what holds before the first configuration.
 */
module Subscriptions {
  import opened Prelude
  import opened Identity
  import opened Model
  import opened Proto
  import opened Catalogs
  import opened Buckets
  import opened Players
  import opened Documents
  import opened Persistence
  import opened Mutations
  import opened Hub
  import opened HubLaws
  import opened Runs
  import opened Convergence
  import opened Control
  import opened Streams
  import opened Statuses

  // Subscriptions.

  /** What ends a subscription: a paid greeting, a third bad payload, a disable, leaving, unloading or dying. */
  predicate Unsubscribes(h: HubState, e: Event, id: Id) {
    match e
    case Arrives(peer, payload, now, _) =>
      peer.id == id && id in h.sessions &&
      var m := DecodeInbound(payload, SessionMinor(h.sessions, id));
      if m.None? then h.sessions[id].strikes >= 2 else m.value.Hello? && HasToken(h, id, now)
    case Configures(settings, _, _) => h.settings.enabled && !settings.enabled
    case Leaves(gone) => gone == id
    case Clears(_) => false
    case Ticks(_) => false
    case _ => true
  }

  /** What begins one: a payload of the connection that is answered with a snapshot. */
  predicate Snapshots(writer: Writer, h: HubState, e: Event, id: Id) {
    e.Arrives? && e.peer.id == id && SnapshotBase(Handle(writer, h, e.peer, e.payload, e.now, e.host).1).Some?
  }

  predicate Listens(sessions: Sessions, id: Id) {
    id in Subscribers(sessions)
  }

  lemma ListensIs(sessions: Sessions, id: Id)
    ensures Listens(sessions, id) <==> id in sessions && sessions[id].compatible && !sessions[id].muted && sessions[id].subscribed
  {
  }

  lemma ChargedListens(sessions: Sessions, id: Id, now: millis)
    ensures Listens(Charge(sessions, id, now).0, id) <==> Listens(sessions, id)
    ensures SessionCompatible(Charge(sessions, id, now).0, id) <==> SessionCompatible(sessions, id)
    ensures Listens(sessions, id) ==> SessionCompatible(sessions, id)
  {
  }

  lemma MarkedListens(sessions: Sessions, id: Id, operator: bool, subscribed: bool)
    ensures Listens(SetOperator(sessions, id, operator), id) <==> Listens(sessions, id)
    ensures Listens(SetSubscribed(sessions, id, subscribed), id) <==> SessionCompatible(sessions, id) && subscribed
    ensures SessionCompatible(SetOperator(sessions, id, operator), id) <==> SessionCompatible(sessions, id)
  {
  }

  lemma GreetedListens(sessions: Sessions, id: Id, major: i32, minor: i32, operator: bool, now: millis)
    ensures var after := Greet(sessions, id, major, minor, operator, now).0;
      Listens(after, id) <==> Listens(sessions, id) && Refill(sessions[id].control, now).tokens < TOKEN
  {
    hide Refill;
  }

  lemma SubscribedListens(h: HubState, peer: Peer, minor: i32, now: millis)
    requires HubInvariant(h)
    ensures var (after, action) := HandleSubscribe(h, peer, minor, now);
      Listens(after.sessions, peer.id) <==> SnapshotBase(action).Some? || Listens(h.sessions, peer.id)
  {
    hide StatusFrame, Charge, SetOperator, SetSubscribed, Listens, SessionCompatible;
    var id := peer.id;
    var charged := Charge(h.sessions, id, now).0;
    assert forall a, b, c, d :: StatusFrame(a, b, c, d).Status? by { StatusesAreStatuses(); }
    ListensIs(h.sessions, id);
    ChargedListens(h.sessions, id, now);
    MarkedListens(charged, id, peer.operator, true);
    MarkedListens(SetOperator(charged, id, peer.operator), id, peer.operator, true);
    MarkedListens(SetOperator(charged, id, peer.operator), id, peer.operator, false);
  }

  lemma DisabledListens(h: HubState, peer: Peer, op: Id, minor: i32, now: millis)
    ensures Listens(HandleDisabled(h, peer, op, minor, now).0.sessions, peer.id) <==> Listens(h.sessions, peer.id)
    ensures SnapshotBase(HandleDisabled(h, peer, op, minor, now).1).None?
  {
    hide StatusFrame, Charge, SetOperator, Listens;
    assert forall a, b, c, d :: StatusFrame(a, b, c, d).Status? by { StatusesAreStatuses(); }
    ChargedListens(h.sessions, peer.id, now);
    MarkedListens(Charge(h.sessions, peer.id, now).0, peer.id, peer.operator, true);
  }

  lemma HelloListens(h: HubState, peer: Peer, major: i32, minor: i32, now: millis)
    ensures var (after, action) := HandleHello(h, peer, major, minor, now);
      && (Listens(after.sessions, peer.id) <==> Listens(h.sessions, peer.id) && !HasToken(h, peer.id, now))
      && SnapshotBase(action).None?
  {
    hide StatusFrame, Greet, Listens, Refill;
    assert forall a, b, c, d :: StatusFrame(a, b, c, d).Status? by { StatusesAreStatuses(); }
    ListensIs(h.sessions, peer.id);
    GreetedListens(h.sessions, peer.id, major, minor, peer.operator, now);
  }

  lemma StruckListens(h: HubState, id: Id)
    requires HubInvariant(h)
    ensures Listens(h.sessions, id) ==> id in h.sessions
    ensures Listens(NoteMalformed(h, id).sessions, id) <==> Listens(h.sessions, id) && h.sessions[id].strikes < 2
  {
  }

  lemma OwnPayloadListens(writer: Writer, h: HubState, peer: Peer, payload: seq<byte>, now: millis, host: Host)
    requires HubInvariant(h)
    ensures var e := Arrives(peer, payload, now, host);
      Listens(Handle(writer, h, peer, payload, now, host).0.sessions, peer.id) <==>
        Snapshots(writer, h, e, peer.id) || (Listens(h.sessions, peer.id) && !Unsubscribes(h, e, peer.id))
  {
    hide HubInvariant, DecodeInbound, Perform, FinishMutation, HandleHello, HandleSubscribe, HandleDisabled, Listens,
      HasToken, SessionCompatible, ErrorCode;
    var id, minor := peer.id, SessionMinor(h.sessions, peer.id);
    assert forall a, b, c :: FinishMutation(a, b, c).Mutation? by { FinishIsMutation(); }
    ListensIs(h.sessions, id);
    match DecodeInbound(payload, minor)
    case None => StruckListens(h, id);
    case Some(m) =>
      match m
      case Hello(major, theirs) => HelloListens(h, peer, major, theirs, now);
      case Subscribe => SubscribedListens(h, peer, minor, now);
      case Mutate(r) => DisabledListens(h, peer, r.operationId, minor, now);
      case Lock(op, _, _, _) => DisabledListens(h, peer, op, minor, now);
  }

  lemma OtherPayloadListens(writer: Writer, h: HubState, peer: Peer, payload: seq<byte>, now: millis, host: Host, id: Id)
    requires id != peer.id
    ensures Listens(Handle(writer, h, peer, payload, now, host).0.sessions, id) <==> Listens(h.sessions, id)
  {
    hide Handle, Listens;
    OtherPayloadTouchesNothing(writer, h, peer, payload, now, host, id);
    ListensIs(h.sessions, id);
    ListensIs(Handle(writer, h, peer, payload, now, host).0.sessions, id);
  }

  lemma {:induction false} TickListens(sessions: Sessions, levels: seq<Level>, id: Id)
    ensures Listens(RefreshAll(sessions, levels).0, id) <==> Listens(sessions, id)
  {
    if levels != [] {
      TickListens(sessions, levels[..|levels| - 1], id);
    }
  }

  /**
    Subscriptions, exactly: after any event a connection is subscribed if and only if the event gave it a
    snapshot, or it was subscribed and the event was none of the things that end it.
   */
  lemma SubscribedIff(writer: Writer, h: HubState, e: Event, id: Id)
    requires HubInvariant(h)
    ensures id in Subscribers(StepHub(writer, h, e).sessions) <==>
      Snapshots(writer, h, e, id) || (id in Subscribers(h.sessions) && !Unsubscribes(h, e, id))
  {
    hide HubInvariant, Handle, Saved, ClearFrames, LoadedFrom, Adopted, RefreshAll, Subscribers, SessionCompatible, HasToken,
      DecodeInbound, Snapshots;
    ListensIs(h.sessions, id);
    ListensIs(StepHub(writer, h, e).sessions, id);
    SwitchedOn(h, id);
    match e
    case Arrives(peer, payload, now, host) =>
      if peer.id == id {
        OwnPayloadListens(writer, h, peer, payload, now, host);
      } else {
        OtherPayloadListens(writer, h, peer, payload, now, host, id);
        NotItsOwn(writer, h, e, id);
      }
    case Ticks(levels) =>
      NotItsOwn(writer, h, e, id);
      TickListens(h.sessions, levels, id);
    case _ => NotItsOwn(writer, h, e, id);
  }

  lemma NotItsOwn(writer: Writer, h: HubState, e: Event, id: Id)
    requires !e.Arrives? || e.peer.id != id
    ensures !Snapshots(writer, h, e, id)
  {
    hide Handle;
  }

  /** Only a hub with a service, and the feature on, has subscribers. */
  lemma SwitchedOn(h: HubState, id: Id)
    requires HubInvariant(h)
    ensures id in Subscribers(h.sessions) ==> h.settings.enabled && h.service.Some?
  {
  }

  // What a payload costs.

  /** What is charged to the control budget: a greeting, a subscription, and while off a change or a lock. */
  predicate Charges(h: HubState, id: Id, m: Inbound) {
    match m
    case Hello(_, _) => if id in h.sessions then !h.sessions[id].muted else |h.sessions| < 2048
    case Subscribe => SessionCompatible(h.sessions, id)
    case _ => SessionCompatible(h.sessions, id) && !h.settings.enabled
  }

  lemma HelloCharged(h: HubState, peer: Peer, major: i32, minor: i32, now: millis)
    ensures var before, after := ControlOf(h.sessions, peer.id, now),
        ControlOf(HandleHello(h, peer, major, minor, now).0.sessions, peer.id, now);
      after == if Charges(h, peer.id, Hello(major, minor)) then TryConsume(before, now).0 else before
  {
    hide StatusFrame, TryConsume, IsCompatible;
  }

  lemma SubscribeCharged(h: HubState, peer: Peer, minor: i32, now: millis)
    ensures var before, after := ControlOf(h.sessions, peer.id, now),
        ControlOf(HandleSubscribe(h, peer, minor, now).0.sessions, peer.id, now);
      after == if SessionCompatible(h.sessions, peer.id) then TryConsume(before, now).0 else before
  {
    hide StatusFrame, TryConsume, IsCompatible;
  }

  lemma ChargedWhileOff(h: HubState, peer: Peer, op: Id, minor: i32, now: millis)
    ensures SessionCompatible(h.sessions, peer.id) ==>
      ControlOf(HandleDisabled(h, peer, op, minor, now).0.sessions, peer.id, now) ==
        TryConsume(ControlOf(h.sessions, peer.id, now), now).0
  {
    hide StatusFrame, TryConsume, IsCompatible;
  }

  /** The control budget of the sender after a payload: one attempt less when it is charged, and otherwise as it was. */
  lemma ChargedIs(writer: Writer, h: HubState, peer: Peer, payload: seq<byte>, now: millis, host: Host)
    ensures var m := DecodeInbound(payload, SessionMinor(h.sessions, peer.id));
      var before, after := ControlOf(h.sessions, peer.id, now),
        ControlOf(Handle(writer, h, peer, payload, now, host).0.sessions, peer.id, now);
      after == if m.Some? && Charges(h, peer.id, m.value) then TryConsume(before, now).0 else before
  {
    hide DecodeInbound, Perform, FinishMutation, HandleHello, HandleSubscribe, HandleDisabled, TryConsume, IsCompatible,
      FullBucket;
    match DecodeInbound(payload, SessionMinor(h.sessions, peer.id))
    case None =>
    case Some(m) =>
      match m
      case Hello(major, theirs) => HelloCharged(h, peer, major, theirs, now);
      case Subscribe => SubscribeCharged(h, peer, SessionMinor(h.sessions, peer.id), now);
      case Mutate(r) => ChargedWhileOff(h, peer, r.operationId, SessionMinor(h.sessions, peer.id), now);
      case Lock(op, _, _, _) => ChargedWhileOff(h, peer, op, SessionMinor(h.sessions, peer.id), now);
  }

  // Before the first configuration.

  /** Until it is configured a server is off: no service, no world, the default limits, and the file as it was. */
  lemma {:induction false} BeforeConfiguration(writer: Writer, file: File, events: seq<Event>)
    requires forall k :: 0 <= k < |events| ==> !events[k].Configures?
    ensures var h := Run(writer, file, events).hub;
      && h.service.None? && h.file == file && h.pending == [] && !h.refreshStatus
      && h.settings == Settings(false, "", Limits(512, 64, 30), OwnerManaged)
  {
    hide OnDisk, PointMap, Record, DurableRequests, DurableDeltas, Emits, StepStreams, Handle, RefreshAll;
    if events != [] {
      var front, e := events[..|events| - 1], events[|events| - 1];
      BeforeConfiguration(writer, file, front);
      if e.Arrives? || e.DiesOnPayload? {
        Idle(writer, Run(writer, file, front).hub, e.peer, e.payload, e.now, e.host);
      }
    }
  }

  lemma Idle(writer: Writer, h: HubState, peer: Peer, payload: seq<byte>, now: millis, host: Host)
    requires h.service.None?
    ensures var after := Handle(writer, h, peer, payload, now, host).0; after == h.(sessions := after.sessions)
  {
    hide DecodeInbound, Perform, FinishMutation, Greet, Charge, StatusFrame, IsCompatible;
  }
}
