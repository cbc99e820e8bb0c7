/**
  What a peer is told of the feature: every status describes the hub as it then is, and a status is sent
  exactly to the peers it concerns - one that greets, one that asks while the feature is off, one whose
  permission moved, and everybody after a configuration that changed something.
 */
module Statuses {
  import opened Prelude
  import opened Identity
  import opened Model
  import opened Proto
  import opened Catalogs
  import opened Buckets
  import opened Players
  import opened Documents
  import opened Persistence
  import opened Mutations
  import opened MutationLaws
  import opened Hub
  import opened HubLaws
  import opened Runs
  import opened Convergence
  import opened Streams
  import opened Clients

  // What a status says.

  /** The revision of the catalog, and whether owners manage their own points; nothing of either before a load. */
  predicate OfCatalog(service: Option<ServiceState>, revision: i64, ownerManaged: bool) {
    match service
    case None => revision == 0 && !ownerManaged
    case Some(s) => revision == s.catalog.revision && (ownerManaged <==> s.access == OwnerManaged)
  }

  /** A limit as a status carries it: its low 32 bits. */
  predicate OfLimit(limit: nat, shown: i32) {
    (limit - shown) % 0x1_0000_0000 == 0
  }

  /** The status describes this hub to the connection it goes to. */
  predicate Describes(h: HubState, id: Id, supported: bool, frame: Outbound) {
    && frame.Status? && id in h.sessions
    && frame.major == 1 && frame.minor == SessionMinor(h.sessions, id)
    && (frame.supported <==> supported)
    && (frame.enabled <==> supported && h.settings.enabled)
    && (frame.operator <==> h.sessions[id].operator)
    && frame.worldId == h.settings.worldId
    && OfCatalog(h.service, frame.revision, frame.ownerManagementAllowed)
    && OfLimit(h.settings.limits.maxPerWorld, frame.maxWorld)
    && OfLimit(h.settings.limits.maxPerPlayer, frame.maxPlayer)
  }

  lemma FrameDescribes(h: HubState, id: Id, supported: bool)
    requires id in h.sessions
    ensures Describes(h, id, supported, StatusFrame(h, h.sessions[id].operator, SessionMinor(h.sessions, id), supported))
  {
  }

  /** The statuses among an answer's frames all describe the hub, as supporting exactly a compatible peer. */
  ghost predicate AllDescribe(h: HubState, id: Id, action: Action) {
    action.Reply? ==> forall k :: 0 <= k < |action.frames| && action.frames[k].Status? ==>
      Describes(h, id, SessionCompatible(h.sessions, id), action.frames[k])
  }

  lemma HelloDescribes(h: HubState, peer: Peer, major: i32, minor: i32, now: millis)
    ensures var (after, action) := HandleHello(h, peer, major, minor, now); AllDescribe(after, peer.id, action)
  {
    hide StatusFrame, Describes, TryConsume;
    var (sessions, negotiated) := Greet(h.sessions, peer.id, major, minor, peer.operator, now);
    if negotiated.Some? {
      FrameDescribes(h.(sessions := sessions), peer.id, SessionCompatible(sessions, peer.id));
    }
  }

  lemma OperatorMarked(sessions: Sessions, id: Id, operator: bool)
    requires id in sessions
    ensures var after := SetOperator(sessions, id, operator); id in after && after[id].operator == operator
  {
  }

  lemma SubscribedMarked(sessions: Sessions, id: Id, subscribed: bool)
    requires id in sessions
    ensures var after := SetSubscribed(sessions, id, subscribed); id in after && after[id].operator == sessions[id].operator
  {
  }

  lemma ChargedStays(sessions: Sessions, id: Id, now: millis)
    ensures Charge(sessions, id, now).0.Keys == sessions.Keys
  {
    hide TryConsume;
  }

  lemma SubscribeDescribes(h: HubState, peer: Peer, minor: i32, now: millis)
    requires minor == SessionMinor(h.sessions, peer.id)
    ensures var (after, action) := HandleSubscribe(h, peer, minor, now); AllDescribe(after, peer.id, action)
  {
    hide StatusFrame, Describes, Charge, SetOperator, SetSubscribed, EffectiveMinor, IsCompatible;
    var charged := Charge(h.sessions, peer.id, now).0;
    MarksKeepMinor(h.sessions, peer.id, peer.operator, true, now);
    ChargedStays(h.sessions, peer.id, now);
    MarksKeepMinor(charged, peer.id, peer.operator, true, now);
    var refreshed := SetOperator(charged, peer.id, peer.operator);
    MarksKeepMinor(refreshed, peer.id, peer.operator, false, now);
    if SessionCompatible(h.sessions, peer.id) && !h.settings.enabled {
      OperatorMarked(charged, peer.id, peer.operator);
      SubscribedMarked(refreshed, peer.id, false);
      FrameDescribes(h.(sessions := SetSubscribed(refreshed, peer.id, false)), peer.id, true);
    }
  }

  lemma DisabledDescribes(h: HubState, peer: Peer, op: Id, minor: i32, now: millis)
    requires minor == SessionMinor(h.sessions, peer.id) && SessionCompatible(h.sessions, peer.id)
    ensures var (after, action) := HandleDisabled(h, peer, op, minor, now); AllDescribe(after, peer.id, action)
  {
    hide StatusFrame, Describes, Charge, SetOperator, EffectiveMinor, IsCompatible;
    var charged := Charge(h.sessions, peer.id, now).0;
    MarksKeepMinor(h.sessions, peer.id, peer.operator, true, now);
    ChargedStays(h.sessions, peer.id, now);
    MarksKeepMinor(charged, peer.id, peer.operator, true, now);
    OperatorMarked(charged, peer.id, peer.operator);
    FrameDescribes(h.(sessions := SetOperator(charged, peer.id, peer.operator)), peer.id, true);
  }

  /** Every status a payload is answered with describes the hub as the payload left it. */
  lemma RepliesDescribe(writer: Writer, h: HubState, peer: Peer, payload: seq<byte>, now: millis, host: Host)
    ensures var (after, action) := Handle(writer, h, peer, payload, now, host); AllDescribe(after, peer.id, action)
  {
    hide DecodeInbound, Perform, FinishMutation, HandleHello, HandleSubscribe, HandleDisabled, Describes, EffectiveMinor,
      IsCompatible;
    var minor := SessionMinor(h.sessions, peer.id);
    assert forall a, b, c :: FinishMutation(a, b, c).Mutation? by { FinishIsMutation(); }
    match DecodeInbound(payload, minor)
    case None =>
    case Some(m) =>
      match m
      case Hello(major, theirs) => HelloDescribes(h, peer, major, theirs, now);
      case Subscribe => SubscribeDescribes(h, peer, minor, now);
      case Mutate(r) =>
        if SessionCompatible(h.sessions, peer.id) {
          DisabledDescribes(h, peer, r.operationId, minor, now);
        }
      case Lock(op, _, _, _) =>
        if SessionCompatible(h.sessions, peer.id) {
          DisabledDescribes(h, peer, op, minor, now);
        }
  }

  // Who is told.

  /** A greeting will be answered: the peer is known or there is room for it, it is not muted, and it can pay. */
  predicate WillAnswer(h: HubState, id: Id, now: millis) {
    if id in h.sessions then !h.sessions[id].muted && Refill(h.sessions[id].control, now).tokens >= TOKEN
    else |h.sessions| < 2048
  }

  /**
    A greeting, exactly: it is answered if and only if it can be, with one status and nothing else, and
    supports the peer exactly on this major and from minor 0, at the lower of the two minors.
   */
  lemma GreetedIsTold(writer: Writer, h: HubState, peer: Peer, payload: seq<byte>, now: millis, host: Host)
    requires var m := DecodeInbound(payload, SessionMinor(h.sessions, peer.id)); m.Some? && m.value.Hello?
    ensures var (after, action) := Handle(writer, h, peer, payload, now, host);
      var m := DecodeInbound(payload, SessionMinor(h.sessions, peer.id)).value;
      var supported := m.major == 1 && m.minor >= 0;
      if !WillAnswer(h, peer.id, now) then action == Silent
      else
        && action.Reply? && |action.frames| == 1 && Describes(after, peer.id, supported, action.frames[0])
        && (SessionCompatible(after.sessions, peer.id) <==> supported)
        && SessionMinor(after.sessions, peer.id) == (if supported then Min(m.minor, 3) else 0)
        && after.sessions[peer.id].operator == peer.operator && peer.id !in Subscribers(after.sessions)
  {
    hide DecodeInbound, Describes, StatusFrame, Refill;
    RepliesDescribe(writer, h, peer, payload, now, host);
    var m := DecodeInbound(payload, SessionMinor(h.sessions, peer.id)).value;
    NewIsPaid(now);
    assert forall a, b, c, d :: StatusFrame(a, b, c, d).Status? by { StatusesAreStatuses(); }
    if Greet(h.sessions, peer.id, m.major, m.minor, peer.operator, now).1.Some? {
      GreetingSettles(h.sessions, peer.id, m.major, m.minor, peer.operator, now);
    }
  }

  lemma NewIsPaid(now: millis)
    ensures Refill(NewSession(now).control, now).tokens >= TOKEN
  {
  }

  predicate DistinctLevels(levels: seq<Level>) {
    forall i, j :: 0 <= i < j < |levels| ==> levels[i].id != levels[j].id
  }

  /** The permission the host reports for this player, if it reports one. */
  ghost predicate Reports(levels: seq<Level>, id: Id, operator: bool) {
    Level(id, operator) in levels
  }

  lemma RefreshMembers(sessions: Sessions, levels: seq<Level>)
    ensures RefreshAll(sessions, levels).0.Keys == sessions.Keys
  {
  }

  lemma {:induction false} RefreshIgnores(sessions: Sessions, levels: seq<Level>, id: Id)
    requires forall k :: 0 <= k < |levels| ==> levels[k].id != id
    ensures var (after, moved) := RefreshAll(sessions, levels);
      id !in moved && (id in after <==> id in sessions) && (id in after ==> after[id] == sessions[id])
  {
    if levels != [] {
      RefreshIgnores(sessions, levels[..|levels| - 1], id);
    }
  }

  /** A round of reported permissions: it changes, and reports as moved, exactly the compatible peers it differs for. */
  lemma {:induction false} RefreshExact(sessions: Sessions, levels: seq<Level>, id: Id)
    requires DistinctLevels(levels)
    ensures var (after, moved) := RefreshAll(sessions, levels);
      && (id in moved <==> SessionCompatible(sessions, id) && Reports(levels, id, !sessions[id].operator))
      && (id in after <==> id in sessions)
      && (id in after ==> after[id] == sessions[id].(operator := (sessions[id].operator != (id in moved))))
  {
    if levels != [] {
      var n := |levels| - 1;
      assert levels == levels[..n] + [levels[n]];
      if levels[n].id == id {
        RefreshIgnores(sessions, levels[..n], id);
      } else {
        RefreshExact(sessions, levels[..n], id);
      }
    }
  }

  /**
    A tick, exactly: a status goes to every compatible peer after a configuration that changed something,
    and otherwise to exactly those whose reported permission is not the one their session has; it
    describes the hub as the tick leaves it.
   */
  lemma TickTells(h: HubState, levels: seq<Level>, id: Id)
    requires DistinctLevels(levels)
    ensures var (after, flush) := Tick(h, levels);
      && (id in flush.statuses <==>
           SessionCompatible(h.sessions, id) && (h.refreshStatus || Reports(levels, id, !h.sessions[id].operator)))
      && (id in flush.statuses ==> Describes(after, id, h.service.Some?, flush.statuses[id]))
      && (SessionCompatible(h.sessions, id) ==>
           && id in after.sessions
           && (Reports(levels, id, true) ==> after.sessions[id].operator)
           && (Reports(levels, id, false) ==> !after.sessions[id].operator))
      && !after.refreshStatus && after.pending == [] && flush.deltas == h.pending
      && after.service == h.service && after.settings == h.settings
  {
    hide RefreshAll, StatusFrame, Describes, Subscribers;
    RefreshExact(h.sessions, levels, id);
    var (after, flush) := Tick(h, levels);
    OneReport(levels, id);
    if id in after.sessions {
      FrameDescribes(after, id, h.service.Some?);
    }
  }

  lemma OneReport(levels: seq<Level>, id: Id)
    requires DistinctLevels(levels)
    ensures !Reports(levels, id, true) || !Reports(levels, id, false)
  {
  }

  /** A configuration asks for a round of statuses exactly when it changed a setting, or brought the service up. */
  lemma ConfigurationIsTold(writer: Writer, h: HubState, settings: Settings, movable: bool, writable: bool)
    ensures var after := Configure(writer, h, settings, movable, writable);
      (after.refreshStatus <==> h.refreshStatus || (after.service.Some? && (h.service.None? || h.settings != settings)))
  {
    hide LoadedFrom, Adopted, ClearSubscriptions;
  }

  // What every other payload is answered with.

  predicate HasToken(h: HubState, id: Id, now: millis) {
    id in h.sessions && Refill(h.sessions[id].control, now).tokens >= TOKEN
  }

  lemma PaidIs(h: HubState, id: Id, now: millis)
    ensures Charge(h.sessions, id, now).1 <==> HasToken(h, id, now)
  {
  }

  /** Before a peer is compatible nothing but a greeting is answered, and nothing it sends moves the service. */
  lemma StrangerIsIgnored(writer: Writer, h: HubState, peer: Peer, payload: seq<byte>, now: millis, host: Host)
    requires !SessionCompatible(h.sessions, peer.id)
    requires var m := DecodeInbound(payload, SessionMinor(h.sessions, peer.id)); m.None? || !m.value.Hello?
    ensures var (after, action) := Handle(writer, h, peer, payload, now, host);
      action == Silent && after.service == h.service && after.file == h.file
  {
    hide DecodeInbound;
  }

  /**
    A subscription, exactly: silence unless it is paid for; while the feature is off a status and no
    subscription; otherwise the whole catalog, with the sender's own permission, and a subscription.
   */
  lemma SubscriptionIsTold(writer: Writer, h: HubState, peer: Peer, payload: seq<byte>, now: millis, host: Host)
    requires HubInvariant(h) && SessionCompatible(h.sessions, peer.id)
    requires DecodeInbound(payload, SessionMinor(h.sessions, peer.id)) == Some(Inbound.Subscribe)
    ensures var (after, action) := Handle(writer, h, peer, payload, now, host);
      if !HasToken(h, peer.id, now) then action == Silent
      else if !h.settings.enabled then
        && action.Reply? && |action.frames| == 1 && Describes(after, peer.id, true, action.frames[0])
        && peer.id !in Subscribers(after.sessions)
      else
        && h.service.Some? && peer.id in Subscribers(after.sessions)
        && action == Reply([Snapshot(h.service.value.catalog.revision, peer.operator, h.service.value.catalog.points)],
                           SessionMinor(h.sessions, peer.id))
  {
    hide DecodeInbound, Describes, StatusFrame, Charge, SetOperator, SetSubscribed, SessionsInvariant, Subscribers,
      SessionCompatible, HasToken;
    RepliesDescribe(writer, h, peer, payload, now, host);
    PayloadSubscribes(writer, h, peer, payload, now, host);
    PaidIs(h, peer.id, now);
    assert forall a, b, c, d :: StatusFrame(a, b, c, d).Status? by { StatusesAreStatuses(); }
    var charged := Charge(h.sessions, peer.id, now).0;
    MarksKeepMinor(h.sessions, peer.id, peer.operator, true, now);
    MarksKeepMinor(charged, peer.id, peer.operator, true, now);
    MarksKeepMinor(SetOperator(charged, peer.id, peer.operator), peer.id, peer.operator, false, now);
    Unmarked(SetOperator(charged, peer.id, peer.operator), peer.id);
  }

  lemma Unmarked(sessions: Sessions, id: Id)
    ensures id !in Subscribers(SetSubscribed(sessions, id, false))
  {
  }

  /** A change or a lock while the feature is off: code 10 and a status when it is paid for, code 7 when it is not. */
  lemma DisabledIsTold(writer: Writer, h: HubState, peer: Peer, payload: seq<byte>, now: millis, host: Host)
    requires SessionCompatible(h.sessions, peer.id) && !h.settings.enabled
    requires var m := DecodeInbound(payload, SessionMinor(h.sessions, peer.id)); m.Some? && OperationOf(m.value).Some?
    ensures var (after, action) := Handle(writer, h, peer, payload, now, host);
      var op := OperationOf(DecodeInbound(payload, SessionMinor(h.sessions, peer.id)).value).value;
      && action.Reply?
      && if HasToken(h, peer.id, now) then
           && |action.frames| == 2 && action.frames[0] == Outcome(op, 1, 10)
           && Describes(after, peer.id, true, action.frames[1])
         else action.frames == [Outcome(op, 1, 7)]
  {
    hide DecodeInbound, Describes, StatusFrame, Charge, SetOperator, SessionCompatible, HasToken;
    RepliesDescribe(writer, h, peer, payload, now, host);
    PaidIs(h, peer.id, now);
    assert forall a, b, c, d :: StatusFrame(a, b, c, d).Status? by { StatusesAreStatuses(); }
    var charged := Charge(h.sessions, peer.id, now).0;
    MarksKeepMinor(h.sessions, peer.id, peer.operator, true, now);
    MarksKeepMinor(charged, peer.id, peer.operator, true, now);
  }

  /** A lock while the feature is on is refused as invalid: the request was retired with what it locked. */
  lemma LockIsTold(writer: Writer, h: HubState, peer: Peer, payload: seq<byte>, now: millis, host: Host)
    requires SessionCompatible(h.sessions, peer.id) && h.settings.enabled
    requires var m := DecodeInbound(payload, SessionMinor(h.sessions, peer.id)); m.Some? && m.value.Lock?
    ensures var op := DecodeInbound(payload, SessionMinor(h.sessions, peer.id)).value.operationId;
      Handle(writer, h, peer, payload, now, host) ==
        (h, Reply([Outcome(op, 1, 1)], SessionMinor(h.sessions, peer.id)))
  {
    hide DecodeInbound;
  }

  // Which settings the service goes by.

  /**
    The limits and the access policy the service goes by are the settings of the moment it was brought up
    or last emptied; a later configuration changes what statuses say and not what the service does.
   */
  lemma SettingsServed(writer: Writer, h: HubState, settings: Settings, movable: bool, writable: bool)
    ensures var after := Configure(writer, h, settings, movable, writable);
      && (h.service.Some? ==> after.service == h.service)
      && (h.service.None? && after.service.Some? ==>
           after.service.value.limits == settings.limits && after.service.value.access == settings.access)
      && after.settings == (if after.service.Some? then settings else settings.(enabled := false))
    ensures var after := Clear(writer, h, writable).0;
      && after.settings == h.settings && after.sessions == h.sessions
      && (Empties(writer, h, writable) ==>
           && after.service.Some? && after.service.value.limits == h.settings.limits
           && after.service.value.access == h.settings.access)
      && (!Empties(writer, h, writable) ==> after.service == h.service && after.pending == h.pending)
  {
    hide LoadedFrom, Adopted, ClearSubscriptions, Saved, ClearFrames;
  }

  /**
    What the operator is told of a clear: how many points it removed, none when there were none, and a
    failure exactly when there were some and they are all still there, in memory and in the file.
   */
  lemma ClearTells(writer: Writer, h: HubState, writable: bool)
    ensures var (after, told) := Clear(writer, h, writable);
      var before := if h.service.Some? then h.service.value.catalog.points else [];
      && (told == Some(0) <==> before == [])
      && (before != [] && Wipes(h, writable) ==> told == Some(|before|) && after.service.value.catalog.points == [])
      && (before != [] && !Wipes(h, writable) ==> told == None)
      && (!Wipes(h, writable) ==> after == h)
  {
    hide ClearFrames, Content, CanSave;
    WipesIs(writer, h, writable);
  }
}
