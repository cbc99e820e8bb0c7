/** What every payload, command and tick keeps of the hub, its sessions and the catalog file. */
module HubLaws {
  import opened Prelude
  import opened Identity
  import opened Model
  import opened Proto
  import opened Catalogs
  import opened Buckets
  import opened Players
  import opened Json
  import opened Documents
  import opened DocumentSize
  import opened Persistence
  import opened Mutations
  import opened MutationLaws
  import opened Hub

  // The invariants.

  /** Muted is exactly three strikes; a compatible peer speaks a minor this build knows. */
  ghost predicate SessionInvariant(s: SessionState) {
    && s.strikes <= MAX_MALFORMED_STRIKES
    && (s.muted <==> s.strikes == MAX_MALFORMED_STRIKES)
    && (s.compatible ==> 0 <= s.minor <= PROTO_MINOR)
    && s.control.Valid()
  }

  ghost predicate SessionsInvariant(sessions: Sessions) {
    |sessions| <= MAX_TRACKED_SESSIONS && forall id :: id in sessions ==> SessionInvariant(sessions[id])
  }

  /** The feature is on only with a service; while it is off nobody is subscribed. */
  ghost predicate SwitchInvariant(h: HubState) {
    && (h.settings.enabled ==> h.service.Some?)
    && (!h.settings.enabled ==> NoneSubscribed(h.sessions))
  }

  ghost predicate NoneSubscribed(sessions: Sessions) {
    forall id :: id in sessions ==> !sessions[id].subscribed
  }

  /** The catalog a restart would load from this file. */
  ghost function OnDisk(writer: Writer, file: File): Catalog {
    if file.None? then EMPTY
    else
      match ReadDocument(writer.floats, writer.owner, file.value)
      case Usable(_, c) => c
      case _ => EMPTY
  }

  ghost predicate GoodFile(writer: Writer, file: File) {
    Holds(writer, file, OnDisk(writer, file)) && SmallIcons(OnDisk(writer, file)) && SoundCatalog(OnDisk(writer, file))
  }

  /** Memory and disk agree: whatever the service holds is what a restart would load. */
  ghost predicate DurableInvariant(writer: Writer, h: HubState) {
    && GoodFile(writer, h.file)
    && (h.service.Some? ==>
         ServiceInvariant(h.service.value) && h.service.value.catalog == OnDisk(writer, h.file))
  }

  lemma HoldsIsOnDisk(writer: Writer, file: File, c: Catalog)
    requires Holds(writer, file, c)
    ensures OnDisk(writer, file) == c
  {
    hide ReadDocument;
  }

  // Sessions.

  lemma ChargeKeeps(s: SessionState, now: millis)
    requires SessionInvariant(s)
    ensures SessionInvariant(ChargeControl(s, now).0)
    ensures ChargeControl(s, now).0 == s.(control := ChargeControl(s, now).0.control)
  {
    hide TryConsume;
    ConsumeConserves(s.control, now);
  }

  lemma UpdateKeeps(sessions: Sessions, id: Id, s: SessionState)
    requires SessionsInvariant(sessions) && id in sessions && SessionInvariant(s)
    ensures SessionsInvariant(sessions[id := s])
  {
    assert sessions[id := s].Keys == sessions.Keys;
  }

  lemma GreetKeeps(sessions: Sessions, id: Id, major: i32, minor: i32, operator: bool, now: millis)
    requires SessionsInvariant(sessions)
    ensures var (after, n) := Greet(sessions, id, major, minor, operator, now);
      && SessionsInvariant(after)
      && (forall k :: k in after && k in sessions && k != id ==> after[k] == sessions[k])
      && sessions.Keys <= after.Keys <= sessions.Keys + {id}
      && (id in after && id !in sessions ==> !after[id].subscribed)
      && (id in sessions && after[id].subscribed ==> sessions[id].subscribed)
      && (n.Some? ==> id in after && !after[id].muted && n.value == EffectiveMinor(after[id]))
      && (id in sessions && sessions[id].muted ==> n.None?)
  {
    hide ChargeControl, SessionInvariant;
    match Ensure(sessions, id, now)
    case None =>
    case Some(ensured) =>
      assert SessionInvariant(NewSession(now)) by { NewSessionKeeps(now); }
      assert id !in sessions ==> ensured.Keys == sessions.Keys + {id};
      assert SessionsInvariant(ensured);
      if !ensured[id].muted {
        ChargeKeeps(ensured[id], now);
        var (charged, ok) := ChargeControl(ensured[id], now);
        UpdateKeeps(ensured, id, charged);
        AcceptKeeps(charged, major, minor, operator);
        UpdateKeeps(ensured, id, AcceptHello(charged, major, minor, operator));
      }
  }

  /**
    What an answered greeting settles: the lower of the two minors on this build's major, and
    otherwise a peer that stays incompatible and is told minor zero; never a subscription.
   */
  lemma GreetingSettles(sessions: Sessions, id: Id, major: i32, minor: i32, operator: bool, now: millis)
    requires Greet(sessions, id, major, minor, operator, now).1.Some?
    ensures var (after, n) := Greet(sessions, id, major, minor, operator, now);
      && (SessionCompatible(after, id) <==> major == PROTO_MAJOR && minor >= 0)
      && n.value == (if SessionCompatible(after, id) then Min(minor, PROTO_MINOR) else 0)
      && id in after && !IsSubscribed(after[id]) && after[id].operator == operator
  {
    hide TryConsume;
  }

  lemma NewSessionKeeps(now: millis)
    ensures SessionInvariant(NewSession(now)) && !NewSession(now).subscribed && !NewSession(now).muted
  {
  }

  lemma AcceptKeeps(s: SessionState, major: i32, minor: i32, operator: bool)
    requires SessionInvariant(s)
    ensures SessionInvariant(AcceptHello(s, major, minor, operator))
  {
  }

  lemma ChargeSessionKeeps(sessions: Sessions, id: Id, now: millis)
    requires SessionsInvariant(sessions) && id in sessions
    ensures var after := Charge(sessions, id, now).0;
      && SessionsInvariant(after) && after.Keys == sessions.Keys
      && after == sessions[id := sessions[id].(control := after[id].control)]
  {
    hide ChargeControl, SessionInvariant;
    ChargeKeeps(sessions[id], now);
    UpdateKeeps(sessions, id, ChargeControl(sessions[id], now).0);
  }

  lemma MarkKeeps(sessions: Sessions, id: Id, operator: bool, subscribed: bool)
    requires SessionsInvariant(sessions)
    ensures SessionsInvariant(SetOperator(sessions, id, operator)) && SessionsInvariant(SetSubscribed(sessions, id, subscribed))
    ensures SetOperator(sessions, id, operator).Keys == sessions.Keys == SetSubscribed(sessions, id, subscribed).Keys
  {
    if id in sessions {
      UpdateKeeps(sessions, id, sessions[id].(operator := operator));
      UpdateKeeps(sessions, id, sessions[id].(subscribed := subscribed));
    }
  }

  lemma MalformedKeeps(h: HubState, id: Id)
    requires SessionsInvariant(h.sessions) && SwitchInvariant(h)
    ensures SessionsInvariant(NoteMalformed(h, id).sessions) && SwitchInvariant(NoteMalformed(h, id))
  {
    if id in h.sessions {
      UpdateKeeps(h.sessions, id, RecordMalformed(h.sessions[id]));
    }
  }

  ghost predicate HubInvariant(h: HubState) {
    SessionsInvariant(h.sessions) && SwitchInvariant(h)
  }

  lemma HelloKeeps(h: HubState, peer: Peer, major: i32, minor: i32, now: millis)
    requires HubInvariant(h)
    ensures HubInvariant(HandleHello(h, peer, major, minor, now).0)
  {
    hide Greet, StatusFrame;
    GreetKeeps(h.sessions, peer.id, major, minor, peer.operator, now);
  }

  lemma MarksSubscribeNone(sessions: Sessions, id: Id, operator: bool)
    requires NoneSubscribed(sessions)
    ensures NoneSubscribed(SetOperator(sessions, id, operator)) && NoneSubscribed(SetSubscribed(sessions, id, false))
  {
  }

  lemma EnrollKeeps(h: HubState, peer: Peer, minor: i32)
    requires HubInvariant(h)
    ensures HubInvariant(Enroll(h, peer, minor).0)
  {
    hide StatusFrame, SessionsInvariant, SetOperator, SetSubscribed, NoneSubscribed;
    MarkKeeps(h.sessions, peer.id, peer.operator, false);
    var refreshed := SetOperator(h.sessions, peer.id, peer.operator);
    MarkKeeps(refreshed, peer.id, peer.operator, false);
    MarkKeeps(refreshed, peer.id, peer.operator, true);
    if !h.settings.enabled {
      MarksSubscribeNone(h.sessions, peer.id, peer.operator);
      MarksSubscribeNone(refreshed, peer.id, peer.operator);
    }
  }

  lemma SubscribeKeeps(h: HubState, peer: Peer, minor: i32, now: millis)
    requires HubInvariant(h)
    ensures HubInvariant(HandleSubscribe(h, peer, minor, now).0)
  {
    hide Charge, Enroll, SessionInvariant;
    if SessionCompatible(h.sessions, peer.id) {
      ChargeSessionKeeps(h.sessions, peer.id, now);
      EnrollKeeps(h.(sessions := Charge(h.sessions, peer.id, now).0), peer, minor);
    }
  }

  lemma DisabledKeeps(h: HubState, peer: Peer, op: Id, minor: i32, now: millis)
    requires HubInvariant(h) && SessionCompatible(h.sessions, peer.id) && !h.settings.enabled
    ensures HubInvariant(HandleDisabled(h, peer, op, minor, now).0)
    ensures HandleDisabled(h, peer, op, minor, now).0 == h.(sessions := HandleDisabled(h, peer, op, minor, now).0.sessions)
  {
    hide Charge, StatusFrame, SessionInvariant;
    ChargeSessionKeeps(h.sessions, peer.id, now);
    var sessions := Charge(h.sessions, peer.id, now).0;
    MarkKeeps(sessions, peer.id, peer.operator, false);
  }

  /** Sessions and switch survive every payload, well formed or not. */
  lemma HandleKeepsHub(writer: Writer, h: HubState, peer: Peer, payload: seq<byte>, now: millis, host: Host)
    requires HubInvariant(h)
    ensures HubInvariant(Handle(writer, h, peer, payload, now, host).0)
  {
    hide DecodeInbound, HandleHello, HandleSubscribe, HandleDisabled, NoteMalformed, Perform, FinishMutation,
      SessionsInvariant;
    var minor := SessionMinor(h.sessions, peer.id);
    match DecodeInbound(payload, minor)
    case None => MalformedKeeps(h, peer.id);
    case Some(m) =>
      match m
      case Hello(major, theirs) => HelloKeeps(h, peer, major, theirs, now);
      case Subscribe => SubscribeKeeps(h, peer, minor, now);
      case Mutate(r) =>
        if SessionCompatible(h.sessions, peer.id) && !h.settings.enabled {
          DisabledKeeps(h, peer, r.operationId, minor, now);
        }
      case Lock(op, _, _, _) =>
        if SessionCompatible(h.sessions, peer.id) && !h.settings.enabled {
          DisabledKeeps(h, peer, op, minor, now);
        }
  }

  lemma ConfigureKeepsHub(writer: Writer, h: HubState, settings: Settings, movable: bool, writable: bool)
    requires HubInvariant(h)
    ensures HubInvariant(Configure(writer, h, settings, movable, writable))
  {
    hide LoadedFrom, Adopted, SessionInvariant;
    assert ClearSubscriptions(h.sessions).Keys == h.sessions.Keys;
    forall id | id in h.sessions
      ensures SessionInvariant(h.sessions[id].(subscribed := false))
    {
      UnsubscribeKeeps(h.sessions[id]);
    }
  }

  lemma UnsubscribeKeeps(s: SessionState)
    requires SessionInvariant(s)
    ensures SessionInvariant(s.(subscribed := false))
  {
  }

  lemma {:induction false} RefreshKeeps(sessions: Sessions, levels: seq<Level>)
    requires SessionsInvariant(sessions)
    ensures var after := RefreshAll(sessions, levels).0;
      && SessionsInvariant(after) && after.Keys == sessions.Keys
      && forall id :: id in sessions ==> after[id] == sessions[id].(operator := after[id].operator)
  {
    if levels != [] {
      var front, last := levels[..|levels| - 1], levels[|levels| - 1];
      RefreshKeeps(sessions, front);
      var before := RefreshAll(sessions, front).0;
      hide SessionsInvariant;
      if last.id in before {
        OperatorKeeps(before, last.id, last.operator);
      }
    }
  }

  lemma OperatorKeeps(sessions: Sessions, id: Id, operator: bool)
    requires SessionsInvariant(sessions) && id in sessions
    ensures SessionsInvariant(sessions[id := sessions[id].(operator := operator)])
  {
    UpdateKeeps(sessions, id, sessions[id].(operator := operator));
  }

  lemma TickKeepsHub(h: HubState, levels: seq<Level>)
    requires HubInvariant(h)
    ensures HubInvariant(Tick(h, levels).0)
  {
    hide RefreshAll, SessionInvariant;
    RefreshKeeps(h.sessions, levels);
  }

  lemma LeaveKeepsHub(h: HubState, id: Id)
    requires HubInvariant(h)
    ensures HubInvariant(Leave(h, id)) && HubInvariant(Unload(h))
  {
    hide SessionInvariant;
    var after := h.sessions - {id};
    assert after.Keys == h.sessions.Keys - {id};
    assert |after| == |after.Keys| <= |h.sessions.Keys|;
  }

  // Silence and answers.

  /** A muted peer gets no reply and no broadcast, and stays muted, whatever it sends. */
  lemma MutedIsSilent(writer: Writer, h: HubState, peer: Peer, payload: seq<byte>, now: millis, host: Host)
    requires HubInvariant(h) && peer.id in h.sessions && h.sessions[peer.id].muted
    ensures var (after, action) := Handle(writer, h, peer, payload, now, host);
      && action == Silent && peer.id !in Subscribers(after.sessions)
      && peer.id in after.sessions && after.sessions[peer.id].muted
      && after.service == h.service && after.file == h.file
  {
    hide DecodeInbound, Greet, Perform, SessionInvariant;
    var minor := SessionMinor(h.sessions, peer.id);
    var m := DecodeInbound(payload, minor);
    if m.Some? && m.value.Hello? {
      GreetKeeps(h.sessions, peer.id, m.value.major, m.value.minor, peer.operator, now);
      MutedGreet(h.sessions, peer.id, m.value.major, m.value.minor, peer.operator, now);
    } else if m.None? {
      assert RecordMalformed(h.sessions[peer.id]).muted by { StrikesStay(h.sessions[peer.id]); }
    }
  }

  lemma StrikesStay(s: SessionState)
    requires SessionInvariant(s)
    ensures s.muted ==> RecordMalformed(s).muted
    ensures RecordMalformed(s).muted <==> s.strikes + 1 >= MAX_MALFORMED_STRIKES
  {
  }

  lemma MutedGreet(sessions: Sessions, id: Id, major: i32, minor: i32, operator: bool, now: millis)
    requires id in sessions && sessions[id].muted
    ensures Greet(sessions, id, major, minor, operator, now) == (sessions, None)
  {
  }

  /** The outcomes among an action's frames for the peer that sent the payload. */
  function OutcomesOf(action: Action): seq<Outbound> {
    match action
    case Silent => []
    case Reply(frames, _) => Outcomes(frames)
    case Mutation(outcome, _, _, _) => [outcome]
  }

  function Outcomes(frames: seq<Outbound>): seq<Outbound> {
    if frames == [] then []
    else if frames[0].Outcome? then [frames[0]] + Outcomes(frames[1..])
    else Outcomes(frames[1..])
  }

  function OperationOf(m: Inbound): Option<Id> {
    match m
    case Mutate(r) => Some(r.operationId)
    case Lock(op, _, _, _) => Some(op)
    case _ => None
  }

  lemma DisabledAnswers(h: HubState, peer: Peer, op: Id, minor: i32, now: millis)
    ensures var outcomes := OutcomesOf(HandleDisabled(h, peer, op, minor, now).1);
      |outcomes| == 1 && outcomes[0].operationId == op
  {
    hide Charge, StatusFrame;
    var (sessions, ok) := Charge(h.sessions, peer.id, now);
    var after := h.(sessions := SetOperator(sessions, peer.id, peer.operator));
    var status := StatusFrame(after, peer.operator, minor, true);
    assert status.Status? by { StatusIsStatus(after, peer.operator, minor); }
    assert Outcomes([status]) == [] by { assert [status][1..] == []; }
    var first := Outcome(op, STATUS_REJECTED, ERROR_DISABLED);
    assert [first, status][1..] == [status];
    var only := Outcome(op, STATUS_REJECTED, ERROR_RATE_LIMITED);
    assert [only][1..] == [];
  }

  lemma StatusIsStatus(h: HubState, operator: bool, minor: i32)
    ensures StatusFrame(h, operator, minor, true).Status?
  {
  }

  ghost predicate OneOutcome(action: Action, op: Id) {
    var outcomes := OutcomesOf(action);
    |outcomes| == 1 && outcomes[0].Outcome? && outcomes[0].operationId == op
  }

  lemma DisabledOutcome(h: HubState, peer: Peer, op: Id, minor: i32, now: millis)
    ensures OneOutcome(HandleDisabled(h, peer, op, minor, now).1, op)
  {
    hide HandleDisabled;
    DisabledAnswers(h, peer, op, minor, now);
    DisabledOutcomes(h, peer, op, minor, now);
  }

  lemma MutationOutcome(writer: Writer, h: HubState, peer: Peer, r: Request, minor: i32, now: millis, host: Host)
    requires HubInvariant(h) && DurableInvariant(writer, h) && SessionCompatible(h.sessions, peer.id) && h.settings.enabled
    ensures OneOutcome(HandleMutation(writer, h, peer, r, minor, now, host).1, r.operationId)
  {
    hide Perform, GoodFile, ErrorCode, SoundCatalog, SmallIcons, ValidPlayers, AllTruthful, SessionsInvariant, OnDisk;
    MutateCases(writer, h.service.value, h.file, ActorOf(peer), r, host);
  }

  lemma LockOutcome(h: HubState, peer: Peer, op: Id, minor: i32, now: millis)
    requires SessionCompatible(h.sessions, peer.id) && h.settings.enabled
    ensures OneOutcome(HandleLock(h, peer, op, minor, now).1, op)
  {
    var only := Outcome(op, STATUS_REJECTED, ERROR_INVALID_REQUEST);
    assert [only][1..] == [];
    assert Outcomes([only]) == [only];
  }

  /** Every mutation or lock from a compatible peer gets exactly one outcome, under its own id. */
  lemma ExactlyOneOutcome(writer: Writer, h: HubState, peer: Peer, payload: seq<byte>, now: millis, host: Host)
    requires HubInvariant(h) && DurableInvariant(writer, h) && SessionCompatible(h.sessions, peer.id)
    requires var m := DecodeInbound(payload, SessionMinor(h.sessions, peer.id)); m.Some? && OperationOf(m.value).Some?
    ensures var m := DecodeInbound(payload, SessionMinor(h.sessions, peer.id)).value;
      OneOutcome(Handle(writer, h, peer, payload, now, host).1, OperationOf(m).value)
  {
    hide DecodeInbound, HandleDisabled, Perform, FinishMutation, OneOutcome, DurableInvariant, HubInvariant;
    var minor := SessionMinor(h.sessions, peer.id);
    var m := DecodeInbound(payload, minor).value;
    if !h.settings.enabled {
      DisabledOutcome(h, peer, OperationOf(m).value, minor, now);
    } else if m.Mutate? {
      MutationOutcome(writer, h, peer, m.request, minor, now, host);
    } else {
      LockOutcome(h, peer, OperationOf(m).value, minor, now);
    }
  }

  lemma DisabledOutcomes(h: HubState, peer: Peer, op: Id, minor: i32, now: millis)
    ensures forall o :: o in OutcomesOf(HandleDisabled(h, peer, op, minor, now).1) ==> o.Outcome?
  {
    hide Charge, StatusFrame;
    OutcomesAreOutcomes(HandleDisabled(h, peer, op, minor, now).1.frames);
  }

  lemma {:induction false} OutcomesAreOutcomes(frames: seq<Outbound>)
    ensures forall o :: o in Outcomes(frames) ==> o.Outcome?
  {
    if frames != [] {
      OutcomesAreOutcomes(frames[1..]);
    }
  }

  // Disk and memory.

  /** What a decoded mutation asks is small enough for the file. */
  lemma DecodedIsSmall(payload: seq<byte>, minor: int)
    requires DecodeInbound(payload, minor).Some? && DecodeInbound(payload, minor).value.Mutate?
    ensures SmallRequest(DecodeInbound(payload, minor).value.request)
  {
    hide DecodeInbound, EncInbound;
    DecodeCanonical(payload, minor);
    LengthAscii([]);
  }

  /** A payload's effect on the service and the file, through the mutation it carries, if any. */
  lemma HandleService(writer: Writer, h: HubState, peer: Peer, payload: seq<byte>, now: millis, host: Host)
    ensures var (after, action) := Handle(writer, h, peer, payload, now, host);
      && after.settings == h.settings && after.pending == h.pending && after.refreshStatus == h.refreshStatus
      && (action.Mutation? <==> Performs(h, peer, payload))
      && (!action.Mutation? ==> after.service == h.service && after.file == h.file)
      && (action.Mutation? ==>
           var st := Performed(writer, h, peer, payload, host);
           && after.service == Some(st.service) && after.file == st.file && after.sessions == h.sessions
           && action == FinishMutation(after, st.result, SessionMinor(h.sessions, peer.id)))
  {
    hide DecodeInbound, Greet, Charge, Perform, FinishMutation, StatusFrame, RecordMalformed;
    assert forall a, b, c :: FinishMutation(a, b, c).Mutation? by { FinishIsMutation(); }
  }

  lemma FinishIsMutation()
    ensures forall h, result, minor :: FinishMutation(h, result, minor).Mutation?
  {
  }

  /** Whether a payload reaches the service: a mutation of a compatible peer while the feature is on. */
  predicate Performs(h: HubState, peer: Peer, payload: seq<byte>) {
    var m := DecodeInbound(payload, SessionMinor(h.sessions, peer.id));
    m.Some? && m.value.Mutate? && SessionCompatible(h.sessions, peer.id) && h.settings.enabled && h.service.Some?
  }

  function RequestOf(h: HubState, peer: Peer, payload: seq<byte>): Request
    requires Performs(h, peer, payload)
  {
    DecodeInbound(payload, SessionMinor(h.sessions, peer.id)).value.request
  }

  function Performed(writer: Writer, h: HubState, peer: Peer, payload: seq<byte>, host: Host): Step
    requires Performs(h, peer, payload)
  {
    Perform(writer, h.service.value, h.file, ActorOf(peer), RequestOf(h, peer, payload), host)
  }

  lemma HandleDurable(writer: Writer, h: HubState, peer: Peer, payload: seq<byte>, now: millis, host: Host)
    requires Faithful(writer.floats) && DurableInvariant(writer, h)
    ensures DurableInvariant(writer, Handle(writer, h, peer, payload, now, host).0)
  {
    hide Handle, Perform, Faithful, ServiceInvariant, GoodFile, FinishMutation, DecodeInbound, OnDisk, Holds,
      SmallRequest;
    HandleService(writer, h, peer, payload, now, host);
    if Performs(h, peer, payload) {
      DecodedIsSmall(payload, SessionMinor(h.sessions, peer.id));
      GoodFileHolds(writer, h.file);
      var st := Performed(writer, h, peer, payload, host);
      MutateKeeps(writer, h.service.value, h.file, ActorOf(peer), RequestOf(h, peer, payload), host);
      ServiceOnDisk(writer, st.service, st.file);
    }
  }

  lemma GoodFileHolds(writer: Writer, file: File)
    requires GoodFile(writer, file)
    ensures Holds(writer, file, OnDisk(writer, file))
  {
  }

  lemma ServiceOnDisk(writer: Writer, s: ServiceState, file: File)
    requires ServiceInvariant(s) && Holds(writer, file, s.catalog)
    ensures GoodFile(writer, file) && s.catalog == OnDisk(writer, file)
  {
    hide Holds, OnDisk, SoundCatalog, SmallIcons;
    HoldsIsOnDisk(writer, file, s.catalog);
  }

  lemma FreshServiceInvariant(c: Catalog, limits: Limits, access: AccessPolicy)
    requires SoundCatalog(c) && SmallIcons(c)
    ensures ServiceInvariant(NewService(c, limits, access))
  {
    hide SoundCatalog, SmallIcons;
  }

  lemma ClearDurable(writer: Writer, h: HubState, writable: bool)
    requires Faithful(writer.floats) && DurableInvariant(writer, h)
    ensures DurableInvariant(writer, Clear(writer, h, writable).0)
  {
    hide Faithful, GoodFile, OnDisk, Holds, Saved, ClearFrames, SmallIcons, SoundCatalog, ServiceInvariant;
    if h.service.Some? {
      var s := h.service.value;
      assert s.catalog.revision >= 0 by { RevisionNatural(s); }
      if |s.catalog.points| > 0 && s.catalog.revision <= I64_MAX - |s.catalog.points| {
        var empty := Catalog(s.catalog.revision + |s.catalog.points|, []);
        EmptySound(empty.revision);
        SaveHolds(writer, h.file, empty, writable);
        FreshServiceInvariant(empty, h.settings.limits, h.settings.access);
        var (saved, file) := Saved(writer, h.file, empty, writable);
        if saved {
          ServiceOnDisk(writer, NewService(empty, h.settings.limits, h.settings.access), file);
        }
      }
    }
  }

  lemma RevisionNatural(s: ServiceState)
    requires ServiceInvariant(s)
    ensures s.catalog.revision >= 0
  {
  }

  lemma EmptySound(revision: i64)
    requires revision >= 0
    ensures SoundCatalog(Catalog(revision, [])) && SmallIcons(Catalog(revision, []))
  {
  }

  /** Quarantining drops nothing from a catalog the file was accepted with. */
  lemma {:induction false} SanitizeKeepsSound(points: seq<Waypoint>)
    requires forall k :: 0 <= k < |points| ==> SoundPoint(points[k])
    ensures Sanitize(points) == points
  {
    hide Validate, ValidPublisherName, Trim;
    if points != [] {
      SanitizeKeepsSound(points[1..]);
    }
  }

  /** Quarantining keeps exactly the points that still validate, however the file was edited. */
  lemma {:induction false} SanitizeKeepsValid(points: seq<Waypoint>, w: Waypoint)
    ensures w in Sanitize(points) <==> w in points && ValidForWorld(w)
  {
    hide ValidForWorld;
    if points != [] {
      SanitizeKeepsValid(points[1..], w);
      assert points == [points[0]] + points[1..];
    }
  }

  lemma AdoptedIsLoaded(c: Catalog)
    requires SoundCatalog(c)
    ensures Adopted(c) == c
  {
    hide SoundPoint, ValidCatalog;
    SanitizeKeepsSound(c.points);
  }

  /** A start over any good file serves exactly what the file holds, and the file still holds it. */
  lemma ConfigureDurable(writer: Writer, h: HubState, settings: Settings, movable: bool, writable: bool)
    requires Faithful(writer.floats) && DurableInvariant(writer, h)
    ensures var after := Configure(writer, h, settings, movable, writable);
      DurableInvariant(writer, after) && after.service.Some? && OnDisk(writer, after.file) == OnDisk(writer, h.file)
  {
    hide Faithful, OnDisk, Holds, LoadedFrom, SmallIcons, SoundCatalog, Adopted, ServiceInvariant, ClearSubscriptions;
    if h.service.None? {
      var c := OnDisk(writer, h.file);
      LoadHolds(writer, h.file, c, movable, writable);
      AdoptedIsLoaded(c);
      FreshServiceInvariant(c, settings.limits, settings.access);
      ServiceOnDisk(writer, NewService(c, settings.limits, settings.access), LoadedFrom(writer, h.file, movable, writable).1);
    }
  }
}
