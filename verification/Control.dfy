/**
  What the control budget is for: from the opening of a session to its removal, over every run, the
  snapshots and statuses that answer one connection's payloads number at most a burst of 8 and one for
  each second that has passed.
 */
module Control {
  import opened Prelude
  import opened Identity
  import opened Proto
  import opened Catalogs
  import opened Buckets
  import opened Documents
  import opened Persistence
  import opened Mutations
  import opened Hub
  import opened HubLaws
  import opened Runs
  import opened Convergence

  // What one connection has been answered.

  /** A bystander's account of one session: when it opened, the latest time it was heard, what it was told. */
  datatype Account = Account(start: millis, heard: millis, answers: nat)

  /** The snapshots and statuses among these frames, a disabled answer's status included. */
  function Informing(frames: seq<Outbound>): nat {
    if frames == [] then 0
    else
      var last := frames[|frames| - 1];
      Informing(frames[..|frames| - 1]) + (if last.Snapshot? || last.Status? then 1 else 0)
  }

  function Answers(action: Action): nat {
    match action
    case Silent => 0
    case Reply(frames, _) => Informing(frames)
    case Mutation(outcome, _, _, _) => Informing([outcome])
  }

  /** The account of the session this connection has now: a new session opens a new one. */
  ghost function AccountOf(writer: Writer, file: File, events: seq<Event>, id: Id): Option<Account> {
    if events == [] then None
    else
      var front, last := events[..|events| - 1], events[|events| - 1];
      if id !in Run(writer, file, events).hub.sessions then None
      else Noted(writer, Run(writer, file, front).hub, AccountOf(writer, file, front, id), last, id)
  }

  function Noted(writer: Writer, h: HubState, account: Option<Account>, e: Event, id: Id): Option<Account> {
    match e
    case Arrives(peer, payload, now, host) =>
      if peer.id != id then account
      else
        var before := if account.Some? then account.value else Account(now, now, 0);
        Some(Account(before.start, Max(before.heard, now),
                     before.answers + Answers(Handle(writer, h, peer, payload, now, host).1)))
    case _ => account
  }

  // One payload.

  function OpeningBucket(now: millis): Bucket {
    FullBucket(CONTROL_REQUEST_BURST, CONTROL_REQUESTS_PER_MINUTE, now)
  }

  /** The answers cost the budget one token each: none without an attempt, and at most one a successful attempt. */
  predicate Costs(before: Bucket, after: Bucket, now: millis, answers: nat) {
    || (after == before && answers == 0)
    || (after == TryConsume(before, now).0 && answers <= if TryConsume(before, now).1 then 1 else 0)
  }

  /** The budget of the session, the one it would open with if it has none yet. */
  function ControlOf(sessions: Sessions, id: Id, now: millis): Bucket {
    if id in sessions then sessions[id].control else OpeningBucket(now)
  }

  lemma InformingOne(frame: Outbound)
    ensures Informing([frame]) == if frame.Snapshot? || frame.Status? then 1 else 0
  {
  }

  lemma OneInformsOnce()
    ensures forall frame :: Informing([frame]) <= 1
  {
    hide Informing;
    forall frame
      ensures Informing([frame]) <= 1
    {
      InformingOne(frame);
    }
  }

  lemma InformingTwo(first: Outbound, second: Outbound)
    requires first.Outcome?
    ensures Informing([first, second]) <= 1
  {
    assert [first, second][..1] == [first];
    InformingOne(first);
  }

  lemma HelloCosts(h: HubState, peer: Peer, major: i32, minor: i32, now: millis)
    ensures var (after, action) := HandleHello(h, peer, major, minor, now);
      Costs(ControlOf(h.sessions, peer.id, now), ControlOf(after.sessions, peer.id, now), now, Answers(action))
  {
    hide TryConsume, StatusFrame, FullBucket, Informing;
    assert forall frame :: Informing([frame]) <= 1 by { OneInformsOnce(); }
  }

  lemma SubscribeCosts(h: HubState, peer: Peer, minor: i32, now: millis)
    ensures var (after, action) := HandleSubscribe(h, peer, minor, now);
      Costs(ControlOf(h.sessions, peer.id, now), ControlOf(after.sessions, peer.id, now), now, Answers(action))
  {
    hide TryConsume, StatusFrame, FullBucket, Informing, IsCompatible;
    assert forall frame :: Informing([frame]) <= 1 by { OneInformsOnce(); }
  }

  lemma DisabledCosts(h: HubState, peer: Peer, op: Id, minor: i32, now: millis)
    requires peer.id in h.sessions
    ensures var (after, action) := HandleDisabled(h, peer, op, minor, now);
      Costs(ControlOf(h.sessions, peer.id, now), ControlOf(after.sessions, peer.id, now), now, Answers(action))
  {
    hide TryConsume, StatusFrame, FullBucket, Informing;
    var (sessions, ok) := Charge(h.sessions, peer.id, now);
    InformingOne(Outcome(op, STATUS_REJECTED, ERROR_RATE_LIMITED));
    var after := h.(sessions := SetOperator(sessions, peer.id, peer.operator));
    InformingTwo(Outcome(op, STATUS_REJECTED, ERROR_DISABLED), StatusFrame(after, peer.operator, minor, true));
  }

  /** Whatever a connection sends, each snapshot or status it is answered with costs it a token. */
  lemma OwnPayloadCosts(writer: Writer, h: HubState, peer: Peer, payload: seq<byte>, now: millis, host: Host)
    ensures var (after, action) := Handle(writer, h, peer, payload, now, host);
      Costs(ControlOf(h.sessions, peer.id, now), ControlOf(after.sessions, peer.id, now), now, Answers(action))
  {
    hide DecodeInbound, Perform, HandleHello, HandleSubscribe, HandleDisabled, Informing, TryConsume, FullBucket,
      IsCompatible, ErrorCode;
    match DecodeInbound(payload, SessionMinor(h.sessions, peer.id))
    case None =>
    case Some(m) =>
      match m
      case Hello(major, theirs) => HelloCosts(h, peer, major, theirs, now);
      case Subscribe => SubscribeCosts(h, peer, SessionMinor(h.sessions, peer.id), now);
      case Mutate(r) =>
        assert forall result, minor :: Informing([OutcomeFrame(result, minor)]) == 0 by { OutcomesInformNobody(); }
        if SessionCompatible(h.sessions, peer.id) {
          DisabledCosts(h, peer, r.operationId, SessionMinor(h.sessions, peer.id), now);
        }
      case Lock(op, _, _, _) =>
        InformingOne(Outcome(op, STATUS_REJECTED, ERROR_INVALID_REQUEST));
        if SessionCompatible(h.sessions, peer.id) {
          DisabledCosts(h, peer, op, SessionMinor(h.sessions, peer.id), now);
        }
  }

  lemma OutcomesInformNobody()
    ensures forall result, minor :: Informing([OutcomeFrame(result, minor)]) == 0
  {
    hide ErrorCode, Informing;
    forall result, minor
      ensures Informing([OutcomeFrame(result, minor)]) == 0
    {
      InformingOne(OutcomeFrame(result, minor));
    }
  }

  /** This connection's session is the same in both. */
  predicate Untouched(sessions: Sessions, after: Sessions, id: Id) {
    (id in after <==> id in sessions) && (id in after ==> after[id] == sessions[id])
  }

  /** This connection has a session in both or in neither, with the same budget. */
  predicate SameBudget(sessions: Sessions, after: Sessions, id: Id) {
    (id in after <==> id in sessions) && (id in after ==> after[id].control == sessions[id].control)
  }

  lemma MarksElsewhere(sessions: Sessions, id: Id, other: Id, operator: bool, subscribed: bool, now: millis)
    requires id != other
    ensures Untouched(sessions, Charge(sessions, other, now).0, id)
    ensures Untouched(sessions, SetOperator(sessions, other, operator), id)
    ensures Untouched(sessions, SetSubscribed(sessions, other, subscribed), id)
  {
    hide TryConsume;
  }

  lemma GreetElsewhere(sessions: Sessions, id: Id, other: Id, major: i32, minor: i32, operator: bool, now: millis)
    requires id != other
    ensures Untouched(sessions, Greet(sessions, other, major, minor, operator, now).0, id)
  {
    hide TryConsume;
  }

  lemma EnrollElsewhere(h: HubState, peer: Peer, minor: i32, id: Id)
    requires id != peer.id
    ensures Untouched(h.sessions, Enroll(h, peer, minor).0.sessions, id)
  {
    hide SetOperator, SetSubscribed, StatusFrame;
    MarksElsewhere(h.sessions, id, peer.id, peer.operator, true, 0);
    var refreshed := SetOperator(h.sessions, peer.id, peer.operator);
    MarksElsewhere(refreshed, id, peer.id, peer.operator, true, 0);
    MarksElsewhere(refreshed, id, peer.id, peer.operator, false, 0);
  }

  /** Nobody else's payload touches this connection's session, or opens or removes it. */
  lemma OtherPayloadTouchesNothing(writer: Writer, h: HubState, peer: Peer, payload: seq<byte>, now: millis, host: Host,
      id: Id)
    requires id != peer.id
    ensures Untouched(h.sessions, Handle(writer, h, peer, payload, now, host).0.sessions, id)
  {
    hide DecodeInbound, Perform, FinishMutation, Greet, Charge, SetOperator, Enroll, StatusFrame, IsCompatible;
    MarksElsewhere(h.sessions, id, peer.id, peer.operator, true, now);
    var charged := Charge(h.sessions, peer.id, now).0;
    MarksElsewhere(charged, id, peer.id, peer.operator, true, now);
    EnrollElsewhere(h.(sessions := charged), peer, SessionMinor(h.sessions, peer.id), id);
    match DecodeInbound(payload, SessionMinor(h.sessions, peer.id))
    case None =>
    case Some(m) =>
      match m
      case Hello(major, theirs) => GreetElsewhere(h.sessions, id, peer.id, major, theirs, peer.operator, now);
      case _ =>
  }

  lemma {:induction false} RefreshCostsNothing(sessions: Sessions, levels: seq<Level>, id: Id)
    ensures SameBudget(sessions, RefreshAll(sessions, levels).0, id)
  {
    if levels != [] {
      RefreshCostsNothing(sessions, levels[..|levels| - 1], id);
    }
  }

  // Whole runs.

  /** What the session was told is paid for by the burst it opened with and the time since. */
  predicate PaidFor(b: Bucket, a: Account) {
    && b.Valid() && b.rate == CONTROL_REQUESTS_PER_MINUTE && a.start <= b.lastMs <= a.heard
    && a.answers * TOKEN + b.tokens <= CONTROL_REQUEST_BURST * TOKEN + (b.lastMs - a.start) * b.rate
  }

  lemma CostsKeepPaid(b: Bucket, a: Account, after: Bucket, now: millis, answers: nat)
    requires PaidFor(b, a) && Costs(b, after, now, answers)
    ensures PaidFor(after, Account(a.start, Max(a.heard, now), a.answers + answers))
  {
    hide TryConsume;
    ConsumeConserves(b, now);
    Distribute(after.lastMs - b.lastMs, b.lastMs - a.start, b.rate);
  }

  ghost predicate SessionPaid(sessions: Sessions, id: Id, account: Option<Account>) {
    (id in sessions <==> account.Some?) && (id in sessions ==> PaidFor(sessions[id].control, account.value))
  }

  lemma OwnPayloadPaid(writer: Writer, h: HubState, peer: Peer, payload: seq<byte>, now: millis, host: Host,
      account: Option<Account>)
    requires SessionPaid(h.sessions, peer.id, account)
    requires peer.id in Handle(writer, h, peer, payload, now, host).0.sessions
    ensures SessionPaid(Handle(writer, h, peer, payload, now, host).0.sessions, peer.id,
                        Noted(writer, h, account, Arrives(peer, payload, now, host), peer.id))
  {
    hide Handle, Costs, Answers, PaidFor;
    var (after, action) := Handle(writer, h, peer, payload, now, host);
    OwnPayloadCosts(writer, h, peer, payload, now, host);
    var a := if account.Some? then account.value else Account(now, now, 0);
    var b := ControlOf(h.sessions, peer.id, now);
    assert PaidFor(b, a) by { OpeningIsPaid(now); }
    CostsKeepPaid(b, a, after.sessions[peer.id].control, now, Answers(action));
  }

  lemma OpeningIsPaid(now: millis)
    ensures PaidFor(OpeningBucket(now), Account(now, now, 0))
  {
  }

  lemma StepPaid(writer: Writer, h: HubState, e: Event, id: Id, account: Option<Account>)
    requires SessionPaid(h.sessions, id, account)
    ensures var after := StepHub(writer, h, e).sessions;
      SessionPaid(after, id, if id in after then Noted(writer, h, account, e, id) else None)
  {
    hide Handle, PaidFor, RefreshAll, Saved, ClearFrames, LoadedFrom, Adopted, Answers;
    match e
    case Arrives(peer, payload, now, host) =>
      if peer.id != id {
        OtherPayloadTouchesNothing(writer, h, peer, payload, now, host, id);
      } else if id in Handle(writer, h, peer, payload, now, host).0.sessions {
        OwnPayloadPaid(writer, h, peer, payload, now, host, account);
      }
    case Ticks(levels) => RefreshCostsNothing(h.sessions, levels, id);
    case _ =>
  }

  lemma {:induction false} RunPaid(writer: Writer, file: File, events: seq<Event>, id: Id)
    ensures SessionPaid(Run(writer, file, events).hub.sessions, id, AccountOf(writer, file, events, id))
  {
    hide StepHub, SessionPaid, Noted, Record, DurableRequests, DurableDeltas, Emits, StepStreams, OnDisk, PointMap;
    if events == [] {
      NobodyPaid(id);
    } else {
      var front, last := events[..|events| - 1], events[|events| - 1];
      RunPaid(writer, file, front, id);
      StepPaid(writer, Run(writer, file, front).hub, last, id, AccountOf(writer, file, front, id));
    }
  }

  lemma NobodyPaid(id: Id)
    ensures SessionPaid(map[], id, None)
  {
  }

  /**
    The control bound, over every run and however the clock behaves: a connection is answered with at
    most 8 snapshots and statuses, and one more for each of the 60 a minute that the time between the
    opening of its session and the latest time it was heard allows.
   */
  lemma ControlBound(writer: Writer, file: File, events: seq<Event>, id: Id)
    requires id in Run(writer, file, events).hub.sessions
    ensures var account := AccountOf(writer, file, events, id);
      && account.Some?
      && account.value.answers * TOKEN <=
           CONTROL_REQUEST_BURST * TOKEN + (account.value.heard - account.value.start) * CONTROL_REQUESTS_PER_MINUTE
  {
    hide Run, AccountOf;
    RunPaid(writer, file, events, id);
  }

  /**
    What the budget does not cover: while the feature is on, a change or a lock leaves every session,
    and so its sender's control budget, as it was, though each is answered.
   */
  lemma UnchargedWhileOn(writer: Writer, h: HubState, peer: Peer, payload: seq<byte>, now: millis, host: Host)
    requires h.settings.enabled && h.service.Some? && SessionCompatible(h.sessions, peer.id)
    requires var m := DecodeInbound(payload, SessionMinor(h.sessions, peer.id));
      m.Some? && (m.value.Mutate? || m.value.Lock?)
    ensures var (after, action) := Handle(writer, h, peer, payload, now, host);
      after.sessions == h.sessions && !action.Silent?
  {
    hide DecodeInbound, Perform, FinishMutation;
    assert forall a, b, c :: FinishMutation(a, b, c).Mutation? by { FinishIsMutation(); }
  }
}
