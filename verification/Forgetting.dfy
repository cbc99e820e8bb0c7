/**
  What ends a retained result, over any traffic: 128 later ones of its player, 256 other players between
  two calls of its own, or a clear, and nothing else. A retry that comes too late is judged like a
  request never seen.
 */
module Forgetting {
  import opened Prelude
  import opened Identity
  import opened Proto
  import opened Catalogs
  import opened Buckets
  import opened Players
  import opened Documents
  import opened DocumentSize
  import opened Persistence
  import opened Mutations
  import opened MutationLaws
  import opened Hub
  import opened HubLaws
  import opened Acceptance
  import opened Retries
  import opened Runs

  // Later results.

  /** The newest `n` places hold none of this operation's results. */
  ghost predicate NewestOthers(kept: seq<Kept>, op: Id, n: nat) {
    forall k :: 0 <= k < |kept| && |kept| - 1 - k < n ==> kept[k].operationId != op
  }

  lemma RememberAddsOther(kept: seq<Kept>, op: Id, n: nat, other: Id, cached: Cached)
    requires NewestOthers(kept, op, n) && other != op
    ensures NewestOthers(Remember(kept, other, cached), op, n + 1)
  {
  }

  lemma AuditKeepsOthers(kept: seq<Kept>, after: seq<Kept>, op: Id, n: nat)
    requires NewestOthers(kept, op, n) && SameResults(kept, after)
    ensures NewestOthers(after, op, n)
  {
  }

  /** The results kept for a player; nobody untracked has any. */
  function KeptBy(players: seq<Tracked>, id: Id): seq<Kept> {
    match StateOf(players, id)
    case Some(player) => player.kept
    case None => []
  }

  lemma OwnCallAddsOther(writer: Writer, at: Served, c: Call, op: Id, n: nat)
    requires ValidPlayers(at.service.players) && AllTruthful(at.service.players)
    requires c.request.operationId != op && NewestOthers(KeptBy(at.service.players, c.actor.id), op, n)
    ensures var st := ServeOne(writer, at, c);
      && TrackedWithin(st.service.players, c.actor.id, {})
      && NewestOthers(KeptBy(st.service.players, c.actor.id), op, if Fresh(st.result) then n + 1 else n)
  {
    hide ServeOne, ValidPlayers, AllTruthful, ValidKept, SameResults, Remember, IsCharged, TryConsume, NewestOthers,
      StateOf, WarmerThan;
    var kept, st := KeptBy(at.service.players, c.actor.id), ServeOne(writer, at, c);
    var next := OwnCall(writer, at, c);
    if Fresh(st.result) {
      RememberAddsOther(kept, op, n, c.request.operationId, Cached(c.request, st.result, false));
    } else {
      AuditKeepsOthers(kept, next.kept, op, n);
    }
  }

  /** This player uses this operation id in none of the calls. */
  predicate Unused(calls: seq<Call>, id: Id, op: Id) {
    forall k :: 0 <= k < |calls| && calls[k].actor.id == id ==> calls[k].request.operationId != op
  }

  /** While its player is never crowded out, the later results all come after this one. */
  lemma {:induction false} ServeAddsOthers(writer: Writer, start: Served, calls: seq<Call>, id: Id, op: Id)
    requires ValidPlayers(start.service.players) && AllTruthful(start.service.players)
    requires TrackedWithin(start.service.players, id, {}) && NeverCrowded(calls, id) && Unused(calls, id, op)
    ensures var end := Serve(writer, start, calls);
      && ValidPlayers(end.service.players) && AllTruthful(end.service.players)
      && TrackedWithin(end.service.players, id, SinceOwn(calls, id))
      && NewestOthers(KeptBy(end.service.players, id), op, AppliedBy(writer, start, calls, id))
  {
    hide Perform, ValidPlayers, AllTruthful, NewestOthers, StateOf, WarmerThan, NeverCrowded;
    if calls == [] {
      NoneIsOther(KeptBy(start.service.players, id), op);
    } else {
      var front, last := calls[..|calls| - 1], calls[|calls| - 1];
      CrowdedLast(calls, id);
      ServeAddsOthers(writer, start, front, id, op);
      var at := Serve(writer, start, front);
      MutatePlayers(writer, at.service, at.file, last.actor, last.request, last.host);
      if last.actor.id == id {
        OwnCallAddsOther(writer, at, last, op, AppliedBy(writer, start, front, id));
      } else {
        OtherCallKeepsTracked(writer, at, last, id, SinceOwn(calls, id));
      }
    }
  }

  lemma NoneIsOther(kept: seq<Kept>, op: Id)
    ensures NewestOthers(kept, op, 0)
  {
  }

  /** Nothing is kept for this player under this operation id. */
  ghost predicate Gone(players: seq<Tracked>, id: Id, op: Id) {
    NewestOthers(KeptBy(players, id), op, RESULTS_PER_PLAYER)
  }

  lemma OthersFewer(kept: seq<Kept>, op: Id, n: nat, m: nat)
    requires NewestOthers(kept, op, n) && m <= n
    ensures NewestOthers(kept, op, m)
  {
  }

  lemma GoneIs(players: seq<Tracked>, id: Id, op: Id)
    requires ValidPlayers(players)
    ensures Gone(players, id, op) <==> StateOf(players, id).None? || Recall(StateOf(players, id).value.kept, op).None?
  {
    hide StateOf, Recall;
    assert forall player :: StateOf(players, id) == Some(player) ==> ValidKept(player.kept) by { TrackedValid(players, id); }
    if StateOf(players, id).Some? {
      RecallIs(StateOf(players, id).value.kept, op);
    }
  }

  lemma TrackedValid(players: seq<Tracked>, id: Id)
    requires ValidPlayers(players)
    ensures StateOf(players, id).Some? ==> ValidKept(StateOf(players, id).value.kept)
  {
  }

  // Other players.

  /** One call by another player, exactly: it pushes this one back, or out when 256 others have called since. */
  lemma OtherCallExact(writer: Writer, at: Served, c: Call, id: Id)
    requires ValidPlayers(at.service.players) && AllTruthful(at.service.players) && c.actor.id != id
    ensures var after := ServeOne(writer, at, c).service.players;
      if StateOf(at.service.players, id).None? then StateOf(after, id).None?
      else
        var warmer := WarmerThan(at.service.players, TrackedAt(at.service.players, id)) + {c.actor.id};
        if |warmer| < MAX_TRACKED_PLAYERS then
          StateOf(after, id) == StateOf(at.service.players, id) && WarmerThan(after, TrackedAt(after, id)) == warmer
        else StateOf(after, id).None?
  {
    hide Perform, ValidPlayers, AllTruthful, ValidKept, Truthful, SameResults, Remember, Touch, WithState, TryConsume,
      IsCharged, WarmerThan;
    var s, other := at.service, c.actor.id;
    var next := PerformPlayers(writer, s, at.file, c.actor, c.request, c.host);
    var touched := Touched(s, other, c.host.now).0;
    WithStateOrder(touched, other, next, id);
    if StateOf(s.players, id).Some? {
      TouchByOtherExact(s.players, id, other, c.host.now, s.limits.mutationsPerMinute);
      var warmer := WarmerThan(s.players, TrackedAt(s.players, id)) + {other};
      if |warmer| < MAX_TRACKED_PLAYERS {
        OtherCallKeepsTracked(writer, at, c, id, warmer);
      }
    } else {
      TouchBringsNobodyElse(s.players, id, other, c.host.now, s.limits.mutationsPerMinute);
    }
  }

  /** Among any traffic, a player is tracked if and only if fewer than 256 others have called since it last did. */
  lemma {:induction false} PlayerKeptIff(writer: Writer, start: Served, calls: seq<Call>, id: Id)
    requires ValidPlayers(start.service.players) && AllTruthful(start.service.players)
    requires TrackedWithin(start.service.players, id, {})
    ensures var end := Serve(writer, start, calls);
      && ValidPlayers(end.service.players) && AllTruthful(end.service.players)
      && (StateOf(end.service.players, id).Some? <==> |SinceOwn(calls, id)| < 256)
      && (StateOf(end.service.players, id).Some? ==>
           WarmerThan(end.service.players, TrackedAt(end.service.players, id)) == SinceOwn(calls, id))
  {
    hide Perform, ValidPlayers, AllTruthful, WarmerThan, IsCharged, TryConsume, Remember, SameResults, Caller;
    if calls != [] {
      var front, last := calls[..|calls| - 1], calls[|calls| - 1];
      PlayerKeptIff(writer, start, front, id);
      var at := Serve(writer, start, front);
      MutatePlayers(writer, at.service, at.file, last.actor, last.request, last.host);
      if last.actor.id == id {
        var _ := OwnCall(writer, at, last);
      } else {
        SubsetSize(SinceOwn(front, id), SinceOwn(calls, id));
        OtherCallExact(writer, at, last, id);
      }
    }
  }

  /** What is gone stays gone, unless its own player uses that operation id again. */
  lemma GoneStays(writer: Writer, at: Served, c: Call, id: Id, op: Id)
    requires ValidPlayers(at.service.players) && AllTruthful(at.service.players)
    requires Gone(at.service.players, id, op) && (c.actor.id == id ==> c.request.operationId != op)
    ensures Gone(ServeOne(writer, at, c).service.players, id, op)
  {
    hide ServeOne, ValidPlayers, AllTruthful, NewestOthers, StateOf, WarmerThan, TrackedWithin;
    if c.actor.id == id {
      OwnCallAddsOther(writer, at, c, op, RESULTS_PER_PLAYER);
      var st := ServeOne(writer, at, c);
      OthersFewer(KeptBy(st.service.players, id), op,
                  if Fresh(st.result) then RESULTS_PER_PLAYER + 1 else RESULTS_PER_PLAYER, RESULTS_PER_PLAYER);
    } else {
      OtherCallExact(writer, at, c, id);
      NothingKept(op);
    }
  }

  lemma NothingKept(op: Id)
    ensures NewestOthers([], op, RESULTS_PER_PLAYER)
  {
  }

  /** A player crowded out at any moment has lost the result for good. */
  lemma {:induction false} CrowdedForgets(writer: Writer, start: Served, calls: seq<Call>, id: Id, op: Id)
    requires ValidPlayers(start.service.players) && AllTruthful(start.service.players)
    requires TrackedWithin(start.service.players, id, {}) && !NeverCrowded(calls, id) && Unused(calls, id, op)
    ensures Gone(Serve(writer, start, calls).service.players, id, op)
  {
    hide Perform, ValidPlayers, AllTruthful, NeverCrowded, NewestOthers, StateOf, WarmerThan;
    CrowdedLast(calls, id);
    PlayerKeptIff(writer, start, calls, id);
    if |SinceOwn(calls, id)| >= MAX_TRACKED_PLAYERS {
      NothingKept(op);
    } else {
      var front, last := calls[..|calls| - 1], calls[|calls| - 1];
      CrowdedForgets(writer, start, front, id, op);
      PlayerKeptIff(writer, start, front, id);
      GoneStays(writer, Serve(writer, start, front), last, id, op);
    }
  }

  /**
    The bounds of the cache, exactly, over any traffic: a result is still there if and only if its
    player has had fewer than 128 further changes applied and at no moment 256 other players have
    called since it last did.
   */
  lemma ResultKeptIff(writer: Writer, before: Served, first: Call, calls: seq<Call>)
    requires ValidPlayers(before.service.players) && AllTruthful(before.service.players)
    requires Fresh(ServeOne(writer, before, first).result)
    requires Unused(calls, first.actor.id, first.request.operationId)
    ensures var st := ServeOne(writer, before, first);
      var start := Served(st.service, st.file);
      Retained(Serve(writer, start, calls).service, first.actor, first.request.operationId) <==>
        NeverCrowded(calls, first.actor.id) && AppliedBy(writer, start, calls, first.actor.id) < 128
  {
    hide Perform, ValidPlayers, AllTruthful, Serve, AppliedBy, NeverCrowded, KeptBack, StateOf, NewestOthers, Unused,
      WarmerThan, Recall, SinceOwn;
    var id, r := first.actor.id, first.request;
    var st := ServeOne(writer, before, first);
    var start := Served(st.service, st.file);
    FreshOpensWindow(writer, before, first);
    MutatePlayers(writer, before.service, before.file, first.actor, r, first.host);
    PlayerKeptIff(writer, start, calls, id);
    var later := AppliedBy(writer, start, calls, id);
    var end := Serve(writer, start, calls);
    GoneIs(end.service.players, id, r.operationId);
    if !NeverCrowded(calls, id) {
      CrowdedForgets(writer, start, calls, id, r.operationId);
    } else if later < RESULTS_PER_PLAYER {
      ServeKeepsWindow(writer, start, calls, id, r, st.result);
      KeptIsRecalled(end.service.players, id, r, st.result, later);
    } else {
      ServeAddsOthers(writer, start, calls, id, r.operationId);
      OthersFewer(KeptBy(end.service.players, id), r.operationId, later, RESULTS_PER_PLAYER);
    }
  }

  lemma AbsentIsNotReplayed(writer: Writer, s: ServiceState, file: File, actor: Actor, r: Request, host: Host)
    requires ValidPlayers(s.players) && Gone(s.players, actor.id, r.operationId)
    ensures !Perform(writer, s, file, actor, r, host).result.replayed
  {
    hide Plan, Conclude, TryConsume, WithState, StateOf, KeptAt, Gone, ValidPlayers, NewestOthers, Touch, ReplayDecision,
      CanCreate;
    GoneIs(s.players, actor.id, r.operationId);
    TouchKeeps(s.players, actor.id, host.now, s.limits.mutationsPerMinute);
    var player := Touched(s, actor.id, host.now).1;
    ReplayIsRecall(player, r, s.catalog.revision);
    assert KeptAt([], r.operationId) == 0;
    assert forall writer, s, file, actor, r, p, writable ::
        !Conclude(writer, s, file, actor, r, p, writable).result.replayed by { ConcludedIsNoReplay(); }
  }

  lemma ConcludedIsNoReplay()
    ensures forall writer, s, file, actor, r, p, writable ::
              !Conclude(writer, s, file, actor, r, p, writable).result.replayed
  {
    hide Saved, Commit, Mutations.Retain;
  }

  /**
    The retry, exactly, over any traffic: asking again is answered as a repeat if and only if it is the same
    request and the result is still inside the bounds.
   */
  lemma ReplayedIff(writer: Writer, before: Served, first: Call, calls: seq<Call>, again: Call)
    requires ValidPlayers(before.service.players) && AllTruthful(before.service.players)
    requires Fresh(ServeOne(writer, before, first).result)
    requires Unused(calls, first.actor.id, first.request.operationId)
    requires again.actor.id == first.actor.id && again.request.operationId == first.request.operationId
    ensures var st := ServeOne(writer, before, first);
      var start := Served(st.service, st.file);
      ServeOne(writer, Serve(writer, start, calls), again).result.replayed <==>
        && NeverCrowded(calls, first.actor.id) && AppliedBy(writer, start, calls, first.actor.id) < 128
        && SameAsk(first.request, again.request)
  {
    hide Perform, ValidPlayers, AllTruthful, Serve, AppliedBy, NeverCrowded, StateOf, Gone, Unused, Recall, SameAsk,
      WarmerThan, KeptBack;
    var id, r := first.actor.id, first.request;
    var st := ServeOne(writer, before, first);
    var start := Served(st.service, st.file);
    var end := Serve(writer, start, calls);
    FreshOpensWindow(writer, before, first);
    MutatePlayers(writer, before.service, before.file, first.actor, r, first.host);
    PlayerKeptIff(writer, start, calls, id);
    ResultKeptIff(writer, before, first, calls);
    if NeverCrowded(calls, id) && AppliedBy(writer, start, calls, id) < RESULTS_PER_PLAYER {
      RetryWindow(writer, before, first, calls, again);
    } else {
      GoneIs(end.service.players, id, r.operationId);
      AbsentIsNotReplayed(writer, end.service, end.file, again.actor, again.request, again.host);
    }
  }

  // What forgetting means.

  /** A player without state has no result to repeat and a full budget. */
  lemma ForgottenIsNew(writer: Writer, s: ServiceState, file: File, actor: Actor, r: Request, host: Host)
    requires ServiceInvariant(s) && !Retained(s, actor, r.operationId)
    ensures !Perform(writer, s, file, actor, r, host).result.replayed
    ensures StateOf(s.players, actor.id).None? ==> CanPay(s, actor, host.now)
  {
    hide Perform, ServiceInvariant, Retained;
    RetainedIs(s, actor, r, host.now);
    FirstIsHonest(writer, s, file, actor, r, host);
  }

  /** After a clear that emptied anything no retry is replayed and no budget is spent, whoever asks. */
  lemma ClearForgets(writer: Writer, h: HubState, writable: bool, actor: Actor, r: Request, host: Host)
    requires Faithful(writer.floats) && Reachable(writer, h) && Empties(writer, h, writable)
    ensures var after := Clear(writer, h, writable).0;
      && after.service.Some?
      && !Retained(after.service.value, actor, r.operationId) && CanPay(after.service.value, actor, host.now)
      && !Perform(writer, after.service.value, after.file, actor, r, host).result.replayed
  {
    hide Faithful, HubInvariant, GoodFile, OnDisk, ServiceInvariant, Clear, Perform, Empties;
    ClearDurable(writer, h, writable);
    ClearStartsOver(writer, h, writable);
    var after := Clear(writer, h, writable).0;
    assert TrackedAt([], actor.id) == 0;
    ForgottenIsNew(writer, after.service.value, after.file, actor, r, host);
  }

  lemma ClearStartsOver(writer: Writer, h: HubState, writable: bool)
    requires Empties(writer, h, writable)
    ensures var after := Clear(writer, h, writable).0; after.service.Some? && after.service.value.players == []
  {
    hide Saved, ClearFrames;
  }
}
