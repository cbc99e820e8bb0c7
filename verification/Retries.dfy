/**
  The retry window over any traffic: an applied result answers its retries, and moves nothing, while
  its player has fewer than 128 further changes applied and at no moment 256 other players have called
  since it last did.
 */
module Retries {
  import opened Prelude
  import opened Identity
  import opened Model
  import opened Proto
  import opened Catalogs
  import opened Buckets
  import opened Players
  import opened Documents
  import opened DocumentSize
  import opened Persistence
  import opened Mutations
  import opened MutationLaws

  datatype Call = Call(actor: Actor, request: Request, host: Host)

  /** The service and its file between two calls. */
  datatype Served = Served(service: ServiceState, file: File)

  function ServeOne(writer: Writer, at: Served, c: Call): Step {
    Perform(writer, at.service, at.file, c.actor, c.request, c.host)
  }

  function Serve(writer: Writer, start: Served, calls: seq<Call>): Served {
    if calls == [] then start
    else
      var st := ServeOne(writer, Serve(writer, start, calls[..|calls| - 1]), calls[|calls| - 1]);
      Served(st.service, st.file)
  }

  /** The other players that have called since this one last did. */
  function SinceOwn(calls: seq<Call>, id: Id): set<Id> {
    if calls == [] then {}
    else
      var caller := calls[|calls| - 1].actor.id;
      if caller == id then {} else SinceOwn(calls[..|calls| - 1], id) + {caller}
  }

  /** At no moment have 256 other players called since this one last did. */
  predicate NeverCrowded(calls: seq<Call>, id: Id) {
    forall n :: 0 <= n <= |calls| ==> FewSince(calls[..n], id)
  }

  predicate FewSince(calls: seq<Call>, id: Id) {
    |SinceOwn(calls, id)| < 256
  }

  lemma CrowdedLast(calls: seq<Call>, id: Id)
    ensures NeverCrowded([], id)
    ensures calls != [] ==>
              (NeverCrowded(calls, id) <==>
               NeverCrowded(calls[..|calls| - 1], id) && |SinceOwn(calls, id)| < 256)
  {
    hide SinceOwn;
    NobodySince(id);
    CrowdedStep(calls, id);
  }

  lemma CrowdedStep(calls: seq<Call>, id: Id)
    ensures calls != [] ==> (NeverCrowded(calls, id) <==> NeverCrowded(calls[..|calls| - 1], id) && FewSince(calls, id))
  {
    hide FewSince;
    if calls != [] {
      var front := calls[..|calls| - 1];
      assert calls[..|calls|] == calls;
      assert forall n :: 0 <= n <= |front| ==> front[..n] == calls[..n];
    }
  }

  lemma NobodySince(id: Id)
    ensures SinceOwn([], id) == {}
  {
  }

  /** How many of these calls this player had applied. */
  function AppliedBy(writer: Writer, start: Served, calls: seq<Call>, id: Id): nat {
    if calls == [] then 0
    else
      var front, last := calls[..|calls| - 1], calls[|calls| - 1];
      AppliedBy(writer, start, front, id) +
        (if last.actor.id == id && Fresh(ServeOne(writer, Serve(writer, start, front), last).result) then 1 else 0)
  }

  // What a call does to the players.

  /** The same results in the same order; an audit mark may have been set. */
  ghost predicate SameResults(kept: seq<Kept>, after: seq<Kept>) {
    && |after| == |kept|
    && forall k :: 0 <= k < |kept| ==>
         && after[k].operationId == kept[k].operationId
         && after[k].cached.request == kept[k].cached.request
         && after[k].cached.result == kept[k].cached.result
  }

  lemma SameResultsReflexive(kept: seq<Kept>)
    ensures SameResults(kept, kept)
  {
  }

  lemma WithStateTwice(players: seq<Tracked>, id: Id, first: Player, second: Player)
    ensures WithState(WithState(players, id, first), id, second) == WithState(players, id, second)
  {
    var n := TrackedAt(players, id);
    if n < |players| {
      TrackedHere(WithState(players, id, first), id, n);
    }
  }

  /** Whether a call is paid for: it repeats nothing retained and its actor may ask for it at all. */
  predicate IsCharged(s: ServiceState, c: Call) {
    var player := Touched(s, c.actor.id, c.host.now).1;
    Recall(player.kept, c.request.operationId).None? && (c.request.Create? ==> CanCreate(c.actor, s.access))
  }

  /**
    A call touches its player and rewrites only that player: one result more if it applied, one
    attempt on the budget if it is charged, and nothing else.
   */
  lemma PerformPlayers(writer: Writer, s: ServiceState, file: File, actor: Actor, r: Request,
      host: Host) returns (next: Player)
    requires ValidPlayers(s.players) && AllTruthful(s.players)
    ensures var st := Perform(writer, s, file, actor, r, host);
      var player := Touched(s, actor.id, host.now).1;
      && st.service.players == WithState(Touched(s, actor.id, host.now).0, actor.id, next)
      && (Fresh(st.result) ==> next.kept == Remember(player.kept, r.operationId, Cached(r, st.result, false)))
      && (!Fresh(st.result) ==> SameResults(player.kept, next.kept))
      && next.bucket == (if IsCharged(s, Call(actor, r, host)) then TryConsume(player.bucket, host.now).0 else player.bucket)
      && (Fresh(st.result) ==> IsCharged(s, Call(actor, r, host)) && TryConsume(player.bucket, host.now).1)
  {
    hide Touched, ReplayDecision, Plan, TryConsume, WithState, Content, AllPersistable, ValidPlayers, AllTruthful,
      ValidKept, Truthful, CanSave, Remember, SameResults, StateOf;
    var (touched, player) := Touched(s, actor.id, host.now);
    TouchedFacts(s, actor.id, host.now);
    var (replay, audited) := ReplayDecision(player, r, s.catalog.revision);
    SameResultsReflexive(player.kept);
    ReplayTruthful(player, r, s.catalog.revision);
    ReplayIsRecall(player, r, s.catalog.revision);
    if replay.Some? {
      assert SameResults(player.kept, audited.kept) by { AuditKeepsResults(player, r, s.catalog.revision); }
      assert !Fresh(replay.value) by { ReplayNotFresh(player, r, s.catalog.revision); }
      next := audited;
    } else if r.Create? && !CanCreate(actor, s.access) {
      WithStateSame(touched, actor.id);
      next := player;
    } else {
      var (bucket, ok) := TryConsume(player.bucket, host.now);
      var paid := player.(bucket := bucket);
      ConsumeConserves(player.bucket, host.now);
      WithStateTruthful(touched, actor.id, paid);
      var charged := s.(players := WithState(touched, actor.id, paid));
      next := paid;
      if ok && Plan(charged, actor, r, host).Ok? {
        PlanApplies(charged, actor, r, host);
        var p := Plan(charged, actor, r, host).value;
        ConcludeCases(writer, charged, file, actor, r, p, host.writable);
        if CanSave(p.next) && host.writable {
          var cached := Cached(r, Applied(r.operationId, p.delta), false);
          next := paid.(kept := Remember(paid.kept, r.operationId, cached));
          WithStateTwice(touched, actor.id, paid, next);
        }
      }
    }
  }

  lemma ReplayIsRecall(player: Player, r: Request, revision: i64)
    ensures ReplayDecision(player, r, revision).0.Some? <==> Recall(player.kept, r.operationId).Some?
    ensures ReplayDecision(player, r, revision).1.bucket == player.bucket
  {
    hide Matches;
  }

  lemma AuditKeepsResults(player: Player, r: Request, revision: i64)
    ensures SameResults(player.kept, ReplayDecision(player, r, revision).1.kept)
  {
    hide Matches;
  }

  /** Rewriting one player moves nobody and changes nobody else. */
  lemma WithStateOrder(players: seq<Tracked>, id: Id, player: Player, other: Id)
    ensures var after := WithState(players, id, player);
      && TrackedAt(after, other) == TrackedAt(players, other)
      && (TrackedAt(players, other) < |players| ==>
           WarmerThan(after, TrackedAt(after, other)) == WarmerThan(players, TrackedAt(players, other)))
      && (other != id ==> StateOf(after, other) == StateOf(players, other))
  {
    var after, n := WithState(players, id, player), TrackedAt(players, other);
    assert forall k :: 0 <= k < |players| ==> after[k].id == players[k].id;
    if n < |players| {
      TrackedHere(after, other, n);
    } else {
      assert TrackedAt(after, other) == |players|;
    }
  }

  /** The player is tracked, and nobody outside `others` is warmer. */
  ghost predicate TrackedWithin(players: seq<Tracked>, id: Id, others: set<Id>) {
    StateOf(players, id).Some? && WarmerThan(players, TrackedAt(players, id)) <= others
  }

  /** The player as it calls: the one tracked, or a new one. */
  function Caller(s: ServiceState, id: Id, now: millis): Player {
    match StateOf(s.players, id)
    case Some(player) => player
    case None => NewPlayer(s.limits.mutationsPerMinute, now)
  }

  /** A call leaves its own player the warmest, rewritten as `PerformPlayers` says. */
  lemma OwnCall(writer: Writer, at: Served, c: Call) returns (next: Player)
    requires ValidPlayers(at.service.players) && AllTruthful(at.service.players)
    ensures var st, player := ServeOne(writer, at, c), Caller(at.service, c.actor.id, c.host.now);
      && TrackedWithin(st.service.players, c.actor.id, {})
      && StateOf(st.service.players, c.actor.id) == Some(next)
      && ValidKept(player.kept)
      && (Fresh(st.result) ==>
           next.kept == Remember(player.kept, c.request.operationId, Cached(c.request, st.result, false)))
      && (!Fresh(st.result) ==> SameResults(player.kept, next.kept))
      && next.bucket == (if IsCharged(at.service, c) then TryConsume(player.bucket, c.host.now).0 else player.bucket)
      && (Fresh(st.result) ==> IsCharged(at.service, c) && TryConsume(player.bucket, c.host.now).1)
  {
    hide Perform, ValidPlayers, AllTruthful, ValidKept, Truthful, SameResults, Remember, Touch, WithState, TryConsume,
      IsCharged, NewPlayer;
    var s, id := at.service, c.actor.id;
    TouchedFacts(s, id, c.host.now);
    TouchKeeps(s.players, id, c.host.now, s.limits.mutationsPerMinute);
    var touched := Touched(s, id, c.host.now).0;
    next := PerformPlayers(writer, s, at.file, c.actor, c.request, c.host);
    WithStateOrder(touched, id, next, id);
    assert WarmerThan(touched, |touched| - 1) == {};
    RewrittenState(touched, id, next);
  }

  // The window.

  /** The result sits `later` places from the newest, and nobody outside `others` is warmer. */
  ghost predicate InWindow(players: seq<Tracked>, id: Id, r: Request, result: MutationResult, later: nat,
      others: set<Id>) {
    && StateOf(players, id).Some?
    && WarmerThan(players, TrackedAt(players, id)) <= others
    && KeptBack(StateOf(players, id).value.kept, r, result, later)
  }

  ghost predicate KeptBack(kept: seq<Kept>, r: Request, result: MutationResult, later: nat) {
    && later < |kept|
    && var entry := kept[|kept| - 1 - later];
       entry.operationId == r.operationId && entry.cached.request == r && entry.cached.result == result
  }

  lemma RememberPushesBack(kept: seq<Kept>, r: Request, result: MutationResult, later: nat, op: Id, cached: Cached)
    requires KeptBack(kept, r, result, later) && |kept| <= RESULTS_PER_PLAYER && later + 1 < RESULTS_PER_PLAYER
    ensures KeptBack(Remember(kept, op, cached), r, result, later + 1)
  {
  }

  lemma AuditKeepsBack(kept: seq<Kept>, after: seq<Kept>, r: Request, result: MutationResult, later: nat)
    requires KeptBack(kept, r, result, later) && SameResults(kept, after)
    ensures KeptBack(after, r, result, later)
  {
  }

  /** A call by the player itself makes it the warmest again: nobody has called since. */
  lemma OwnCallKeepsWindow(writer: Writer, at: Served, c: Call, id: Id, r: Request, result: MutationResult,
      later: nat, others: set<Id>)
    requires ValidPlayers(at.service.players) && AllTruthful(at.service.players)
    requires InWindow(at.service.players, id, r, result, later, others) && c.actor.id == id
    requires Fresh(ServeOne(writer, at, c).result) ==> later + 1 < RESULTS_PER_PLAYER
    ensures var st := ServeOne(writer, at, c);
      InWindow(st.service.players, id, r, result, if Fresh(st.result) then later + 1 else later, {})
  {
    hide ServeOne, ValidPlayers, AllTruthful, ValidKept, KeptBack, SameResults, Remember, Touched, StateOf, WarmerThan,
      IsCharged, TryConsume;
    var player := StateOf(at.service.players, id).value;
    var next := OwnCall(writer, at, c);
    assert |player.kept| <= RESULTS_PER_PLAYER by { KeptBounded(player); }
    var st := ServeOne(writer, at, c);
    if Fresh(st.result) {
      RememberPushesBack(player.kept, r, result, later, c.request.operationId, Cached(c.request, st.result, false));
    } else {
      AuditKeepsBack(player.kept, next.kept, r, result, later);
    }
  }

  lemma KeptBounded(player: Player)
    requires ValidKept(player.kept)
    ensures |player.kept| <= RESULTS_PER_PLAYER
  {
  }

  lemma RewrittenState(players: seq<Tracked>, id: Id, player: Player)
    requires StateOf(players, id).Some?
    ensures StateOf(WithState(players, id, player), id) == Some(player)
  {
    TrackedHere(WithState(players, id, player), id, TrackedAt(players, id));
  }

  /** A call by another player pushes this one back by at most that other, and changes nothing of it. */
  lemma OtherCallKeepsTracked(writer: Writer, at: Served, c: Call, id: Id, others: set<Id>)
    requires ValidPlayers(at.service.players) && AllTruthful(at.service.players)
    requires TrackedWithin(at.service.players, id, others)
    requires c.actor.id != id && c.actor.id in others && |others| < MAX_TRACKED_PLAYERS
    ensures var after := ServeOne(writer, at, c).service.players;
      TrackedWithin(after, id, others) && StateOf(after, id) == StateOf(at.service.players, id)
  {
    hide Perform, ValidPlayers, AllTruthful, ValidKept, Truthful, SameResults, Remember, Touch, WithState, StateOf,
      TryConsume, IsCharged;
    var s, other := at.service, c.actor.id;
    assert TrackedAt(s.players, id) < |s.players| by { TrackedHasState(s.players, id); }
    var warmer := WarmerThan(s.players, TrackedAt(s.players, id));
    SubsetSize(warmer + {other}, others);
    TouchByOther(s.players, id, other, c.host.now, s.limits.mutationsPerMinute);
    var touched := Touched(s, other, c.host.now).0;
    assert TrackedAt(touched, id) < |touched| by { TrackedHasState(touched, id); }
    var next := PerformPlayers(writer, s, at.file, c.actor, c.request, c.host);
    WithStateOrder(touched, other, next, id);
  }

  lemma OtherCallKeepsWindow(writer: Writer, at: Served, c: Call, id: Id, r: Request, result: MutationResult,
      later: nat, others: set<Id>)
    requires ValidPlayers(at.service.players) && AllTruthful(at.service.players)
    requires InWindow(at.service.players, id, r, result, later, others)
    requires c.actor.id != id && c.actor.id in others && |others| < MAX_TRACKED_PLAYERS
    ensures InWindow(ServeOne(writer, at, c).service.players, id, r, result, later, others)
  {
    hide ServeOne, ValidPlayers, AllTruthful, KeptBack, StateOf;
    OtherCallKeepsTracked(writer, at, c, id, others);
  }

  lemma TrackedHasState(players: seq<Tracked>, id: Id)
    ensures StateOf(players, id).Some? <==> TrackedAt(players, id) < |players|
  {
  }

  lemma {:induction false} ServeKeepsWindow(writer: Writer, start: Served, calls: seq<Call>, id: Id, r: Request,
      result: MutationResult)
    requires ValidPlayers(start.service.players) && AllTruthful(start.service.players)
    requires InWindow(start.service.players, id, r, result, 0, {})
    requires NeverCrowded(calls, id) && AppliedBy(writer, start, calls, id) < 128
    ensures var end := Serve(writer, start, calls);
      && ValidPlayers(end.service.players) && AllTruthful(end.service.players)
      && InWindow(end.service.players, id, r, result, AppliedBy(writer, start, calls, id), SinceOwn(calls, id))
  {
    hide Perform, ValidPlayers, AllTruthful, InWindow, NeverCrowded;
    if calls != [] {
      var front, last := calls[..|calls| - 1], calls[|calls| - 1];
      CrowdedLast(calls, id);
      ServeKeepsWindow(writer, start, front, id, r, result);
      var at := Serve(writer, start, front);
      MutatePlayers(writer, at.service, at.file, last.actor, last.request, last.host);
      var later := AppliedBy(writer, start, front, id);
      if last.actor.id == id {
        OwnCallKeepsWindow(writer, at, last, id, r, result, later, SinceOwn(front, id));
      } else {
        WindowWidens(at.service.players, id, r, result, later, SinceOwn(front, id), SinceOwn(calls, id));
        OtherCallKeepsWindow(writer, at, last, id, r, result, later, SinceOwn(calls, id));
      }
    }
  }

  lemma WindowWidens(players: seq<Tracked>, id: Id, r: Request, result: MutationResult, later: nat, others: set<Id>,
      more: set<Id>)
    requires InWindow(players, id, r, result, later, others) && others <= more
    ensures InWindow(players, id, r, result, later, more)
  {
    hide KeptBack;
  }

  /**
    The retry window: once a request is applied, whatever else is served in between within the
    bounds, asking again - from the same player, under the same operation id - gives the stored
    result marked replayed if it is the same request, a refusal if any field differs, and moves neither the
    catalog, the file nor the player's budget.
   */
  lemma RetryWindow(writer: Writer, before: Served, first: Call, calls: seq<Call>, again: Call)
    requires ValidPlayers(before.service.players) && AllTruthful(before.service.players)
    requires Fresh(ServeOne(writer, before, first).result)
    requires again.actor.id == first.actor.id && again.request.operationId == first.request.operationId
    requires var st := ServeOne(writer, before, first);
      && NeverCrowded(calls, first.actor.id)
      && AppliedBy(writer, Served(st.service, st.file), calls, first.actor.id) < 128
    ensures var st := ServeOne(writer, before, first);
      var end := Serve(writer, Served(st.service, st.file), calls);
      var retried := ServeOne(writer, end, again);
      && retried.service.catalog == end.service.catalog && retried.file == end.file
      && BudgetOf(retried.service, first.actor.id) == BudgetOf(end.service, first.actor.id)
      && retried.result == (if SameAsk(first.request, again.request) then st.result.(replayed := true)
                            else Reject(again.request.operationId, end.service.catalog.revision, InvalidRequest))
  {
    hide Perform, ValidPlayers, AllTruthful, SameAsk, Serve, AppliedBy, NeverCrowded, KeptBack, StateOf;
    var id, r := first.actor.id, first.request;
    var st := ServeOne(writer, before, first);
    var start := Served(st.service, st.file);
    FreshOpensWindow(writer, before, first);
    MutatePlayers(writer, before.service, before.file, first.actor, r, first.host);
    ServeKeepsWindow(writer, start, calls, id, r, st.result);
    var end := Serve(writer, start, calls);
    var later := AppliedBy(writer, start, calls, id);
    KeptIsRecalled(end.service.players, id, r, st.result, later);
    var recalled := Recall(StateOf(end.service.players, id).value.kept, r.operationId).value;
    RetryReplays(writer, end.service, end.file, again.actor, again.request, again.host, recalled);
  }

  function BudgetOf(s: ServiceState, id: Id): Option<Bucket> {
    match StateOf(s.players, id)
    case Some(player) => Some(player.bucket)
    case None => None
  }

  lemma KeptIsRecalled(players: seq<Tracked>, id: Id, r: Request, result: MutationResult, later: nat)
    requires ValidPlayers(players) && StateOf(players, id).Some?
    requires KeptBack(StateOf(players, id).value.kept, r, result, later)
    ensures var recalled := Recall(StateOf(players, id).value.kept, r.operationId);
      recalled.Some? && recalled.value.request == r && recalled.value.result == result
  {
    var kept := StateOf(players, id).value.kept;
    assert ValidKept(kept);
    assert KeptAt(kept, r.operationId) == |kept| - 1 - later;
  }

  lemma FreshOpensWindow(writer: Writer, before: Served, first: Call)
    requires ValidPlayers(before.service.players) && AllTruthful(before.service.players)
    requires Fresh(ServeOne(writer, before, first).result)
    ensures var st := ServeOne(writer, before, first);
      InWindow(st.service.players, first.actor.id, first.request, st.result, 0, {})
  {
    hide ServeOne, ValidPlayers, AllTruthful, ValidKept, SameResults, StateOf, WarmerThan, IsCharged, TryConsume, Caller;
    var next := OwnCall(writer, before, first);
  }
}
