/**
  Pacing over any traffic: while a player stays tracked, its applied changes are paid for by what its
  budget held and by the time that has passed, and its retries are free.
 */
module Pacing {
  import opened Prelude
  import opened Identity
  import opened Proto
  import opened Catalogs
  import opened Buckets
  import opened Players
  import opened Documents
  import opened Persistence
  import opened Mutations
  import opened MutationLaws
  import opened Acceptance
  import opened Retries

  /** When this player's charged calls came: neither retries nor calls it may not make are charged. */
  function ChargedTimes(writer: Writer, start: Served, calls: seq<Call>, id: Id): seq<millis> {
    if calls == [] then []
    else
      var front, last := calls[..|calls| - 1], calls[|calls| - 1];
      ChargedTimes(writer, start, front, id) +
        (if last.actor.id == id && IsCharged(Serve(writer, start, front).service, last) then [last.host.now] else [])
  }

  function BucketOf(players: seq<Tracked>, id: Id): Bucket
    requires StateOf(players, id).Some?
  {
    StateOf(players, id).value.bucket
  }

  /** A call by the player itself: one attempt if it is charged, and an applied change was a success. */
  lemma OwnCallPays(writer: Writer, at: Served, c: Call, id: Id)
    requires ValidPlayers(at.service.players) && AllTruthful(at.service.players)
    requires StateOf(at.service.players, id).Some? && c.actor.id == id
    ensures var st, before := ServeOne(writer, at, c), BucketOf(at.service.players, id);
      && TrackedWithin(st.service.players, id, {})
      && BucketOf(st.service.players, id) == (if IsCharged(at.service, c) then TryConsume(before, c.host.now).0 else before)
      && (Fresh(st.result) ==> IsCharged(at.service, c) && TryConsume(before, c.host.now).1)
  {
    hide ServeOne, ValidPlayers, AllTruthful, ValidKept, SameResults, Remember, StateOf, WarmerThan, IsCharged, TryConsume;
    var next := OwnCall(writer, at, c);
  }

  lemma AttemptsSnoc(b: Bucket, times: seq<millis>, now: millis)
    ensures Attempts(b, times + [now]).0 == TryConsume(Attempts(b, times).0, now).0
    ensures Attempts(b, times + [now]).1 == Attempts(b, times).1 + if TryConsume(Attempts(b, times).0, now).1 then 1 else 0
  {
    assert (times + [now])[..|times|] == times;
  }

  /** The player's budget is its bucket after exactly the charged attempts, successes no fewer than applied changes. */
  lemma {:induction false} ServePays(writer: Writer, start: Served, calls: seq<Call>, id: Id)
    requires ValidPlayers(start.service.players) && AllTruthful(start.service.players)
    requires TrackedWithin(start.service.players, id, {}) && NeverCrowded(calls, id)
    ensures var end, times := Serve(writer, start, calls), ChargedTimes(writer, start, calls, id);
      var (bucket, n) := Attempts(BucketOf(start.service.players, id), times);
      && ValidPlayers(end.service.players) && AllTruthful(end.service.players)
      && TrackedWithin(end.service.players, id, SinceOwn(calls, id))
      && BucketOf(end.service.players, id) == bucket && AppliedBy(writer, start, calls, id) <= n
  {
    hide Perform, ValidPlayers, AllTruthful, IsCharged, Attempts, StateOf, WarmerThan, NeverCrowded;
    var b := BucketOf(start.service.players, id);
    if calls == [] {
      AttemptsNone(b);
    } else {
      var front, last := calls[..|calls| - 1], calls[|calls| - 1];
      CrowdedLast(calls, id);
      ServePays(writer, start, front, id);
      var at := Serve(writer, start, front);
      MutatePlayers(writer, at.service, at.file, last.actor, last.request, last.host);
      var times := ChargedTimes(writer, start, front, id);
      assert times + [] == times;
      if last.actor.id == id {
        OwnCallPays(writer, at, last, id);
        AttemptsSnoc(b, times, last.host.now);
      } else {
        TrackedWidens(at.service.players, id, SinceOwn(front, id), SinceOwn(calls, id));
        OtherCallKeepsTracked(writer, at, last, id, SinceOwn(calls, id));
      }
    }
  }

  lemma AttemptsNone(b: Bucket)
    ensures Attempts(b, []) == (b, 0)
  {
  }

  lemma TrackedWidens(players: seq<Tracked>, id: Id, others: set<Id>, more: set<Id>)
    requires TrackedWithin(players, id, others) && others <= more
    ensures TrackedWithin(players, id, more)
  {
  }

  lemma TrackedBucketValid(players: seq<Tracked>, id: Id)
    requires ValidPlayers(players) && StateOf(players, id).Some?
    ensures BucketOf(players, id).Valid()
  {
  }

  /**
    The pace over any traffic that never crowds the player out: its applied changes
    cost at most the tokens it had and the refill up to the latest time it was charged at, whatever
    the clock does in between; retries and refused authors cost nothing.
   */
  lemma PaceHolds(writer: Writer, start: Served, calls: seq<Call>, id: Id)
    requires ValidPlayers(start.service.players) && AllTruthful(start.service.players)
    requires TrackedWithin(start.service.players, id, {}) && NeverCrowded(calls, id)
    ensures var before, times := BucketOf(start.service.players, id), ChargedTimes(writer, start, calls, id);
      AppliedBy(writer, start, calls, id) * TOKEN <= before.tokens + (Latest(before.lastMs, times) - before.lastMs) * before.rate
  {
    hide Serve, ChargedTimes, AppliedBy, Attempts, StateOf, ValidPlayers, AllTruthful, NeverCrowded;
    ServePays(writer, start, calls, id);
    var before := BucketOf(start.service.players, id);
    TrackedBucketValid(start.service.players, id);
    RateBound(before, ChargedTimes(writer, start, calls, id));
  }

  /**
    The pace of a player nobody knew: from its first call on, over any traffic that never crowds it out,
    it has at most ten changes applied, and one more for each of those a minute the service allows.
   */
  lemma PaceFromFirstCall(writer: Writer, at: Served, first: Call, calls: seq<Call>)
    requires ValidPlayers(at.service.players) && AllTruthful(at.service.players)
    requires StateOf(at.service.players, first.actor.id).None? && NeverCrowded(calls, first.actor.id)
    ensures var st, now := ServeOne(writer, at, first), first.host.now;
      var start := Served(st.service, st.file);
      var applied := (if Fresh(st.result) then 1 else 0) + AppliedBy(writer, start, calls, first.actor.id);
      applied * TOKEN <= 10 * TOKEN +
        (Latest(now, ChargedTimes(writer, start, calls, first.actor.id)) - now) * at.service.limits.mutationsPerMinute
  {
    hide ServeOne, AppliedBy, ChargedTimes, ValidPlayers, AllTruthful, ValidKept, SameResults, Remember, StateOf, WarmerThan,
      IsCharged, TryConsume, NeverCrowded, Latest;
    var next := OwnCall(writer, at, first);
    FirstCallPlayers(writer, at, first);
    var player := Caller(at.service, first.actor.id, first.host.now);
    ConsumeConserves(player.bucket, first.host.now);
    var st := ServeOne(writer, at, first);
    PaceHolds(writer, Served(st.service, st.file), calls, first.actor.id);
  }

  lemma FirstCallPlayers(writer: Writer, at: Served, first: Call)
    requires ValidPlayers(at.service.players) && AllTruthful(at.service.players)
    ensures var st := ServeOne(writer, at, first); ValidPlayers(st.service.players) && AllTruthful(st.service.players)
  {
    hide Perform, ValidPlayers, AllTruthful;
    MutatePlayers(writer, at.service, at.file, first.actor, first.request, first.host);
  }

  lemma {:induction false} AttemptsLeave(b: Bucket, times: seq<millis>)
    requires b.Valid()
    ensures Attempts(b, times).0.Valid() && Attempts(b, times).0.tokens >= b.tokens - |times| * TOKEN
  {
    hide TryConsume;
    if times != [] {
      var front, now := times[..|times| - 1], times[|times| - 1];
      AttemptsLeave(b, front);
      AttemptLeaves(Attempts(b, front).0, now);
    }
  }

  lemma AttemptLeaves(b: Bucket, now: millis)
    requires b.Valid()
    ensures Refill(b, now).tokens >= b.tokens
    ensures TryConsume(b, now).0.Valid() && TryConsume(b, now).0.tokens >= b.tokens - TOKEN
  {
  }

  /** The burst: a player nobody knew may make ten charged calls before one can find its budget empty, whatever the rate. */
  lemma TenAreFree(writer: Writer, at: Served, first: Call, calls: seq<Call>, next: Call)
    requires ValidPlayers(at.service.players) && AllTruthful(at.service.players)
    requires StateOf(at.service.players, first.actor.id).None? && NeverCrowded(calls, first.actor.id)
    requires next.actor.id == first.actor.id
    requires var st := ServeOne(writer, at, first);
      |ChargedTimes(writer, Served(st.service, st.file), calls, first.actor.id)| + 1 < 10
    ensures var st := ServeOne(writer, at, first);
      CanPay(Serve(writer, Served(st.service, st.file), calls).service, next.actor, next.host.now)
  {
    hide ServeOne, Serve, ChargedTimes, AppliedBy, ValidPlayers, AllTruthful, ValidKept, SameResults, Remember, StateOf,
      WarmerThan, IsCharged, TryConsume, NeverCrowded, Attempts, Refill;
    var player := Caller(at.service, first.actor.id, first.host.now);
    var own := OwnCall(writer, at, first);
    FirstCallPlayers(writer, at, first);
    AttemptLeaves(player.bucket, first.host.now);
    var st := ServeOne(writer, at, first);
    var start := Served(st.service, st.file);
    ServePays(writer, start, calls, first.actor.id);
    var times := ChargedTimes(writer, start, calls, first.actor.id);
    AttemptsLeave(own.bucket, times);
    AttemptLeaves(Attempts(own.bucket, times).0, next.host.now);
  }
}
