/**
  Token buckets, exactly: tokens are counted in sixty-thousandths, so that a rate of one token a
  minute adds one unit a millisecond and no refill is rounded.
 */
module Buckets {
  import opened Prelude

  const TOKEN := 60000

  /** The clock's reading: never before the epoch, though it may run backwards. */
  type millis = n: int | 0 <= n <= I64_MAX

  /** `rate` is tokens a minute, which is units a millisecond. */
  datatype Bucket = Bucket(capacity: nat, rate: nat, tokens: nat, lastMs: millis) {
    predicate Valid() {
      tokens <= capacity
    }
  }

  function FullBucket(tokens: nat, perMinute: nat, now: millis): (b: Bucket)
    ensures b.Valid()
  {
    Bucket(tokens * TOKEN, perMinute, tokens * TOKEN, now)
  }

  function Refill(b: Bucket, now: millis): Bucket {
    if now > b.lastMs then b.(tokens := Min(b.capacity, b.tokens + (now - b.lastMs) * b.rate), lastMs := now) else b
  }

  /** Takes one token if there is one. */
  function TryConsume(b: Bucket, now: millis): (Bucket, bool) {
    var refilled := Refill(b, now);
    if refilled.tokens < TOKEN then (refilled, false) else (refilled.(tokens := refilled.tokens - TOKEN), true)
  }

  /** What a run of attempts leaves, and how many of them succeeded. */
  function Attempts(b: Bucket, times: seq<millis>): (Bucket, nat) {
    if times == [] then (b, 0)
    else
      var (before, n) := Attempts(b, times[..|times| - 1]);
      var (after, ok) := TryConsume(before, times[|times| - 1]);
      (after, if ok then n + 1 else n)
  }

  function Latest(start: millis, times: seq<millis>): millis {
    if times == [] then start else Max(Latest(start, times[..|times| - 1]), times[|times| - 1])
  }

  lemma ConsumeConserves(b: Bucket, now: millis)
    requires b.Valid()
    ensures var (after, ok) := TryConsume(b, now);
      && after.Valid() && after.capacity == b.capacity && after.rate == b.rate
      && after.lastMs == Max(b.lastMs, now)
      && after.tokens + (if ok then TOKEN else 0) <= b.tokens + (after.lastMs - b.lastMs) * b.rate
  {
  }

  /**
    The rate bound, whatever the call times, clocks running backwards included: successes are paid
    for by what the bucket held and by what the latest time seen has refilled.
   */
  lemma {:induction false} RateBound(b: Bucket, times: seq<millis>)
    requires b.Valid()
    ensures var (after, n) := Attempts(b, times);
      && after.Valid() && after.capacity == b.capacity && after.rate == b.rate
      && after.lastMs == Latest(b.lastMs, times) >= b.lastMs
      && n * TOKEN + after.tokens <= b.tokens + (Latest(b.lastMs, times) - b.lastMs) * b.rate
  {
    hide TryConsume;
    if times != [] {
      var front, now := times[..|times| - 1], times[|times| - 1];
      RateBound(b, front);
      var before := Attempts(b, front).0;
      ConsumeConserves(before, now);
      var after := TryConsume(before, now).0;
      Distribute(after.lastMs - before.lastMs, before.lastMs - b.lastMs, b.rate);
    }
  }

  lemma Distribute(x: int, y: int, k: int)
    ensures (x + y) * k == x * k + y * k
  {
  }

  /** The bound is tight: a refusal means the bucket, refilled to now, held less than one token. */
  lemma RefusalMeansEmpty(b: Bucket, now: millis)
    requires b.Valid() && !TryConsume(b, now).1
    ensures b.capacity < TOKEN || b.tokens + Max(0, now - b.lastMs) * b.rate < TOKEN
  {
  }

  /** One connection's control budget. */
  class TokenBucket {
    const capacity: nat
    const rate: nat
    var tokens: nat
    var lastMs: millis

    function View(): Bucket
      reads this
    {
      Bucket(capacity, rate, tokens, lastMs)
    }

    /** A full bucket. */
    constructor (capacity: nat, perMinute: nat, now: millis)
      ensures View() == FullBucket(capacity, perMinute, now)
    {
      this.capacity := capacity * TOKEN;
      rate := perMinute;
      tokens := capacity * TOKEN;
      lastMs := now;
    }

    method Consume(now: millis) returns (ok: bool)
      modifies this
      ensures (View(), ok) == TryConsume(old(View()), now)
    {
      if now > lastMs {
        var elapsed: int := now - lastMs;
        tokens := Min(capacity, tokens + elapsed * rate);
        lastMs := now;
      }
      if tokens < TOKEN {
        return false;
      }
      tokens := tokens - TOKEN;
      return true;
    }
  }

  /** A player's mutation budget: its own class, because it belongs to the player, not to one socket. */
  class MutationBucket {
    const capacity: nat
    const rate: nat
    var tokens: nat
    var lastMs: millis

    function View(): Bucket
      reads this
    {
      Bucket(capacity, rate, tokens, lastMs)
    }

    constructor (capacity: nat, perMinute: nat, now: millis)
      ensures View() == FullBucket(capacity, perMinute, now)
    {
      this.capacity := capacity * TOKEN;
      rate := perMinute;
      tokens := capacity * TOKEN;
      lastMs := now;
    }

    method Consume(now: millis) returns (ok: bool)
      modifies this
      ensures (View(), ok) == TryConsume(old(View()), now)
    {
      if now > lastMs {
        var elapsed: int := now - lastMs;
        tokens := Min(capacity, tokens + elapsed * rate);
        lastMs := now;
      }
      if tokens < TOKEN {
        return false;
      }
      tokens := tokens - TOKEN;
      return true;
    }
  }
}
