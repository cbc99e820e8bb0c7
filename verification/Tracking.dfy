/** The retained results of one player, and every tracked player in order of last use, as objects. */
module Tracking {
  import opened Prelude
  import opened Identity
  import opened Proto
  import opened Catalogs
  import opened Buckets
  import opened Players
  import Mutations

  /** The results in the order they were retained. */
  function KeptOf(order: seq<Id>, results: map<Id, Cached>): (kept: seq<Kept>)
    requires forall k :: 0 <= k < |order| ==> order[k] in results
    ensures |kept| == |order|
    ensures forall k :: 0 <= k < |order| ==> kept[k] == Kept(order[k], results[order[k]])
  {
    seq(|order|, k requires 0 <= k < |order| => Kept(order[k], results[order[k]]))
  }

  ghost predicate Lists(order: seq<Id>, keys: set<Id>) {
    && (forall i, j :: 0 <= i < j < |order| ==> order[i] != order[j])
    && (forall k :: 0 <= k < |order| ==> order[k] in keys)
    && (forall id :: id in keys ==> id in order)
  }

  lemma DropOldest(order: seq<Id>, results: map<Id, Cached>)
    requires order != [] && Lists(order, results.Keys)
    ensures Lists(order[1..], (results - {order[0]}).Keys)
    ensures KeptOf(order[1..], results - {order[0]}) == KeptOf(order, results)[1..]
  {
  }

  lemma AppendNewest(order: seq<Id>, results: map<Id, Cached>, op: Id, cached: Cached)
    requires op !in results && Lists(order, results.Keys)
    ensures Lists(order + [op], results[op := cached].Keys)
    ensures KeptOf(order + [op], results[op := cached]) == KeptOf(order, results) + [Kept(op, cached)]
  {
    assert op in order + [op] by { assert (order + [op])[|order|] == op; }
    forall id | id in results.Keys
      ensures id in order + [op]
    {
      var k :| 0 <= k < |order| && order[k] == id;
      assert (order + [op])[k] == id;
    }
  }

  /** One player's retained results and mutation budget. */
  class PlayerState {
    var results: map<Id, Cached>
    var order: seq<Id>
    const bucket: MutationBucket

    /** The order lists each retained result exactly once, and no more than the cap. */
    ghost predicate Valid()
      reads this, bucket
    {
      |order| <= RESULTS_PER_PLAYER && Lists(order, results.Keys) && bucket.View().Valid()
    }

    ghost function View(): (p: Player)
      requires Valid()
      reads this, bucket
      ensures ValidKept(p.kept) && p.bucket.Valid()
    {
      Player(KeptOf(order, results), bucket.View())
    }

    constructor (perMinute: nat, now: millis)
      ensures Valid() && View() == NewPlayer(perMinute, now) && fresh(bucket)
    {
      results := map[];
      order := [];
      bucket := new MutationBucket(MUTATION_BURST, perMinute, now);
      new;
      assert KeptOf(order, results) == [];
    }

    /** Retains an applied result, dropping the oldest once the cap is reached. */
    method Remember(op: Id, request: Request, result: MutationResult)
      requires Valid() && op !in results
      modifies this`results, this`order
      ensures Valid()
      ensures View() == old(View()).(kept := Players.Remember(old(View().kept), op, Cached(request, result, false)))
    {
      hide Lists, KeptOf;
      if |order| >= RESULTS_PER_PLAYER {
        DropOldest(order, results);
        var oldest := order[0];
        order := order[1..];
        results := results - {oldest};
      }
      AppendNewest(order, results, op, Cached(request, result, false));
      order := order + [op];
      results := results[op := Cached(request, result, false)];
    }

    /** Resolves a retried operation, or reports a reused id as a conflict, audited once. */
    method Replay(request: Request, revision: i64) returns (r: Option<MutationResult>)
      requires Valid()
      modifies this`results
      ensures Valid() && (r, View()) == ReplayDecision(old(View()), request, revision)
      ensures r.None? ==> request.operationId !in results
    {
      var op := request.operationId;
      ghost var before := View().kept;
      assert op in results <==> KeptAt(before, op) < |before|;
      if op !in results {
        return None;
      }
      ghost var n := KeptAt(before, op);
      var cached := results[op];
      assert before[n] == Kept(op, cached);
      if Matches(cached.request, request) {
        return Some(cached.result.(replayed := true));
      }
      if !cached.collisionAudited {
        results := results[op := cached.(collisionAudited := true)];
      }
      assert KeptOf(order, results) == before[n := Kept(op, cached.(collisionAudited := true))];
      return Some(Reject(op, revision, InvalidRequest));
    }
  }

  // The tracked players, over their order and their states.

  lemma {:induction false} ListsCount(order: seq<Id>, keys: set<Id>)
    requires Lists(order, keys)
    ensures |keys| == |order|
  {
    if order == [] {
      assert keys == {};
    } else {
      var n := |order| - 1;
      forall id | id in keys - {order[n]}
        ensures id in order[..n]
      {
        var k :| 0 <= k < |order| && order[k] == id;
        assert order[..n][k] == id;
      }
      ListsCount(order[..n], keys - {order[n]});
    }
  }

  lemma ListsWithout(order: seq<Id>, keys: set<Id>, n: nat)
    requires Lists(order, keys) && n < |order|
    ensures Lists(order[..n] + order[n + 1..], keys - {order[n]})
  {
    var rest := order[..n] + order[n + 1..];
    forall id | id in keys - {order[n]}
      ensures id in rest
    {
      var k :| 0 <= k < |order| && order[k] == id;
      assert rest[if k < n then k else k - 1] == id;
    }
  }

  lemma ListsTail(order: seq<Id>, keys: set<Id>)
    requires Lists(order, keys) && order != []
    ensures Lists(order[1..], keys - {order[0]})
  {
    hide Lists;
    ListsWithout(order, keys, 0);
    assert order[..0] + order[1..] == order[1..];
  }

  lemma ListsWith(order: seq<Id>, keys: set<Id>, id: Id)
    requires Lists(order, keys) && id !in keys
    ensures Lists(order + [id], keys + {id})
  {
    forall other | other in keys + {id}
      ensures other in order + [id]
    {
      if other == id {
        assert (order + [id])[|order|] == id;
      } else {
        var k :| 0 <= k < |order| && order[k] == other;
        assert (order + [id])[k] == other;
      }
    }
  }

  /** No two players share their state or their budget. */
  ghost predicate Separate(states: map<Id, PlayerState>) {
    forall a, b :: a in states && b in states && a != b ==> states[a] != states[b] && states[a].bucket != states[b].bucket
  }

  ghost function ReprOf(states: map<Id, PlayerState>): set<object> {
    (set id | id in states :: states[id]) + (set id | id in states :: states[id].bucket)
  }

  lemma ReprWith(states: map<Id, PlayerState>, id: Id, player: PlayerState)
    ensures ReprOf(states[id := player]) <= ReprOf(states) + {player, player.bucket}
  {
  }

  lemma ReprWithout(states: map<Id, PlayerState>, id: Id)
    ensures ReprOf(states - {id}) <= ReprOf(states)
  {
  }

  /** A touch of these players, by what it has to do. */
  lemma TouchCases(players: seq<Tracked>, id: Id, now: millis, perMinute: nat)
    ensures var n, touched := TrackedAt(players, id), Touch(players, id, now, perMinute);
      var newcomer := Tracked(id, NewPlayer(perMinute, now));
      && (n < |players| ==> touched == players[..n] + players[n + 1..] + [players[n]])
      && (n == |players| >= MAX_TRACKED_PLAYERS ==> touched == players[1..] + [newcomer])
      && (n == |players| < MAX_TRACKED_PLAYERS ==> touched == players + [newcomer])
  {
    hide TrackedAt, NewPlayer;
  }

  ghost predicate StatesValid(states: map<Id, PlayerState>)
    reads ReprOf(states)
  {
    forall id :: id in states ==> states[id].Valid()
  }

  ghost function ViewOf(order: seq<Id>, states: map<Id, PlayerState>): (players: seq<Tracked>)
    requires StatesValid(states) && forall k :: 0 <= k < |order| ==> order[k] in states
    reads ReprOf(states)
    ensures |players| == |order|
    ensures forall k :: 0 <= k < |order| ==> players[k] == Tracked(order[k], states[order[k]].View())
  {
    if order == [] then []
    else ViewOf(order[..|order| - 1], states) + [Tracked(order[|order| - 1], states[order[|order| - 1]].View())]
  }

  /** Nothing shared, everything listed once, within the cap. */
  ghost predicate Sound(order: seq<Id>, states: map<Id, PlayerState>)
    reads ReprOf(states)
  {
    |order| <= MAX_TRACKED_PLAYERS && Lists(order, states.Keys) && Separate(states) && StatesValid(states)
  }

  lemma FewerStates(states: map<Id, PlayerState>, id: Id)
    requires Separate(states) && StatesValid(states)
    ensures Separate(states - {id}) && StatesValid(states - {id})
  {
  }

  lemma MoreStates(states: map<Id, PlayerState>, id: Id, player: PlayerState)
    requires Separate(states) && StatesValid(states) && player.Valid()
    requires forall a :: a in states ==> states[a] != player && states[a].bucket != player.bucket
    ensures Separate(states[id := player]) && StatesValid(states[id := player])
  {
  }

  lemma SameView(order: seq<Id>, states: map<Id, PlayerState>, other: map<Id, PlayerState>)
    requires StatesValid(states) && StatesValid(other)
    requires forall k :: 0 <= k < |order| ==> order[k] in states && order[k] in other && states[order[k]] == other[order[k]]
    ensures ViewOf(order, states) == ViewOf(order, other)
  {
    hide StatesValid, ViewOf;
  }

  lemma ViewOfPart(order: seq<Id>, states: map<Id, PlayerState>, n: nat)
    requires StatesValid(states) && n < |order| && forall k :: 0 <= k < |order| ==> order[k] in states
    ensures ViewOf(order[..n] + order[n + 1..], states) == ViewOf(order, states)[..n] + ViewOf(order, states)[n + 1..]
  {
    hide StatesValid, PlayerState.View, PlayerState.Valid, ViewOf;
    var rest, view := order[..n] + order[n + 1..], ViewOf(order, states);
    var part := ViewOf(rest, states);
    forall k | 0 <= k < |rest|
      ensures part[k] == (view[..n] + view[n + 1..])[k]
    {
      assert rest[k] == order[if k < n then k else k + 1];
    }
  }

  lemma ViewOfTail(order: seq<Id>, states: map<Id, PlayerState>)
    requires StatesValid(states) && order != [] && forall k :: 0 <= k < |order| ==> order[k] in states
    ensures ViewOf(order[1..], states) == ViewOf(order, states)[1..]
  {
    hide StatesValid, PlayerState.View, PlayerState.Valid, ViewOf;
    ViewOfPart(order, states, 0);
    assert order[..0] + order[0 + 1..] == order[1..];
  }

  lemma ListedIn(order: seq<Id>, keys: set<Id>)
    requires Lists(order, keys)
    ensures forall k :: 0 <= k < |order| ==> order[k] in keys
  {
  }

  lemma EvictSound(order: seq<Id>, states: map<Id, PlayerState>)
    requires Sound(order, states) && order != []
    ensures Sound(order[1..], states - {order[0]})
    ensures ViewOf(order[1..], states - {order[0]}) == ViewOf(order, states)[1..]
  {
    hide Lists, Separate, StatesValid, ViewOf;
    var rest, fewer := order[1..], states - {order[0]};
    ListsTail(order, states.Keys);
    assert fewer.Keys == states.Keys - {order[0]};
    FewerStates(states, order[0]);
    ListedIn(order, states.Keys);
    ListedIn(rest, fewer.Keys);
    ViewOfTail(order, states);
    SameView(rest, fewer, states);
  }

  lemma MoveSound(order: seq<Id>, states: map<Id, PlayerState>, n: nat)
    requires Sound(order, states) && n < |order|
    ensures var moved := order[..n] + order[n + 1..] + [order[n]];
      && Sound(moved, states)
      && ViewOf(moved, states) == ViewOf(order, states)[..n] + ViewOf(order, states)[n + 1..] + [ViewOf(order, states)[n]]
  {
    hide Lists, Separate, StatesValid;
    var rest := order[..n] + order[n + 1..];
    ListedIn(order, states.Keys);
    ListsWithout(order, states.Keys, n);
    ListsWith(rest, states.Keys - {order[n]}, order[n]);
    assert states.Keys - {order[n]} + {order[n]} == states.Keys;
    ViewOfPart(order, states, n);
    assert (rest + [order[n]])[..|rest|] == rest;
  }

  lemma AdmitSound(order: seq<Id>, states: map<Id, PlayerState>, id: Id, player: PlayerState)
    requires Sound(order, states) && |order| < MAX_TRACKED_PLAYERS && id !in states && player.Valid()
    requires forall a :: a in states ==> states[a] != player && states[a].bucket != player.bucket
    ensures Sound(order + [id], states[id := player])
    ensures ViewOf(order + [id], states[id := player]) == ViewOf(order, states) + [Tracked(id, player.View())]
  {
    hide Lists, Separate, StatesValid;
    var more := states[id := player];
    ListsWith(order, states.Keys, id);
    assert more.Keys == states.Keys + {id};
    MoreStates(states, id, player);
    ListedIn(order, states.Keys);
    ListedIn(order + [id], more.Keys);
    SameView(order, states, more);
    assert (order + [id])[..|order|] == order;
  }

  /** The players are the ones listed, each as it looks now. */
  lemma ViewIs(order: seq<Id>, states: map<Id, PlayerState>, players: seq<Tracked>)
    requires |order| <= MAX_TRACKED_PLAYERS && Lists(order, states.Keys) && Separate(states) && StatesValid(states)
    requires |players| == |order|
    requires forall k :: 0 <= k < |order| ==> order[k] in states && players[k] == Tracked(order[k], states[order[k]].View())
    ensures Sound(order, states) && ViewOf(order, states) == players
  {
    hide Lists, Separate, StatesValid;
  }

  /** Every player with retained state, ordered by last use. */
  class TrackedPlayers {
    var order: seq<Id>
    var states: map<Id, PlayerState>

    ghost function Repr(): set<object>
      reads this
    {
      ReprOf(states)
    }

    /** The order lists each tracked player exactly once, and no more than the cap; nothing is shared. */
    ghost predicate Valid()
      reads this, Repr()
    {
      Sound(order, states)
    }

    /** The tracked players, the coldest first. */
    ghost function View(): (players: seq<Tracked>)
      requires Valid()
      reads this, Repr()
    {
      ViewOf(order, states)
    }

    constructor ()
      ensures Valid() && View() == [] && Repr() == {}
    {
      order := [];
      states := map[];
    }

    lemma {:induction false} NotAState(states: map<Id, PlayerState>)
      ensures this !in ReprOf(states)
    {
    }

    /** Where this player stands in the order, or its length. */
    method Position(id: Id) returns (n: nat)
      requires Valid()
      ensures Valid() && View() == old(View()) && n == TrackedAt(View(), id) <= |order|
      ensures n < |order| ==> order[n] == id
      ensures n < |order| <==> id in states
    {
      n := 0;
      while n < |order| && order[n] != id
        invariant 0 <= n <= |order| && forall k :: 0 <= k < n ==> order[k] != id
      {
        n := n + 1;
      }
      if n < |order| {
        TrackedHere(View(), id, n);
      }
    }

    lemma {:induction false} CountStates()
      requires Valid()
      ensures |states| == |order| == |View()| <= MAX_TRACKED_PLAYERS
    {
      ListsCount(order, states.Keys);
    }

    /** Forgets the player used longest ago. */
    method EvictColdest()
      requires Valid() && order != []
      modifies this
      ensures Valid() && View() == old(View())[1..]
      ensures states == old(states) - {old(order[0])} && order == old(order)[1..]
    {
      hide Sound, Lists, Separate, StatesValid, ViewOf, ReprOf;
      NotAState(states - {order[0]});
      EvictSound(order, states);
      var evicted := order[0];
      order := order[1..];
      states := states - {evicted};
    }

    /** Starts tracking a player, as the one used last. */
    method Insert(id: Id, player: PlayerState)
      requires Valid() && |order| < MAX_TRACKED_PLAYERS && id !in states && player.Valid()
      requires forall a :: a in states ==> states[a] != player && states[a].bucket != player.bucket
      modifies this
      ensures Valid() && View() == old(View()) + [Tracked(id, player.View())]
      ensures states == old(states)[id := player]
    {
      hide Sound, Lists, Separate, StatesValid, ViewOf, ReprOf;
      AdmitSound(order, states, id, player);
      NotAState(states[id := player]);
      order := order + [id];
      states := states[id := player];
    }

    /** Marks a tracked player as most recently used. */
    method Move(n: nat)
      requires Valid() && n < |order|
      modifies this`order
      ensures Valid() && View() == old(View()[..n] + View()[n + 1..] + [View()[n]])
    {
      hide Sound, Lists, Separate, StatesValid, ViewOf, ReprOf;
      NotAState(states);
      MoveSound(order, states, n);
      var id := order[n];
      order := order[..n] + order[n + 1..];
      order := order + [id];
    }

    /** Starts tracking a player nobody knew, as the one used last. */
    method Create(id: Id, now: millis, perMinute: nat) returns (player: PlayerState)
      requires Valid() && |order| < MAX_TRACKED_PLAYERS && id !in states
      modifies this
      ensures Valid() && View() == old(View()) + [Tracked(id, NewPlayer(perMinute, now))]
      ensures states == old(states)[id := player] && fresh(player) && fresh(player.bucket)
    {
      ghost var before := View();
      player := new PlayerState(perMinute, now);
      ViewIs(order, states, before);
      hide Sound, Lists, Separate, StatesValid, ViewOf, PlayerState.View, PlayerState.Valid;
      Insert(id, player);
    }

    /** The player's state, created if need be and marked as most recently used; the cap evicts the coldest. */
    method Touch(id: Id, now: millis, perMinute: nat) returns (player: PlayerState)
      requires Valid()
      modifies this
      ensures Valid() && View() == Players.Touch(old(View()), id, now, perMinute)
      ensures id in states && states[id] == player && fresh(Repr() - old(Repr()))
    {
      hide Sound, Lists, Separate, StatesValid, ViewOf, ReprOf, NewPlayer, TrackedAt, Players.Touch;
      CountStates();
      TouchCases(View(), id, now, perMinute);
      var n := Position(id);
      if n < |order| {
        Move(n);
        player := states[id];
      } else {
        if |states| >= MAX_TRACKED_PLAYERS {
          ReprWithout(states, order[0]);
          EvictColdest();
        }
        ghost var before := states;
        player := Create(id, now, perMinute);
        ReprWith(before, id, player);
      }
    }

    /** A tracked player's place and state. */
    lemma {:induction false} Looked(id: Id)
      requires Valid() && id in states
      ensures StateOf(View(), id) == Some(states[id].View())
      ensures var n := TrackedAt(View(), id); n < |order| && order[n] == id
    {
      var n :| 0 <= n < |order| && order[n] == id;
      TrackedHere(View(), id, n);
    }

    /** When one player's state has moved and no other's, the list has that one place rewritten. */
    lemma {:induction false} Rewritten(id: Id, before: seq<Tracked>, n: nat)
      requires |order| <= MAX_TRACKED_PLAYERS && Lists(order, states.Keys) && Separate(states) && StatesValid(states)
      requires |before| == |order| && n < |order| && order[n] == id && TrackedAt(before, id) == n
      requires forall k :: 0 <= k < |order| && k != n ==> order[k] in states && before[k] == Tracked(order[k], states[order[k]].View())
      ensures Valid() && View() == WithState(before, id, states[id].View())
    {
      ListedIn(order, states.Keys);
      assert states[id].Valid();
      hide Lists, Separate, StatesValid, TrackedAt;
      ViewIs(order, states, before[n := Tracked(id, states[id].View())]);
    }

    /** A request nobody has a result for leaves the players as they were. */
    lemma {:induction false} UnansweredKeeps(before: seq<Tracked>, id: Id, request: Request, revision: i64)
      requires StateOf(before, id).Some?
      ensures var (replay, after) := ReplayDecision(StateOf(before, id).value, request, revision);
        replay.None? ==> WithState(before, id, after) == before
    {
      hide WithState, StateOf, KeptAt, Matches;
      WithStateSame(before, id);
    }

    /** Resolves a retry by a tracked player. */
    method Replay(id: Id, request: Request, revision: i64) returns (r: Option<MutationResult>)
      requires Valid() && id in states
      modifies Repr()
      ensures Valid() && (r, View()) == (
        var (replay, after) := ReplayDecision(StateOf(old(View()), id).value, request, revision);
        (replay, WithState(old(View()), id, after)))
      ensures states == old(states) && (r.None? ==> View() == old(View()))
      ensures r.None? ==> request.operationId !in states[id].results
    {
      hide ReplayDecision, KeptOf, KeptAt, Matches;
      Looked(id);
      ghost var before, n := View(), TrackedAt(View(), id);
      var player := states[id];
      r := player.Replay(request, revision);
      Rewritten(id, before, n);
      UnansweredKeeps(before, id, request, revision);
    }

    /** Charges a tracked player one mutation. */
    method Charge(id: Id, now: millis) returns (ok: bool)
      requires Valid() && id in states
      modifies Repr()
      ensures Valid() && StateOf(old(View()), id).Some? && states == old(states)
      ensures var player := StateOf(old(View()), id).value;
        View() == WithState(old(View()), id, player.(bucket := TryConsume(player.bucket, now).0)) &&
        ok == TryConsume(player.bucket, now).1
      ensures states[id].results == old(states[id].results)
    {
      Looked(id);
      ghost var before, n := View(), TrackedAt(View(), id);
      var player := states[id];
      ConsumeConserves(player.bucket.View(), now);
      ok := player.bucket.Consume(now);
      Rewritten(id, before, n);
    }

    /** Retains an applied result of a tracked player. */
    method Retain(id: Id, request: Request, delta: Delta)
      requires Valid() && id in states && request.operationId !in states[id].results
      modifies Repr()
      ensures Valid() && View() == Mutations.Retain(old(View()), id, request, delta) && states == old(states)
    {
      Looked(id);
      ghost var before, n := View(), TrackedAt(View(), id);
      var player := states[id];
      player.Remember(request.operationId, request, Applied(request.operationId, delta));
      Rewritten(id, before, n);
    }
  }
}
