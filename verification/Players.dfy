/**
  What the service remembers about players, as a plain least-recently-used list: for each tracked
  player the applied results still retained, oldest first, and one mutation budget.
 */
module Players {
  import opened Prelude
  import opened Identity
  import opened Floats
  import opened Model
  import opened Proto
  import opened Catalogs
  import opened Buckets

  const RESULTS_PER_PLAYER := 128
  const MAX_TRACKED_PLAYERS := 256
  const MUTATION_BURST := 10

  datatype MutationError =
    | NoError
    | InvalidRequest
    | RevisionConflict
    | NotFound
    | Forbidden
    | WorldQuotaExceeded
    | PlayerQuotaExceeded
    | RateLimited
    | LocationTaken
    | PersistenceFailed
    | IdGenerationFailed

  datatype MutationResult = MutationResult(operationId: Id, applied: bool, error: MutationError, delta: Delta, replayed: bool)

  /** One retained applied mutation. */
  datatype Cached = Cached(request: Request, result: MutationResult, collisionAudited: bool)

  datatype Kept = Kept(operationId: Id, cached: Cached)

  datatype Player = Player(kept: seq<Kept>, bucket: Bucket)

  datatype Tracked = Tracked(id: Id, player: Player)

  // One player.

  function NewPlayer(perMinute: nat, now: millis): Player {
    Player([], FullBucket(MUTATION_BURST, perMinute, now))
  }

  /** Where this operation's result is kept, or the length. */
  function KeptAt(kept: seq<Kept>, op: Id): (n: nat)
    ensures n <= |kept|
    ensures n < |kept| ==> kept[n].operationId == op
    ensures forall k :: 0 <= k < n ==> kept[k].operationId != op
  {
    if kept == [] || kept[0].operationId == op then 0 else 1 + KeptAt(kept[1..], op)
  }

  function Recall(kept: seq<Kept>, op: Id): Option<Cached> {
    var n := KeptAt(kept, op);
    if n < |kept| then Some(kept[n].cached) else None
  }

  /** Retains an applied result, dropping the oldest once the cap is reached. */
  function Remember(kept: seq<Kept>, op: Id, cached: Cached): seq<Kept> {
    (if |kept| >= RESULTS_PER_PLAYER then kept[1..] else kept) + [Kept(op, cached)]
  }

  ghost predicate ValidKept(kept: seq<Kept>) {
    && |kept| <= RESULTS_PER_PLAYER
    && forall i, j :: 0 <= i < j < |kept| ==> kept[i].operationId != kept[j].operationId
  }

  // All tracked players, the coldest first.

  function TrackedAt(players: seq<Tracked>, id: Id): (n: nat)
    ensures n <= |players|
    ensures n < |players| ==> players[n].id == id
    ensures forall k :: 0 <= k < n ==> players[k].id != id
  {
    if players == [] || players[0].id == id then 0 else 1 + TrackedAt(players[1..], id)
  }

  function StateOf(players: seq<Tracked>, id: Id): Option<Player> {
    var n := TrackedAt(players, id);
    if n < |players| then Some(players[n].player) else None
  }

  /** Replaces a tracked player's state in place; a player who is not tracked has none. */
  function WithState(players: seq<Tracked>, id: Id, player: Player): (r: seq<Tracked>)
    ensures |r| == |players|
  {
    var n := TrackedAt(players, id);
    if n < |players| then players[n := Tracked(id, player)] else players
  }

  /** Marks a player as most recently used, creating it if needed; the cap evicts the coldest. */
  function Touch(players: seq<Tracked>, id: Id, now: millis, perMinute: nat): seq<Tracked> {
    var n := TrackedAt(players, id);
    if n < |players| then players[..n] + players[n + 1..] + [players[n]]
    else
      (if |players| >= MAX_TRACKED_PLAYERS then players[1..] else players) + [Tracked(id, NewPlayer(perMinute, now))]
  }

  ghost predicate ValidPlayers(players: seq<Tracked>) {
    && |players| <= MAX_TRACKED_PLAYERS
    && (forall i, j :: 0 <= i < j < |players| ==> players[i].id != players[j].id)
    && (forall k :: 0 <= k < |players| ==> ValidKept(players[k].player.kept) && players[k].player.bucket.Valid())
  }

  lemma TouchKeeps(players: seq<Tracked>, id: Id, now: millis, perMinute: nat)
    requires ValidPlayers(players)
    ensures var touched := Touch(players, id, now, perMinute);
      && ValidPlayers(touched)
      && touched != [] && touched[|touched| - 1].id == id
      && TrackedAt(touched, id) == |touched| - 1
      && (StateOf(players, id).Some? ==> StateOf(touched, id) == StateOf(players, id))
      && (StateOf(players, id).None? ==> StateOf(touched, id) == Some(NewPlayer(perMinute, now)))
  {
    hide ValidKept, NewPlayer;
    assert ValidKept(NewPlayer(perMinute, now).kept) && NewPlayer(perMinute, now).bucket.Valid() by { NewPlayerValid(perMinute, now); }
    var touched := Touch(players, id, now, perMinute);
    var last := |touched| - 1;
    assert forall k :: 0 <= k < last ==> touched[k].id != id;
  }

  lemma NewPlayerValid(perMinute: nat, now: millis)
    ensures ValidKept(NewPlayer(perMinute, now).kept) && NewPlayer(perMinute, now).bucket.Valid()
  {
  }

  lemma RememberKeeps(kept: seq<Kept>, op: Id, cached: Cached)
    requires ValidKept(kept) && Recall(kept, op).None?
    ensures ValidKept(Remember(kept, op, cached))
    ensures Recall(Remember(kept, op, cached), op) == Some(cached)
  {
    var r := Remember(kept, op, cached);
    var last := |r| - 1;
    assert r[last] == Kept(op, cached);
    assert forall k :: 0 <= k < last ==> r[k].operationId != op;
  }

  lemma WithStateKeeps(players: seq<Tracked>, id: Id, player: Player)
    requires ValidPlayers(players) && ValidKept(player.kept) && player.bucket.Valid()
    ensures ValidPlayers(WithState(players, id, player))
    ensures StateOf(players, id).Some? ==> StateOf(WithState(players, id, player), id) == Some(player)
  {
    hide ValidKept;
    var n := TrackedAt(players, id);
    if n < |players| {
      var r := WithState(players, id, player);
      assert r[n] == Tracked(id, player);
      TrackedHere(r, id, n);
    }
  }

  lemma WithStateSame(players: seq<Tracked>, id: Id)
    requires StateOf(players, id).Some?
    ensures WithState(players, id, StateOf(players, id).value) == players
  {
  }

  // How long a result and a player are retained.

  function RememberAll(kept: seq<Kept>, more: seq<Kept>): seq<Kept> {
    if more == [] then kept
    else
      var last := more[|more| - 1];
      Remember(RememberAll(kept, more[..|more| - 1]), last.operationId, last.cached)
  }

  /** A result survives fewer than 128 later ones: it just moves towards the front. */
  lemma {:induction false} ResultWindow(kept: seq<Kept>, op: Id, cached: Cached, more: seq<Kept>)
    requires ValidKept(kept) && Recall(kept, op).None? && |more| < RESULTS_PER_PLAYER
    ensures var r := RememberAll(Remember(kept, op, cached), more);
      && |r| <= RESULTS_PER_PLAYER && |r| > |more|
      && r[|r| - 1 - |more|] == Kept(op, cached)
  {
    if more != [] {
      ResultWindow(kept, op, cached, more[..|more| - 1]);
    }
  }

  /** The newest places all hold the later results, so none of them holds this one. */
  lemma {:induction false} NewestAreOthers(kept: seq<Kept>, op: Id, more: seq<Kept>, k: nat)
    requires forall i :: 0 <= i < |more| ==> more[i].operationId != op
    requires k < |RememberAll(kept, more)| && |RememberAll(kept, more)| - 1 - k < |more|
    ensures RememberAll(kept, more)[k].operationId != op
  {
    var n := |more| - 1;
    var before, r := RememberAll(kept, more[..n]), RememberAll(kept, more);
    if k < |r| - 1 {
      NewestAreOthers(kept, op, more[..n], k + |before| - (|r| - 1));
    }
  }

  lemma {:induction false} RememberAllBounded(kept: seq<Kept>, more: seq<Kept>)
    requires |kept| <= RESULTS_PER_PLAYER
    ensures |RememberAll(kept, more)| <= RESULTS_PER_PLAYER
  {
    if more != [] {
      RememberAllBounded(kept, more[..|more| - 1]);
    }
  }

  lemma RecallIs(kept: seq<Kept>, op: Id)
    ensures Recall(kept, op).Some? <==> exists k :: 0 <= k < |kept| && kept[k].operationId == op
  {
  }

  lemma RememberBounded(kept: seq<Kept>, op: Id, cached: Cached)
    requires ValidKept(kept)
    ensures |Remember(kept, op, cached)| <= RESULTS_PER_PLAYER
  {
  }

  /** The result window, exactly: a result is still there if and only if fewer than 128 others came after it. */
  lemma ResultWindowExact(kept: seq<Kept>, op: Id, cached: Cached, more: seq<Kept>)
    requires ValidKept(kept) && Recall(kept, op).None?
    requires forall k :: 0 <= k < |more| ==> more[k].operationId != op
    ensures Recall(RememberAll(Remember(kept, op, cached), more), op).Some? <==> |more| < 128
  {
    hide Remember, RememberAll, Recall, ValidKept;
    var start := Remember(kept, op, cached);
    var r := RememberAll(start, more);
    RememberBounded(kept, op, cached);
    RememberAllBounded(start, more);
    RecallIs(r, op);
    if |more| < RESULTS_PER_PLAYER {
      ResultWindow(kept, op, cached, more);
      assert r[|r| - 1 - |more|].operationId == op;
    } else {
      forall k | 0 <= k < |r|
        ensures r[k].operationId != op
      {
        NewestAreOthers(start, op, more, k);
      }
    }
  }

  datatype Use = Use(id: Id, now: millis)

  function TouchAll(players: seq<Tracked>, uses: seq<Use>, perMinute: nat): seq<Tracked> {
    if uses == [] then players
    else
      var last := uses[|uses| - 1];
      Touch(TouchAll(players, uses[..|uses| - 1], perMinute), last.id, last.now, perMinute)
  }

  function UsedBy(uses: seq<Use>): set<Id> {
    set u | u in uses :: u.id
  }

  /** The ids of the players that come after position `n`. */
  function WarmerThan(players: seq<Tracked>, n: nat): set<Id>
    requires n < |players|
  {
    set k | n < k < |players| :: players[k].id
  }

  lemma {:induction false} WarmerCount(players: seq<Tracked>, n: nat)
    requires ValidPlayers(players) && n < |players|
    ensures |WarmerThan(players, n)| == |players| - 1 - n
    decreases |players| - n
  {
    hide ValidKept;
    if n + 1 < |players| {
      WarmerCount(players, n + 1);
      assert WarmerThan(players, n) == WarmerThan(players, n + 1) + {players[n + 1].id};
      assert players[n + 1].id !in WarmerThan(players, n + 1);
    } else {
      assert WarmerThan(players, n) == {};
    }
  }

  lemma TrackedHere(players: seq<Tracked>, id: Id, n: nat)
    requires n < |players| && players[n].id == id && forall k :: 0 <= k < n ==> players[k].id != id
    ensures TrackedAt(players, id) == n
  {
  }

  /** The list with one place moved to the end. */
  function MovedLast(players: seq<Tracked>, m: nat): (moved: seq<Tracked>)
    requires m < |players|
    ensures |moved| == |players| && moved[|players| - 1] == players[m]
    ensures forall k :: 0 <= k < m ==> moved[k] == players[k]
    ensures forall k :: m <= k < |players| - 1 ==> moved[k] == players[k + 1]
  {
    players[..m] + players[m + 1..] + [players[m]]
  }

  lemma MovedWarmer(players: seq<Tracked>, n: nat, m: nat)
    requires n < |players| && m < |players| && n != m
    ensures WarmerThan(players, n) + {players[m].id} <= WarmerThan(MovedLast(players, m), if m < n then n - 1 else n)
  {
    hide MovedLast;
    var moved, n' := MovedLast(players, m), if m < n then n - 1 else n;
    forall x | x in WarmerThan(players, n)
      ensures x in WarmerThan(moved, n')
    {
      var k :| n < k < |players| && players[k].id == x;
      if k < m {
        assert moved[k].id == x;
      } else if k > m {
        assert moved[k - 1].id == x;
      } else {
        assert moved[|players| - 1].id == x;
      }
    }
  }

  lemma MovedAt(players: seq<Tracked>, id: Id, m: nat)
    requires TrackedAt(players, id) < |players| && m < |players| && players[m].id != id
    ensures TrackedAt(MovedLast(players, m), id) == if m < TrackedAt(players, id) then TrackedAt(players, id) - 1 else TrackedAt(players, id)
  {
    hide MovedLast;
    var n := TrackedAt(players, id);
    TrackedHere(MovedLast(players, m), id, if m < n then n - 1 else n);
  }

  lemma TouchMoves(players: seq<Tracked>, id: Id, now: millis, perMinute: nat)
    requires TrackedAt(players, id) < |players|
    ensures Touch(players, id, now, perMinute) == MovedLast(players, TrackedAt(players, id))
  {
  }

  lemma MovedWarmerWithin(players: seq<Tracked>, n: nat, m: nat)
    requires n < |players| && m < |players| && n != m
    ensures WarmerThan(MovedLast(players, m), if m < n then n - 1 else n) <= WarmerThan(players, n) + {players[m].id}
  {
    hide MovedLast;
    var moved, n' := MovedLast(players, m), if m < n then n - 1 else n;
    forall x | x in WarmerThan(moved, n')
      ensures x in WarmerThan(players, n) + {players[m].id}
    {
      var k :| n' < k < |moved| && moved[k].id == x;
      if k == |players| - 1 {
        assert x == players[m].id;
      } else {
        assert players[if k < m then k else k + 1].id == x;
      }
    }
  }

  /** What a touch by another player does when that player is already tracked. */
  lemma TouchByTracked(players: seq<Tracked>, id: Id, other: Id, now: millis, perMinute: nat)
    requires StateOf(players, id).Some? && other != id && StateOf(players, other).Some?
    ensures var touched := Touch(players, other, now, perMinute);
      && StateOf(touched, id) == StateOf(players, id)
      && WarmerThan(touched, TrackedAt(touched, id)) <= WarmerThan(players, TrackedAt(players, id)) + {other}
  {
    hide NewPlayer, MovedLast, WarmerThan, Touch;
    var n, m := TrackedAt(players, id), TrackedAt(players, other);
    TouchMoves(players, other, now, perMinute);
    MovedAt(players, id, m);
    MovedWarmerWithin(players, n, m);
  }

  /** What a touch by a player not tracked yet does, while there is room for this one. */
  lemma TouchByNewcomer(players: seq<Tracked>, id: Id, other: Id, now: millis, perMinute: nat)
    requires ValidPlayers(players) && StateOf(players, id).Some? && other != id
    requires StateOf(players, other).None?
    requires |players| >= MAX_TRACKED_PLAYERS ==> TrackedAt(players, id) > 0
    ensures var touched := Touch(players, other, now, perMinute);
      && StateOf(touched, id) == StateOf(players, id)
      && WarmerThan(touched, TrackedAt(touched, id)) <= WarmerThan(players, TrackedAt(players, id)) + {other}
  {
    hide NewPlayer, ValidKept;
    var n := TrackedAt(players, id);
    var touched := Touch(players, other, now, perMinute);
    var n' := if |players| >= MAX_TRACKED_PLAYERS then n - 1 else n;
    assert touched[n'] == players[n];
    TrackedHere(touched, id, n');
  }

  /** One touch by somebody else keeps a player whose warmer players leave room. */
  lemma TouchByOther(players: seq<Tracked>, id: Id, other: Id, now: millis, perMinute: nat)
    requires ValidPlayers(players) && StateOf(players, id).Some? && other != id
    requires |WarmerThan(players, TrackedAt(players, id)) + {other}| < MAX_TRACKED_PLAYERS
    ensures var touched := Touch(players, other, now, perMinute);
      && StateOf(touched, id) == StateOf(players, id)
      && WarmerThan(touched, TrackedAt(touched, id)) <= WarmerThan(players, TrackedAt(players, id)) + {other}
  {
    hide Touch;
    if StateOf(players, other).Some? {
      TouchByTracked(players, id, other, now, perMinute);
    } else {
      WarmerCount(players, TrackedAt(players, id));
      assert other !in WarmerThan(players, TrackedAt(players, id));
      TouchByNewcomer(players, id, other, now, perMinute);
    }
  }

  /**
    The tracking window: a player just used stays tracked, with its results and its spent budget,
    while fewer than 256 distinct other players are used, however often each.
   */
  lemma {:induction false} PlayerWindow(players: seq<Tracked>, id: Id, now: millis, uses: seq<Use>, perMinute: nat)
    requires ValidPlayers(players) && id !in UsedBy(uses) && |UsedBy(uses)| < MAX_TRACKED_PLAYERS
    ensures var start := Touch(players, id, now, perMinute);
      var end := TouchAll(start, uses, perMinute);
      && ValidPlayers(end)
      && StateOf(end, id).Some? && StateOf(end, id) == StateOf(start, id)
      && WarmerThan(end, TrackedAt(end, id)) <= UsedBy(uses)
  {
    hide Touch, ValidPlayers;
    TouchKeeps(players, id, now, perMinute);
    var start := Touch(players, id, now, perMinute);
    if uses == [] {
      assert WarmerThan(start, |start| - 1) == {};
    } else {
      var front, last := uses[..|uses| - 1], uses[|uses| - 1];
      assert uses == front + [last];
      assert UsedBy(uses) == UsedBy(front) + {last.id};
      SubsetSize(UsedBy(front), UsedBy(uses));
      PlayerWindow(players, id, now, front, perMinute);
      var before := TouchAll(start, front, perMinute);
      SubsetSize(WarmerThan(before, TrackedAt(before, id)) + {last.id}, UsedBy(uses));
      TouchByOther(before, id, last.id, last.now, perMinute);
      TouchKeeps(before, last.id, last.now, perMinute);
    }
  }

  /** A touch by another player, exactly: it makes that one warmer, or evicts this one when no room is left. */
  lemma TouchByOtherExact(players: seq<Tracked>, id: Id, other: Id, now: millis, perMinute: nat)
    requires ValidPlayers(players) && StateOf(players, id).Some? && other != id
    ensures var warmer, touched := WarmerThan(players, TrackedAt(players, id)), Touch(players, other, now, perMinute);
      if |warmer + {other}| < MAX_TRACKED_PLAYERS then
        StateOf(touched, id).Some? && WarmerThan(touched, TrackedAt(touched, id)) == warmer + {other}
      else StateOf(touched, id).None?
  {
    hide NewPlayer, ValidKept;
    var n, m := TrackedAt(players, id), TrackedAt(players, other);
    WarmerCount(players, n);
    if m < |players| {
      TouchTrackedExact(players, id, other, now, perMinute);
    } else {
      assert other !in WarmerThan(players, n);
      TouchNewcomerExact(players, id, other, now, perMinute);
    }
  }

  /** Touching a tracked player leaves everybody warmer than this one warmer still, and that player too. */
  lemma TouchTrackedKeepsWarmer(players: seq<Tracked>, id: Id, other: Id, now: millis, perMinute: nat)
    requires StateOf(players, id).Some? && other != id && StateOf(players, other).Some?
    requires StateOf(Touch(players, other, now, perMinute), id).Some?
    ensures var touched := Touch(players, other, now, perMinute);
      WarmerThan(players, TrackedAt(players, id)) + {other} <= WarmerThan(touched, TrackedAt(touched, id))
  {
    hide NewPlayer, MovedLast, WarmerThan, Touch;
    var n, m := TrackedAt(players, id), TrackedAt(players, other);
    TouchMoves(players, other, now, perMinute);
    MovedAt(players, id, m);
    MovedWarmer(players, n, m);
  }

  lemma TouchTrackedExact(players: seq<Tracked>, id: Id, other: Id, now: millis, perMinute: nat)
    requires ValidPlayers(players) && StateOf(players, id).Some? && other != id && StateOf(players, other).Some?
    ensures var warmer, touched := WarmerThan(players, TrackedAt(players, id)), Touch(players, other, now, perMinute);
      && |warmer + {other}| < MAX_TRACKED_PLAYERS
      && StateOf(touched, id).Some? && WarmerThan(touched, TrackedAt(touched, id)) == warmer + {other}
  {
    hide Touch, ValidPlayers;
    TouchByTracked(players, id, other, now, perMinute);
    TouchTrackedKeepsWarmer(players, id, other, now, perMinute);
    TouchKeeps(players, other, now, perMinute);
    var touched := Touch(players, other, now, perMinute);
    assert WarmerThan(touched, TrackedAt(touched, id)) == WarmerThan(players, TrackedAt(players, id)) + {other};
    WarmerCount(touched, TrackedAt(touched, id));
    assert |touched| <= MAX_TRACKED_PLAYERS by { TrackedBounded(touched); }
  }

  lemma TrackedBounded(players: seq<Tracked>)
    requires ValidPlayers(players)
    ensures |players| <= MAX_TRACKED_PLAYERS
  {
  }

  lemma AppendWarmer(players: seq<Tracked>, n: nat, last: Tracked)
    requires n < |players|
    ensures WarmerThan(players + [last], n) == WarmerThan(players, n) + {last.id}
  {
    var more := players + [last];
    assert more[|players|] == last;
    assert forall k :: 0 <= k < |players| ==> more[k] == players[k];
  }

  lemma TailWarmer(players: seq<Tracked>, n: nat)
    requires 1 <= n < |players|
    ensures WarmerThan(players[1..], n - 1) == WarmerThan(players, n)
  {
    var rest := players[1..];
    forall x | x in WarmerThan(players, n)
      ensures x in WarmerThan(rest, n - 1)
    {
      var k :| n < k < |players| && players[k].id == x;
      assert rest[k - 1].id == x;
    }
  }

  lemma TailAt(players: seq<Tracked>, id: Id)
    requires 1 <= TrackedAt(players, id) < |players|
    ensures TrackedAt(players[1..], id) == TrackedAt(players, id) - 1
  {
  }

  lemma AppendAt(players: seq<Tracked>, id: Id, last: Tracked)
    requires TrackedAt(players, id) < |players|
    ensures TrackedAt(players + [last], id) == TrackedAt(players, id)
  {
    TrackedHere(players + [last], id, TrackedAt(players, id));
  }

  lemma TouchNewcomerExact(players: seq<Tracked>, id: Id, other: Id, now: millis, perMinute: nat)
    requires ValidPlayers(players) && StateOf(players, id).Some? && other != id && StateOf(players, other).None?
    ensures var n, touched := TrackedAt(players, id), Touch(players, other, now, perMinute);
      if n == 0 && |players| >= MAX_TRACKED_PLAYERS then StateOf(touched, id).None?
      else StateOf(touched, id).Some? && WarmerThan(touched, TrackedAt(touched, id)) == WarmerThan(players, n) + {other}
  {
    hide NewPlayer, ValidKept, WarmerThan;
    var n, last := TrackedAt(players, id), Tracked(other, NewPlayer(perMinute, now));
    if |players| < MAX_TRACKED_PLAYERS {
      AppendAt(players, id, last);
      AppendWarmer(players, n, last);
    } else if n > 0 {
      TailAt(players, id);
      TailWarmer(players, n);
      AppendAt(players[1..], id, last);
      AppendWarmer(players[1..], n - 1, last);
    } else {
      ColdestIsEvicted(players, id, last);
    }
  }

  lemma ColdestIsEvicted(players: seq<Tracked>, id: Id, last: Tracked)
    requires ValidPlayers(players) && players != [] && players[0].id == id && last.id != id
    ensures TrackedAt(players[1..] + [last], id) == |players|
  {
    hide ValidKept;
    var touched := players[1..] + [last];
    assert forall k :: 0 <= k < |touched| ==> touched[k].id != id;
  }

  lemma TouchBringsNobodyElse(players: seq<Tracked>, id: Id, other: Id, now: millis, perMinute: nat)
    requires ValidPlayers(players) && StateOf(players, id).None? && other != id
    ensures StateOf(Touch(players, other, now, perMinute), id).None?
  {
    hide NewPlayer, ValidKept;
    var touched := Touch(players, other, now, perMinute);
    assert forall k :: 0 <= k < |touched| ==> touched[k].id != id;
  }

  /** The tracking window, exactly: the player is still tracked if and only if fewer than 256 others were used. */
  lemma {:induction false} PlayerWindowExact(players: seq<Tracked>, id: Id, now: millis, uses: seq<Use>, perMinute: nat)
    requires ValidPlayers(players) && id !in UsedBy(uses)
    ensures var end := TouchAll(Touch(players, id, now, perMinute), uses, perMinute);
      && ValidPlayers(end)
      && (StateOf(end, id).Some? <==> |UsedBy(uses)| < 256)
      && (StateOf(end, id).Some? ==> WarmerThan(end, TrackedAt(end, id)) == UsedBy(uses))
  {
    hide Touch, ValidPlayers;
    TouchKeeps(players, id, now, perMinute);
    var start := Touch(players, id, now, perMinute);
    if uses == [] {
      assert WarmerThan(start, |start| - 1) == {};
      assert UsedBy(uses) == {};
    } else {
      var front, last := uses[..|uses| - 1], uses[|uses| - 1];
      assert uses == front + [last];
      assert UsedBy(uses) == UsedBy(front) + {last.id};
      SubsetSize(UsedBy(front), UsedBy(uses));
      PlayerWindowExact(players, id, now, front, perMinute);
      var before := TouchAll(start, front, perMinute);
      TouchKeeps(before, last.id, last.now, perMinute);
      if StateOf(before, id).Some? {
        TouchByOtherExact(before, id, last.id, last.now, perMinute);
      } else {
        TouchBringsNobodyElse(before, id, last.id, last.now, perMinute);
      }
    }
  }

  lemma {:induction false} SubsetSize<T>(a: set<T>, b: set<T>)
    requires a <= b
    ensures |a| <= |b|
  {
    assert b == a + (b - a);
  }

  // Recognising a retry.

  /** Whether two bodies match field for field, coordinates compared as numbers. */
  predicate SameBody(a: Body, b: Body) {
    && a.name == b.name && a.dimensionId == b.dimensionId
    && Equal(a.x, b.x) && Equal(a.y, b.y) && Equal(a.z, b.z)
    && a.color == b.color && a.kind == b.kind
    && a.iconItemId == b.iconItemId && a.markerLabel == b.markerLabel
  }

  /** Whether two requests carry the same body; the operation id is the key, not compared. */
  predicate Matches(a: Request, b: Request) {
    match (a, b)
    case (Create(_, r, x), Create(_, s, y)) => r == s && SameBody(x, y)
    case (Update(_, i, r, x), Update(_, j, s, y)) => i == j && r == s && SameBody(x, y)
    case (Delete(_, i, r), Delete(_, j, s)) => i == j && r == s
    case _ => false
  }

  /**
    The same request sent again, as a whole: under some operation id, with coordinates that are the
    same doubles, and not one other field changed.
   */
  predicate SameAsk(a: Request, b: Request) {
    if a.Delete? || b.Delete? then a.Delete? && b == a.(operationId := b.operationId)
    else
      && b == a.(operationId := b.operationId, body := a.body.(x := b.body.x, y := b.body.y, z := b.body.z))
      && Equal(a.body.x, b.body.x) && Equal(a.body.y, b.body.y) && Equal(a.body.z, b.body.z)
  }

  /** What a match means: the comparison field by field accepts exactly the same request sent again. */
  lemma MatchesIff(a: Request, b: Request)
    ensures Matches(a, b) <==> SameAsk(a, b)
  {
    hide Equal;
  }

  /** The comparison of coordinates, for every pair of finite doubles, is that of the numbers they stand for. */
  lemma EqualIff(a: F64, b: F64)
    requires IsFinite(a) && IsFinite(b)
    ensures Equal(a, b) <==> Value(a) == Value(b)
  {
    hide Floats.Value;
  }

  /** The same request, sent again under any operation id, is recognised. */
  lemma RetryMatches(r: Request, op: Id)
    requires !r.Delete? ==> IsFinite(r.body.x) && IsFinite(r.body.y) && IsFinite(r.body.z)
    ensures Matches(r, r.(operationId := op))
  {
    hide Floats.Value;
  }

  function Reject(op: Id, revision: i64, error: MutationError): MutationResult {
    MutationResult(op, false, error, Noop(revision), false)
  }

  function Applied(op: Id, delta: Delta): MutationResult {
    MutationResult(op, true, NoError, delta, false)
  }

  /**
    Resolves a retried operation, or reports a reused id as a conflict, audited once; an operation
    this player has not applied is neither.
   */
  function ReplayDecision(player: Player, request: Request, revision: i64): (Option<MutationResult>, Player) {
    var op := request.operationId;
    var n := KeptAt(player.kept, op);
    if n == |player.kept| then (None, player)
    else
      var cached := player.kept[n].cached;
      if Matches(cached.request, request) then (Some(cached.result.(replayed := true)), player)
      else
        (Some(Reject(op, revision, InvalidRequest)),
         player.(kept := player.kept[n := Kept(op, cached.(collisionAudited := true))]))
  }

  /** A collision marks its result as audited, and changes no result, no budget and no order. */
  lemma ReplayKeeps(player: Player, request: Request, revision: i64)
    requires ValidKept(player.kept)
    ensures var (_, after) := ReplayDecision(player, request, revision);
      && ValidKept(after.kept) && after.bucket == player.bucket && |after.kept| == |player.kept|
      && forall k :: 0 <= k < |after.kept| ==>
           && after.kept[k].operationId == player.kept[k].operationId
           && after.kept[k].cached.request == player.kept[k].cached.request
           && after.kept[k].cached.result == player.kept[k].cached.result
           && (after.kept[k].cached.collisionAudited <==>
                || player.kept[k].cached.collisionAudited
                || (player.kept[k].operationId == request.operationId && !Matches(player.kept[k].cached.request, request)))
  {
    hide Matches;
  }
}
