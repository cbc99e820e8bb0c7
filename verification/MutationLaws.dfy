/** What every mutation keeps: the catalog and the file together, and the truth of retained results. */
module MutationLaws {
  import opened Prelude
  import opened Identity
  import opened Floats
  import opened Model
  import opened Proto
  import opened Catalogs
  import opened Buckets
  import opened Players
  import opened Json
  import opened Documents
  import opened DocumentSize
  import opened Persistence
  import opened Mutations
  import Utf8

  /** A result that moved the catalog on this call. */
  predicate Fresh(result: MutationResult) {
    result.applied && !result.replayed
  }

  /** A request whose icon id fits the wire field it came in. */
  predicate SmallRequest(r: Request) {
    !r.Delete? ==> ByteLength(r.body.iconItemId) <= MAX_ICON_BYTES
  }

  /** Only what was applied is retained, under its own operation id. */
  ghost predicate Truthful(kept: seq<Kept>) {
    forall k :: 0 <= k < |kept| ==>
      && kept[k].cached.request.operationId == kept[k].operationId
      && kept[k].cached.result == Applied(kept[k].operationId, kept[k].cached.result.delta)
  }

  ghost predicate AllTruthful(players: seq<Tracked>) {
    forall k :: 0 <= k < |players| ==> Truthful(players[k].player.kept)
  }

  ghost predicate ServiceInvariant(s: ServiceState) {
    SoundCatalog(s.catalog) && SmallIcons(s.catalog) && ValidPlayers(s.players) && AllTruthful(s.players)
  }

  // Players.

  lemma TouchedFacts(s: ServiceState, id: Id, now: millis)
    requires ValidPlayers(s.players) && AllTruthful(s.players)
    ensures var (touched, player) := Touched(s, id, now);
      && ValidPlayers(touched) && AllTruthful(touched)
      && StateOf(touched, id) == Some(player)
      && ValidKept(player.kept) && Truthful(player.kept) && player.bucket.Valid()
      && player == (match StateOf(s.players, id) case Some(p) => p case None => NewPlayer(s.limits.mutationsPerMinute, now))
  {
    hide ValidKept, Truthful;
    var perMinute := s.limits.mutationsPerMinute;
    TouchKeeps(s.players, id, now, perMinute);
    var touched := Touch(s.players, id, now, perMinute);
    assert Truthful(NewPlayer(perMinute, now).kept) by { NewPlayerTruthful(perMinute, now); }
    forall k | 0 <= k < |touched|
      ensures Truthful(touched[k].player.kept)
    {
    }
  }

  lemma NewPlayerTruthful(perMinute: nat, now: millis)
    ensures Truthful(NewPlayer(perMinute, now).kept)
  {
  }

  lemma WithStateTruthful(players: seq<Tracked>, id: Id, player: Player)
    requires ValidPlayers(players) && AllTruthful(players)
    requires ValidKept(player.kept) && Truthful(player.kept) && player.bucket.Valid()
    ensures ValidPlayers(WithState(players, id, player)) && AllTruthful(WithState(players, id, player))
    ensures StateOf(players, id).Some? ==> StateOf(WithState(players, id, player), id) == Some(player)
  {
    hide ValidKept, Truthful;
    WithStateKeeps(players, id, player);
  }

  lemma ReplayTruthful(player: Player, r: Request, revision: i64)
    requires ValidKept(player.kept) && Truthful(player.kept) && player.bucket.Valid()
    ensures var (replay, after) := ReplayDecision(player, r, revision);
      && ValidKept(after.kept) && Truthful(after.kept) && after.bucket.Valid()
      && (replay.Some? ==> replay.value.operationId == r.operationId && !Fresh(replay.value))
      && (replay.None? ==> after == player && Recall(player.kept, r.operationId).None?)
  {
    hide Matches;
    ReplayKeeps(player, r, revision);
  }

  lemma RetainKeeps(players: seq<Tracked>, id: Id, r: Request, delta: Delta)
    requires ValidPlayers(players) && AllTruthful(players)
    requires StateOf(players, id).Some? && Recall(StateOf(players, id).value.kept, r.operationId).None?
    ensures ValidPlayers(Retain(players, id, r, delta)) && AllTruthful(Retain(players, id, r, delta))
  {
    var player := StateOf(players, id).value;
    var cached := Cached(r, Applied(r.operationId, delta), false);
    RememberKeeps(player.kept, r.operationId, cached);
    var kept := Remember(player.kept, r.operationId, cached);
    assert Truthful(kept);
    hide ValidKept, Truthful, Remember;
    WithStateTruthful(players, id, player.(kept := kept));
  }

  // The whole call.

  /** The state the plan is made in: the player touched and charged, nothing else moved. */
  function Charged(s: ServiceState, actor: Actor, now: millis): ServiceState {
    var (touched, player) := Touched(s, actor.id, now);
    s.(players := WithState(touched, actor.id, player.(bucket := TryConsume(player.bucket, now).0)))
  }

  lemma PlanIgnoresPlayers(s: ServiceState, t: ServiceState, actor: Actor, r: Request, host: Host)
    requires t == s.(players := t.players)
    ensures Plan(s, actor, r, host) == Plan(t, actor, r, host)
  {
    hide PlanCreate, PlanUpdate, PlanDelete;
  }

  lemma ConcludeCases(writer: Writer, s: ServiceState, file: File, actor: Actor, r: Request, p: Prepared,
      writable: bool)
    requires p.base == s.catalog.revision
    ensures var st := Conclude(writer, s, file, actor, r, p, writable);
      && st.result.operationId == r.operationId && !st.result.replayed
      && (Fresh(st.result) <==> CanSave(p.next) && writable)
      && (Fresh(st.result) ==>
           && st.service == s.(catalog := p.next, players := Retain(s.players, actor.id, r, p.delta))
           && st.file == Some(Content(writer, p.next)) && st.result == Applied(r.operationId, p.delta))
      && (!Fresh(st.result) ==> st.service == s && st.file == file)
  {
    hide Retain, Content, AllPersistable;
  }

  /**
    Every call either commits exactly one planned change - written to the file first, then
    installed, and answered as applied - or moves neither the catalog nor the file. Failing to
    commit after the write is not among the cases.
   */
  lemma MutateCases(writer: Writer, s: ServiceState, file: File, actor: Actor, r: Request, host: Host)
    ensures var st := Perform(writer, s, file, actor, r, host);
      && st.service.limits == s.limits && st.service.access == s.access
      && (Fresh(st.result) ==>
           && Plan(s, actor, r, host).Ok?
           && var p := Plan(s, actor, r, host).value;
              st.service.catalog == p.next && st.file == Some(Content(writer, p.next)) &&
              st.result == Applied(r.operationId, p.delta) && CanSave(p.next))
    ensures AllTruthful(s.players) && ValidPlayers(s.players) ==>
      var st := Perform(writer, s, file, actor, r, host);
      && st.result.operationId == r.operationId
      && (!Fresh(st.result) ==> st.service.catalog == s.catalog && st.file == file)
  {
    hide Touched, ReplayDecision, Plan, Conclude, TryConsume, WithState, Content, AllPersistable, ValidPlayers,
      Truthful;
    var st := Perform(writer, s, file, actor, r, host);
    var (touched, player) := Touched(s, actor.id, host.now);
    var (replay, audited) := ReplayDecision(player, r, s.catalog.revision);
    var charged := s.(players := WithState(touched, actor.id, player.(bucket := TryConsume(player.bucket, host.now).0)));
    PlanIgnoresPlayers(s, charged, actor, r, host);
    var plan := Plan(charged, actor, r, host);
    if plan.Ok? {
      PlanApplies(charged, actor, r, host);
      ConcludeCases(writer, charged, file, actor, r, plan.value, host.writable);
    }
    if AllTruthful(s.players) && ValidPlayers(s.players) {
      TouchedFacts(s, actor.id, host.now);
      ReplayTruthful(player, r, s.catalog.revision);
    } else if replay.Some? {
      assert !Fresh(replay.value) by { ReplayNotFresh(player, r, s.catalog.revision); }
    }
  }

  lemma ReplayNotFresh(player: Player, r: Request, revision: i64)
    ensures ReplayDecision(player, r, revision).0.Some? ==> !Fresh(ReplayDecision(player, r, revision).0.value)
  {
    hide Matches;
  }

  lemma MutatePlayers(writer: Writer, s: ServiceState, file: File, actor: Actor, r: Request, host: Host)
    requires ValidPlayers(s.players) && AllTruthful(s.players)
    ensures var st := Perform(writer, s, file, actor, r, host);
      ValidPlayers(st.service.players) && AllTruthful(st.service.players)
  {
    hide Touched, ReplayDecision, Plan, TryConsume, WithState, Content, AllPersistable, ValidPlayers, AllTruthful,
      ValidKept, Truthful, Retain, CanSave;
    var (touched, player) := Touched(s, actor.id, host.now);
    TouchedFacts(s, actor.id, host.now);
    var (replay, audited) := ReplayDecision(player, r, s.catalog.revision);
    ReplayTruthful(player, r, s.catalog.revision);
    WithStateTruthful(touched, actor.id, audited);
    var paid := player.(bucket := TryConsume(player.bucket, host.now).0);
    ConsumeConserves(player.bucket, host.now);
    WithStateTruthful(touched, actor.id, paid);
    if replay.None? {
      var plan := Plan(s.(players := WithState(touched, actor.id, paid)), actor, r, host);
      if plan.Ok? {
        RetainKeeps(WithState(touched, actor.id, paid), actor.id, r, plan.value.delta);
      }
    }
  }

  // The catalog stays one the file can hold.

  lemma TrimShrinks(s: string)
    ensures ByteLength(Trim(s)) <= ByteLength(s)
  {
    hide ByteLength, IsWhitespace;
    TrimStartShrinks(s);
    TrimEndShrinks(TrimStart(s));
  }

  lemma {:induction false} TrimStartShrinks(s: string)
    ensures ByteLength(TrimStart(s)) <= ByteLength(s)
  {
    hide IsWhitespace, ByteLength;
    if s != [] && IsWhitespace(s[0]) {
      TrimStartShrinks(s[1..]);
      assert s == [s[0]] + s[1..];
      LengthConcat([s[0]], s[1..]);
    }
  }

  lemma {:induction false} TrimEndShrinks(s: string)
    ensures ByteLength(TrimEnd(s)) <= ByteLength(s)
  {
    hide IsWhitespace, ByteLength;
    if s != [] && IsWhitespace(s[|s| - 1]) {
      TrimEndShrinks(s[..|s| - 1]);
      assert s == s[..|s| - 1] + [s[|s| - 1]];
      LengthConcat(s[..|s| - 1], [s[|s| - 1]]);
    }
  }

  lemma ValidatedIconShrinks(draft: Body)
    requires Validate(draft).Some? && ByteLength(draft.iconItemId) <= MAX_ICON_BYTES
    ensures ByteLength(Validate(draft).value.iconItemId) <= MAX_ICON_BYTES
  {
    hide ByteLength, ValidDisplayText, ValidDimensionId, WithinWorld, Trim, ValidIconPath;
    TrimShrinks(draft.iconItemId);
    assert ByteLength([]) == 0 by { LengthAscii([]); }
  }

  ghost predicate GoodPoint(w: Waypoint) {
    SoundPoint(w) && ByteLength(w.body.iconItemId) <= MAX_ICON_BYTES
  }

  ghost predicate GoodPoints(points: seq<Waypoint>) {
    forall k :: 0 <= k < |points| ==> GoodPoint(points[k])
  }

  lemma GoodAndSound(c: Catalog)
    ensures SoundCatalog(c) && SmallIcons(c) <==>
      ValidCatalog(c) && |c.points| <= MAX_PERSISTED_WAYPOINTS && GoodPoints(c.points)
  {
    hide SoundPoint, ByteLength, ValidCatalog;
  }

  /** The point a plan writes, when it writes one, is one the file can hold. */
  lemma PlannedPointGood(s: ServiceState, actor: Actor, r: Request, host: Host)
    requires Plan(s, actor, r, host).Ok? && SmallRequest(r) && GoodPoints(s.catalog.points)
    requires Plan(s, actor, r, host).value.delta.Upserted?
    ensures GoodPoint(Plan(s, actor, r, host).value.delta.waypoint)
  {
    hide Plan, Validate, ByteLength, ValidPublisherName, Trim, Prepare;
    var w := Plan(s, actor, r, host).value.delta.waypoint;
    match r
    case Create(_, _, _) =>
      PlanCreateFacts(s, actor, r, host);
      ValidateIdempotent(r.body);
      ValidatedIconShrinks(r.body);
      PublisherNameIdempotent(actor.name);
      assert Trim(Trim(actor.name)) == Trim(actor.name) by { TrimFixed(Trim(actor.name)); }
    case Update(_, _, _, _) =>
      PlanUpdateFacts(s, actor, r, host);
      ValidateIdempotent(r.body);
      ValidatedIconShrinks(r.body);
      assert GoodPoint(s.catalog.points[IndexOf(s.catalog.points, r.id)]);
    case Delete(_, _, _) =>
      PlanDeleteFacts(s, actor, r, host);
  }

  lemma ApplyGood(points: seq<Waypoint>, delta: Delta)
    requires GoodPoints(points) && (delta.Upserted? ==> GoodPoint(delta.waypoint))
    ensures GoodPoints(Apply(points, delta))
  {
    hide GoodPoint;
  }

  /**
    The step invariant: catalog, file and retained results stay sound together, whatever is asked
    and whether or not the disk takes the write.
   */
  lemma MutateKeeps(writer: Writer, s: ServiceState, file: File, actor: Actor, r: Request, host: Host)
    requires Faithful(writer.floats) && ServiceInvariant(s) && Holds(writer, file, s.catalog) && SmallRequest(r)
    ensures var st := Perform(writer, s, file, actor, r, host);
      ServiceInvariant(st.service) && Holds(writer, st.file, st.service.catalog)
  {
    hide Perform, Plan, Faithful, ValidPlayers, AllTruthful, SoundCatalog, SmallIcons, Holds, ValidCatalog, Content,
      AllPersistable, Apply, GoodPoints, SmallRequest;
    var st := Perform(writer, s, file, actor, r, host);
    MutatePlayers(writer, s, file, actor, r, host);
    MutateCases(writer, s, file, actor, r, host);
    if Fresh(st.result) {
      var p := Plan(s, actor, r, host).value;
      GoodAndSound(s.catalog);
      PlanApplies(s, actor, r, host);
      if p.delta.Upserted? {
        PlannedPointGood(s, actor, r, host);
      }
      ApplyGood(s.catalog.points, p.delta);
      GoodAndSound(p.next);
      SaveHolds(writer, file, p.next, true);
    }
  }

  // Retrying.

  /**
    While a result is kept, the same request sent again returns it, any other request under that
    operation id is refused as invalid, and neither moves anything, the budget included.
   */
  lemma RetryReplays(writer: Writer, s: ServiceState, file: File, actor: Actor, r: Request, host: Host, cached: Cached)
    requires ValidPlayers(s.players) && AllTruthful(s.players)
    requires StateOf(s.players, actor.id).Some? && Recall(StateOf(s.players, actor.id).value.kept, r.operationId) == Some(cached)
    ensures var st := Perform(writer, s, file, actor, r, host);
      && st.service.catalog == s.catalog && st.file == file
      && StateOf(st.service.players, actor.id).Some?
      && StateOf(st.service.players, actor.id).value.bucket == StateOf(s.players, actor.id).value.bucket
      && st.result == (if SameAsk(cached.request, r) then cached.result.(replayed := true)
                       else Reject(r.operationId, s.catalog.revision, InvalidRequest))
  {
    hide Matches, SameAsk, Touched, WithState, ValidPlayers, AllTruthful, Plan, ValidKept, Truthful;
    MatchesIff(cached.request, r);
    var (touched, player) := Touched(s, actor.id, host.now);
    TouchedFacts(s, actor.id, host.now);
    var (replay, audited) := ReplayDecision(player, r, s.catalog.revision);
    ReplayTruthful(player, r, s.catalog.revision);
    WithStateTruthful(touched, actor.id, audited);
  }
}
