/**
  Exactly when a request is applied, stated about the catalog and not about the order of the checks;
  and what the answer to it tells its author.
 */
module Acceptance {
  import opened Prelude
  import opened Identity
  import opened Floats
  import opened Model
  import opened Proto
  import opened Catalogs
  import opened Buckets
  import opened Players
  import opened Documents
  import opened DocumentSize
  import opened Persistence
  import opened Mutations
  import opened MutationLaws
  import opened Hub

  /** The player still has a result under this operation id. */
  predicate Retained(s: ServiceState, actor: Actor, op: Id) {
    StateOf(s.players, actor.id).Some? && Recall(StateOf(s.players, actor.id).value.kept, op).Some?
  }

  /** The player's budget, refilled to now, holds a token; an untracked player's is full. */
  predicate CanPay(s: ServiceState, actor: Actor, now: millis) {
    StateOf(s.players, actor.id).None? || Refill(StateOf(s.players, actor.id).value.bucket, now).tokens >= TOKEN
  }

  /** What every request needs before its own conditions. */
  predicate Admissible(s: ServiceState, actor: Actor, r: Request, host: Host) {
    !Retained(s, actor, r.operationId) && CanPay(s, actor, host.now) && s.catalog.revision < I64_MAX && host.writable
  }

  /** The point an update or a delete names, at the revision it expects, in hands that may touch it. */
  predicate Names(s: ServiceState, actor: Actor, r: Request, w: Waypoint)
    requires !r.Create?
  {
    w.id == r.id && w.revision == r.expectedRevision && CanManage(actor, w, s.access)
  }

  ghost predicate BlockFree(points: seq<Waypoint>, key: LocationKey) {
    forall w :: w in points ==> BlockOf(w.body) != key
  }

  /** A create's own conditions: rights, revision, body, name, block, room and an unused id. */
  ghost predicate CreateFits(s: ServiceState, actor: Actor, r: Request, host: Host)
    requires r.Create?
  {
    && CanCreate(actor, s.access)
    && r.expectedRevision == s.catalog.revision && Validate(r.body).Some? && ValidPublisherName(Trim(actor.name))
    && BlockFree(s.catalog.points, BlockOf(Validate(r.body).value))
    && |s.catalog.points| < Min(s.limits.maxPerWorld, 512)
    && CountPublishedBy(s.catalog.points, actor.id) < s.limits.maxPerPlayer
    && DrawsUnused(s.catalog.points, host.draws)
  }

  /** One of the first sixteen ids drawn is unused. */
  ghost predicate DrawsUnused(points: seq<Waypoint>, draws: seq<Id>) {
    exists k :: 0 <= k < |draws| && k < 16 && !Has(points, draws[k])
  }

  /** Moving there puts nobody beside a point that was not beside it before. */
  ghost predicate MovesFreely(points: seq<Waypoint>, current: Waypoint, body: Body) {
    BlockOf(body) != BlockOf(current.body) ==> BlockFree(points, BlockOf(body))
  }

  /** An update's own conditions: a valid body, and a named point that may go where it says. */
  ghost predicate UpdateFits(s: ServiceState, actor: Actor, r: Request)
    requires r.Update?
  {
    && Validate(r.body).Some?
    && exists w :: w in s.catalog.points && Names(s, actor, r, w) && MovesFreely(s.catalog.points, w, Validate(r.body).value)
  }

  /** A delete's own condition: a named point. */
  ghost predicate DeleteFits(s: ServiceState, actor: Actor, r: Request)
    requires r.Delete?
  {
    exists w :: w in s.catalog.points && Names(s, actor, r, w)
  }

  /** Everything a request needs to be applied, all of it known before it is made. */
  ghost predicate Applies(s: ServiceState, actor: Actor, r: Request, host: Host) {
    && Admissible(s, actor, r, host)
    && match r
       case Create(_, _, _) => CreateFits(s, actor, r, host)
       case Update(_, _, _, _) => UpdateFits(s, actor, r)
       case Delete(_, _, _) => DeleteFits(s, actor, r)
  }

  // The admission.

  lemma AdmissionIs(writer: Writer, s: ServiceState, file: File, actor: Actor, r: Request, host: Host)
    requires ServiceInvariant(s) && SmallRequest(r)
    ensures Fresh(Perform(writer, s, file, actor, r, host).result) <==>
      && !Retained(s, actor, r.operationId) && (r.Create? ==> CanCreate(actor, s.access)) && CanPay(s, actor, host.now)
      && Plan(s, actor, r, host).Ok? && CanSave(Plan(s, actor, r, host).value.next) && host.writable
  {
    hide Touched, ReplayDecision, Plan, Conclude, TryConsume, WithState, CanSave, ValidPlayers, AllTruthful,
      SoundCatalog, SmallIcons,
      CanCreate, Retained, CanPay;
    var (touched, player) := Touched(s, actor.id, host.now);
    var (replay, audited) := ReplayDecision(player, r, s.catalog.revision);
    var charged := Charged(s, actor, host.now);
    PlanIgnoresPlayers(s, charged, actor, r, host);
    RetainedIs(s, actor, r, host.now);
    PayingIs(s, actor, host.now);
    if replay.Some? {
      ReplayNotFresh(player, r, s.catalog.revision);
    } else if Plan(charged, actor, r, host).Ok? {
      PlanApplies(charged, actor, r, host);
      ConcludeCases(writer, charged, file, actor, r, Plan(charged, actor, r, host).value, host.writable);
    }
  }

  lemma RetainedIs(s: ServiceState, actor: Actor, r: Request, now: millis)
    requires ServiceInvariant(s)
    ensures ReplayDecision(Touched(s, actor.id, now).1, r, s.catalog.revision).0.Some? <==> Retained(s, actor, r.operationId)
  {
    hide Touched, SoundCatalog, SmallIcons, Matches, ValidPlayers, AllTruthful;
    TouchedFacts(s, actor.id, now);
    assert KeptAt([], r.operationId) == 0;
  }

  lemma PayingIs(s: ServiceState, actor: Actor, now: millis)
    requires ServiceInvariant(s)
    ensures TryConsume(Touched(s, actor.id, now).1.bucket, now).1 <==> CanPay(s, actor, now)
  {
    hide Touched, SoundCatalog, SmallIcons, ValidPlayers, AllTruthful;
    TouchedFacts(s, actor.id, now);
  }

  /** What an allowed plan makes can be saved exactly when it is not one point too many. */
  lemma SavableIs(s: ServiceState, actor: Actor, r: Request, host: Host)
    requires ServiceInvariant(s) && SmallRequest(r) && Plan(s, actor, r, host).Ok?
    ensures CanSave(Plan(s, actor, r, host).value.next) <==> |Plan(s, actor, r, host).value.next.points| <= 512
  {
    hide Plan, ValidPlayers, AllTruthful, SoundCatalog, SmallIcons, Apply, GoodPoints, SmallRequest, ValidCatalog,
      AllPersistable;
    var p := Plan(s, actor, r, host).value;
    if |p.next.points| <= MAX_PERSISTED_WAYPOINTS {
      GoodAndSound(s.catalog);
      PlanApplies(s, actor, r, host);
      if p.delta.Upserted? {
        PlannedPointGood(s, actor, r, host);
      }
      ApplyGood(s.catalog.points, p.delta);
      GoodAndSound(p.next);
      SoundIsPersistable(p.next);
    }
  }

  // Deleting.

  lemma NamedIs(s: ServiceState, actor: Actor, r: Request)
    requires !r.Create? && UniqueIds(s.catalog.points)
    ensures NamedAndManaged(s.catalog, s.access, actor, r) <==> exists w :: w in s.catalog.points && Names(s, actor, r, w)
  {
    var points := s.catalog.points;
    if NamedAndManaged(s.catalog, s.access, actor, r) {
      assert points[IndexOf(points, r.id)] in points;
    }
    if w :| w in points && Names(s, actor, r, w) {
      var k :| 0 <= k < |points| && points[k] == w;
      IndexUnique(points, k);
    }
  }

  lemma InvariantUnique(s: ServiceState)
    requires ServiceInvariant(s)
    ensures ValidCatalog(s.catalog) && UniqueIds(s.catalog.points) && |s.catalog.points| <= MAX_PERSISTED_WAYPOINTS
  {
  }

  /** A delete is applied exactly when it is admissible and names a point its author may remove. */
  lemma DeleteAppliesIff(writer: Writer, s: ServiceState, file: File, actor: Actor, r: Request, host: Host)
    requires ServiceInvariant(s) && r.Delete?
    ensures Fresh(Perform(writer, s, file, actor, r, host).result) <==>
      Admissible(s, actor, r, host) && DeleteFits(s, actor, r)
  {
    hide Perform, Plan, ServiceInvariant, Retained, CanPay, Names, CanSave, NamedAndManaged, UniqueIds;
    AdmissionIs(writer, s, file, actor, r, host);
    InvariantUnique(s);
    NamedIs(s, actor, r);
    DeletePlanIs(s, actor, r, host);
    if Plan(s, actor, r, host).Ok? {
      SavableIs(s, actor, r, host);
    }
  }

  lemma DeletePlanIs(s: ServiceState, actor: Actor, r: Request, host: Host)
    requires r.Delete?
    ensures Plan(s, actor, r, host).Ok? <==> NamedAndManaged(s.catalog, s.access, actor, r) && s.catalog.revision < I64_MAX
    ensures Plan(s, actor, r, host).Ok? ==> |Plan(s, actor, r, host).value.next.points| <= |s.catalog.points|
  {
  }

  // Updating.

  lemma UndisplacedIs(points: seq<Waypoint>, n: nat, body: Body)
    requires UniqueIds(points) && n < |points|
    ensures !Displaces(points, points[n], points[n].(body := body)) <==> MovesFreely(points, points[n], body)
  {
    hide BlockOf;
    var key := BlockOf(body);
    var at := PositionAt(points, key);
    if at < |points| {
      assert points[at] in points;
      assert at != n ==> points[at].id != points[n].id;
    }
  }

  /** An update is applied exactly when, besides, its body is valid and it moves onto a free block or stays. */
  lemma UpdateAppliesIff(writer: Writer, s: ServiceState, file: File, actor: Actor, r: Request, host: Host)
    requires ServiceInvariant(s) && SmallRequest(r) && r.Update?
    ensures Fresh(Perform(writer, s, file, actor, r, host).result) <==>
      Admissible(s, actor, r, host) && UpdateFits(s, actor, r)
  {
    hide Perform, Plan, ServiceInvariant, Retained, CanPay, Names, CanSave, NamedAndManaged, UniqueIds, Validate,
      MovesFreely;
    AdmissionIs(writer, s, file, actor, r, host);
    InvariantUnique(s);
    UpdatePlanIs(s, actor, r, host);
    if Plan(s, actor, r, host).Ok? {
      SavableIs(s, actor, r, host);
    }
  }

  lemma UpdatePlanIs(s: ServiceState, actor: Actor, r: Request, host: Host)
    requires r.Update? && UniqueIds(s.catalog.points)
    ensures Plan(s, actor, r, host).Ok? <==>
      && s.catalog.revision < I64_MAX && Validate(r.body).Some?
      && exists w :: w in s.catalog.points && Names(s, actor, r, w) && MovesFreely(s.catalog.points, w, Validate(r.body).value)
    ensures Plan(s, actor, r, host).Ok? ==> |Plan(s, actor, r, host).value.next.points| <= |s.catalog.points|
  {
    hide Validate, MovesFreely, LocationOf, BlockOf, FindAt, UniqueIds, PlaceChanged;
    var points := s.catalog.points;
    if Has(points, r.id) && Validate(r.body).Some? && s.catalog.revision < I64_MAX {
      var n := IndexOf(points, r.id);
      UndisplacedIs(points, n, Validate(r.body).value);
      UpdateNeverRefused(s.catalog, r.id, r.body, Validate(r.body).value);
      assert points[n] in points;
    }
    forall w | w in points && Names(s, actor, r, w)
      ensures Has(points, r.id) && w == points[IndexOf(points, r.id)]
    {
      var k :| 0 <= k < |points| && points[k] == w;
      IndexUnique(points, k);
    }
    if Plan(s, actor, r, host).Ok? {
      PlanUpdateFacts(s, actor, r, host);
      UpdateGrowsNothing(s.catalog, Plan(s, actor, r, host).value);
      PlanApplies(s, actor, r, host);
    }
  }

  lemma UpdateGrowsNothing(c: Catalog, p: Prepared)
    requires p.delta.Upserted? && PrepareUpdate(c, p.delta.waypoint) == Ok(p)
    ensures |p.next.points| == |c.points| && c.revision < I64_MAX
  {
    hide Displaces, BlockOf;
  }

  // Creating.

  lemma FreeIs(points: seq<Waypoint>, key: LocationKey)
    ensures FindAt(points, key).None? <==> BlockFree(points, key)
  {
    hide BlockOf;
    var at := PositionAt(points, key);
    if at < |points| {
      assert points[at] in points;
    }
  }

  lemma {:induction false} DrawIs(points: seq<Waypoint>, draws: seq<Id>, attempts: nat)
    ensures UniqueId(points, draws, attempts).Some? <==> exists k :: 0 <= k < |draws| && k < attempts && !Has(points, draws[k])
    decreases attempts
  {
    hide Has;
    if attempts > 0 && draws != [] && Has(points, draws[0]) {
      DrawIs(points, draws[1..], attempts - 1);
      if k :| 0 <= k < |draws[1..]| && k < attempts - 1 && !Has(points, draws[1..][k]) {
        assert draws[k + 1] == draws[1..][k];
      }
      if k :| 0 <= k < |draws| && k < attempts && !Has(points, draws[k]) {
        assert draws[1..][k - 1] == draws[k];
      }
    }
  }

  lemma CreatePlanIs(s: ServiceState, actor: Actor, r: Request, host: Host)
    requires r.Create?
    ensures Plan(s, actor, r, host).Ok? <==>
      && r.expectedRevision == s.catalog.revision < I64_MAX && Validate(r.body).Some? && ValidPublisherName(Trim(actor.name))
      && BlockFree(s.catalog.points, BlockOf(Validate(r.body).value))
      && |s.catalog.points| < s.limits.maxPerWorld && CountPublishedBy(s.catalog.points, actor.id) < s.limits.maxPerPlayer
      && DrawsUnused(s.catalog.points, host.draws)
    ensures Plan(s, actor, r, host).Ok? ==> |Plan(s, actor, r, host).value.next.points| == |s.catalog.points| + 1
  {
    hide Validate, ValidPublisherName, Trim, BlockFree, LocationOf, BlockOf, FindAt, UniqueId, Has, CountPublishedBy;
    var points := s.catalog.points;
    if Validate(r.body).Some? {
      var body := Validate(r.body).value;
      FreeIs(points, BlockOf(body));
      DrawIs(points, host.draws, ID_ATTEMPTS);
      ValidateIdempotent(r.body);
      ValidatedHasBlock(body);
      if FindAt(points, BlockOf(body)).None? && UniqueId(points, host.draws, ID_ATTEMPTS).Some? && s.catalog.revision < I64_MAX {
        CreateNeverRefused(s.catalog, actor, r.body, body, host);
      }
    }
  }

  /**
    A create is applied exactly when it is admissible, its author may publish under a displayable
    name, it expects the current revision, its body is valid and its block free, neither quota nor
    the file is full, and an id could be drawn.
   */
  lemma CreateAppliesIff(writer: Writer, s: ServiceState, file: File, actor: Actor, r: Request, host: Host)
    requires ServiceInvariant(s) && SmallRequest(r) && r.Create?
    ensures Fresh(Perform(writer, s, file, actor, r, host).result) <==>
      Admissible(s, actor, r, host) && CreateFits(s, actor, r, host)
  {
    hide Perform, Plan, ServiceInvariant, Retained, CanPay, CanSave, Validate, ValidPublisherName, Trim, BlockFree,
      BlockOf, DrawsUnused,
      CountPublishedBy;
    AdmissionIs(writer, s, file, actor, r, host);
    CreatePlanIs(s, actor, r, host);
    if Plan(s, actor, r, host).Ok? {
      SavableIs(s, actor, r, host);
    }
  }

  /** A request is applied if and only if the service, as it stands before the call, lets it. */
  lemma AppliesIff(writer: Writer, s: ServiceState, file: File, actor: Actor, r: Request, host: Host)
    requires ServiceInvariant(s) && SmallRequest(r)
    ensures Fresh(Perform(writer, s, file, actor, r, host).result) <==> Applies(s, actor, r, host)
  {
    hide Perform, ServiceInvariant, Admissible, CreateFits, UpdateFits, DeleteFits, SmallRequest;
    match r
    case Create(_, _, _) => CreateAppliesIff(writer, s, file, actor, r, host);
    case Update(_, _, _, _) => UpdateAppliesIff(writer, s, file, actor, r, host);
    case Delete(_, _, _) => DeleteAppliesIff(writer, s, file, actor, r, host);
  }

  // What the author is told.

  /** A success and each refusal have their own code, except that old peers cannot read the newest one. */
  lemma ErrorCodesTell(a: MutationError, b: MutationError, minor: i32)
    ensures ErrorCode(a, minor) == 0 <==> a == NoError
    ensures ErrorCode(a, minor) == ErrorCode(b, minor) ==>
      a == b || (minor < 1 && {a, b} == {LocationTaken, InvalidRequest})
    ensures minor < 1 ==> 0 <= ErrorCode(a, minor) <= 9
  {
  }

  lemma PlanRefuses(s: ServiceState, actor: Actor, r: Request, host: Host)
    ensures Plan(s, actor, r, host).Err? ==> Plan(s, actor, r, host).error != NoError
  {
    hide Validate, ValidPublisherName, Trim, LocationOf, FindAt, UniqueId, FindById, CanManage, CountPublishedBy,
      Prepare, PrepareCreate,
      PrepareUpdate, PrepareDelete, BlockOf;
  }

  /** A retained result this request may have back. */
  predicate Repeats(s: ServiceState, actor: Actor, r: Request) {
    Retained(s, actor, r.operationId) &&
    SameAsk(Recall(StateOf(s.players, actor.id).value.kept, r.operationId).value.request, r)
  }

  lemma RepeatsIsRetained(s: ServiceState, actor: Actor, r: Request)
    ensures Repeats(s, actor, r) ==> Retained(s, actor, r.operationId)
  {
  }

  predicate Honest(s: ServiceState, actor: Actor, r: Request, result: MutationResult) {
    && result.operationId == r.operationId
    && (result.applied <==> Fresh(result) || Repeats(s, actor, r))
    && (result.applied <==> result.error == NoError)
  }

  lemma RetainedIsHonest(writer: Writer, s: ServiceState, file: File, actor: Actor, r: Request, host: Host)
    requires ServiceInvariant(s) && Retained(s, actor, r.operationId)
    ensures Honest(s, actor, r, Perform(writer, s, file, actor, r, host).result)
  {
    hide Perform, ValidPlayers, AllTruthful, SoundCatalog, SmallIcons, SameAsk;
    var cached := Recall(StateOf(s.players, actor.id).value.kept, r.operationId).value;
    RetryReplays(writer, s, file, actor, r, host, cached);
    KeptIsApplied(s, actor, r.operationId);
  }

  lemma FirstIsHonest(writer: Writer, s: ServiceState, file: File, actor: Actor, r: Request, host: Host)
    requires ReplayDecision(Touched(s, actor.id, host.now).1, r, s.catalog.revision).0.None?
    ensures var result := Perform(writer, s, file, actor, r, host).result;
      result.operationId == r.operationId && !result.replayed && (result.applied <==> result.error == NoError)
  {
    hide Touched, ReplayDecision, Plan, Conclude, TryConsume, WithState, CanSave, CanCreate;
    var charged := Charged(s, actor, host.now);
    PlanRefuses(charged, actor, r, host);
    if Plan(charged, actor, r, host).Ok? {
      ConcludeRefuses(writer, charged, file, actor, r, Plan(charged, actor, r, host).value, host.writable);
    }
  }

  lemma KeptIsApplied(s: ServiceState, actor: Actor, op: Id)
    requires ServiceInvariant(s) && Retained(s, actor, op)
    ensures var result := Recall(StateOf(s.players, actor.id).value.kept, op).value.result;
      result.applied && result.error == NoError && result.operationId == op && !result.replayed
  {
    hide SoundCatalog, SmallIcons;
    var n := TrackedAt(s.players, actor.id);
    assert Truthful(s.players[n].player.kept);
  }

  lemma ConcludeRefuses(writer: Writer, s: ServiceState, file: File, actor: Actor, r: Request, p: Prepared,
      writable: bool)
    ensures var result := Conclude(writer, s, file, actor, r, p, writable).result;
      result.operationId == r.operationId && !result.replayed && (result.applied <==> result.error == NoError)
  {
    hide Content, AllPersistable, Mutations.Retain;
  }

  /**
    The outcome frame is honest at every minor: it says applied, with no error, exactly when this
    call made the change durable or repeats one that did.
   */
  lemma OutcomeIsHonest(writer: Writer, s: ServiceState, file: File, actor: Actor, r: Request, host: Host, minor: i32)
    requires ServiceInvariant(s)
    ensures var st := Perform(writer, s, file, actor, r, host);
      var frame := OutcomeFrame(st.result, minor);
      && frame.operationId == r.operationId
      && (frame.status == STATUS_APPLIED <==> Fresh(st.result) || Repeats(s, actor, r))
      && (frame.status == STATUS_APPLIED <==> frame.error == 0)
      && (frame.status == STATUS_REJECTED <==> frame.error != 0)
  {
    hide Perform, ServiceInvariant, Repeats, Retained, ErrorCode;
    if Retained(s, actor, r.operationId) {
      RetainedIsHonest(writer, s, file, actor, r, host);
    } else {
      RetainedIs(s, actor, r, host.now);
      FirstIsHonest(writer, s, file, actor, r, host);
      assert !Repeats(s, actor, r) by { RepeatsIsRetained(s, actor, r); }
    }
    ErrorCodesTell(Perform(writer, s, file, actor, r, host).result.error, NoError, minor);
  }
}
