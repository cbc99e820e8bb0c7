/**
  Why a request is refused. For every request whose operation has no result kept, the error it is
  answered with, exactly, as a property of the service before the call: each check fails only after
  all the ones the protocol makes before it have passed.
 */
module Refusals {
  import opened Prelude
  import opened Identity
  import opened Floats
  import opened Model
  import opened Proto
  import opened Catalogs
  import opened Buckets
  import opened Players
  import opened Documents
  import opened DocumentSize
  import opened Persistence
  import opened Mutations
  import opened MutationLaws
  import opened Hub
  import opened HubLaws
  import opened Acceptance

  // Rights.

  /** Operators may do anything; others may publish, and change what they published, where owners manage their own. */
  lemma RightsAre(actor: Actor, w: Waypoint, access: AccessPolicy)
    ensures actor.operator ==> CanCreate(actor, access) && CanManage(actor, w, access)
    ensures !actor.operator && access == OperatorOnly ==> !CanCreate(actor, access) && !CanManage(actor, w, access)
    ensures !actor.operator && access == OwnerManaged ==>
      CanCreate(actor, access) && (CanManage(actor, w, access) <==> w.publisherId == actor.id)
  {
  }

  /** The places of the catalog a player's points take. */
  ghost function PlacesOf(points: seq<Waypoint>, publisher: Id): set<int> {
    set k | 0 <= k < |points| && points[k].publisherId == publisher
  }

  lemma PlacesPrefix(points: seq<Waypoint>, publisher: Id)
    requires points != []
    ensures var n := |points| - 1;
      PlacesOf(points, publisher) ==
        PlacesOf(points[..n], publisher) + (if points[n].publisherId == publisher then {n} else {})
    ensures |points| - 1 !in PlacesOf(points[..|points| - 1], publisher)
  {
  }

  /** A player's share of the catalog is the number of places its points take. */
  lemma {:induction false} ShareIs(points: seq<Waypoint>, publisher: Id)
    ensures CountPublishedBy(points, publisher) == |PlacesOf(points, publisher)|
  {
    if points == [] {
      assert PlacesOf(points, publisher) == {};
    } else {
      hide CountPublishedBy, PlacesOf;
      SharePrefix(points, publisher);
      PlacesPrefix(points, publisher);
      ShareIs(points[..|points| - 1], publisher);
    }
  }

  lemma {:induction false} SharePrefix(points: seq<Waypoint>, publisher: Id)
    requires points != []
    ensures var n := |points| - 1;
      CountPublishedBy(points, publisher) ==
        CountPublishedBy(points[..n], publisher) + if points[n].publisherId == publisher then 1 else 0
  {
    if |points| > 1 {
      SharePrefix(points[1..], publisher);
      assert points[1..][..|points| - 2] == points[..|points| - 1][1..];
    }
  }

  /** The id a created point is given is the first of those drawn that is free, of at most sixteen. */
  lemma {:induction false} FirstFreeDraw(points: seq<Waypoint>, draws: seq<Id>, attempts: nat)
    requires UniqueId(points, draws, attempts).Some?
    ensures exists k :: 0 <= k < |draws| && k < attempts && draws[k] == UniqueId(points, draws, attempts).value &&
                        forall j :: 0 <= j < k ==> Has(points, draws[j])
    decreases attempts
  {
    hide Has;
    if Has(points, draws[0]) {
      FirstFreeDraw(points, draws[1..], attempts - 1);
      var k :| 0 <= k < |draws[1..]| && k < attempts - 1 &&
               draws[1..][k] == UniqueId(points, draws[1..], attempts - 1).value &&
               forall j :: 0 <= j < k ==> Has(points, draws[1..][j]);
      assert draws[k + 1] == draws[1..][k];
      assert forall j :: 0 < j < k + 1 ==> draws[j] == draws[1..][j - 1];
    } else {
      assert draws[0] == UniqueId(points, draws, attempts).value;
    }
  }

  // The admission, and the write.

  /** The error of a first attempt, by the error of its plan. */
  lemma ErrorIs(writer: Writer, s: ServiceState, file: File, actor: Actor, r: Request, host: Host)
    requires ServiceInvariant(s) && SmallRequest(r) && !Retained(s, actor, r.operationId)
    ensures var (e, plan) := (Perform(writer, s, file, actor, r, host).result.error, Plan(s, actor, r, host));
      if r.Create? && !CanCreate(actor, s.access) then e == Forbidden
      else if !CanPay(s, actor, host.now) then e == RateLimited
      else if plan.Err? then e == plan.error
      else if |plan.value.next.points| <= 512 && host.writable then e == NoError
      else e == PersistenceFailed
  {
    hide Touched, ReplayDecision, Plan, Conclude, TryConsume, WithState, CanSave, ValidPlayers, AllTruthful,
      SoundCatalog, SmallIcons, CanCreate, Retained, CanPay, SmallRequest;
    var charged := Charged(s, actor, host.now);
    PlanIgnoresPlayers(s, charged, actor, r, host);
    RetainedIs(s, actor, r, host.now);
    PayingIs(s, actor, host.now);
    if Plan(s, actor, r, host).Ok? {
      SavableIs(s, actor, r, host);
      PlanApplies(charged, actor, r, host);
      ConcludedError(writer, charged, file, actor, r, Plan(s, actor, r, host).value, host.writable);
    }
  }

  lemma ConcludedError(writer: Writer, s: ServiceState, file: File, actor: Actor, r: Request, p: Prepared,
      writable: bool)
    requires p.base == s.catalog.revision
    ensures Conclude(writer, s, file, actor, r, p, writable).result.error ==
      if CanSave(p.next) && writable then NoError else PersistenceFailed
  {
    hide Mutations.Retain, Content, AllPersistable;
  }

  // Creating.

  lemma CreatePlanError(s: ServiceState, actor: Actor, r: Request, host: Host)
    requires r.Create?
    ensures var (plan, points) := (Plan(s, actor, r, host), s.catalog.points);
      var current := r.expectedRevision == s.catalog.revision;
      var valid := current && Validate(r.body).Some? && ValidPublisherName(Trim(actor.name));
      var free := valid && BlockFree(points, BlockOf(Validate(r.body).value));
      var room := free && |points| < s.limits.maxPerWorld;
      var share := room && CountPublishedBy(points, actor.id) < s.limits.maxPerPlayer;
      var named := share && DrawsUnused(points, host.draws);
      && (!current ==> plan == Err(RevisionConflict))
      && (current && !valid ==> plan == Err(InvalidRequest))
      && (valid && !free ==> plan == Err(LocationTaken))
      && (free && !room ==> plan == Err(WorldQuotaExceeded))
      && (room && !share ==> plan == Err(PlayerQuotaExceeded))
      && (share && !named ==> plan == Err(IdGenerationFailed))
      && (named && s.catalog.revision == I64_MAX ==> plan == Err(PersistenceFailed))
      && (named && s.catalog.revision < I64_MAX ==> plan.Ok? && |plan.value.next.points| == |points| + 1)
  {
    hide Validate, ValidPublisherName, Trim, BlockFree, LocationOf, BlockOf, FindAt, UniqueId, Has, CountPublishedBy,
      PrepareCreate;
    CreatePlanIs(s, actor, r, host);
    if Validate(r.body).Some? {
      var body := Validate(r.body).value;
      FreeIs(s.catalog.points, BlockOf(body));
      DrawIs(s.catalog.points, host.draws, ID_ATTEMPTS);
      assert LocationOf(body.dimensionId, body.x, body.y, body.z) == Some(BlockOf(body)) by { BodyHasBlock(r.body, body); }
    }
  }

  lemma BodyHasBlock(draft: Body, body: Body)
    requires Validate(draft) == Some(body)
    ensures LocationOf(body.dimensionId, body.x, body.y, body.z) == Some(BlockOf(body))
  {
    hide Validate, LocationOf;
    ValidateIdempotent(draft);
    ValidatedHasBlock(body);
  }

  /**
    Why a create is refused: the right to publish and the budget at admission, then revision, body and
    name, block, the world's quota, the player's own, an id to give it, and the write.
   */
  lemma CreateRefusals(writer: Writer, s: ServiceState, file: File, actor: Actor, r: Request, host: Host)
    requires ServiceInvariant(s) && SmallRequest(r) && r.Create? && !Retained(s, actor, r.operationId)
    ensures var (e, points) := (Perform(writer, s, file, actor, r, host).result.error, s.catalog.points);
      var may := CanCreate(actor, s.access);
      var paid := may && CanPay(s, actor, host.now);
      var current := paid && r.expectedRevision == s.catalog.revision;
      var valid := current && Validate(r.body).Some? && ValidPublisherName(Trim(actor.name));
      var free := valid && BlockFree(points, BlockOf(Validate(r.body).value));
      var room := free && |points| < s.limits.maxPerWorld;
      var share := room && CountPublishedBy(points, actor.id) < s.limits.maxPerPlayer;
      var named := share && DrawsUnused(points, host.draws);
      var written := named && s.catalog.revision < I64_MAX && |points| < 512 && host.writable;
      && (e == Forbidden <==> !may)
      && (e == RateLimited <==> may && !paid)
      && (e == RevisionConflict <==> paid && !current)
      && (e == InvalidRequest <==> current && !valid)
      && (e == LocationTaken <==> valid && !free)
      && (e == WorldQuotaExceeded <==> free && !room)
      && (e == PlayerQuotaExceeded <==> room && !share)
      && (e == IdGenerationFailed <==> share && !named)
      && (e == PersistenceFailed <==> named && !written)
      && (e == NoError <==> written)
  {
    hide Perform, Plan, ServiceInvariant, Retained, CanCreate, CanPay, Validate, ValidPublisherName, Trim, BlockFree,
      BlockOf, DrawsUnused, CountPublishedBy, SmallRequest;
    ErrorIs(writer, s, file, actor, r, host);
    CreatePlanError(s, actor, r, host);
  }

  // Updating and deleting.

  ghost predicate Held(points: seq<Waypoint>, id: Id) {
    exists k :: 0 <= k < |points| && points[k].id == id
  }

  ghost predicate HeldAt(points: seq<Waypoint>, id: Id, revision: i64) {
    exists k :: 0 <= k < |points| && points[k].id == id && points[k].revision == revision
  }

  ghost predicate HeldFor(points: seq<Waypoint>, id: Id, actor: Actor, access: AccessPolicy) {
    exists k :: 0 <= k < |points| && points[k].id == id && CanManage(actor, points[k], access)
  }

  /** Nobody but this point stands in the block it would be moved to, unless it stays in its own. */
  ghost predicate HeldFree(points: seq<Waypoint>, id: Id, body: Body) {
    exists k :: 0 <= k < |points| && points[k].id == id && MovesFreely(points, points[k], body)
  }

  /** What is held under an id, when ids are unique, is the one point found under it. */
  lemma HeldIs(points: seq<Waypoint>, id: Id, revision: i64, actor: Actor, access: AccessPolicy, body: Body)
    requires UniqueIds(points)
    ensures var found := FindById(points, id);
      && (Held(points, id) <==> found.Some?)
      && (HeldAt(points, id, revision) <==> found.Some? && found.value.revision == revision)
      && (HeldFor(points, id, actor, access) <==> found.Some? && CanManage(actor, found.value, access))
      && (HeldFree(points, id, body) <==> found.Some? && MovesFreely(points, found.value, body))
  {
    hide CanManage, MovesFreely;
    forall k | 0 <= k < |points| && points[k].id == id
      ensures FindById(points, id) == Some(points[k])
    {
      IndexUnique(points, k);
    }
    if Has(points, id) {
      assert points[IndexOf(points, id)].id == id;
    }
  }

  lemma DeletePlanError(s: ServiceState, actor: Actor, r: Request, host: Host)
    requires r.Delete? && UniqueIds(s.catalog.points)
    ensures var (plan, points) := (Plan(s, actor, r, host), s.catalog.points);
      var found := Held(points, r.id);
      var current := found && HeldAt(points, r.id, r.expectedRevision);
      var managed := current && HeldFor(points, r.id, actor, s.access);
      && (!found ==> plan == Err(NotFound))
      && (found && !current ==> plan == Err(RevisionConflict))
      && (current && !managed ==> plan == Err(Forbidden))
      && (managed && s.catalog.revision == I64_MAX ==> plan == Err(PersistenceFailed))
      && (managed && s.catalog.revision < I64_MAX ==> plan.Ok? && |plan.value.next.points| <= |points|)
  {
    hide CanManage, Held, HeldAt, HeldFor, HeldFree, UniqueIds;
    HeldIs(s.catalog.points, r.id, r.expectedRevision, actor, s.access, EMPTY_BODY);
  }

  const EMPTY_BODY := Body([], [], F64(0), F64(0), F64(0), 0, Normal, [], [])

  /** Why a delete is refused: the budget, then existence, revision, the right to this point, and the write. */
  lemma DeleteRefusals(writer: Writer, s: ServiceState, file: File, actor: Actor, r: Request, host: Host)
    requires ServiceInvariant(s) && r.Delete? && !Retained(s, actor, r.operationId)
    ensures var (e, points) := (Perform(writer, s, file, actor, r, host).result.error, s.catalog.points);
      var paid := CanPay(s, actor, host.now);
      var found := paid && Held(points, r.id);
      var current := found && HeldAt(points, r.id, r.expectedRevision);
      var managed := current && HeldFor(points, r.id, actor, s.access);
      var written := managed && s.catalog.revision < I64_MAX && host.writable;
      && (e == RateLimited <==> !paid)
      && (e == NotFound <==> paid && !found)
      && (e == RevisionConflict <==> found && !current)
      && (e == Forbidden <==> current && !managed)
      && (e == PersistenceFailed <==> managed && !written)
      && (e == NoError <==> written)
  {
    hide Perform, Plan, ServiceInvariant, Retained, CanPay, CanManage, Held, HeldAt, HeldFor, UniqueIds;
    InvariantUnique(s);
    ErrorIs(writer, s, file, actor, r, host);
    DeletePlanError(s, actor, r, host);
  }

  lemma UpdatePlanError(s: ServiceState, actor: Actor, r: Request, host: Host)
    requires r.Update? && UniqueIds(s.catalog.points)
    ensures var (plan, points) := (Plan(s, actor, r, host), s.catalog.points);
      var found := Held(points, r.id);
      var managed := found && HeldFor(points, r.id, actor, s.access);
      var current := managed && HeldAt(points, r.id, r.expectedRevision);
      var valid := current && Validate(r.body).Some?;
      var free := valid && HeldFree(points, r.id, Validate(r.body).value);
      && (!found ==> plan == Err(NotFound))
      && (found && !managed ==> plan == Err(Forbidden))
      && (managed && !current ==> plan == Err(RevisionConflict))
      && (current && !valid ==> plan == Err(InvalidRequest))
      && (valid && !free ==> plan == Err(LocationTaken))
      && (free && s.catalog.revision == I64_MAX ==> plan == Err(PersistenceFailed))
      && (free && s.catalog.revision < I64_MAX ==> plan.Ok? && |plan.value.next.points| <= |points|)
  {
    hide CanManage, Held, HeldAt, HeldFor, HeldFree, UniqueIds, Validate, PlaceChanged, MovesFreely;
    var points := s.catalog.points;
    HeldIs(points, r.id, r.expectedRevision, actor, s.access, if Validate(r.body).Some? then Validate(r.body).value else r.body);
    if Has(points, r.id) && Validate(r.body).Some? {
      PlaceChangedIs(s.catalog, r.id, r.body, Validate(r.body).value);
    }
    if Plan(s, actor, r, host).Ok? {
      UpdatePlanIs(s, actor, r, host);
    }
  }

  /** Where a changed point may go: refused exactly for a block taken, or for want of a revision. */
  lemma PlaceChangedIs(c: Catalog, id: Id, draft: Body, body: Body)
    requires UniqueIds(c.points) && Has(c.points, id) && Validate(draft) == Some(body)
    ensures var current := c.points[IndexOf(c.points, id)];
      var placed := PlaceChanged(c, current, body);
      && (!MovesFreely(c.points, current, body) ==> placed == Err(LocationTaken))
      && (MovesFreely(c.points, current, body) && c.revision == I64_MAX ==> placed == Err(PersistenceFailed))
      && (MovesFreely(c.points, current, body) && c.revision < I64_MAX ==> placed.Ok?)
  {
    hide MovesFreely, Validate, LocationOf, BlockOf, FindAt, UniqueIds;
    UndisplacedIs(c.points, IndexOf(c.points, id), body);
    BodyHasBlock(draft, body);
    if c.revision < I64_MAX {
      UpdateNeverRefused(c, id, draft, body);
    } else {
      OccupiedIs(c.points, c.points[IndexOf(c.points, id)], body);
    }
  }

  lemma OccupiedIs(points: seq<Waypoint>, current: Waypoint, body: Body)
    ensures Displaces(points, current, current.(body := body)) <==>
      BlockOf(body) != BlockOf(current.body) && FindAt(points, BlockOf(body)).Some? &&
      FindAt(points, BlockOf(body)).value.id != current.id
  {
    hide BlockOf;
  }

  /**
    Why an update is refused: the budget, then existence, the right to this point, its revision, the
    body, the block it would move to, and the write.
   */
  lemma UpdateRefusals(writer: Writer, s: ServiceState, file: File, actor: Actor, r: Request, host: Host)
    requires ServiceInvariant(s) && SmallRequest(r) && r.Update? && !Retained(s, actor, r.operationId)
    ensures var (e, points) := (Perform(writer, s, file, actor, r, host).result.error, s.catalog.points);
      var paid := CanPay(s, actor, host.now);
      var found := paid && Held(points, r.id);
      var managed := found && HeldFor(points, r.id, actor, s.access);
      var current := managed && HeldAt(points, r.id, r.expectedRevision);
      var valid := current && Validate(r.body).Some?;
      var free := valid && HeldFree(points, r.id, Validate(r.body).value);
      var written := free && s.catalog.revision < I64_MAX && host.writable;
      && (e == RateLimited <==> !paid)
      && (e == NotFound <==> paid && !found)
      && (e == Forbidden <==> found && !managed)
      && (e == RevisionConflict <==> managed && !current)
      && (e == InvalidRequest <==> current && !valid)
      && (e == LocationTaken <==> valid && !free)
      && (e == PersistenceFailed <==> free && !written)
      && (e == NoError <==> written)
  {
    hide Perform, Plan, ServiceInvariant, Retained, CanPay, CanManage, Held, HeldAt, HeldFor, HeldFree, UniqueIds,
      Validate, SmallRequest;
    InvariantUnique(s);
    ErrorIs(writer, s, file, actor, r, host);
    UpdatePlanError(s, actor, r, host);
  }

  // What the author reads.

  /** The status and the code of an outcome, as the protocol numbers them, for every error and every minor. */
  lemma OutcomeReads(result: MutationResult, minor: i32)
    ensures var frame := OutcomeFrame(result, minor);
      && frame.Outcome? && frame.operationId == result.operationId
      && (frame.status == 0 <==> result.applied) && (frame.status == 1 <==> !result.applied)
      && (frame.error == 0 <==> result.error == NoError)
      && (frame.error == 1 <==> result.error == InvalidRequest || (result.error == LocationTaken && minor < 1))
      && (frame.error == 2 <==> result.error == RevisionConflict)
      && (frame.error == 3 <==> result.error == NotFound)
      && (frame.error == 4 <==> result.error == Forbidden)
      && (frame.error == 5 <==> result.error == WorldQuotaExceeded)
      && (frame.error == 6 <==> result.error == PlayerQuotaExceeded)
      && (frame.error == 7 <==> result.error == RateLimited)
      && (frame.error == 8 <==> result.error == PersistenceFailed)
      && (frame.error == 9 <==> result.error == IdGenerationFailed)
      && (frame.error == 11 <==> result.error == LocationTaken && minor >= 1)
  {
  }
}
