/**
  What one create, update or delete does to the service: the checks in protocol order, the durable
  write, the commit, and the retained result.
 */
module Mutations {
  import opened Prelude
  import opened Identity
  import opened Floats
  import opened Model
  import opened Proto
  import opened Catalogs
  import opened Buckets
  import opened Players
  import opened Json
  import opened Documents
  import opened DocumentSize
  import opened Persistence
  import Utf8

  const ID_ATTEMPTS := 16

  datatype Limits = Limits(maxPerWorld: nat, maxPerPlayer: nat, mutationsPerMinute: nat)

  datatype AccessPolicy = OperatorOnly | OwnerManaged

  /** The player a mutation is attributed to. */
  datatype Actor = Actor(id: Id, name: string, operator: bool)

  /** What the host supplies to one call: the clock, the ids it draws, whether the disk takes a write. */
  datatype Host = Host(now: millis, draws: seq<Id>, writable: bool)

  datatype ServiceState = ServiceState(catalog: Catalog, limits: Limits, access: AccessPolicy, players: seq<Tracked>)

  datatype Step = Step(service: ServiceState, file: File, result: MutationResult)

  function NewService(c: Catalog, limits: Limits, access: AccessPolicy): ServiceState {
    ServiceState(c, limits, access, [])
  }

  /** Whether the actor may publish at all. */
  predicate CanCreate(actor: Actor, access: AccessPolicy) {
    actor.operator || access == OwnerManaged
  }

  /** Whether the actor may change this point. */
  predicate CanManage(actor: Actor, w: Waypoint, access: AccessPolicy) {
    actor.operator || (access == OwnerManaged && w.publisherId == actor.id)
  }

  /** The first of the ids drawn that the catalog does not hold. */
  function UniqueId(points: seq<Waypoint>, draws: seq<Id>, attempts: nat): (r: Option<Id>)
    ensures r.Some? ==> !Has(points, r.value)
    decreases attempts
  {
    if attempts == 0 || draws == [] then None
    else if !Has(points, draws[0]) then Some(draws[0])
    else UniqueId(points, draws[1..], attempts - 1)
  }

  function RefusalOf(e: StoreError): MutationError {
    match e
    case DuplicateLocation => LocationTaken
    case Missing => NotFound
    case DuplicateId => IdGenerationFailed
    case _ => PersistenceFailed
  }

  // What each request asks of the store, or why it is refused.

  function PlanCreate(c: Catalog, limits: Limits, actor: Actor, r: Request, host: Host): Result<Prepared, MutationError>
    requires r.Create?
  {
    if r.expectedRevision != c.revision then Err(RevisionConflict)
    else
      match Validate(r.body)
      case None => Err(InvalidRequest)
      case Some(body) =>
        if !ValidPublisherName(Trim(actor.name)) then Err(InvalidRequest)
        else
          match LocationOf(body.dimensionId, body.x, body.y, body.z)
          case None => Err(InvalidRequest)
          case Some(location) =>
            if FindAt(c.points, location).Some? then Err(LocationTaken)
            else if |c.points| >= limits.maxPerWorld then Err(WorldQuotaExceeded)
            else if CountPublishedBy(c.points, actor.id) >= limits.maxPerPlayer then Err(PlayerQuotaExceeded)
            else PlaceNew(c, actor, body, host)
  }

  function PlaceNew(c: Catalog, actor: Actor, body: Body, host: Host): Result<Prepared, MutationError> {
    match UniqueId(c.points, host.draws, ID_ATTEMPTS)
    case None => Err(IdGenerationFailed)
    case Some(id) =>
      if c.revision == I64_MAX then Err(PersistenceFailed)
      else
        match PrepareCreate(c, Waypoint(id, actor.id, Trim(actor.name), body, host.now, c.revision + 1))
        case Err(e) => Err(RefusalOf(e))
        case Ok(p) => Ok(p)
  }

  function PlanDelete(c: Catalog, access: AccessPolicy, actor: Actor, r: Request): Result<Prepared, MutationError>
    requires r.Delete?
  {
    match FindById(c.points, r.id)
    case None => Err(NotFound)
    case Some(current) =>
      if r.expectedRevision != current.revision then Err(RevisionConflict)
      else if !CanManage(actor, current, access) then Err(Forbidden)
      else
        match PrepareDelete(c, r.id)
        case Err(e) => Err(RefusalOf(e))
        case Ok(p) => Ok(p)
  }

  function PlanUpdate(c: Catalog, access: AccessPolicy, actor: Actor, r: Request): Result<Prepared, MutationError>
    requires r.Update?
  {
    match FindById(c.points, r.id)
    case None => Err(NotFound)
    case Some(current) =>
      if !CanManage(actor, current, access) then Err(Forbidden)
      else if r.expectedRevision != current.revision then Err(RevisionConflict)
      else
        match Validate(r.body)
        case None => Err(InvalidRequest)
        case Some(body) => PlaceChanged(c, current, body)
  }

  function PlaceChanged(c: Catalog, current: Waypoint, body: Body): Result<Prepared, MutationError> {
    match LocationOf(body.dimensionId, body.x, body.y, body.z)
    case None => Err(InvalidRequest)
    case Some(location) =>
      var occupant := FindAt(c.points, location);
      if location != BlockOf(current.body) && occupant.Some? && occupant.value.id != current.id then Err(LocationTaken)
      else if c.revision == I64_MAX then Err(PersistenceFailed)
      else
        match PrepareUpdate(c, current.(body := body, revision := c.revision + 1))
        case Err(e) => Err(RefusalOf(e))
        case Ok(p) => Ok(p)
  }

  function Plan(s: ServiceState, actor: Actor, r: Request, host: Host): Result<Prepared, MutationError> {
    match r
    case Create(_, _, _) => PlanCreate(s.catalog, s.limits, actor, r, host)
    case Update(_, _, _, _) => PlanUpdate(s.catalog, s.access, actor, r)
    case Delete(_, _, _) => PlanDelete(s.catalog, s.access, actor, r)
  }

  // One whole mutation.

  function Refuse(s: ServiceState, file: File, op: Id, error: MutationError): Step {
    Step(s, file, Reject(op, s.catalog.revision, error))
  }

  /** Writes what was prepared, then commits it, then retains the result. */
  function Conclude(writer: Writer, s: ServiceState, file: File, actor: Actor, r: Request, p: Prepared,
      writable: bool): Step {
    var (saved, after) := Saved(writer, file, p.next, writable);
    if !saved then Step(s, after, Reject(r.operationId, s.catalog.revision, PersistenceFailed))
    else
      match Commit(s.catalog, p)
      case Err(_) => Step(s, after, Reject(r.operationId, s.catalog.revision, PersistenceFailed))
      case Ok(c) => Step(s.(catalog := c, players := Retain(s.players, actor.id, r, p.delta)), after, Applied(r.operationId, p.delta))
  }

  function Retain(players: seq<Tracked>, id: Id, r: Request, delta: Delta): seq<Tracked> {
    match StateOf(players, id)
    case None => players
    case Some(player) =>
      var cached := Cached(r, Applied(r.operationId, delta), false);
      WithState(players, id, player.(kept := Remember(player.kept, r.operationId, cached)))
  }

  /** The player's state once touched for this call. */
  function Touched(s: ServiceState, id: Id, now: millis): (seq<Tracked>, Player) {
    var touched := Touch(s.players, id, now, s.limits.mutationsPerMinute);
    match StateOf(touched, id)
    case Some(player) => (touched, player)
    case None => (touched, NewPlayer(s.limits.mutationsPerMinute, now))
  }

  function Perform(writer: Writer, s: ServiceState, file: File, actor: Actor, r: Request, host: Host): Step {
    var (touched, player) := Touched(s, actor.id, host.now);
    var (replay, audited) := ReplayDecision(player, r, s.catalog.revision);
    if replay.Some? then Step(s.(players := WithState(touched, actor.id, audited)), file, replay.value)
    else if r.Create? && !CanCreate(actor, s.access) then
      Refuse(s.(players := touched), file, r.operationId, Forbidden)
    else
      var (bucket, ok) := TryConsume(player.bucket, host.now);
      var charged := s.(players := WithState(touched, actor.id, player.(bucket := bucket)));
      if !ok then Refuse(charged, file, r.operationId, RateLimited)
      else
        match Plan(charged, actor, r, host)
        case Err(e) => Refuse(charged, file, r.operationId, e)
        case Ok(p) => Conclude(writer, charged, file, actor, r, p, host.writable)
  }

  // What a plan guarantees.

  /** The proposal a plan puts to the store. */
  ghost predicate Proposes(c: Catalog, proposal: Proposal, p: Prepared) {
    Prepare(c, proposal) == Ok(p)
  }

  /** The point named by an update or a delete, as it stood, and by whose right it may change. */
  ghost predicate NamedAndManaged(c: Catalog, access: AccessPolicy, actor: Actor, r: Request)
    requires !r.Create?
  {
    && Has(c.points, r.id)
    && var current := c.points[IndexOf(c.points, r.id)];
       current.revision == r.expectedRevision && CanManage(actor, current, access)
  }

  lemma PlanCreateFacts(s: ServiceState, actor: Actor, r: Request, host: Host)
    requires r.Create? && Plan(s, actor, r, host).Ok?
    ensures var p := Plan(s, actor, r, host).value;
      && p.delta.Upserted? && Proposes(s.catalog, Add(p.delta.waypoint), p)
      && r.expectedRevision == s.catalog.revision
      && |s.catalog.points| < s.limits.maxPerWorld
      && CountPublishedBy(s.catalog.points, actor.id) < s.limits.maxPerPlayer
    ensures var w := Plan(s, actor, r, host).value.delta.waypoint;
      && Validate(r.body) == Some(w.body) && w.publisherName == Trim(actor.name) && ValidPublisherName(w.publisherName)
      && w.publisherId == actor.id && w.createdAtMs == host.now
  {
    hide Validate, LocationOf, FindAt, BlockOf, Has, Trim, ValidDisplayText, UniqueId;
  }

  lemma PlanDeleteFacts(s: ServiceState, actor: Actor, r: Request, host: Host)
    requires r.Delete? && Plan(s, actor, r, host).Ok?
    ensures var p := Plan(s, actor, r, host).value;
      p.delta == Removed(s.catalog.revision + 1, r.id) && Proposes(s.catalog, Drop(r.id), p)
    ensures NamedAndManaged(s.catalog, s.access, actor, r)
  {
  }

  lemma PlanUpdateFacts(s: ServiceState, actor: Actor, r: Request, host: Host)
    requires r.Update? && Plan(s, actor, r, host).Ok?
    ensures NamedAndManaged(s.catalog, s.access, actor, r)
    ensures var p := Plan(s, actor, r, host).value;
      && p.delta.Upserted? && Proposes(s.catalog, Replace(p.delta.waypoint), p)
      && var current := s.catalog.points[IndexOf(s.catalog.points, r.id)];
         && p.delta.waypoint == current.(body := p.delta.waypoint.body, revision := s.catalog.revision + 1)
         && Validate(r.body) == Some(p.delta.waypoint.body)
  {
    hide Validate, LocationOf, FindAt, BlockOf, Displaces;
  }

  /** Every plan is one preparation of the current catalog: its delta applied, one revision on. */
  lemma PlanApplies(s: ServiceState, actor: Actor, r: Request, host: Host)
    requires Plan(s, actor, r, host).Ok?
    ensures var p := Plan(s, actor, r, host).value;
      && p.base == s.catalog.revision && p.next.revision == s.catalog.revision + 1 == p.delta.revision
      && p.next.points == Apply(s.catalog.points, p.delta)
      && (ValidCatalog(s.catalog) ==> ValidCatalog(p.next))
      && !p.delta.Noop?
      && (ValidCatalog(s.catalog) ==> SharedPairs(p.next.points) <= SharedPairs(s.catalog.points))
  {
    hide Plan, Prepare, ValidCatalog, Apply, SharedPairs;
    var p := Plan(s, actor, r, host).value;
    var proposal: Proposal;
    match r {
      case Create(_, _, _) =>
        PlanCreateFacts(s, actor, r, host);
        proposal := Add(p.delta.waypoint);
      case Update(_, _, _, _) =>
        PlanUpdateFacts(s, actor, r, host);
        proposal := Replace(p.delta.waypoint);
      case Delete(_, _, _) =>
        PlanDeleteFacts(s, actor, r, host);
        proposal := Drop(r.id);
    }
    PrepareApplies(s.catalog, proposal);
    if ValidCatalog(s.catalog) {
      SharingNeverGrows(s.catalog, proposal);
    }
  }

  /** The service's own checks leave the store nothing to refuse: creating. */
  lemma CreateNeverRefused(c: Catalog, actor: Actor, draft: Body, body: Body, host: Host)
    requires Validate(draft) == Some(body) && FindAt(c.points, BlockOf(body)).None?
    requires UniqueId(c.points, host.draws, ID_ATTEMPTS).Some? && c.revision < I64_MAX
    ensures PlaceNew(c, actor, body, host).Ok?
    ensures LocationOf(body.dimensionId, body.x, body.y, body.z) == Some(BlockOf(body))
  {
    hide Validate, FindAt, LocationOf, Has;
    ValidateIdempotent(draft);
    ValidatedHasBlock(body);
  }

  /** The service's own checks leave the store nothing to refuse: updating. */
  lemma UpdateNeverRefused(c: Catalog, id: Id, draft: Body, body: Body)
    requires Validate(draft) == Some(body) && Has(c.points, id) && c.revision < I64_MAX
    ensures PlaceChanged(c, c.points[IndexOf(c.points, id)], body).Ok? ||
            PlaceChanged(c, c.points[IndexOf(c.points, id)], body) == Err(LocationTaken)
    ensures var current := c.points[IndexOf(c.points, id)];
      PlaceChanged(c, current, body) == Err(LocationTaken) <==>
        Displaces(c.points, current, current.(body := body))
  {
    hide Validate, FindAt, LocationOf, BlockOf;
    ValidateIdempotent(draft);
    ValidatedHasBlock(body);
  }

  /** The service's own checks leave the store nothing to refuse: deleting. */
  lemma DeleteNeverRefused(c: Catalog, access: AccessPolicy, actor: Actor, r: Request)
    requires r.Delete? && c.revision < I64_MAX
    ensures PlanDelete(c, access, actor, r).Ok? <==> NamedAndManaged(c, access, actor, r)
  {
  }
}
