/** The authoritative mutation service: the store, the catalog file and the tracked players, as one object. */
module Services {
  import opened Prelude
  import opened Identity
  import opened Model
  import opened Proto
  import opened Catalogs
  import opened Buckets
  import opened Players
  import opened Persistence
  import opened Mutations
  import opened Stores
  import opened Tracking

  class Service {
    const store: Store
    const persistence: CatalogFile
    const limits: Limits
    const access: AccessPolicy
    const players: TrackedPlayers

    ghost function Repr(): set<object>
      reads players
    {
      {store, persistence, players} + players.Repr()
    }

    ghost predicate Valid()
      reads store, players, players.Repr()
    {
      store.Valid() && players.Valid()
    }

    ghost function View(): ServiceState
      requires Valid()
      reads store, players, players.Repr()
    {
      ServiceState(store.View(), limits, access, players.View())
    }

    /** Builds a service over a loaded catalog; nobody is tracked yet. */
    constructor (store: Store, persistence: CatalogFile, limits: Limits, access: AccessPolicy)
      requires store.Valid()
      ensures Valid() && View() == NewService(store.View(), limits, access)
      ensures this.persistence == persistence && this.store == store && fresh(players) && players.Repr() == {}
    {
      this.store := store;
      this.persistence := persistence;
      this.limits := limits;
      this.access := access;
      players := new TrackedPlayers();
    }

    method Snapshot() returns (c: Catalog)
      requires Valid()
      ensures c == View().catalog
    {
      c := store.Snapshot();
    }

    // What the requests ask of the store.

    method PlanForCreate(actor: Actor, r: Request, host: Host) returns (plan: Result<Prepared, MutationError>)
      requires Valid() && r.Create?
      ensures plan == PlanCreate(View().catalog, limits, actor, r, host)
    {
      hide Validate, LocationOf, FindAt, BlockOf, Has, Trim, ValidPublisherName, UniqueId, PrepareCreate,
        CountPublishedBy,
        ValidCatalog, Indexes, TrackedPlayers.Valid, TrackedPlayers.View;
      if r.expectedRevision != store.revision {
        return Err(RevisionConflict);
      }
      var validated := Validate(r.body);
      if validated == None {
        return Err(InvalidRequest);
      }
      var body := validated.value;
      if !ValidPublisherName(Trim(actor.name)) {
        return Err(InvalidRequest);
      }
      var location := LocationOf(body.dimensionId, body.x, body.y, body.z);
      if location == None {
        return Err(InvalidRequest);
      }
      if store.FindAtBlock(location.value).Some? {
        return Err(LocationTaken);
      }
      if |store.waypoints| >= limits.maxPerWorld {
        return Err(WorldQuotaExceeded);
      }
      var published := store.CountPublished(actor.id);
      if published >= limits.maxPerPlayer {
        return Err(PlayerQuotaExceeded);
      }
      var id := DrawUnused(host.draws);
      if id == None {
        return Err(IdGenerationFailed);
      }
      if store.revision == I64_MAX {
        return Err(PersistenceFailed);
      }
      var prepared := store.PrepareAdd(Waypoint(id.value, actor.id, Trim(actor.name), body, host.now, store.revision + 1));
      return if prepared.Err? then Err(RefusalOf(prepared.error)) else Ok(prepared.value);
    }

    static lemma DrawStep(points: seq<Waypoint>, draws: seq<Id>, attempts: nat)
      ensures attempts == 0 || draws == [] ==> UniqueId(points, draws, attempts) == None
      ensures attempts > 0 && draws != [] ==>
        UniqueId(points, draws, attempts) ==
          if FindById(points, draws[0]).None? then Some(draws[0]) else UniqueId(points, draws[1..], attempts - 1)
    {
      hide Has;
    }

    /** Draws ids until one is not in the catalog. */
    method DrawUnused(draws: seq<Id>) returns (r: Option<Id>)
      requires store.Valid()
      ensures r == UniqueId(store.waypoints, draws, ID_ATTEMPTS)
    {
      hide ValidCatalog, Indexes, TrackedPlayers.Valid, TrackedPlayers.View, UniqueId, Has;
      var i := 0;
      assert draws[0..] == draws;
      while i < ID_ATTEMPTS && i < |draws|
        invariant 0 <= i <= ID_ATTEMPTS && i <= |draws|
        invariant UniqueId(store.waypoints, draws, ID_ATTEMPTS) == UniqueId(store.waypoints, draws[i..], ID_ATTEMPTS - i)
      {
        DrawStep(store.waypoints, draws[i..], ID_ATTEMPTS - i);
        if store.Find(draws[i]).None? {
          return Some(draws[i]);
        }
        assert draws[i..][1..] == draws[i + 1..];
        i := i + 1;
      }
      DrawStep(store.waypoints, draws[i..], ID_ATTEMPTS - i);
      return None;
    }

    method PlanForDelete(actor: Actor, r: Request) returns (plan: Result<Prepared, MutationError>)
      requires Valid() && r.Delete?
      ensures plan == PlanDelete(View().catalog, access, actor, r)
    {
      hide Has, PrepareDelete, ValidCatalog, Indexes, TrackedPlayers.Valid, TrackedPlayers.View, CanManage, FindById;
      var current := store.Find(r.id);
      if current == None {
        return Err(NotFound);
      }
      if r.expectedRevision != current.value.revision {
        return Err(RevisionConflict);
      }
      if !CanManage(actor, current.value, access) {
        return Err(Forbidden);
      }
      var prepared := store.PrepareDrop(r.id);
      return if prepared.Err? then Err(RefusalOf(prepared.error)) else Ok(prepared.value);
    }

    method PlanForUpdate(actor: Actor, r: Request) returns (plan: Result<Prepared, MutationError>)
      requires Valid() && r.Update?
      ensures plan == PlanUpdate(View().catalog, access, actor, r)
    {
      hide Has, PrepareUpdate, ValidCatalog, Indexes, TrackedPlayers.Valid, TrackedPlayers.View, CanManage, FindById,
        Validate,
        LocationOf, BlockOf, FindAt;
      var current := store.Find(r.id);
      if current == None {
        return Err(NotFound);
      }
      if !CanManage(actor, current.value, access) {
        return Err(Forbidden);
      }
      if r.expectedRevision != current.value.revision {
        return Err(RevisionConflict);
      }
      var validated := Validate(r.body);
      if validated == None {
        return Err(InvalidRequest);
      }
      var body := validated.value;
      var location := LocationOf(body.dimensionId, body.x, body.y, body.z);
      if location == None {
        return Err(InvalidRequest);
      }
      var occupant := store.FindAtBlock(location.value);
      if location.value != BlockOf(current.value.body) && occupant.Some? && occupant.value.id != current.value.id {
        return Err(LocationTaken);
      }
      if store.revision == I64_MAX {
        return Err(PersistenceFailed);
      }
      var prepared := store.PrepareReplace(current.value.(body := body, revision := store.revision + 1));
      return if prepared.Err? then Err(RefusalOf(prepared.error)) else Ok(prepared.value);
    }

    // One whole mutation.

    /** Retries, permission and budget: a result to answer with, or leave to plan the request. */
    method Admit(actor: Actor, r: Request, host: Host) returns (answer: Option<MutationResult>)
      requires Valid()
      modifies players, players.Repr()
      ensures Valid() && fresh(players.Repr() - old(players.Repr())) && store.View() == old(store.View())
      ensures var s := old(View());
        var (touched, player) := Touched(s, actor.id, host.now);
        var (replay, audited) := ReplayDecision(player, r, s.catalog.revision);
        var (bucket, ok) := TryConsume(player.bucket, host.now);
        if replay.Some? then answer == replay && players.View() == WithState(touched, actor.id, audited)
        else if r.Create? && !CanCreate(actor, access) then
          answer == Some(Reject(r.operationId, s.catalog.revision, Forbidden)) && players.View() == touched
        else
          players.View() == WithState(touched, actor.id, player.(bucket := bucket)) &&
          answer == if ok then None else Some(Reject(r.operationId, s.catalog.revision, RateLimited))
      ensures answer.None? ==> actor.id in players.states && r.operationId !in players.states[actor.id].results
    {
      hide ReplayDecision, TryConsume, TrackedPlayers.View, TrackedPlayers.Valid, Store.Valid, Players.Touch,
        WithState, TrackedAt;
      var _ := players.Touch(actor.id, host.now, limits.mutationsPerMinute);
      players.Looked(actor.id);
      var replay := players.Replay(actor.id, r, store.revision);
      if replay.Some? {
        return replay;
      }
      if r.Create? && !CanCreate(actor, access) {
        return Some(Reject(r.operationId, store.revision, Forbidden));
      }
      var ok := players.Charge(actor.id, host.now);
      return if ok then None else Some(Reject(r.operationId, store.revision, RateLimited));
    }

    /** Writes what was prepared, then commits it, then retains the result; a failed write commits nothing. */
    method Finish(actor: Actor, r: Request, p: Prepared, writable: bool) returns (result: MutationResult)
      requires Valid() && ValidCatalog(p.next)
      requires actor.id in players.states && r.operationId !in players.states[actor.id].results
      modifies Repr()
      ensures Valid() && players.states == old(players.states)
      ensures var st := Conclude(persistence.writer, old(View()), old(persistence.content), actor, r, p, writable);
        View() == st.service && persistence.content == st.file && result == st.result
    {
      hide TrackedPlayers.View, TrackedPlayers.Valid, Store.Valid, ValidCatalog, Indexes,
        Mutations.Retain, Saved, Commit;
      var saved := persistence.Save(p.next, writable);
      if !saved {
        return Reject(r.operationId, store.revision, PersistenceFailed);
      }
      var refused := store.CommitPrepared(p);
      if refused.Some? {
        return Reject(r.operationId, store.revision, PersistenceFailed);
      }
      players.Retain(actor.id, r, p.delta);
      return Applied(r.operationId, p.delta);
    }

    /** What a mutation does to the service, its file and its caller. */
    twostate predicate Performs(actor: Actor, r: Request, host: Host, result: MutationResult)
      requires old(Valid()) && Valid()
      reads store, persistence, players, players.Repr()
    {
      var st := Perform(persistence.writer, old(View()), old(persistence.content), actor, r, host);
      View() == st.service && persistence.content == st.file && result == st.result
    }

    method Create(actor: Actor, r: Request, host: Host) returns (result: MutationResult)
      requires Valid() && r.Create?
      modifies Repr()
      ensures Valid() && fresh(players.Repr() - old(players.Repr()))
      ensures Performs(actor, r, host, result)
    {
      hide ReplayDecision, TryConsume, TrackedPlayers.View, TrackedPlayers.Valid, Store.Valid, Touched, WithState,
        PlanCreate, Conclude,
        CanCreate;
      var answer := Admit(actor, r, host);
      if answer.Some? {
        return answer.value;
      }
      var plan := PlanForCreate(actor, r, host);
      if plan.Err? {
        return Reject(r.operationId, store.revision, plan.error);
      }
      PlanIsValid(actor, r, host);
      result := Finish(actor, r, plan.value, host.writable);
    }

    method Delete(actor: Actor, r: Request, host: Host) returns (result: MutationResult)
      requires Valid() && r.Delete?
      modifies Repr()
      ensures Valid() && fresh(players.Repr() - old(players.Repr()))
      ensures Performs(actor, r, host, result)
    {
      hide ReplayDecision, TryConsume, TrackedPlayers.View, TrackedPlayers.Valid, Store.Valid, Touched, WithState,
        PlanDelete, Conclude;
      var answer := Admit(actor, r, host);
      if answer.Some? {
        return answer.value;
      }
      var plan := PlanForDelete(actor, r);
      if plan.Err? {
        return Reject(r.operationId, store.revision, plan.error);
      }
      PlanIsValid(actor, r, host);
      result := Finish(actor, r, plan.value, host.writable);
    }

    method Update(actor: Actor, r: Request, host: Host) returns (result: MutationResult)
      requires Valid() && r.Update?
      modifies Repr()
      ensures Valid() && fresh(players.Repr() - old(players.Repr()))
      ensures Performs(actor, r, host, result)
    {
      hide ReplayDecision, TryConsume, TrackedPlayers.View, TrackedPlayers.Valid, Store.Valid, Touched, WithState,
        PlanUpdate, Conclude;
      var answer := Admit(actor, r, host);
      if answer.Some? {
        return answer.value;
      }
      var plan := PlanForUpdate(actor, r);
      if plan.Err? {
        return Reject(r.operationId, store.revision, plan.error);
      }
      PlanIsValid(actor, r, host);
      result := Finish(actor, r, plan.value, host.writable);
    }

    lemma {:induction false} PlanIsValid(actor: Actor, r: Request, host: Host)
      requires Valid() && Plan(View(), actor, r, host).Ok?
      ensures ValidCatalog(Plan(View(), actor, r, host).value.next)
    {
      hide Plan, ValidCatalog, Indexes;
      PlanApplies(View(), actor, r, host);
    }
  }
}
