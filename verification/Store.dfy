/** The authoritative store: the point list shadowed by an id index and a block-occupancy index. */
module Stores {
  import opened Prelude
  import opened Identity
  import opened Model
  import opened Catalogs

  class Store {
    var revision: i64
    var waypoints: seq<Waypoint>
    var index: map<Id, nat>
    var occupancy: map<LocationKey, Id>

    /** Both indexes agree with the list: where each id is, and who is first in each block. */
    ghost predicate Valid()
      reads this
    {
      && ValidCatalog(Catalog(revision, waypoints))
      && Indexes(waypoints, index, occupancy)
    }

    ghost function View(): Catalog
      reads this
    {
      Catalog(revision, waypoints)
    }

    /** A store nothing has been published to. */
    constructor Empty()
      ensures Valid() && View() == EMPTY
    {
      revision := 0;
      waypoints := [];
      index := map[];
      occupancy := map[];
    }

    /** Appends one point: its block keeps an earlier occupant. */
    method Push(w: Waypoint)
      requires Indexes(waypoints, index, occupancy) && !Has(waypoints, w.id)
      modifies this`waypoints, this`index, this`occupancy
      ensures Indexes(waypoints, index, occupancy) && waypoints == old(waypoints) + [w]
    {
      hide BlockOf, Indexes;
      IndexesExtend(waypoints, index, occupancy, w);
      if BlockOf(w.body) !in occupancy {
        occupancy := occupancy[BlockOf(w.body) := w.id];
      }
      index := index[w.id := |waypoints|];
      waypoints := waypoints + [w];
    }

    /** Refills the list and both indexes, one point at a time. */
    method Refill(next: Catalog)
      requires ValidCatalog(next)
      modifies this
      ensures Valid() && View() == next
    {
      revision := next.revision;
      waypoints := [];
      index := map[];
      occupancy := map[];
      assert Indexes(waypoints, index, occupancy);
      hide Indexes;
      for i := 0 to |next.points|
        invariant revision == next.revision && waypoints == next.points[..i]
        invariant Indexes(waypoints, index, occupancy)
      {
        Push(next.points[i]);
        assert next.points[..i + 1] == next.points[..i] + [next.points[i]];
      }
      assert next.points[..|next.points|] == next.points;
    }

    method Snapshot() returns (c: Catalog)
      ensures c == View()
    {
      c := Catalog(revision, waypoints);
    }

    /** The point with this id: what a search of the list would find. */
    function Find(id: Id): (r: Option<Waypoint>)
      requires Valid()
      reads this
      ensures r == FindById(waypoints, id)
    {
      if id in index then Some(waypoints[index[id]]) else None
    }

    /** The point occupying this block: the first of the list that stands there. */
    function FindAtBlock(key: LocationKey): (r: Option<Waypoint>)
      requires Valid()
      reads this
      ensures r == FindAt(waypoints, key)
    {
      OccupantIsFirst(waypoints, index, occupancy, key);
      if key in occupancy then FindById(waypoints, occupancy[key]) else None
    }

    method CountPublished(publisher: Id) returns (n: nat)
      ensures n == CountPublishedBy(waypoints, publisher)
    {
      n := 0;
      var i := |waypoints|;
      while i > 0
        invariant 0 <= i <= |waypoints| && n == CountPublishedBy(waypoints[i..], publisher)
      {
        i := i - 1;
        assert waypoints[i..][1..] == waypoints[i + 1..];
        if waypoints[i].publisherId == publisher {
          n := n + 1;
        }
      }
      assert waypoints[0..] == waypoints;
    }

    function PrepareAdd(w: Waypoint): (r: Result<Prepared, StoreError>)
      requires Valid()
      reads this
      ensures r == PrepareCreate(View(), w)
    {
      OccupantIsFirst(waypoints, index, occupancy, BlockOf(w.body));
      if w.id in index then Err(DuplicateId)
      else if BlockOf(w.body) in occupancy then Err(DuplicateLocation)
      else if revision == I64_MAX then Err(RevisionExhausted)
      else if w.revision != revision + 1 then Err(Malformed)
      else Ok(Prepared(revision, Catalog(revision + 1, waypoints + [w]), Upserted(revision + 1, w)))
    }

    function PrepareDrop(id: Id): (r: Result<Prepared, StoreError>)
      requires Valid()
      reads this
      ensures r == PrepareDelete(View(), id)
    {
      if id !in index then Err(Missing)
      else if revision == I64_MAX then Err(RevisionExhausted)
      else Ok(Prepared(revision, Catalog(revision + 1, WithoutAt(waypoints, index[id])), Removed(revision + 1, id)))
    }

    function PrepareReplace(w: Waypoint): (r: Result<Prepared, StoreError>)
      requires Valid()
      reads this
      ensures r == PrepareUpdate(View(), w)
    {
      OccupantIsFirst(waypoints, index, occupancy, BlockOf(w.body));
      if w.id !in index then Err(Missing)
      else if revision == I64_MAX then Err(RevisionExhausted)
      else if w.revision != revision + 1 then Err(Malformed)
      else
        var current, key := waypoints[index[w.id]], BlockOf(w.body);
        if key != BlockOf(current.body) && key in occupancy && occupancy[key] != w.id then Err(DuplicateLocation)
        else Ok(Prepared(revision, Catalog(revision + 1, waypoints[index[w.id] := w]), Upserted(revision + 1, w)))
    }

    /** Installs a prepared mutation, provided nothing moved since it was made. */
    method CommitPrepared(p: Prepared) returns (r: Option<StoreError>)
      requires Valid() && ValidCatalog(p.next)
      modifies this
      ensures Valid()
      ensures r == match Commit(old(View()), p) case Ok(_) => None case Err(e) => Some(e)
      ensures View() == match Commit(old(View()), p) case Ok(c) => c case Err(_) => old(View())
    {
      if p.base != revision {
        return Some(Stale);
      }
      Refill(p.next);
      return None;
    }
  }

  /** Builds a store over a loaded snapshot, refusing one that contradicts itself. */
  method NewStore(initial: Catalog) returns (r: Result<Store, StoreError>)
    ensures r.Ok? <==> ValidCatalog(initial)
    ensures r.Ok? ==> fresh(r.value) && r.value.Valid() && r.value.View() == initial
    ensures r.Err? ==> r.error == Malformed
  {
    hide Indexes;
    if initial.revision < 0 {
      return Err(Malformed);
    }
    var store := new Store.Empty();
    store.revision := initial.revision;
    for i := 0 to |initial.points|
      invariant store.Valid() && store.View() == Catalog(initial.revision, initial.points[..i])
    {
      var w := initial.points[i];
      if w.revision < 1 || w.revision > initial.revision {
        return Err(Malformed);
      }
      if store.Find(w.id).Some? {
        assert initial.points[IndexOf(store.waypoints, w.id)].id == w.id;
        return Err(Malformed);
      }
      store.Push(w);
      assert initial.points[..i + 1] == initial.points[..i] + [w];
    }
    assert initial.points[..|initial.points|] == initial.points;
    return Ok(store);
  }

  ghost predicate Indexes(points: seq<Waypoint>, index: map<Id, nat>, occupancy: map<LocationKey, Id>) {
    && (forall id :: id in index <==> Has(points, id))
    && (forall id :: id in index ==> index[id] == IndexOf(points, id))
    && (forall key :: key in occupancy <==> PositionAt(points, key) < |points|)
    && (forall key :: key in occupancy ==> occupancy[key] == points[PositionAt(points, key)].id)
  }

  lemma {:induction false} IndexOfAppend(points: seq<Waypoint>, w: Waypoint, id: Id)
    ensures IndexOf(points + [w], id) ==
            if Has(points, id) then IndexOf(points, id) else if w.id == id then |points| else |points| + 1
  {
    var n := IndexOf(points + [w], id);
    assert forall k :: 0 <= k < |points| ==> (points + [w])[k] == points[k];
    assert (points + [w])[|points|] == w;
  }

  lemma {:induction false} PositionAtAppend(points: seq<Waypoint>, w: Waypoint, key: LocationKey)
    ensures PositionAt(points + [w], key) ==
            if PositionAt(points, key) < |points| then PositionAt(points, key)
            else if BlockOf(w.body) == key then |points| else |points| + 1
  {
    hide BlockOf;
    assert forall k :: 0 <= k < |points| ==> (points + [w])[k] == points[k];
    assert (points + [w])[|points|] == w;
  }

  /** Inserting a point: its id goes to the end, its block keeps an earlier occupant. */
  lemma IndexesExtend(points: seq<Waypoint>, index: map<Id, nat>, occupancy: map<LocationKey, Id>, w: Waypoint)
    requires Indexes(points, index, occupancy)
    ensures !Has(points, w.id) ==>
      Indexes(points + [w], index[w.id := |points|],
              if BlockOf(w.body) in occupancy then occupancy else occupancy[BlockOf(w.body) := w.id])
  {
    hide BlockOf, IndexOf, PositionAt;
    forall id {
      IndexOfAppend(points, w, id);
    }
    forall key {
      PositionAtAppend(points, w, key);
    }
  }

  /** Looking the recorded occupant up by id finds the first point of the block. */
  lemma OccupantIsFirst(points: seq<Waypoint>, index: map<Id, nat>, occupancy: map<LocationKey, Id>, key: LocationKey)
    requires UniqueIds(points) && Indexes(points, index, occupancy)
    ensures key in occupancy <==> FindAt(points, key).Some?
    ensures key in occupancy ==> FindById(points, occupancy[key]) == FindAt(points, key)
  {
    hide BlockOf;
    if key in occupancy {
      IndexUnique(points, PositionAt(points, key));
    }
  }
}
