/**
  The catalog as a value: one revision, the points in insertion order, and the mutations prepared
  against it. `Store` keeps the same thing behind two indexes.
 */
module Catalogs {
  import opened Prelude
  import opened Identity
  import opened Model

  /** The whole catalog at one revision. */
  datatype Catalog = Catalog(revision: i64, points: seq<Waypoint>)

  datatype Delta =
    | Upserted(revision: i64, waypoint: Waypoint)
    | Removed(revision: i64, id: Id)
    | Noop(revision: i64)

  datatype StoreError = DuplicateId | DuplicateLocation | Missing | RevisionExhausted | Stale | Malformed

  /** A mutation prepared against a revision but not yet committed. */
  datatype Prepared = Prepared(base: i64, next: Catalog, delta: Delta)

  const EMPTY := Catalog(0, [])

  // Looking points up.

  /** Where the point with this id is, or the length when there is none. */
  function IndexOf(points: seq<Waypoint>, id: Id): (n: nat)
    ensures n <= |points|
    ensures n < |points| ==> points[n].id == id
    ensures forall k :: 0 <= k < n ==> points[k].id != id
  {
    if points == [] || points[0].id == id then 0 else 1 + IndexOf(points[1..], id)
  }

  predicate Has(points: seq<Waypoint>, id: Id) {
    IndexOf(points, id) < |points|
  }

  function FindById(points: seq<Waypoint>, id: Id): Option<Waypoint> {
    if Has(points, id) then Some(points[IndexOf(points, id)]) else None
  }

  function PositionAt(points: seq<Waypoint>, key: LocationKey): (n: nat)
    ensures n <= |points|
    ensures n < |points| ==> BlockOf(points[n].body) == key
    ensures forall k :: 0 <= k < n ==> BlockOf(points[k].body) != key
  {
    hide BlockOf;
    if points == [] || BlockOf(points[0].body) == key then 0 else 1 + PositionAt(points[1..], key)
  }

  /** The first point in this block. */
  function FindAt(points: seq<Waypoint>, key: LocationKey): Option<Waypoint> {
    var n := PositionAt(points, key);
    if n < |points| then Some(points[n]) else None
  }

  function CountPublishedBy(points: seq<Waypoint>, publisher: Id): (n: nat)
    ensures n <= |points|
  {
    if points == [] then 0
    else (if points[0].publisherId == publisher then 1 else 0) + CountPublishedBy(points[1..], publisher)
  }

  ghost predicate UniqueIds(points: seq<Waypoint>) {
    forall i, j :: 0 <= i < j < |points| ==> points[i].id != points[j].id
  }

  /** A catalog that does not contradict itself. */
  ghost predicate ValidCatalog(c: Catalog) {
    && c.revision >= 0
    && UniqueIds(c.points)
    && forall k :: 0 <= k < |c.points| ==> 1 <= c.points[k].revision <= c.revision
  }

  // Preparing and committing.

  function WithoutAt(points: seq<Waypoint>, n: nat): (rest: seq<Waypoint>)
    requires n < |points|
    ensures |rest| == |points| - 1
    ensures forall k :: 0 <= k < n ==> rest[k] == points[k]
    ensures forall k :: n <= k < |rest| ==> rest[k] == points[k + 1]
  {
    points[..n] + points[n + 1..]
  }

  /** What a delta does to a list of points. */
  function Apply(points: seq<Waypoint>, delta: Delta): seq<Waypoint> {
    match delta
    case Upserted(_, w) =>
      if Has(points, w.id) then points[IndexOf(points, w.id) := w] else points + [w]
    case Removed(_, id) => if Has(points, id) then WithoutAt(points, IndexOf(points, id)) else points
    case Noop(_) => points
  }

  function PrepareCreate(c: Catalog, w: Waypoint): Result<Prepared, StoreError> {
    if Has(c.points, w.id) then Err(DuplicateId)
    else if FindAt(c.points, BlockOf(w.body)).Some? then Err(DuplicateLocation)
    else if c.revision == I64_MAX then Err(RevisionExhausted)
    else if w.revision != c.revision + 1 then Err(Malformed)
    else Ok(Prepared(c.revision, Catalog(c.revision + 1, c.points + [w]), Upserted(c.revision + 1, w)))
  }

  function PrepareDelete(c: Catalog, id: Id): Result<Prepared, StoreError> {
    if !Has(c.points, id) then Err(Missing)
    else if c.revision == I64_MAX then Err(RevisionExhausted)
    else
      Ok(Prepared(c.revision, Catalog(c.revision + 1, WithoutAt(c.points, IndexOf(c.points, id))),
                  Removed(c.revision + 1, id)))
  }

  /** Moving onto a block another point holds is a conflict; staying put is not. */
  predicate Displaces(points: seq<Waypoint>, current: Waypoint, w: Waypoint) {
    && BlockOf(w.body) != BlockOf(current.body)
    && var occupant := FindAt(points, BlockOf(w.body));
       occupant.Some? && occupant.value.id != w.id
  }

  function PrepareUpdate(c: Catalog, w: Waypoint): Result<Prepared, StoreError> {
    if !Has(c.points, w.id) then Err(Missing)
    else if c.revision == I64_MAX then Err(RevisionExhausted)
    else if w.revision != c.revision + 1 then Err(Malformed)
    else
      var n := IndexOf(c.points, w.id);
      if Displaces(c.points, c.points[n], w) then Err(DuplicateLocation)
      else Ok(Prepared(c.revision, Catalog(c.revision + 1, c.points[n := w]), Upserted(c.revision + 1, w)))
  }

  function Commit(c: Catalog, p: Prepared): Result<Catalog, StoreError> {
    if p.base != c.revision then Err(Stale) else Ok(p.next)
  }

  /** A change somebody proposes to a store. */
  datatype Proposal = Add(waypoint: Waypoint) | Replace(waypoint: Waypoint) | Drop(id: Id)

  function Prepare(c: Catalog, proposal: Proposal): Result<Prepared, StoreError> {
    match proposal
    case Add(w) => PrepareCreate(c, w)
    case Replace(w) => PrepareUpdate(c, w)
    case Drop(id) => PrepareDelete(c, id)
  }

  // What preparing keeps.

  lemma IndexUnique(points: seq<Waypoint>, n: nat)
    requires UniqueIds(points) && n < |points|
    ensures IndexOf(points, points[n].id) == n
  {
  }

  lemma AddValid(c: Catalog, w: Waypoint)
    requires ValidCatalog(c) && !Has(c.points, w.id) && c.revision < I64_MAX && w.revision == c.revision + 1
    ensures ValidCatalog(Catalog(c.revision + 1, c.points + [w]))
  {
  }

  lemma DropValid(c: Catalog, n: nat)
    requires ValidCatalog(c) && n < |c.points| && c.revision < I64_MAX
    ensures ValidCatalog(Catalog(c.revision + 1, WithoutAt(c.points, n)))
  {
    var rest := WithoutAt(c.points, n);
    forall i, j | 0 <= i < j < |rest|
      ensures rest[i].id != rest[j].id
    {
      assert c.points[if i < n then i else i + 1].id != c.points[if j < n then j else j + 1].id;
    }
  }

  lemma ReplaceValid(c: Catalog, n: nat, w: Waypoint)
    requires ValidCatalog(c) && n < |c.points| && c.points[n].id == w.id
    requires c.revision < I64_MAX && w.revision == c.revision + 1
    ensures ValidCatalog(Catalog(c.revision + 1, c.points[n := w]))
  {
  }

  /** A prepared mutation is its delta applied, one revision on, and contradicts nothing. */
  lemma PrepareApplies(c: Catalog, proposal: Proposal)
    requires Prepare(c, proposal).Ok?
    ensures var p := Prepare(c, proposal).value;
      && p.base == c.revision && p.next.revision == c.revision + 1 == p.delta.revision
      && p.next.points == Apply(c.points, p.delta)
      && (ValidCatalog(c) ==> ValidCatalog(p.next))
  {
    hide ValidCatalog, BlockOf, Displaces, WithoutAt;
    if ValidCatalog(c) {
      match proposal
      case Add(w) => AddValid(c, w);
      case Replace(w) => ReplaceValid(c, IndexOf(c.points, w.id), w);
      case Drop(id) => DropValid(c, IndexOf(c.points, id));
    }
  }

  // Blocks that hold more than one point.

  /** The pairs of ids that share a block, in list order. */
  ghost function SharedPairs(points: seq<Waypoint>): set<(Id, Id)> {
    set i, j | 0 <= i < |points| && 0 <= j < |points| && Together(points, i, j) :: (points[i].id, points[j].id)
  }

  ghost predicate Together(points: seq<Waypoint>, i: int, j: int)
    requires 0 <= i < |points| && 0 <= j < |points|
  {
    points[i].id != points[j].id && BlockOf(points[i].body) == BlockOf(points[j].body)
  }

  lemma AddSharesNothing(c: Catalog, w: Waypoint)
    requires ValidCatalog(c) && PrepareCreate(c, w).Ok?
    ensures SharedPairs(c.points + [w]) <= SharedPairs(c.points)
  {
    hide BlockOf;
    var next := c.points + [w];
    forall i, j | 0 <= i < |next| && 0 <= j < |next| && Together(next, i, j)
      ensures (next[i].id, next[j].id) in SharedPairs(c.points)
    {
      assert PositionAt(c.points, BlockOf(w.body)) == |c.points|;
      assert i < |c.points| && j < |c.points|;
      assert Together(c.points, i, j);
    }
  }

  lemma DropSharesNothing(points: seq<Waypoint>, n: nat)
    requires n < |points|
    ensures SharedPairs(WithoutAt(points, n)) <= SharedPairs(points)
  {
    hide BlockOf;
    var next := WithoutAt(points, n);
    forall i, j | 0 <= i < |next| && 0 <= j < |next| && Together(next, i, j)
      ensures (next[i].id, next[j].id) in SharedPairs(points)
    {
      var i', j' := if i < n then i else i + 1, if j < n then j else j + 1;
      assert Together(points, i', j');
    }
  }

  /** A point that does not displace another is alone in its new block, or stays in its old one. */
  lemma UndisplacedBlock(points: seq<Waypoint>, n: nat, w: Waypoint, k: nat)
    requires UniqueIds(points) && n < |points| && k < |points| && k != n
    requires points[n].id == w.id && !Displaces(points, points[n], w)
    requires BlockOf(points[k].body) == BlockOf(w.body)
    ensures BlockOf(w.body) == BlockOf(points[n].body)
  {
    hide BlockOf;
    var first := PositionAt(points, BlockOf(w.body));
    assert first <= k;
    assert first != n ==> points[first].id != w.id;
  }

  lemma ReplaceSharesNothing(points: seq<Waypoint>, n: nat, w: Waypoint)
    requires UniqueIds(points) && n < |points| && points[n].id == w.id && !Displaces(points, points[n], w)
    ensures SharedPairs(points[n := w]) <= SharedPairs(points)
  {
    hide BlockOf, Displaces;
    var next := points[n := w];
    forall i, j | 0 <= i < |next| && 0 <= j < |next| && Together(next, i, j)
      ensures (next[i].id, next[j].id) in SharedPairs(points)
    {
      if i == n {
        UndisplacedBlock(points, n, w, j);
      } else if j == n {
        UndisplacedBlock(points, n, w, i);
      }
      assert Together(points, i, j);
    }
  }

  /** No mutation puts two points in one block: pairs a file brought in may stay, none is added. */
  lemma SharingNeverGrows(c: Catalog, proposal: Proposal)
    requires ValidCatalog(c) && Prepare(c, proposal).Ok?
    ensures SharedPairs(Prepare(c, proposal).value.next.points) <= SharedPairs(c.points)
  {
    hide SharedPairs, BlockOf, Displaces;
    match proposal
    case Add(w) => AddSharesNothing(c, w);
    case Replace(w) => ReplaceSharesNothing(c.points, IndexOf(c.points, w.id), w);
    case Drop(id) => DropSharesNothing(c.points, IndexOf(c.points, id));
  }

  // Any number of outstanding preparations, committed in any order.

  datatype StoreEvent = Propose(proposal: Proposal) | CommitNth(k: nat)

  /**
    One store's life: its catalog now, every preparation ever handed out, those that were
    committed, and the catalog at each revision passed through.
   */
  datatype StoreRun = StoreRun(now: Catalog, handedOut: seq<Prepared>, committed: seq<Prepared>, past: seq<Catalog>)

  function StartRun(c: Catalog): StoreRun {
    StoreRun(c, [], [], [c])
  }

  function StepRun(r: StoreRun, e: StoreEvent): StoreRun {
    match e
    case Propose(proposal) =>
      (match Prepare(r.now, proposal)
       case Err(_) => r
       case Ok(p) => r.(handedOut := r.handedOut + [p]))
    case CommitNth(k) =>
      if k >= |r.handedOut| then r
      else
        match Commit(r.now, r.handedOut[k])
        case Err(_) => r
        case Ok(c) => r.(now := c, committed := r.committed + [r.handedOut[k]], past := r.past + [c])
  }

  function RunStore(c: Catalog, events: seq<StoreEvent>): StoreRun {
    if events == [] then StartRun(c)
    else StepRun(RunStore(c, events[..|events| - 1]), events[|events| - 1])
  }

  /** Applying the committed deltas, in the order they were committed. */
  function Replay(points: seq<Waypoint>, committed: seq<Prepared>): seq<Waypoint> {
    if committed == [] then points
    else Apply(Replay(points, committed[..|committed| - 1]), committed[|committed| - 1].delta)
  }

  ghost predicate RunInvariant(start: Catalog, r: StoreRun) {
    && |r.past| == |r.committed| + 1
    && r.past[|r.committed|] == r.now
    && (forall k :: 0 <= k < |r.past| ==> r.past[k].revision == start.revision + k && ValidCatalog(r.past[k]))
    && (forall k :: 0 <= k < |r.committed| ==> r.committed[k].base == start.revision + k)
    && (forall k :: 0 <= k < |r.handedOut| ==> Grounded(start, r.past, r.handedOut[k]))
  }

  /** A preparation carries exactly its delta applied to the catalog its base revision had. */
  ghost predicate Grounded(start: Catalog, past: seq<Catalog>, p: Prepared) {
    var k := p.base - start.revision;
    && 0 <= k < |past|
    && p.next.revision == p.base + 1
    && p.next.points == Apply(past[k].points, p.delta)
    && ValidCatalog(p.next)
  }

  lemma StepKeepsInvariant(start: Catalog, r: StoreRun, e: StoreEvent)
    requires RunInvariant(start, r)
    ensures RunInvariant(start, StepRun(r, e))
  {
    hide Apply, Prepare, ValidCatalog;
    match e
    case Propose(proposal) =>
      if Prepare(r.now, proposal).Ok? {
        PrepareApplies(r.now, proposal);
      }
    case CommitNth(k) =>
  }

  lemma {:induction false} RunKeepsInvariant(c: Catalog, events: seq<StoreEvent>)
    requires ValidCatalog(c)
    ensures RunInvariant(c, RunStore(c, events))
  {
    hide ValidCatalog, StepRun;
    if events != [] {
      RunKeepsInvariant(c, events[..|events| - 1]);
      StepKeepsInvariant(c, RunStore(c, events[..|events| - 1]), events[|events| - 1]);
    } else {
      assert RunInvariant(c, StartRun(c));
    }
  }

  lemma {:induction false} RunReplays(c: Catalog, events: seq<StoreEvent>)
    requires ValidCatalog(c)
    ensures RunStore(c, events).now.points == Replay(c.points, RunStore(c, events).committed)
  {
    hide ValidCatalog, Prepare, Apply;
    if events != [] {
      var r := RunStore(c, events[..|events| - 1]);
      RunKeepsInvariant(c, events[..|events| - 1]);
      RunReplays(c, events[..|events| - 1]);
      var next := RunStore(c, events);
      if next.committed != r.committed {
        assert next.committed[..|r.committed|] == r.committed;
      }
    }
  }

  /**
    Optimistic concurrency over every run: whatever is prepared and in whatever order it is
    committed, no two successes share a base revision, each success moves the revision by exactly
    one, and the catalog is every committed change applied once, none lost.
   */
  lemma OptimisticConcurrency(c: Catalog, events: seq<StoreEvent>)
    requires ValidCatalog(c)
    ensures var r := RunStore(c, events);
      && ValidCatalog(r.now)
      && r.now.revision == c.revision + |r.committed|
      && r.now.points == Replay(c.points, r.committed)
      && forall i, j :: 0 <= i < j < |r.committed| ==> r.committed[i].base != r.committed[j].base
  {
    hide Replay, RunStore;
    RunKeepsInvariant(c, events);
    RunReplays(c, events);
  }
}
