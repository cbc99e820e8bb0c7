/**
  The feature as a whole, as a value: the live sessions, the service, the settings, what is queued,
  and the catalog file; and what each payload, command and tick does to them.
 */
module Hub {
  import opened Prelude
  import opened Identity
  import opened Model
  import opened Proto
  import opened Catalogs
  import opened Buckets
  import opened Players
  import opened Documents
  import opened Persistence
  import opened Mutations

  const MAX_TRACKED_SESSIONS := 2048
  const MAX_MALFORMED_STRIKES := 3
  const CONTROL_REQUEST_BURST := 8
  const CONTROL_REQUESTS_PER_MINUTE := 60

  const STATUS_APPLIED := 0
  const STATUS_REJECTED := 1
  const ERROR_INVALID_REQUEST := 1
  const ERROR_RATE_LIMITED := 7
  const ERROR_DISABLED := 10

  // Sessions.

  /** One connection's protocol state. */
  datatype SessionState = SessionState(
    compatible: bool,
    minor: i32,
    subscribed: bool,
    operator: bool,
    strikes: nat,
    muted: bool,
    control: Bucket)

  type Sessions = map<Id, SessionState>

  datatype Peer = Peer(id: Id, name: string, operator: bool)

  function NewSession(now: millis): SessionState {
    SessionState(false, -1, false, false, 0, false, FullBucket(CONTROL_REQUEST_BURST, CONTROL_REQUESTS_PER_MINUTE, now))
  }

  predicate IsCompatible(s: SessionState) {
    s.compatible && !s.muted
  }

  predicate IsSubscribed(s: SessionState) {
    IsCompatible(s) && s.subscribed
  }

  function EffectiveMinor(s: SessionState): i32 {
    if IsCompatible(s) then Max(s.minor, 0) else 0
  }

  function RecordMalformed(s: SessionState): SessionState {
    var strikes := Min(s.strikes + 1, MAX_MALFORMED_STRIKES);
    s.(strikes := strikes, muted := strikes >= MAX_MALFORMED_STRIKES)
  }

  /** A greeting unsubscribes; another major, or a negative minor, leaves the peer incompatible. */
  function AcceptHello(s: SessionState, major: i32, minor: i32, operator: bool): SessionState {
    s.(subscribed := false,
       compatible := major == PROTO_MAJOR && minor >= 0,
       minor := if minor < 0 then 0 else Min(minor, PROTO_MINOR),
       operator := operator)
  }

  function ChargeControl(s: SessionState, now: millis): (SessionState, bool) {
    var (bucket, ok) := TryConsume(s.control, now);
    (s.(control := bucket), ok)
  }

  /** The sessions with one for this peer, when there is room for it. */
  function Ensure(sessions: Sessions, id: Id, now: millis): Option<Sessions> {
    if id in sessions then Some(sessions)
    else if |sessions| >= MAX_TRACKED_SESSIONS then None
    else Some(sessions[id := NewSession(now)])
  }

  /** Applies a greeting: the minor to answer at, or silence for a muted or overdrawn peer. */
  function Greet(sessions: Sessions, id: Id, major: i32, minor: i32, operator: bool, now: millis): (Sessions,
      Option<i32>) {
    match Ensure(sessions, id, now)
    case None => (sessions, None)
    case Some(ensured) =>
      if id !in ensured then (ensured, None)
      else if ensured[id].muted then (ensured, None)
      else
        var (charged, ok) := ChargeControl(ensured[id], now);
        if !ok then (ensured[id := charged], None)
        else
          var greeted := AcceptHello(charged, major, minor, operator);
          (ensured[id := greeted], Some(EffectiveMinor(greeted)))
  }

  function ClearSubscriptions(sessions: Sessions): Sessions {
    map id | id in sessions :: sessions[id].(subscribed := false)
  }

  /** The peers that should receive deltas, each with the minor its frames are written at. */
  function Subscribers(sessions: Sessions): map<Id, i32> {
    map id | id in sessions && IsSubscribed(sessions[id]) :: EffectiveMinor(sessions[id])
  }

  function SessionMinor(sessions: Sessions, id: Id): i32 {
    if id in sessions then EffectiveMinor(sessions[id]) else 0
  }

  predicate SessionCompatible(sessions: Sessions, id: Id) {
    id in sessions && IsCompatible(sessions[id])
  }

  function Charge(sessions: Sessions, id: Id, now: millis): (Sessions, bool) {
    if id !in sessions then (sessions, false)
    else
      var (charged, ok) := ChargeControl(sessions[id], now);
      (sessions[id := charged], ok)
  }

  function SetOperator(sessions: Sessions, id: Id, operator: bool): Sessions {
    if id in sessions then sessions[id := sessions[id].(operator := operator)] else sessions
  }

  function SetSubscribed(sessions: Sessions, id: Id, subscribed: bool): Sessions {
    if id in sessions then sessions[id := sessions[id].(subscribed := subscribed)] else sessions
  }

  // The hub.

  datatype Settings = Settings(enabled: bool, worldId: string, limits: Limits, access: AccessPolicy)

  datatype HubState = HubState(
    sessions: Sessions,
    service: Option<ServiceState>,
    settings: Settings,
    refreshStatus: bool,
    pending: seq<Outbound>,
    file: File)

  /** What a payload makes the server send. */
  datatype Action =
    | Silent
    | Reply(frames: seq<Outbound>, minor: i32)
    | Mutation(outcome: Outbound, minor: i32, broadcast: Option<Outbound>, recipients: map<Id, i32>)

  const UNCONFIGURED := Settings(false, [], Limits(512, 64, 30), OwnerManaged)

  /** A server process that has just started over this file. */
  function Boot(file: File): HubState {
    HubState(map[], None, UNCONFIGURED, false, [], file)
  }

  function AsI32(n: nat): i32 {
    var low := n % 0x1_0000_0000;
    if low > I32_MAX then low - 0x1_0000_0000 else low
  }

  function StatusFrame(h: HubState, operator: bool, minor: i32, supported: bool): Outbound {
    Status(PROTO_MAJOR, minor, supported, supported && h.settings.enabled, operator, h.settings.worldId,
           if h.service.Some? then h.service.value.catalog.revision else 0,
           AsI32(h.settings.limits.maxPerWorld), AsI32(h.settings.limits.maxPerPlayer),
           h.service.Some? && h.service.value.access == OwnerManaged)
  }

  /** The code for a refusal, as a peer of this minor can read it. */
  function ErrorCode(error: MutationError, minor: i32): i32 {
    match error
    case NoError => 0
    case InvalidRequest => ERROR_INVALID_REQUEST
    case RevisionConflict => 2
    case NotFound => 3
    case Forbidden => 4
    case WorldQuotaExceeded => 5
    case PlayerQuotaExceeded => 6
    case RateLimited => ERROR_RATE_LIMITED
    case PersistenceFailed => 8
    case IdGenerationFailed => 9
    case LocationTaken => if minor >= 1 then 11 else ERROR_INVALID_REQUEST
  }

  function OutcomeFrame(result: MutationResult, minor: i32): Outbound {
    Outcome(result.operationId, if result.applied then STATUS_APPLIED else STATUS_REJECTED, ErrorCode(result.error, minor))
  }

  function DeltaFrame(delta: Delta): Option<Outbound> {
    match delta
    case Upserted(revision, w) => Some(Upsert(revision, w))
    case Removed(revision, id) => Some(Remove(revision, id))
    case Noop(_) => None
  }

  function ActorOf(peer: Peer): Actor {
    Actor(peer.id, peer.name, peer.operator)
  }

  function NoteMalformed(h: HubState, id: Id): HubState {
    if id in h.sessions then h.(sessions := h.sessions[id := RecordMalformed(h.sessions[id])]) else h
  }

  function HandleHello(h: HubState, peer: Peer, major: i32, minor: i32, now: millis): (HubState, Action) {
    var (sessions, negotiated) := Greet(h.sessions, peer.id, major, minor, peer.operator, now);
    var after := h.(sessions := sessions);
    match negotiated
    case None => (after, Silent)
    case Some(n) => (after, Reply([StatusFrame(after, peer.operator, n, SessionCompatible(sessions, peer.id))], n))
  }

  /** Answers a subscription already paid for: a snapshot, or the reason there is none. */
  function Enroll(h: HubState, peer: Peer, minor: i32): (HubState, Action) {
    var refreshed := SetOperator(h.sessions, peer.id, peer.operator);
    if !h.settings.enabled then
      var after := h.(sessions := SetSubscribed(refreshed, peer.id, false));
      (after, Reply([StatusFrame(after, peer.operator, minor, true)], minor))
    else
      var c := if h.service.Some? then h.service.value.catalog else EMPTY;
      (h.(sessions := SetSubscribed(refreshed, peer.id, true)),
       Reply([Snapshot(c.revision, peer.operator, c.points)], minor))
  }

  function HandleSubscribe(h: HubState, peer: Peer, minor: i32, now: millis): (HubState, Action) {
    if !SessionCompatible(h.sessions, peer.id) then (h, Silent)
    else
      var (sessions, ok) := Charge(h.sessions, peer.id, now);
      var charged := h.(sessions := sessions);
      if ok then Enroll(charged, peer, minor) else (charged, Silent)
  }

  /** The answer to a mutation while the feature is switched off. */
  function HandleDisabled(h: HubState, peer: Peer, op: Id, minor: i32, now: millis): (HubState, Action) {
    var (sessions, ok) := Charge(h.sessions, peer.id, now);
    if !ok then (h.(sessions := sessions), Reply([Outcome(op, STATUS_REJECTED, ERROR_RATE_LIMITED)], minor))
    else
      var after := h.(sessions := SetOperator(sessions, peer.id, peer.operator));
      (after, Reply([Outcome(op, STATUS_REJECTED, ERROR_DISABLED), StatusFrame(after, peer.operator, minor, true)], minor))
  }

  /** The frames a service result produces: only a fresh change is broadcast. */
  function FinishMutation(h: HubState, result: MutationResult, minor: i32): Action {
    var broadcast := if result.applied && !result.replayed then DeltaFrame(result.delta) else None;
    Mutation(OutcomeFrame(result, minor), minor, broadcast,
             if broadcast.Some? then Subscribers(h.sessions) else map[])
  }

  function HandleMutation(writer: Writer, h: HubState, peer: Peer, r: Request, minor: i32, now: millis,
      host: Host): (HubState, Action) {
    if !SessionCompatible(h.sessions, peer.id) then (h, Silent)
    else if !h.settings.enabled then HandleDisabled(h, peer, r.operationId, minor, now)
    else
      match h.service
      case None => (h, Silent)
      case Some(s) =>
        var st := Perform(writer, s, h.file, ActorOf(peer), r, host);
        var after := h.(service := Some(st.service), file := st.file);
        (after, FinishMutation(after, st.result, minor))
  }

  /** Locking was removed: every lock request is answered as invalid. */
  function HandleLock(h: HubState, peer: Peer, op: Id, minor: i32, now: millis): (HubState, Action) {
    if !SessionCompatible(h.sessions, peer.id) then (h, Silent)
    else if !h.settings.enabled then HandleDisabled(h, peer, op, minor, now)
    else (h, Reply([Outcome(op, STATUS_REJECTED, ERROR_INVALID_REQUEST)], minor))
  }

  function HandleMessage(writer: Writer, h: HubState, peer: Peer, m: Inbound, minor: i32, now: millis,
      host: Host): (HubState, Action) {
    match m
    case Hello(major, theirs) => HandleHello(h, peer, major, theirs, now)
    case Subscribe => HandleSubscribe(h, peer, minor, now)
    case Mutate(r) => HandleMutation(writer, h, peer, r, minor, now, host)
    case Lock(op, _, _, _) => HandleLock(h, peer, op, minor, now)
  }

  /** Handles one payload, read at the minor its sender negotiated. */
  function Handle(writer: Writer, h: HubState, peer: Peer, payload: seq<byte>, now: millis, host: Host): (HubState,
      Action) {
    var minor := SessionMinor(h.sessions, peer.id);
    match DecodeInbound(payload, minor)
    case None => (NoteMalformed(h, peer.id), Silent)
    case Some(m) => HandleMessage(writer, h, peer, m, minor, now, host)
  }

  // The administrative clear.

  /** One removal per point, each at its own revision. */
  function ClearFrames(points: seq<Waypoint>, revision: i64): (frames: seq<Outbound>)
    requires revision + |points| <= I64_MAX
    ensures |frames| == |points|
  {
    seq(|points|, k requires 0 <= k < |points| => Remove(revision + 1 + k, points[k].id))
  }

  /** Replaces the catalog with an empty one, one revision a point; the count, or a failed write. */
  function Clear(writer: Writer, h: HubState, writable: bool): (HubState, Option<nat>) {
    match h.service
    case None => (h, Some(0))
    case Some(s) =>
      var n := |s.catalog.points|;
      if n == 0 then (h, Some(0))
      else if s.catalog.revision > I64_MAX - n then (h, None)
      else
        var empty := Catalog(s.catalog.revision + n, []);
        var (saved, file) := Saved(writer, h.file, empty, writable);
        if !saved then (h.(file := file), None)
        else
          (h.(service := Some(NewService(empty, h.settings.limits, h.settings.access)), file := file,
              pending := ClearFrames(s.catalog.points, s.catalog.revision)),
           Some(n))
  }

  // Configuration, ticks and departures.

  predicate ValidForWorld(w: Waypoint) {
    Validate(w.body).Some? && ValidPublisherName(w.publisherName)
  }

  /** Drops points that no longer validate; the survivors keep the loaded revision. */
  function Sanitize(points: seq<Waypoint>): seq<Waypoint> {
    if points == [] then []
    else if ValidForWorld(points[0]) then [points[0]] + Sanitize(points[1..])
    else Sanitize(points[1..])
  }

  /** The catalog a service starts from: the loaded one, or an empty one if it contradicts itself. */
  ghost function Adopted(loaded: Catalog): Catalog {
    var kept := Catalog(loaded.revision, Sanitize(loaded.points));
    if ValidCatalog(kept) then kept else EMPTY
  }

  /** Applies the configuration, loading the catalog the first time. */
  ghost function Configure(writer: Writer, h: HubState, settings: Settings, movable: bool, writable: bool): HubState {
    if h.service.Some? then
      var changed := h.settings != settings;
      h.(sessions := if h.settings.enabled && !settings.enabled then ClearSubscriptions(h.sessions) else h.sessions,
         settings := settings,
         refreshStatus := h.refreshStatus || changed)
    else
      var (loaded, file) := LoadedFrom(writer, h.file, movable, writable);
      match loaded
      case UnsupportedSchema(_) => h.(settings := settings.(enabled := false), file := file)
      case Ready(c) =>
        h.(service := Some(NewService(Adopted(c), settings.limits, settings.access)),
           settings := settings, refreshStatus := true, file := file)
  }

  /** A live permission change, recorded for a compatible peer. */
  function RefreshOperator(sessions: Sessions, id: Id, operator: bool): (Sessions, bool) {
    if id in sessions && IsCompatible(sessions[id]) && sessions[id].operator != operator then
      (sessions[id := sessions[id].(operator := operator)], true)
    else (sessions, false)
  }

  datatype Level = Level(id: Id, operator: bool)

  function RefreshAll(sessions: Sessions, levels: seq<Level>): (Sessions, set<Id>) {
    if levels == [] then (sessions, {})
    else
      var (before, moved) := RefreshAll(sessions, levels[..|levels| - 1]);
      var last := levels[|levels| - 1];
      var (after, ok) := RefreshOperator(before, last.id, last.operator);
      (after, if ok then moved + {last.id} else moved)
  }

  /** What a tick sends: a status to each peer it concerns, and the queued deltas to each subscriber. */
  datatype Flush = Flush(statuses: map<Id, Outbound>, deltas: seq<Outbound>, recipients: map<Id, i32>)

  function CompatiblePeers(sessions: Sessions): set<Id> {
    set id | id in sessions && IsCompatible(sessions[id])
  }

  /** The status each of these peers is sent, if it is still compatible. */
  function StatusesFor(h: HubState, targets: set<Id>): map<Id, Outbound> {
    map id | id in targets && SessionCompatible(h.sessions, id) ::
      StatusFrame(h, h.sessions[id].operator, EffectiveMinor(h.sessions[id]), h.service.Some?)
  }

  function Tick(h: HubState, levels: seq<Level>): (HubState, Flush) {
    var (sessions, moved) := RefreshAll(h.sessions, levels);
    var after := h.(sessions := sessions, refreshStatus := false, pending := []);
    var targets := (if h.refreshStatus then CompatiblePeers(h.sessions) else {}) + moved;
    (after, Flush(StatusesFor(after, targets), h.pending, if h.pending == [] then map[] else Subscribers(sessions)))
  }

  function Leave(h: HubState, id: Id): HubState {
    h.(sessions := h.sessions - {id})
  }

  function Unload(h: HubState): HubState {
    h.(sessions := map[])
  }
}
