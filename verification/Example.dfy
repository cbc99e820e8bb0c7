/**
  One run in full: a server starts over no file, a player greets it, subscribes, publishes a point, and
  an operator clears the catalog. It shows the streams at work, and why the flush must come first.
 */
module Example {
  import opened Prelude
  import opened Identity
  import opened Floats
  import opened Model
  import opened Wire
  import opened Proto
  import opened Catalogs
  import opened Buckets
  import opened Players
  import opened Documents
  import opened DocumentSize
  import opened Persistence
  import opened Mutations
  import opened MutationLaws
  import opened Hub
  import opened HubLaws
  import opened Acceptance
  import opened Runs
  import opened Convergence
  import opened Streams
  import Utf8

  const PLAYER := Peer(Id(1, 1), "a", false)
  const HOST := Host(0, [Id(2, 2)], true)
  const ON := Settings(true, "w", Limits(512, 64, 30), OwnerManaged)
  const BODY := Body("a", "a", F64(0), F64(0), F64(0), -1, Normal, [], [])

  function Publishing(op: Id, expected: i64): Request {
    Create(op, expected, BODY)
  }

  lemma GreetingFits()
    ensures InboundFits(Hello(1, 3), 0)
  {
  }

  lemma BodyIsPlain()
    ensures |Utf8.Encode("a")| == 1 && |Utf8.Encode([])| == 0
  {
    LengthAscii("a");
    LengthAscii([]);
  }

  lemma PublishingFits(op: Id, expected: i64)
    ensures InboundFits(Mutate(Publishing(op, expected)), 3)
  {
    hide Utf8.Encode;
    BodyIsPlain();
  }

  function GreetingBytes(): seq<byte> {
    GreetingFits();
    EncInbound(Hello(1, 3), 0)
  }

  function PublishingBytes(op: Id, expected: i64): seq<byte> {
    PublishingFits(op, expected);
    EncInbound(Mutate(Publishing(op, expected)), 3)
  }

  lemma GreetingDecodes()
    ensures DecodeInbound(GreetingBytes(), 0) == Some(Hello(1, 3))
  {
    hide EncI32, DecodeInbound;
    GreetingFits();
    DecodeInverse(Hello(1, 3), 0);
  }

  lemma PublishingSize(op: Id, expected: i64)
    ensures |PublishingBytes(op, expected)| <= MAX_C2S_PAYLOAD
  {
    hide Utf8.Encode, EncI64, EncI32, EncU64, EncU16, EncId;
    BodyIsPlain();
    PublishingFits(op, expected);
  }

  lemma PublishingDecodes(op: Id, expected: i64)
    ensures DecodeInbound(PublishingBytes(op, expected), 3) == Some(Mutate(Publishing(op, expected)))
  {
    hide EncInbound, DecodeInbound, InboundFits;
    PublishingFits(op, expected);
    PublishingSize(op, expected);
    DecodeInverse(Mutate(Publishing(op, expected)), 3);
  }

  function Says(payload: seq<byte>): Event {
    Arrives(PLAYER, payload, 0, HOST)
  }

  // The story.

  function Served(): seq<Event> {
    [Configures(ON, true, true)]
  }

  function Greeted(): seq<Event> {
    Served() + [Says(GreetingBytes())]
  }

  function Subscribed(): seq<Event> {
    Greeted() + [Says([MSG_SUBSCRIBE])]
  }

  function Published(): seq<Event> {
    Subscribed() + [Says(PublishingBytes(Id(3, 3), 0))]
  }

  function Cleared(): seq<Event> {
    Published() + [Clears(true)]
  }

  function Flushed(): seq<Event> {
    Cleared() + [Ticks([])]
  }

  lemma RunSnoc(writer: Writer, events: seq<Event>, e: Event)
    ensures Run(writer, None, events + [e]) == StepWorld(writer, Run(writer, None, events), e)
  {
    hide StepWorld;
    assert (events + [e])[..|events|] == events;
  }

  // The hub after each event.

  const FULL := Bucket(480000, 60, 480000, 0)

  /** The player's session once it has made this many control requests. */
  function PlayerSession(requests: nat, subscribed: bool): SessionState
    requires requests <= 8
  {
    SessionState(true, 3, subscribed, false, 0, false, FULL.(tokens := 480000 - requests * 60000))
  }

  function Idle(sessions: Sessions): HubState {
    HubState(sessions, Some(NewService(EMPTY, ON.limits, ON.access)), ON, true, [], None)
  }

  lemma EmptyAdopted()
    ensures Adopted(EMPTY) == EMPTY
  {
  }

  lemma ServedHub(writer: Writer)
    ensures Configure(writer, Boot(None), ON, true, true) == Idle(map[])
  {
    hide Adopted;
    EmptyAdopted();
  }

  lemma GreetedHub(writer: Writer)
    ensures Handle(writer, Idle(map[]), PLAYER, GreetingBytes(), 0, HOST).0 == Idle(map[PLAYER.id := PlayerSession(1, false)])
    ensures SnapshotBase(Handle(writer, Idle(map[]), PLAYER, GreetingBytes(), 0, HOST).1).None?
    ensures Handle(writer, Idle(map[]), PLAYER, GreetingBytes(), 0, HOST).1.Reply?
  {
    hide DecodeInbound, GreetingBytes, StatusFrame;
    GreetingDecodes();
    assert forall a, b, c, d :: StatusFrame(a, b, c, d).Status? by { StatusesAreStatuses(); }
  }

  lemma SubscribedHub(writer: Writer)
    ensures var (after, action) := Handle(writer, Idle(map[PLAYER.id := PlayerSession(1, false)]), PLAYER, [MSG_SUBSCRIBE], 0, HOST);
      && after == Idle(map[PLAYER.id := PlayerSession(2, true)])
      && SnapshotBase(action) == Some(0)
  {
    hide DecodeInbound;
    SubscribeDecodes(3);
  }

  lemma ZeroIsZero()
    ensures IsFinite(F64(0)) && Value(F64(0)) == 0.0
  {
    hide PowerOfTwo;
  }

  lemma LetterIsPlain()
    ensures Trim("a") == "a" && ValidDisplayText("a", 64) && ValidDimensionId("a") && Trim([]) == []
  {
    hide Utf8.Encode;
    BodyIsPlain();
    TrimFixed("a");
    TrimFixed([]);
    assert ColonIndex("a") == 1;
    assert "a"[..] == "a";
  }

  lemma BodyValidates()
    ensures Validate(BODY) == Some(BODY) && ValidPublisherName(Trim(ActorOf(PLAYER).name))
  {
    hide Floats.Value, ValidDisplayText, ValidDimensionId, Trim;
    ZeroIsZero();
    LetterIsPlain();
  }

  /** Over an empty catalog nobody has touched, the player's point is accepted. */
  lemma PublishingApplies(s: ServiceState, op: Id)
    requires s.catalog.points == [] && s.players == [] && s.limits == ON.limits && s.access == ON.access
    requires s.catalog.revision < I64_MAX
    ensures Applies(s, ActorOf(PLAYER), Publishing(op, s.catalog.revision), HOST)
  {
    hide Validate, ValidPublisherName, Trim, BlockOf;
    BodyValidates();
    assert !Has(s.catalog.points, HOST.draws[0]);
  }

  // The run.

  lemma NoFileIsGood(writer: Writer)
    ensures GoodFile(writer, None)
  {
  }

  lemma ServedWorld(writer: Writer)
    ensures Run(writer, None, Served()).hub == Idle(map[]) && Run(writer, None, Served()).streams == map[]
  {
    hide Configure, OnDisk, PointMap, Idle, Record, DurableDeltas, DurableRequests, Emits;
    ServedHub(writer);
    assert Served()[..0] == [];
  }

  lemma GreetedWorld(writer: Writer)
    ensures var w := Run(writer, None, Greeted()); w.hub == Idle(map[PLAYER.id := PlayerSession(1, false)]) && w.streams == map[]
  {
    hide Run, Handle, OnDisk, PointMap, Idle, PlayerSession, GreetingBytes, Record, DurableDeltas, DurableRequests,
      Emits;
    ServedWorld(writer);
    RunSnoc(writer, Served(), Says(GreetingBytes()));
    GreetedHub(writer);
  }

  lemma SubscribedWorld(writer: Writer)
    ensures var w := Run(writer, None, Subscribed());
      w.hub == Idle(map[PLAYER.id := PlayerSession(2, true)]) && w.streams == map[PLAYER.id := Stream(0, [])]
  {
    hide Run, Handle, OnDisk, PointMap, Idle, PlayerSession, Greeted, Record, DurableDeltas, DurableRequests, Emits;
    GreetedWorld(writer);
    RunSnoc(writer, Greeted(), Says([MSG_SUBSCRIBE]));
    SubscribedHub(writer);
  }

  /** The player is subscribed, with budget left, on a hub that is on and has this much to say. */
  ghost predicate Listening(h: HubState, revision: int, points: nat) {
    && h.sessions == map[PLAYER.id := PlayerSession(2, true)] && h.settings == ON
    && h.service.Some? && h.service.value.limits == ON.limits && h.service.value.access == ON.access
    && h.service.value.catalog.revision == revision && |h.service.value.catalog.points| == points
  }

  lemma ListeningIsSubscribed(h: HubState, revision: int, points: nat)
    requires Listening(h, revision, points)
    ensures PLAYER.id in Subscribers(h.sessions) && SessionCompatible(h.sessions, PLAYER.id)
    ensures SessionMinor(h.sessions, PLAYER.id) == 3 && h.settings.enabled && Charge(h.sessions, PLAYER.id, 0).1
  {
  }

  lemma IdleListens()
    ensures Listening(Idle(map[PLAYER.id := PlayerSession(2, true)]), 0, 0)
  {
  }

  /** Over an empty catalog nobody has touched, the player's payload changes the catalog. */
  lemma PublishingChanges(h: HubState, revision: i64, op: Id)
    requires Listening(h, revision, 0) && revision < I64_MAX && h.service.value.players == []
    ensures Changes(h, PLAYER, PublishingBytes(op, revision), HOST)
  {
    hide DecodeInbound, PublishingBytes, Applies, Publishing;
    ListeningIsSubscribed(h, revision, 0);
    PublishingDecodes(op, revision);
    PublishingApplies(h.service.value, op);
  }

  lemma ChangeMoves(writer: Writer, h: HubState, op: Id, revision: i64)
    requires Faithful(writer.floats) && Reachable(writer, h)
    requires Listening(h, revision, 0) && Changes(h, PLAYER, PublishingBytes(op, revision), HOST)
    ensures var after := Handle(writer, h, PLAYER, PublishingBytes(op, revision), 0, HOST).0;
      Listening(after, revision + 1, 1) && after.pending == h.pending
  {
    hide Faithful, HubInvariant, GoodFile, OnDisk, ServiceInvariant, Handle, Perform, PublishingBytes, Plan, CanSave,
      DecodeInbound, Publishing, Applies, BlockFree, ValidCatalog;
    var payload := PublishingBytes(op, revision);
    ListeningIsSubscribed(h, revision, 0);
    PublishingDecodes(op, revision);
    ChangesIs(writer, h, PLAYER, payload, HOST);
    HandleService(writer, h, PLAYER, payload, 0, HOST);
    var s, r := h.service.value, RequestOf(h, PLAYER, payload);
    assert r == Publishing(op, revision);
    MutateCases(writer, s, h.file, ActorOf(PLAYER), r, HOST);
    PlanApplies(s, ActorOf(PLAYER), r, HOST);
    assert r.Create? by { PublishingCreates(op, revision); }
    CreatePlanIs(s, ActorOf(PLAYER), r, HOST);
  }

  lemma PublishingCreates(op: Id, revision: i64)
    ensures Publishing(op, revision).Create?
  {
  }

  lemma PublishedWorld(writer: Writer)
    requires Faithful(writer.floats)
    ensures var w := Run(writer, None, Published());
      Listening(w.hub, 1, 1) && w.hub.pending == [] && PLAYER.id in w.streams && w.streams[PLAYER.id].base == 0
  {
    hide Faithful, Run, Handle, OnDisk, PointMap, Listening, Reachable, Subscribed, PublishingBytes, Record,
      DurableDeltas,
      DurableRequests, Emits, PlayerSession, Changes;
    var w := Run(writer, None, Subscribed());
    NoFileIsGood(writer);
    RunReachable(writer, None, Subscribed());
    SubscribedWorld(writer);
    IdleListens();
    PublishingChanges(w.hub, 0, Id(3, 3));
    ChangeMoves(writer, w.hub, Id(3, 3), 0);
    RunSnoc(writer, Subscribed(), Says(PublishingBytes(Id(3, 3), 0)));
    var action := Handle(writer, w.hub, PLAYER, PublishingBytes(Id(3, 3), 0), 0, HOST).1;
    assert SnapshotBase(action).None? || SnapshotBase(action) == Some(0) by { NoOtherBase(writer, w.hub); }
  }

  lemma NoOtherBase(writer: Writer, h: HubState)
    requires Reachable(writer, h) && Listening(h, 0, 0)
    ensures var action := Handle(writer, h, PLAYER, PublishingBytes(Id(3, 3), 0), 0, HOST).1;
      SnapshotBase(action).None? || SnapshotBase(action) == Some(0)
  {
    hide Handle, PublishingBytes, SessionsInvariant, DurableInvariant, Subscribers;
    PayloadSubscribes(writer, h, PLAYER, PublishingBytes(Id(3, 3), 0), 0, HOST);
  }

  lemma ListeningWipes(h: HubState)
    requires Listening(h, 1, 1)
    ensures Wipes(h, true)
  {
  }

  lemma WipeMoves(writer: Writer, h: HubState)
    requires Listening(h, 1, 1) && Empties(writer, h, true)
    ensures var after := Clear(writer, h, true).0;
      Listening(after, 2, 0) && |after.pending| == 1 && after.service.value.players == []
  {
    hide Saved, PlayerSession;
  }

  lemma ClearedWorld(writer: Writer)
    requires Faithful(writer.floats)
    ensures var w := Run(writer, None, Cleared());
      Listening(w.hub, 2, 0) && |w.hub.pending| == 1 && w.hub.service.value.players == []
  {
    hide Faithful, Run, Clear, OnDisk, PointMap, Listening, Published, Record, DurableDeltas, DurableRequests, Emits,
      Wipes,
      Empties;
    var w := Run(writer, None, Published());
    PublishedWorld(writer);
    ListeningWipes(w.hub);
    WipesIs(writer, w.hub, true);
    WipeMoves(writer, w.hub);
    RunSnoc(writer, Published(), Clears(true));
  }

  // What it shows.

  lemma PromptSnoc(writer: Writer, events: seq<Event>, e: Event)
    requires Prompt(writer, None, events)
    requires Run(writer, None, events).hub.pending == [] || !Disturbs(Run(writer, None, events).hub, e)
    ensures Prompt(writer, None, events + [e])
  {
    hide Run, Disturbs;
    assert (events + [e])[..|events|] == events;
  }

  lemma StoryIsPrompt(writer: Writer)
    requires Faithful(writer.floats)
    ensures Prompt(writer, None, Published()) && Prompt(writer, None, Cleared())
  {
    hide Faithful, Run, Prompt, Idle, PlayerSession, GreetingBytes, PublishingBytes, Listening, Disturbs;
    assert Prompt(writer, None, []) by { NothingIsPrompt(writer); }
    assert Run(writer, None, []).hub.pending == [] by { NothingIsPending(writer); }
    PromptSnoc(writer, [], Configures(ON, true, true));
    assert [] + [Configures(ON, true, true)] == Served();
    ServedWorld(writer);
    IdleIsFlushed(map[]);
    PromptSnoc(writer, Served(), Says(GreetingBytes()));
    GreetedWorld(writer);
    IdleIsFlushed(map[PLAYER.id := PlayerSession(1, false)]);
    PromptSnoc(writer, Greeted(), Says([MSG_SUBSCRIBE]));
    SubscribedWorld(writer);
    IdleIsFlushed(map[PLAYER.id := PlayerSession(2, true)]);
    PromptSnoc(writer, Subscribed(), Says(PublishingBytes(Id(3, 3), 0)));
    PublishedWorld(writer);
    PromptSnoc(writer, Published(), Clears(true));
  }

  lemma NothingIsPrompt(writer: Writer)
    ensures Prompt(writer, None, [])
  {
  }

  lemma NothingIsPending(writer: Writer)
    ensures Run(writer, None, []).hub.pending == []
  {
    hide OnDisk, PointMap;
  }

  lemma IdleIsFlushed(sessions: Sessions)
    ensures Idle(sessions).pending == []
  {
  }

  /** The gap-free theorem at work: one change since the empty snapshot, and one was sent. */
  lemma PublishedIsSent(writer: Writer)
    requires Faithful(writer.floats)
    ensures var w := Run(writer, None, Published());
      && Prompt(writer, None, Published()) && w.hub.pending == [] && PLAYER.id in Subscribers(w.hub.sessions)
      && PLAYER.id in w.streams && w.streams[PLAYER.id].base == 0
      && |w.streams[PLAYER.id].sent| == 1 && RevisionOf(w.streams[PLAYER.id].sent[0]) == Some(1)
  {
    hide Faithful, Run, Prompt, Subscribers, Listening, Published, RevisionOf, GoodFile;
    var w := Run(writer, None, Published());
    NoFileIsGood(writer);
    StoryIsPrompt(writer);
    PublishedWorld(writer);
    ListeningIsSubscribed(w.hub, 1, 1);
    ListeningAt(w.hub, 1, 1);
    GapFree(writer, None, Published(), PLAYER.id);
  }

  lemma ListeningAt(h: HubState, revision: int, points: nat)
    requires Listening(h, revision, points)
    ensures h.service.Some? && h.service.value.catalog.revision == revision
  {
  }

  /**
    The failing runs: five events lead to a queued removal and a listening player. One more
    subscription, or one more point, before the tick, and the player's stream is broken.
   */
  lemma FlushIsNeeded(writer: Writer)
    requires Faithful(writer.floats)
    ensures var w := Run(writer, None, Cleared());
      && Reachable(writer, w.hub) && InSync(writer, w) && w.hub.pending != [] && PLAYER.id in Subscribers(w.hub.sessions)
      && Asks(w.hub, PLAYER, [MSG_SUBSCRIBE], 0)
      && Changes(w.hub, PLAYER, PublishingBytes(Id(4, 4), 2), HOST)
      && !InSync(writer, Run(writer, None, Cleared() + [Says([MSG_SUBSCRIBE])]))
      && !InSync(writer, Run(writer, None, Cleared() + [Says(PublishingBytes(Id(4, 4), 2))]))
      && InSync(writer, Run(writer, None, Flushed()))
  {
    hide Faithful, Run, Prompt, Listening, Cleared, PublishingBytes, GoodFile, Reachable, InSync, StepWorld, Asks,
      Changes,
      Subscribers;
    var w := Run(writer, None, Cleared());
    NoFileIsGood(writer);
    StoryIsPrompt(writer);
    RunReachable(writer, None, Cleared());
    RunInSync(writer, None, Cleared());
    ClearedWorld(writer);
    ListeningIsSubscribed(w.hub, 2, 0);
    AskingAgain(w.hub);
    PublishingChanges(w.hub, 2, Id(4, 4));
    RunSnoc(writer, Cleared(), Says([MSG_SUBSCRIBE]));
    RunSnoc(writer, Cleared(), Says(PublishingBytes(Id(4, 4), 2)));
    RunSnoc(writer, Cleared(), Ticks([]));
    FlushRule(writer, w, Says([MSG_SUBSCRIBE]));
    FlushRule(writer, w, Says(PublishingBytes(Id(4, 4), 2)));
    FlushRule(writer, w, Ticks([]));
  }

  lemma AskingAgain(h: HubState)
    requires Listening(h, 2, 0)
    ensures Asks(h, PLAYER, [MSG_SUBSCRIBE], 0)
  {
    hide DecodeInbound;
    SubscribeDecodes(3);
  }
}
