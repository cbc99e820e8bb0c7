# Shared waypoints, verified

A Dafny model of the server side of the shared-waypoint feature: one catalog of points with one global
revision, written to one file before every change is installed; a mutation service that checks
permissions, quotas, pacing and retries; a hub that negotiates with connections, answers their payloads
and streams changes to subscribers; and the formats all of this is read and written in.

The project has four layers.

* **Formats.** `Utf8`, `Wire`, `Proto` and `Frames` are the binary channel in both directions;
  `Json`, `JsonText`, `JsonGrammar`, `JsonParser`, `Decimal`, `Documents`, `DocumentSize` and `Persistence` are
  the catalog file; `Identity` is the UUID text form (section 4 of RFC 9562); `Offer` is the capability envelope in
  base64url (section 5 of RFC 4648). `Layouts`, `Spellings` and `Entries` say, field by field, what is on the
  wire and in the file. Each decoder has a meaning, written as a function over the bytes left, and an imperative
  cursor proved to compute that meaning.
* **Catalog.** `Model` validates bodies and `Bodies` says which are valid; `Catalogs` prepares and commits changes
  on values, `Store` keeps the same list behind an id index and a block index.
* **Service and hub.** `Buckets`, `Players`, `Mutations` and `Hub` say what every call does to a value;
  `Tracking`, `Service`, `Sessions` and `LiveHub` are the objects that do it in place, each method proved
  to make exactly the step its function describes. `MutationLaws` and `HubLaws` are the invariants of one
  step; `Acceptance` says, for each kind of request, exactly when it is applied, and
  `Refusals` exactly when it is refused with which error.
* **Runs.** `Runs` is the transition system: payloads, clears, configurations, ticks, departures, crashes
  (also between a durable write and its answer) and restarts, in any order, with a history of every
  revision, every frame sent and every durable request. `AtMostOnce`, `Convergence`, `Delivery`,
  `Streams`, `Clients`, `Subscriptions`, `Muting`, `Statuses`, `Control`, `Loading` and `Ownership` are theorems
  about its runs, and `Example` is one run in full; `Retries`, `Forgetting` and `Pacing` are theorems about any traffic on one service.

Coordinates are 64-bit words with the value of section 3.4 of IEEE 754; text is a sequence of Unicode
scalars, encoded as in section 3 of RFC 3629. Machine integers are subset types and every place the code
checks for overflow is a branch here. The clock, the ids the host draws, and whether the file system takes a
write or a rename are inputs of each step, so every theorem holds for all of them. Number formatting is one
assumption, `Documents.Faithful`: what the host prints for a finite double parses back to it, and
`Documents.FormatterExists` shows that some formatter keeps that promise.

A starting file is good when loading it gives a catalog that validates; no file at all is good. Every file the
service writes is good, and so is every run that starts from one.

## What is proved about whole runs

* No request is made durable twice, whatever is evicted, cleared, crashed or restarted in between.
* Whenever a service is up, loading the file gives exactly the catalog in memory; a crash leaves the disk
  where memory was or ahead by exactly one unanswered mutation or one whole clear.
* A peer of any minor that starts from a snapshot and applies a change only when it is the next revision
  shows exactly the catalog of the revision it has reached, whatever was lost, repeated or reordered.
* Every snapshot and every change sent or queued encodes at every minor, under the send cap.
* A subscriber's stream after its snapshot at r is exactly r+1, r+2, ... if every clear is flushed by a tick
  before the next snapshot, and before the next change or clear while somebody is subscribed. Without that
  condition it is false of the code: a clear only queues its removals, so a change overtakes them and a
  subscription repeats them. `Example.FlushIsNeeded` gives the events that get there, and `Streams.FlushRule`
  proves, from the state before each step, that this is exactly when a step breaks a stream; by
  `Streams.PromptIff` a run keeps every stream whole throughout if and only if it meets the condition throughout.
* A subscriber that reads the bytes of its stream, each frame at the minor the last status told it, ends with the
  catalog the server holds, as that minor shows it, over every run that flushes promptly.
* A file written by a newer build stays byte for byte the same over every run, and nothing is served. Another
  owner's file, or one that holds no catalog, is never served: the catalog starts empty, and until a change is
  made durable the file is as it was or moved aside. Moved aside, it is as if there had been none.
* A connection is muted exactly when three payloads it sent since its session opened did not decode. A muted peer
  is sent nothing, by anybody's doing, until its session is removed.
* Who is told its status, and what that status says, is fixed for every payload, configuration and tick.
* From the opening of a session to its removal, the snapshots and statuses that answer its payloads number at
  most 8 and one more for each second passed.
* A publisher's points move only by an operator, a clear or the publisher; origins never change; quotas hold;
  no two points come to share a block.
* A retry inside the bounds of the cache returns the stored result and moves nothing. The bounds are exact over
  any traffic on one service: the result is there if and only if its player has had fewer than 128 further
  changes applied and at no moment 256 other players had called since that player last did
  (`Forgetting.ResultKeptIff`, `Forgetting.ReplayedIff`). A clear ends it too.
* Over any traffic that never crowds a player out in that sense, its applied changes are paid for by its budget
  and the time that passed, and its retries are free.

## Where the code and its comments part

* The comment on `clear` (src/waypoints/mod.rs:547-553) promises subscribers one revision at a time. That holds
  only if a tick comes first, as above (`Example.FlushIsNeeded`).
* A retained result is described as outliving a connection (src/waypoints/service.rs:14-22). It does not
  outlive a clear, which builds a new service (`Forgetting.ClearForgets`), nor 256 other players calling between
  two calls of its own (`Forgetting.PlayerKeptIff`); the same goes for a spent mutation budget. At-most-once does
  not depend on either.
* The control budget is described as charged for greetings, subscriptions and mutations
  (src/waypoints/session.rs:56-64). A mutation or a lock is charged to it only while the feature is off
  (src/waypoints/mod.rs:351-374, `Control.UnchargedWhileOn`); while it is on a mutation is paced by its player's
  own budget, and a lock by nothing.
* A second configuration changes the settings a status reports, but the service keeps the limits and the
  access policy it was built with until the next clear or restart (src/waypoints/mod.rs:664-687,
  `Statuses.SettingsServed`). The quota theorem takes the largest limit ever configured.

## Model

| member | source | states |
|---|---|---|
| Identity.UuidInverse | src/identity.rs:83-98 | Printing an id and parsing the text gives the id back, for all 128 bits. |
| Identity.GatherDigits | src/identity.rs:121-144 | The digits between the dashes in order, exactly for the 8-4-4-4-12 form; every other byte string is refused. |
| Identity.ParseUuid | src/identity.rs:121-158 | The parser accepts exactly the 36-byte form and returns the two words it spells. |
| Model.ValidateIdempotent | src/waypoints/model.rs:130-163 | A validated body passes validation again unchanged, so a stored point is never re-normalised into another. |
| Model.PublisherNameIdempotent | src/waypoints/model.rs:171-187 | An accepted publisher name, trimmed, is accepted and already trimmed. |
| Model.ValidatedHasBlock | src/waypoints/model.rs:48-81 | Every validated body has a block: the refusal for a missing one is unreachable. |
| Model.BlockContains | src/waypoints/model.rs:48-81 | The block of a validated body is the unit cube of its own dimension that contains the point. |
| Model.ValidatedTextFits | src/waypoints/model.rs:180-232 | The text of a validated body fits its 256-byte wire fields. |
| Bodies.TrimIs | src/waypoints/model.rs:130-163 | Trimming takes white space off both ends and nothing else. |
| Bodies.WhiteIs | src/waypoints/model.rs:130-163 | White space is the twenty-five characters of the Unicode standard. |
| Bodies.FormatIs | src/waypoints/model.rs:252-277 | Format characters are those of the table, stretch by stretch. |
| Bodies.LocatedIff | src/waypoints/model.rs:40-81 | A place has a block exactly when every coordinate is finite and floors into 64 bits, and the block is those floors. |
| Bodies.ValidateIff | src/waypoints/model.rs:130-232 | A body is accepted exactly when every field is what the protocol allows, and then only its four texts are changed, by trimming. |
| Bodies.PublisherNameIff | src/waypoints/model.rs:171-187 | A publisher name is accepted exactly when, trimmed, it is 1 to 64 characters that may be shown. |
| Wire.TakeUtfInverse | src/wire.rs:82-90 | Reading inverts writing of every string that fits its cap, leaving the rest untouched. |
| Wire.TakeIdInverse | src/wire.rs:97-102 | Reading inverts writing of every 128-bit id. |
| Wire.TakeI64Inverse | src/wire.rs:54-60 | Reading inverts writing of every signed 64-bit integer, negative ones included. |
| Wire.Reader.U8 | src/wire.rs:31-35 | One byte, or a refusal at the end that leaves the cursor where it was. |
| Wire.Reader.Utf | src/wire.rs:82-90 | The cursor reads exactly the string the bytes mean, or refuses over-long and ill-formed text. |
| Wire.Reader.Bool | src/wire.rs:72-78 | Only 0 and 1 are booleans. |
| Proto.TakeMarkerLaws | src/waypoints/proto.rs:618-628 | A marker field is on the wire exactly from minor 3, read and written alike. |
| Proto.DecodeInverse | src/waypoints/proto.rs:378-477 | Decoding inverts the wire form of every well-formed message, at every minor. |
| Proto.DecodeCanonical | src/waypoints/proto.rs:378-477 | An accepted payload is the wire form of its message: all bytes consumed, strict booleans, finite coordinates, capped text. |
| Proto.DecodeIff | src/waypoints/proto.rs:378-477 | A payload decodes to a message if and only if the message is well formed and the payload is its one encoding. |
| Proto.Decode | src/waypoints/proto.rs:378-477 | The cursor-driven decoder computes that meaning. |
| Frames.FrameReadBack | src/waypoints/proto.rs:484-588 | A peer of the same minor reads back every field its minor carries. |
| Frames.FrameDetermines | src/waypoints/proto.rs:484-588 | Equal frames mean messages that agree on everything the minor carries. |
| Frames.EntryLength | src/waypoints/proto.rs:560-588 | A storable point takes at most 1124 bytes at any minor. |
| Frames.SnapshotSendable | src/waypoints/mod.rs:881-903 | Every snapshot of at most 512 storable points encodes at every minor, under the send cap. |
| Frames.PutWaypoint | src/waypoints/proto.rs:560-588 | Appends exactly the point's fields, or fails when a text is too long. |
| Frames.Encode | src/waypoints/proto.rs:484-557 | The encoder succeeds exactly when every text and count fits, and writes the frame the message means. |
| Layouts.InboundLaid | src/waypoints/proto.rs:378-477 | Every client message is laid out as its table of fields says: types, order, widths and big-endian counts. |
| Layouts.DecodedIsLaid | src/waypoints/proto.rs:378-477 | A payload is decoded as a message only when it is laid out as that message's table says, within 8192 bytes. |
| Layouts.OutboundLaid | src/waypoints/proto.rs:484-588 | Every frame the server writes is laid out as its table of fields says, at every minor. |
| Layouts.ShownIs | src/waypoints/proto.rs:618-628 | From minor 3 a frame shows all of a point; before, all but its icon and its label. |
| Json.ValueNesting | src/json.rs:141-209 | No accepted value nests past the depth limit. |
| Json.PairsAreScalars | src/json.rs:300-315 | Every surrogate pair (section 7 of RFC 8259) is a scalar above the basic plane: the conversion never fails. |
| JsonText.EscapeText | src/json.rs:336-354 | The escaper's loop writes the escaped text. |
| JsonText.StringReadBack | src/json.rs:242-354 | A quoted, escaped string of any scalars parses to itself, through the re-reading of UTF-8. |
| JsonText.NumberReadBack | src/json.rs:211-240 | A number token in front of anything that ends a number is read whole and kept verbatim. |
| JsonText.ReadBack | src/json.rs:141-209 | Any laid-out value within the depth limit parses to its meaning and leaves what follows, whatever white space was chosen. |
| JsonText.DocumentReadBack | src/json.rs:93-108 | A whole laid-out document, with any white space around it, parses to its meaning. |
| JsonText.TrailingIff | src/json.rs:93-108 | After a laid-out value that is not a bare number only white space may follow; with any other text after it the whole is refused. |
| JsonGrammar.TextReads | src/json.rs:141-315 | Every text of a value, in any spelling of its strings, numbers and white space, is read as that value, leaving what follows. |
| JsonGrammar.TextSpelled | src/json.rs:141-315 | Whatever is read as a value was a text of it: nothing with a missing comma, colon or quote, or a bad escape, is read. |
| JsonGrammar.ParseIff | src/json.rs:93-108 | Bytes parse to a value if and only if they are one of its texts within the depth limit, with nothing but white space around it. |
| JsonParser.Parser.ReadValue | src/json.rs:141-159 | The recursive descent terminates on bytes left and call rank, and computes the value the bytes mean. |
| JsonParser.Parser.ReadObject | src/json.rs:161-189 | Members in order, each a quoted key, a colon and a value, or a refusal. |
| JsonParser.Parser.ReadArray | src/json.rs:191-209 | Items in order, or a refusal; the cursor moves only forward. |
| JsonParser.Parser.ReadString | src/json.rs:242-296 | Escapes and raw UTF-8 sequences become the string they spell. |
| JsonParser.Parser.CodeUnit | src/json.rs:300-315 | One scalar from one or two escapes; a lone surrogate is refused. |
| JsonParser.Parser.ReadNumber | src/json.rs:211-240 | The scanned token, refused when it is empty, a lone minus or not a number. |
| JsonParser.Parse | src/json.rs:93-108 | The parser computes the meaning of the text, for every text; `JsonGrammar.ParseIff` says what that is. |
| Decimal.IntTextReads | src/json.rs:58-63 | Every 64-bit integer is read back from its decimal text. |
| Documents.FormatterExists | src/json.rs:359-364 | The assumption about printing doubles is satisfiable. |
| Documents.AcceptedIsSound | src/waypoints/persist.rs:277-401 | Whatever an accepted document holds validates unchanged, has unique ids and no revision past the catalog's. |
| Documents.SoundIsPersistable | src/waypoints/persist.rs:404-423 | Nothing an accepted document holds is refused when it is written back. |
| Documents.EntryInverse | src/waypoints/persist.rs:314-401 | Reading an entry inverts writing it, field by field. |
| Documents.RootInverse | src/waypoints/persist.rs:277-312 | Reading a root object inverts writing it: the same catalog and the owner's own file. |
| Documents.DocumentParses | src/waypoints/persist.rs:213-274 | The document of every sound catalog parses to that root. |
| Spellings.EntryFields | src/waypoints/persist.rs:213-275 | Which field of a point's entry holds what. |
| Spellings.DocumentFields | src/waypoints/persist.rs:213-275 | Which field of the document holds what, and its entries in the order of the points. |
| Entries.UuidIff | src/identity.rs:121-158 | A text is an id exactly when it is the text that id is printed as, letters in either case. |
| Entries.GetIff | src/json.rs:39-47 | A field is the first entry of its key. |
| Entries.EntryReadIff | src/waypoints/persist.rs:314-401 | An entry is read as a point exactly when its fields say so, body and name are valid, and its age and revision are possible. |
| Entries.DocumentReadIff | src/waypoints/persist.rs:277-312 | A root is read as a catalog exactly when it gives its revision and at most 512 entries of its points, none later and no two of one id. |
| Entries.WrittenIff | src/waypoints/persist.rs:404-423 | A point is written out exactly when the entry it would be written as would be read back. |
| Spellings.UuidSpells | src/identity.rs:83-98 | An id's text is its 32 lower-case digits, the high word's first and the greatest first, with the four dashes. |
| Spellings.ReadI64Iff | src/json.rs:58-63 | An integer is read exactly from an optional sign and digits of a number in range. |
| Spellings.ValueLaws | src/waypoints/model.rs:48-81 | The number a double stands for is fixed by its value at one word and how sign, exponent and mantissa scale it. |
| DocumentSize.DocumentFits | src/waypoints/persist.rs:86-100 | The document of every catalog the service can hold is within the size a load accepts. |
| DocumentSize.DocumentRoundTrip | src/waypoints/persist.rs:213-423 | Writing never refuses, and loading the bytes gives the identical catalog. |
| Persistence.WriteDocument | src/waypoints/persist.rs:213-274 | The writer's loop produces that document, or refuses a point that is not persistable. |
| Persistence.ReadEntries | src/waypoints/persist.rs:289-307 | Entries one at a time: a late revision or a repeated id refuses the whole list. |
| Persistence.ReadCatalog | src/waypoints/persist.rs:277-312 | A root object becomes the catalog it means, or nothing. |
| Persistence.ReadBytes | src/waypoints/persist.rs:86-158 | Size, encoding, shape, schema and owner are checked in that order, each with its own answer. |
| Persistence.SaveHolds | src/waypoints/persist.rs:162-172 | A save either leaves the file alone or makes it hold exactly the saved catalog. |
| Persistence.LoadHolds | src/waypoints/persist.rs:86-158 | A load returns what the file holds and the file still holds it, a schema migration included. |
| Loading.ReadingIs | src/waypoints/persist.rs:86-158 | What a file is taken for, by what its bytes are: a newer build's, one to serve, or neither. |
| Loading.NewerIsLeftAlone | src/waypoints/mod.rs:649-743 | Over every run over a newer build's file it stays byte for byte the same, no service exists and the feature is never on. |
| Loading.RejectedIsNotServed | src/waypoints/persist.rs:175-210 | Over every run over a file of another owner, or one that cannot be read, until a request is made durable the file is as it was or moved aside, and only the empty catalog is served. |
| Loading.MovedAsideIsFresh | src/waypoints/persist.rs:175-210 | Once such a file is moved aside the server goes on exactly as one that started over no file. |
| Loading.ServedAndMigrated | src/waypoints/persist.rs:126-158 | A file that may be served is served as it reads, untouched at the current schema, and rewritten at it from an older one when the disk takes a write. |
| Persistence.CatalogFile.Save | src/waypoints/persist.rs:162-172 | The object's file becomes the new document or stays as it was. |
| Persistence.CatalogFile.Load | src/waypoints/persist.rs:86-158 | The object's load, quarantine and migration are the model's, whatever the file system allows; what becomes of the file is in `Loading`. |
| Offer.Base64Inverse | src/protocol.rs:352-374 | Decoding inverts the standard's encoding of every byte string, padded or not, though the accumulator is never masked. |
| Spellings.AlphabetIs | src/protocol.rs:350-370 | The letters of the capability envelope are the URL-safe alphabet in its order. |
| Spellings.DecodesIff | src/protocol.rs:352-374 | A text decodes exactly when it holds nothing but letters of that alphabet and padding. |
| Spellings.OpensIff | src/protocol.rs:302-349 | An envelope opens exactly when it is version 2, one to eight profiles and at most thirty-two pairs, counted, and nothing more. |
| Offer.DecodeBase64 | src/protocol.rs:352-374 | The accumulator loop computes that decoding. |
| Offer.OpenInverse | src/protocol.rs:302-349 | An envelope opens to exactly its profiles and capabilities. |
| Offer.Fold | src/protocol.rs:332-344 | One pair raises its id's version or is appended; version zero offers nothing. |
| Offer.OfferUnderstood | src/protocol.rs:302-374 | Every encoded well-formed envelope is understood. |
| Offer.DecodeOffer | src/protocol.rs:302-349 | Each offered id once, at the greatest positive version offered for it; anything malformed offers nothing. |
| Catalogs.PrepareApplies | src/waypoints/store.rs:226-295 | A prepared change is its delta applied, one revision on, and contradicts nothing. |
| Catalogs.SharingNeverGrows | src/waypoints/store.rs:226-295 | No prepared change puts two points in one block that did not share it before. |
| Catalogs.OptimisticConcurrency | src/waypoints/store.rs:226-315 | However many changes are prepared and in whatever order they are committed: one success per base revision, one revision per success, every success applied once and none lost. |
| Stores.IndexesExtend | src/waypoints/store.rs:149-174 | Appending a point keeps both indexes true; a block keeps its earlier occupant. |
| Stores.OccupantIsFirst | src/waypoints/store.rs:212-215 | The occupant looked up by id is the first point of the block. |
| Stores.Store.Find | src/waypoints/store.rs:205-209 | The id index finds what a search of the list finds. |
| Stores.Store.FindAtBlock | src/waypoints/store.rs:212-215 | The block index finds the first point of the list in that block. |
| Stores.Store.CountPublished | src/waypoints/store.rs:218-223 | The number of points this publisher has. |
| Stores.Store.PrepareAdd | src/waypoints/store.rs:226-248 | The two indexes refuse a creation exactly when the list holds its id or a point in its block. |
| Stores.Store.PrepareDrop | src/waypoints/store.rs:251-264 | The id index refuses a deletion exactly when a search of the list finds nothing to delete. |
| Stores.Store.PrepareReplace | src/waypoints/store.rs:267-295 | The occupancy index refuses a move exactly when the first point in the target block is another one. |
| Stores.Store.Refill | src/waypoints/store.rs:298-315 | Clearing and refilling rebuilds the list and two true indexes. |
| Stores.Store.CommitPrepared | src/waypoints/store.rs:298-315 | A stale preparation is refused and moves nothing; a fresh one becomes the catalog. |
| Stores.NewStore | src/waypoints/store.rs:149-174 | A store is built exactly over the catalogs that do not contradict themselves. |
| Buckets.ConsumeConserves | src/waypoints/service.rs:317-330 | Tokens stay within the capacity and time never runs back inside a bucket. |
| Buckets.RateBound | src/waypoints/service.rs:317-330 | For any call times, successes are paid for by what was held and by what the latest time seen refilled. |
| Buckets.RefusalMeansEmpty | src/waypoints/service.rs:317-330 | A refusal means less than one token, refilled to now. |
| Buckets.TokenBucket.Consume | src/waypoints/session.rs:81-94 | The connection's bucket takes exactly that step in place. |
| Buckets.MutationBucket.Consume | src/waypoints/service.rs:317-330 | The player's bucket takes exactly that step in place. |
| Players.RememberKeeps | src/waypoints/service.rs:276-291 | At most 128 results, each operation once, the newest retained. |
| Players.TouchKeeps | src/waypoints/service.rs:343-355 | At most 256 players, each once, the touched one last with the state it had or a fresh one. |
| Players.ResultWindow | src/waypoints/service.rs:276-291 | A result survives any fewer than 128 later ones, in its place. |
| Players.ResultWindowExact | src/waypoints/service.rs:276-291 | A result is still retained if and only if fewer than 128 other operations' results came after it. |
| Players.PlayerWindow | src/waypoints/service.rs:343-355 | A player stays tracked, results and budget, while fewer than 256 distinct others are used, however often. |
| Players.PlayerWindowExact | src/waypoints/service.rs:343-355 | A player not used again is still tracked if and only if fewer than 256 distinct others were used since. |
| Players.MatchesIff | src/waypoints/service.rs:213-246 | A retry is recognised exactly as the same request sent again: no field but the operation id changed, coordinates equal as doubles. |
| Players.EqualIff | src/waypoints/service.rs:213-246 | Finite coordinates compare equal exactly when they stand for the same number. |
| Players.RetryMatches | src/waypoints/service.rs:209-246 | A request with finite coordinates, sent again unchanged under any operation id, is recognised. |
| Players.ReplayKeeps | src/waypoints/service.rs:988-1029 | A collision marks its result as audited, and changes no result, no order and no budget. |
| Tracking.PlayerState.Remember | src/waypoints/service.rs:276-291 | The results map and its order take exactly the cache's step. |
| Tracking.PlayerState.Replay | src/waypoints/service.rs:988-1029 | The map lookup replays, refuses or passes exactly as the cache does. |
| Tracking.ListsCount | src/waypoints/service.rs:335-338 | An order that lists every key once has as many entries as the map. |
| Tracking.EvictSound | src/waypoints/service.rs:343-349 | Evicting the coldest player keeps order and states in agreement. |
| Tracking.TrackedPlayers.Touch | src/waypoints/service.rs:343-355 | The order and the states take exactly the least-recently-used step. |
| Mutations.PlanCreateFacts | src/waypoints/service.rs:418-650 | A planned creation names the current revision, is within both quotas and carries the validated body under its author. |
| Mutations.PlanUpdateFacts | src/waypoints/service.rs:754-933 | A planned update had the point's revision and the right to manage it, and keeps id, publisher and creation. |
| Mutations.PlanDeleteFacts | src/waypoints/service.rs:657-745 | A planned deletion had the point's revision and the right to manage it. |
| Mutations.PlanApplies | src/waypoints/service.rs:418-933 | Every plan is one preparation of the current catalog, so the commit after its write cannot be stale. |
| Mutations.CreateNeverRefused | src/waypoints/service.rs:515-632 | The service's own checks leave the store nothing to refuse a creation for. |
| Mutations.UpdateNeverRefused | src/waypoints/service.rs:852-920 | Past the service's own checks the store refuses an update only for a block, and then exactly when it would displace another point. |
| Mutations.DeleteNeverRefused | src/waypoints/service.rs:694-732 | A deletion is planned if and only if the point is named at its revision by somebody who may manage it. |
| MutationLaws.ConcludeCases | src/waypoints/service.rs:1058-1087 | A failed write commits nothing; after a write that succeeded the commit does too. |
| MutationLaws.MutateCases | src/waypoints/service.rs:418-933 | Every call either commits one planned change, on disk first, or moves neither catalog nor file. |
| MutationLaws.MutatePlayers | src/waypoints/service.rs:266-364 | Caches, budgets and their bounds survive every call; only applied results are retained. |
| MutationLaws.MutateKeeps | src/waypoints/service.rs:1032-1087 | Catalog, file and retained results stay sound together, whether or not the disk takes the write. |
| MutationLaws.RetryReplays | src/waypoints/service.rs:988-1029 | While a result is kept the same request is answered with it, one that differs in any field is refused as invalid, and neither moves catalog, file or budget. |
| Services.Service.PlanForCreate | src/waypoints/service.rs:466-632 | On the live store a creation's checks come to the model's plan or its refusal (which refusal, in `Refusals.CreateRefusals`). |
| Services.Service.PlanForUpdate | src/waypoints/service.rs:790-920 | On the live store an update's checks come to the model's plan or its refusal (which refusal, in `Refusals.UpdateRefusals`). |
| Services.Service.PlanForDelete | src/waypoints/service.rs:694-732 | On the live store a deletion's checks come to the model's plan or its refusal (which refusal, in `Refusals.DeleteRefusals`). |
| Acceptance.CreateAppliesIff | src/waypoints/service.rs:418-650 | A create is applied if and only if it is no retry, is paid for, its author may publish, it names the current revision, its body and name are valid, its block is free, nothing is full, an id is free and the disk takes the write. |
| Acceptance.UpdateAppliesIff | src/waypoints/service.rs:754-933 | An update is applied if and only if it is no retry, is paid for, names a point at its revision that its author may manage, its body is valid, it stays in its block or moves to a free one, and the disk takes the write. |
| Acceptance.DeleteAppliesIff | src/waypoints/service.rs:657-745 | A delete is applied if and only if it is no retry, is paid for, names a point at its revision that its author may manage, and the disk takes the write. |
| Acceptance.AppliesIff | src/waypoints/service.rs:418-933 | Any request is applied if and only if the service, as it stands before the call, meets its kind's conditions. |
| Refusals.RightsAre | src/waypoints/service.rs:1141-1149 | Operators may do anything; others may publish, and change their own points, exactly where owners manage them. |
| Refusals.ShareIs | src/waypoints/store.rs:218-224 | A player's share is the number of places its points take in the catalog. |
| Refusals.FirstFreeDraw | src/waypoints/service.rs:1151-1160 | A new point is given the first free id of at most sixteen drawn. |
| Refusals.CreateRefusals | src/waypoints/service.rs:418-650 | For each error, exactly when a create is refused with it, by the state before the call. |
| Refusals.UpdateRefusals | src/waypoints/service.rs:754-933 | For each error, exactly when an update is refused with it, by the state before the call. |
| Refusals.DeleteRefusals | src/waypoints/service.rs:657-745 | For each error, exactly when a delete is refused with it, by the state before the call. |
| Refusals.OutcomeReads | src/waypoints/service.rs:147-168 | The status and the number of every error, at every minor, as the protocol assigns them. |
| Acceptance.SavableIs | src/waypoints/persist.rs:162-172 | What a plan makes is refused by the writer only for being one point over its cap. |
| Acceptance.DrawIs | src/waypoints/service.rs:1151-1159 | An id is found exactly when one of the first sixteen draws is unused. |
| Acceptance.ErrorCodesTell | src/waypoints/service.rs:147-167 | Success and every refusal have distinct codes, except that a peer before minor 1 reads an occupied block as an invalid request. |
| Acceptance.OutcomeIsHonest | src/waypoints/mod.rs:377-414 | The outcome says applied, with no error, exactly when the call made its change durable or repeats one that did. |
| Services.Service.Admit | src/waypoints/service.rs:438-464 | Retry, permission and budget, in that order, with the players left exactly as the cache says. |
| Services.Service.Create | src/waypoints/service.rs:418-650 | A create on the live store, file and players leaves them, and answers, exactly as the model's step. |
| Services.Service.Delete | src/waypoints/service.rs:657-745 | A delete on the live store, file and players leaves them, and answers, exactly as the model's step. |
| Services.Service.Update | src/waypoints/service.rs:754-933 | An update on the live store, file and players leaves them, and answers, exactly as the model's step. |
| Retries.PerformPlayers | src/waypoints/service.rs:276-364 | A call rewrites only its own player: one result more exactly when it applied, one attempt on the budget exactly when it is charged. |
| Retries.ServeKeepsWindow | src/waypoints/service.rs:276-355 | Through any traffic with fewer than 128 further changes that never crowds its player out, a result stays in its place and its player tracked. |
| Retries.RetryWindow | src/waypoints/service.rs:984-1002 | A retry after any such traffic returns the stored result and moves nothing. |
| Forgetting.ResultKeptIff | src/waypoints/service.rs:276-291 | Over any traffic a result is kept if and only if its player had fewer than 128 further changes applied and at no moment 256 others had called since that player last did. |
| Forgetting.ReplayedIff | src/waypoints/service.rs:984-1002 | Over any traffic asking again is answered as a repeat if and only if the result is within those bounds and it is the same request in every field. |
| Forgetting.PlayerKeptIff | src/waypoints/service.rs:343-355 | Over any traffic a player is tracked if and only if fewer than 256 others have called since it last did. |
| Forgetting.ForgottenIsNew | src/waypoints/service.rs:988-1002 | A request whose result is gone is never answered as a replay, and an evicted player has a full budget. |
| Forgetting.ClearForgets | src/waypoints/mod.rs:581-585 | After a clear that emptied anything no retry is replayed and no budget is spent, whoever asks. |
| Pacing.OwnCallPays | src/waypoints/service.rs:317-330 | A charged call takes one attempt from the budget it had, and an applied one had a token for it. |
| Pacing.PaceHolds | src/waypoints/service.rs:294-330 | Over any traffic that never crowds a player out, its applied changes cost at most what it held and what time refilled, whatever the clock does. |
| Pacing.PaceFromFirstCall | src/waypoints/service.rs:294-330 | A player nobody knew has, from its first call on, at most ten changes applied and one more for each a minute the service allows. |
| Pacing.TenAreFree | src/waypoints/service.rs:294-330 | A player nobody knew may make ten charged calls before one can find its budget empty, at any rate. |
| HubLaws.GreetingSettles | src/waypoints/session.rs:186-200 | An answered greeting settles the lower of the two minors on this major, an incompatible peer otherwise, and never a subscription. |
| HubLaws.GreetKeeps | src/waypoints/session.rs:290-304 | A greeting keeps every other session, never subscribes, and answers neither a muted nor an overdrawn peer. |
| HubLaws.HandleKeepsHub | src/waypoints/mod.rs:227-440 | Muted is exactly three strikes, a compatible minor is 0 to 3, on implies a service and off implies nobody subscribed, through every payload. |
| HubLaws.ConfigureKeepsHub | src/waypoints/mod.rs:649-743 | Those session and switch invariants survive every configuration, a disable and a refused file included. |
| HubLaws.MutedIsSilent | src/waypoints/mod.rs:417-440 | Whatever a muted peer sends, it is answered with silence, stays muted and unsubscribed, and moves neither service nor file. |
| Muting.StepKeepsMuted | src/waypoints/session.rs:173-184 | A mute outlasts every payload, tick, clear, configuration and departure but the removal of its own session. |
| Muting.MutedIsUnaddressed | src/waypoints/mod.rs:184-193 | No reply, outcome, broadcast, status or queued change of any event is addressed to a muted peer. |
| Muting.MutedUntilRemoved | src/waypoints/mod.rs:417-440 | Over every run, from a mute to the removal of the session, the mute holds, the peer's stream stands still and nothing is addressed to it. |
| Muting.MutedIff | src/waypoints/session.rs:173-184 | Over every run a connection is muted exactly when it has sent three payloads that do not decode since its session opened. |
| Muting.AbsentIsUnaddressed | src/waypoints/mod.rs:184-212 | Without a session a player is sent nothing but the answer to its own greeting. |
| Muting.RemovedIsAbsent | src/waypoints/mod.rs:856-865 | Leaving, unloading and every death of the server end the session. |
| Statuses.RepliesDescribe | src/waypoints/mod.rs:161-181 | Every status a payload is answered with describes the hub as the payload left it. |
| Statuses.GreetedIsTold | src/waypoints/mod.rs:235-255 | A greeting is answered exactly when the peer is known or there is room, unmuted and paid for, with one status that says whether and at which minor it is supported. |
| Statuses.StrangerIsIgnored | src/waypoints/mod.rs:256-348 | Before it is compatible a peer is answered nothing but its greeting. |
| Statuses.SubscriptionIsTold | src/waypoints/mod.rs:256-285 | What a subscription is answered with: silence unpaid, a status while off, the whole catalog otherwise. |
| Statuses.DisabledIsTold | src/waypoints/mod.rs:351-374 | What a mutation or a lock is answered with while the feature is off, paid for or not. |
| Statuses.LockIsTold | src/waypoints/mod.rs:330-348 | A lock while the feature is on is refused as invalid and changes nothing. |
| Statuses.TickTells | src/waypoints/mod.rs:778-849 | A tick sends a status to exactly the peers a configuration or a moved permission concerns, and it describes the hub. |
| Statuses.ConfigurationIsTold | src/waypoints/mod.rs:664-687 | A configuration asks for a round of statuses exactly when it changed a setting or brought the service up. |
| Statuses.ClearTells | src/waypoints/mod.rs:554-594 | A clear reports the points it removed, zero when there were none, and a failure exactly when there were some and all of them stay. |
| Statuses.SettingsServed | src/waypoints/mod.rs:554-743 | The service goes by the settings of the moment it was brought up or last emptied. |
| Control.OwnPayloadCosts | src/waypoints/mod.rs:207-212 | Each snapshot or status a payload is answered with costs its own connection one token, whatever the payload. |
| Control.ControlBound | src/waypoints/session.rs:56-95 | Over every run the snapshots and statuses answering one session number at most 8 plus 60 a minute between its opening and the latest time it was heard, however the clock runs. |
| Control.UnchargedWhileOn | src/waypoints/mod.rs:286-348 | While the feature is on a mutation or a lock is answered and leaves every control budget as it was. |
| Subscriptions.SubscribedIff | src/waypoints/session.rs:186-268 | After any event a connection is subscribed exactly when the event gave it a snapshot, or it was subscribed and did not greet anew, misbehave a third time, leave, or lose the feature. |
| Subscriptions.ChargedIs | src/waypoints/mod.rs:227-374 | The sender's control budget after any payload: one attempt less when the payload is one that is charged, and otherwise as it was. |
| Subscriptions.BeforeConfiguration | src/waypoints/mod.rs:134-158 | Over every run without a configuration the feature is off, with the default limits, no service and an untouched file. |
| HubLaws.ExactlyOneOutcome | src/waypoints/mod.rs:280-348 | Every mutation or lock from a compatible peer gets exactly one outcome, under its own operation id. |
| HubLaws.HandleService | src/waypoints/mod.rs:227-414 | A payload touches service and file only as the one mutation it carries. |
| HubLaws.HandleDurable | src/waypoints/mod.rs:227-414 | After every payload memory and disk agree. |
| HubLaws.ClearDurable | src/waypoints/mod.rs:554-594 | After every clear, whether or not it could write, memory and disk agree. |
| HubLaws.SanitizeKeepsValid | src/waypoints/service.rs:944-982 | Quarantining keeps exactly the points that still validate, however the file was edited. |
| HubLaws.SanitizeKeepsSound | src/waypoints/service.rs:944-982 | Quarantining drops nothing from an accepted file. |
| HubLaws.AdoptedIsLoaded | src/waypoints/mod.rs:718-732 | Building the store never fails on what a load returns. |
| HubLaws.ConfigureDurable | src/waypoints/mod.rs:649-743 | A start over any good file serves exactly what it holds. |
| LiveSessions.Session.NoteMalformed | src/waypoints/session.rs:173-184 | Strikes saturate at three, and the third mutes, reported once. |
| LiveSessions.Session.Accept | src/waypoints/session.rs:191-200 | A greeting unsubscribes and settles compatibility and minor. |
| LiveSessions.Sessions.Ensure | src/waypoints/session.rs:236-241 | A new key is refused exactly when the table is full. |
| LiveSessions.Sessions.Hello | src/waypoints/session.rs:290-304 | The greeting changes exactly its own session. |
| LiveSessions.Sessions.Refresh | src/waypoints/session.rs:307-315 | A permission change is recorded for a compatible peer, and reported once. |
| LiveSessions.Sessions.ClearAllSubscriptions | src/waypoints/session.rs:264-268 | Every subscription goes stale, nothing else moves. |
| LiveSessions.Sessions.Recipients | src/waypoints/mod.rs:184-193 | Exactly the subscribed peers, each with its own minor. |
| LiveHub.SharedHub.Receive | src/waypoints/mod.rs:227-348 | Handling a payload on the live objects is exactly one step of the model. |
| LiveHub.SharedHub.Subscribe | src/waypoints/mod.rs:256-285 | A paid subscription is answered with the catalog as it is, or with the reason there is none. |
| LiveHub.SharedHub.Disabled | src/waypoints/mod.rs:351-374 | The answer while switched off, charged against the control budget. |
| LiveHub.SharedHub.ClearCatalog | src/waypoints/mod.rs:554-594 | The clear on the live objects is exactly one step of the model. |
| LiveHub.SharedHub.Configure | src/waypoints/mod.rs:649-743 | A configuration on the live objects, the first and every later one, is exactly one step of the model. |
| LiveHub.SharedHub.OnTick | src/waypoints/mod.rs:778-849 | A tick is exactly one step: statuses to the compatible peers concerned, the whole queue to every subscriber. |
| LiveHub.SharedHub.SanitizeLoaded | src/waypoints/service.rs:944-966 | The quarantine loop keeps exactly the points that still validate, in order. |
| Runs.ApplyCommutes | src/waypoints/store.rs:226-295 | A delta changes the list and the map of points by id alike. |
| Runs.EventAdvances | src/waypoints/mod.rs:227-617 | The durable catalog moves only by an event's own changes, one revision each. |
| Runs.RunReachable | src/waypoints/mod.rs:82-99 | Every invariant of hub, sessions, service and file holds in every reachable state. |
| Runs.Durability | src/waypoints/service.rs:1058-1087 | In every reachable state with a service, loading the file gives exactly the catalog in memory. |
| Runs.CrashIsAtMostOneAhead | src/waypoints/service.rs:1058-1087 | A crash during a payload leaves the disk at memory or ahead by exactly the unanswered change; an applied result is on disk at its revision. |
| Runs.CrashInClear | src/waypoints/mod.rs:554-594 | A crash during a clear leaves the disk at memory or ahead by the one whole clear. |
| AtMostOnce.CommitSupersedes | src/waypoints/service.rs:466-478 | A commit leaves behind every revision its request named. |
| AtMostOnce.SupersededIsRefused | src/waypoints/service.rs:466-478 | A request whose revisions were left behind is refused, even for an id drawn again. |
| AtMostOnce.CommitsAtMostOnce | src/waypoints/service.rs:418-933 | Over every run no two durable changes come from one request, nor from two that differ only in operation id. |
| Convergence.RecordFacts | src/waypoints/store.rs:226-315 | The history records each new revision with the changes up to it, and forgets nothing. |
| Convergence.ReceiveKeepsStep | src/waypoints/mod.rs:547-553 | Taking a true frame, or ignoring one that is not next, keeps a peer in step with the history. |
| Convergence.RunTruth | src/waypoints/mod.rs:377-414 | Every frame ever sent or queued is true of the catalog it speaks of. |
| Convergence.Converges | src/waypoints/mod.rs:547-617 | A peer reading payloads in any order shows exactly the catalog of the revision it reached, as its minor shows it. |
| Delivery.CarriedIsSendable | src/waypoints/mod.rs:881-903 | A frame of points the file could hold encodes at every minor, under the send cap. |
| Delivery.EverythingIsSendable | src/waypoints/mod.rs:881-903 | Over every run each snapshot, point and removal sent or queued encodes at every minor, under the send cap. |
| Delivery.ConvergesOnFrames | src/waypoints/mod.rs:547-617 | A peer reading the payloads of any frames about the catalog ever sent converges, with no assumption on encoding. |
| Streams.PayloadSubscribes | src/waypoints/mod.rs:256-285 | A payload subscribes at most its sender, and exactly with a snapshot at the current revision. |
| Streams.AsksIs | src/waypoints/mod.rs:256-285 | A payload is answered with a snapshot exactly when it is a subscription of a compatible peer with a token, while the feature is on. |
| Streams.ChangesIs | src/waypoints/mod.rs:286-330 | A payload commits a change exactly when it carries a request that the service, as it stands, will apply. |
| Streams.WipesIs | src/waypoints/mod.rs:554-594 | A clear empties something exactly when there are points, revisions left to number their removals, and a disk that takes the write. |
| Streams.FlushRule | src/waypoints/mod.rs:554-594 | A step keeps every stream gap-free if and only if nothing is queued or the step, judged before it happens, is no snapshot and no change or clear with somebody subscribed. |
| Streams.PromptIff | src/waypoints/mod.rs:554-594 | A run flushes promptly if and only if every stream is free of gaps and repeats at every moment of it. |
| Streams.SubscribeBeforeFlushRepeats | src/waypoints/mod.rs:256-285 | A subscription between a clear and its flush is followed by nothing but stale removals. |
| Example.PublishedIsSent | src/waypoints/mod.rs:377-414 | A run from no file in which a subscriber of the empty snapshot has been sent exactly the one change made. |
| Example.FlushIsNeeded | src/waypoints/mod.rs:554-594 | A run from no file that reaches a queued removal with a listening player, where one more subscription, or one more point, before the tick breaks its stream and a tick does not. |
| Streams.GapFree | src/waypoints/mod.rs:377-414 | Over every run that flushes promptly each subscriber was sent exactly the revisions after its snapshot. |
| Streams.StreamDelivers | src/waypoints/mod.rs:778-849 | A subscriber that reads its stream in order ends with exactly the catalog the server holds. |
| Clients.WrittenAtSessionMinor | src/waypoints/mod.rs:184-193 | Whatever an event sends a connection is written at the minor of that connection's session. |
| Clients.RunInforms | src/waypoints/mod.rs:235-255 | Over every run a compatible client was told the minor its session has by the last status it was sent. |
| Clients.ClientShowsCatalog | src/waypoints/mod.rs:746-849 | Over every run that flushes promptly, a subscriber reading the bytes it was sent at the minor it was told shows exactly the catalog the server holds. |
| Ownership.PlanSparesOthers | src/waypoints/service.rs:1141-1148 | A plan by somebody not entitled leaves a publisher's points alone. |
| Ownership.OwnershipHolds | src/waypoints/service.rs:533-571 | While nobody entitled acts, a publisher's points are exactly the ones the file started with. |
| Ownership.OriginsNeverChange | src/waypoints/service.rs:893-908 | From each revision to the next a point keeps its publisher, name and creation, and a changed one carries the new revision. |
| Ownership.PlanWithinQuota | src/waypoints/service.rs:533-571 | A plan leaves catalog and publisher within their limits or no larger than they were. |
| Ownership.QuotasHold | src/waypoints/service.rs:533-571 | Over every run neither catalog nor publisher exceeds the larger of the start and the largest limit configured. |
| Ownership.BlocksStayApart | src/waypoints/store.rs:226-295 | Over every run no two points come to share a block that did not share one in the starting file. |

## Left out

- Buckets.RateBound: tokens are exact sixty-thousandths of a token; the rounding of the doubles the code keeps them in is not modelled.
- DocumentSize.DocumentRoundTrip: printing and parsing doubles is the assumption Faithful, not a model of the host's formatter.
- DocumentSize.DocumentFits: icon ids are at most 256 bytes, as the wire allows; a hand-edited file with longer ones may outgrow the limit.
- Buckets.ConsumeConserves: tokens are exact; the rounding of doubles is not modelled.
- Buckets.RefusalMeansEmpty: tokens are exact; the rounding of doubles is not modelled.
- Buckets.TokenBucket.Consume: tokens are exact; the rounding of doubles is not modelled.
- Buckets.MutationBucket.Consume: tokens are exact; the rounding of doubles is not modelled.
- Pacing.PaceFromFirstCall: tokens are exact; the rounding of doubles is not modelled.
- Pacing.TenAreFree: tokens are exact; the rounding of doubles is not modelled.
- Subscriptions.ChargedIs: tokens are exact; the rounding of doubles is not modelled.
- Pacing.OwnCallPays: tokens are exact; the rounding of doubles is not modelled.
- Control.ControlBound: tokens are exact; the rounding of doubles is not modelled. Statuses a tick sends are not answers and not counted.
- Control.OwnPayloadCosts: tokens are exact; the rounding of doubles is not modelled.
- Pacing.PaceHolds: tokens are exact; the rounding of doubles is not modelled.
- Documents.FormatterExists: shows that the assumption can be met, not that the host's own formatter meets it.
- Persistence.SaveHolds: takes icon ids of at most 256 bytes, as the wire allows, and the assumption Faithful.
- Persistence.LoadHolds: takes icon ids of at most 256 bytes, as the wire allows, and the assumption Faithful.
- Persistence.CatalogFile.Load: a file whose size or bytes cannot be read, which the code starts empty over, is not modelled.
- Frames.EntryLength: takes icon ids of at most 256 bytes, as the wire allows.
- Frames.SnapshotSendable: takes icon ids of at most 256 bytes, and says nothing of status frames with world ids over 256 bytes, which fail to encode.
- Runs.Durability: starts from a file that loads or from none; a file set aside is met by `Loading.MovedAsideIsFresh`, one that could not be moved by `Loading.RejectedIsNotServed`.
- Loading.ServedAndMigrated: takes icon ids of at most 256 bytes and the assumption Faithful; the copy a migration keeps beside the file, and the name a file set aside is given, are not modelled.
- Statuses.TickTells: takes each player at most once in a tick's list, as the host's player list has it.
- Runs.CrashIsAtMostOneAhead: a save replaces the document or leaves it alone; torn writes, temporary files and renames are the storage layer's.
- Ownership.QuotasHold: states the bound against the largest limit ever configured, because a second configuration does not reach the service.
- Retries.RetryWindow: speaks of one service; a clear or a restart ends the window, after which at-most-once takes over.
- LiveHub.SharedHub.Receive: the clock of the service and the clock of the hub are two inputs, as the code reads it twice.
- Host calls, player lists, logging, audit lines, counters, the locks and their poisoning.
- The text of error and warning messages; errors are values here.
- The real clock and random source: times and drawn ids are inputs.
- Real file I/O, including unreadable files: a load sees the bytes or no file.
- Unicode tables beyond the white-space, control and format characters the code tests for.
- Equality of the accepted numbers with the grammar of RFC 8259; the parser accepts slightly more and hands the token to the host.
- Splitting the offer field and the frame builders of src/protocol.rs: string slicing and straight-line appends.
- The correction subsystem, the world scanner, configuration parsing, commands and their output, handshake and tools.
- Draft, validated body and the bodies of requests are one record here; the retired lock byte of a point is always zero.
- The owner's instance id in the catalog file is an id or absent, not arbitrary text.
