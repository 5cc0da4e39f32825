# Error-Tracer in Dafny

A model of the parts of Error-Tracer where several operations have to fit together, with proofs of what
they keep. `dafny verify dfyconfig.toml` checks the whole project.

Each component follows the form of its source. Where the source updates an object, there is a class whose
methods are proved against functions on values; what the source promises is then proved of those functions, on
every input or every run.

| files | component |
|---|---|
| `Batching`, `Budget`, `Delivery`, `DeliveryInvariant`, `DeliveryTheorems`, `DeliveryLosses`, `DeliveryBudget`, `DeliveryVerdict`, `DeliveryProgress`, `DeliveryTimer`, `DeliveryCaptures`, `DeliveryCounters`, `Client` | the browser client: batches, the capture budget, and the delivery protocol |
| `RateLimiter`, `RateBound`, `RateForgetting`, `RetryAdvice`, `BucketLevels`, `SweepTiming`, `Limiter` | the token-bucket limiter with its swept map and overflow bucket |
| `IssueLog`, `LogMeaning`, `Memory`, `Listing`, `ListingMeaning` | what the issue store means, the in-memory store, pagination |
| `Sqlite`, `SqliteStore`, `Sweeps` | the SQLite store as tables and statements, and retention |
| `SqliteMigration`, `BatchMigration`, `MigrationScope`, `MigrationOrder`, `MigrationCollisions` | the migration of version 1 rows |
| `SqliteSimulation`, `EventCursors`, `EventWalks` | the SQLite store against the in-memory store, and walks through both |
| `Fingerprint`, `LegacyFingerprint`, `StackFrames`, `HashedFormats` | the bytes that are hashed to group events, and canonical stack frames |
| `CursorCodec`, `CursorFormat` | the opaque page cursors |
| `Containers`, `ContainerLaws`, `Paragraph`, `ParagraphLaws` | the containers of a line and the memoised paragraph scan of the Markdown checker |
| `Options`, `MinMax` | optional values, minimum and maximum |

## How the source is represented

- The browser client is a state machine. A step is a piece of client code that the host runs without
  interruption: a call, a timer callback, or a promise callback. A run is any sequence of steps. A serialised
  body is a size: an envelope, the events, and the commas between them. What sampling, normalisation and
  `beforeSend` decide about a candidate, its size, and the clock reading are parameters of a capture.
- The limiter counts a token as 60,000,000,000 parts, so a bucket gains `perMinute` parts in a nanosecond and
  every quantity is an integer.
- The issue store is compared with a log of everything recorded and triaged. Fingerprints and project
  identifiers are numbers; 64 lower-case hexadecimal digits sort like the number they write. A project
  identifier that is blank after trimming is `None`. Each event carries its two hashes as fields.
- SQL statements are functions on two tables. `events` is listed by its integer key: a new row gets the
  greatest number plus one, so numbers freed at the end are given out again. Where a query has no `ORDER BY`,
  the order of its rows is a parameter (`Scan`). A transaction happens as a whole or not at all.
- In `Fingerprint` a string is a sequence of bytes.
- In `Paragraph` the grammar of single lines is a parameter (`Grammar`), so the results hold for any grammar.

## Where the code differs from what one would expect

- A `setTimeout` that throws while a batch backs off rejects the flush. The batch and the rest of its snapshot
  are lost, and the reservation of the rest is never released. `Delivery` models this and counts it as `lost`
  and `leaked`; `DeliveryLosses.LossesExactly` says which steps do it, and `DeliveryLosses.StrandingRun` is a run
  that ends idle with a reservation.
- The rate bound over all clients, and the invisibility of sweeping, hold exactly when the burst is at most ten
  minutes of refill. The configuration does not enforce that.
- If the clock has stepped back behind a bucket's time stamp, the advised wait counts from the stamp.
- Of grouped version 1 rows last seen at the same moment, the one the query returns last provides the last event;
  `MigrationOrder.LastEventExactly` says when the order of the query shows.
- A version 1 row that is a candidate for its own fingerprint is deleted with the occurrences it then has. That takes
  a collision of SHA-256 (`MigrationCollisions`).
- The issue cursor accepts upper-case fingerprints and gives them back in lower case. Both decoders accept line
  breaks and stray low bits, so several texts stand for one cursor.
- Version 1 fingerprints join their fields by NULs, and a message or a stack line may hold NULs itself. Some events
  with NULs share their bytes with another group, others do not; `LegacyFingerprint.BytesSharedExactly` says which.
- With a line but no column, a query string that ends in a colon and digits is partly kept in a stack frame.
- A refused event in the middle of a snapshot closes the open batch. `capture` lets no such event through.

## Model

| member | source | states |
|---|---|---|
| Batching.MakeBatchesInOrder | sdk/error-tracer.js:492-535 | the loop over a snapshot computes the packing that the lemmas below are about |
| Batching.BatchesAreSound | sdk/error-tracer.js:492-535 | batches keep both bounds, are not empty, concatenate to the sendable events in order, and exactly the events too large for any body are refused |
| Batching.GreedyIsMinimal | sdk/error-tracer.js:492-535 | a split whose batches cannot take the next event has no more batches than any in-order split within both bounds |
| Batching.BatchesAreMinimal | sdk/error-tracer.js:329-334 | when every event fits alone, as capture checks, nothing is refused and no in-order split has fewer batches |
| Batching.RefusalCostsABatch | sdk/error-tracer.js:507-525 | without that check minimality fails: three events of which one is too large go into two batches, though the other two fit into one |
| Budget.TrimStamps | sdk/error-tracer.js:402-415 | both trimming loops together keep exactly the stamps of the last minute that are not ahead of now |
| Budget.AnyClockKeepsOrder | sdk/error-tracer.js:402-416 | for any clock, after each check the stamps are sorted, at most the maximum, none too old and none ahead |
| Budget.SteadyClockIsUpToDate | sdk/error-tracer.js:402-416 | for a clock that never steps back, the kept stamps are exactly those recorded in the last minute |
| Budget.EveryWindowIsBounded | sdk/error-tracer.js:335-343 | for such a clock, no window of a minute holds more enqueued captures than the maximum |
| DeliveryInvariant.StepKeepsInv | sdk/error-tracer.js:263-647 | every step keeps the invariant: queue bound, reservations, turn taking, capture order, books, batch bounds, budget |
| DeliveryInvariant.RunKeepsInv | sdk/error-tracer.js:263-647 | the invariant holds in every reachable state |
| DeliveryTheorems.CapturesAreConserved | sdk/error-tracer.js:263-352 | on every run, attempted captures equal sampled, suppressed, throttled, invalid, dropped, sent, lost, queued, reserved and current ones; failed is at most dropped; sent and lost count exactly the accepted and the abandoned events, dropped at least those given up |
| DeliveryTheorems.BacklogIsBounded | sdk/error-tracer.js:418-490 | queue and reservations stay within maxQueueSize, reservations equal waiting snapshots and unsent batches, an idle client has none but leaked ones, live events stay within maxQueueSize and one batch |
| DeliveryTheorems.DeliveryIsSerial | sdk/error-tracer.js:431-490 | while a batch is with the transport or backing off, every other flush is waiting or settled |
| DeliveryTheorems.AcceptedInCaptureOrder | sdk/error-tracer.js:537-577 | accepted batches concatenate to captures in strictly rising order, so none is in two; no batch has more than maxRetries + 1 calls or exceeds the bounds |
| DeliveryTheorems.PromiseValue | sdk/error-tracer.js:431-464 | a settled flush promise is rejected exactly when events were lost, and otherwise true exactly when nothing was dropped back to when the client was idle |
| DeliveryVerdict.RunKeepsBooks | sdk/error-tracer.js:537-577 | on every run, what a flush has counted as sent, dropped and lost are the events of its closed batches |
| DeliveryVerdict.PromiseMeansAccepted | sdk/error-tracer.js:431-490 | on every run, a flush promise is rejected exactly when a batch of its flush was lost, and otherwise true exactly when the transport accepted every batch of it and of the flushes it waited for |
| DeliveryTheorems.FlushPromiseMeansDelivered | sdk/error-tracer.js:431-490 | when the promise settles, each event held at the call is in a batch that was accepted, given up or lost with a rejected flush, and none is held any more; an immediate promise is true and means that nothing was held |
| DeliveryTheorems.DestroyIsFinal | sdk/error-tracer.js:172-186 | after destroy, on every run, no timer is armed, the queue is empty, and the live count never rises |
| DeliveryProgress.StepEffort | sdk/error-tracer.js:431-587 | every delivery step lowers a measure of the work left, and nothing but a capture raises it |
| DeliveryProgress.EveryFlushCanSettle | sdk/error-tracer.js:431-587 | in every reachable state with an unsettled flush some delivery step can be taken; without captures there are no more of them than the measure says, in any order; and there is a way for all promises to settle |
| DeliveryLosses.LostOnlyByRejection | sdk/error-tracer.js:568-587 | events are lost exactly when some flush was rejected, and a reservation leaks only then |
| DeliveryLosses.LossesExactly | sdk/error-tracer.js:568-587 | a run loses events if and only if setTimeout throws at a refusal with attempts left, and leaks a reservation if and only if the snapshot then had batches left |
| DeliveryLosses.StrandingRun | sdk/error-tracer.js:480-490 | with limits that the constructor accepts, five steps that end idle, with nothing held and a reservation that is never released |
| DeliveryBudget.TakenIsHeld | sdk/error-tracer.js:335-352 | a capture is held under its number if and only if it passed every check, the budget and the queue |
| DeliveryBudget.RunKeepsBooks | sdk/error-tracer.js:335-343 | on every run the client's stamps are those of the budget alone, fed with the clock readings of the run |
| DeliveryBudget.TakenPerMinute | sdk/error-tracer.js:335-343 | while the clock does not step back, no minute of any run holds more queued captures than the maximum |
| DeliveryTimer.QueuedEventsAreFlushed | sdk/error-tracer.js:589-617 | on every run the queue is short of a batch unless a flush is in progress; if the host has setTimeout, a queued event then has an armed timer, whose firing starts a flush of the whole queue; no timer is armed for an empty queue or after the stop |
| DeliveryTimer.FlushedExactly | sdk/error-tracer.js:335-352 | a step takes the queue exactly when it asks for a flush, fills a batch while the client is idle, settles the newest flush with a full batch behind it, or finds that setTimeout throws; no other step starts a flush |
| DeliveryCaptures.TakesMeans | sdk/error-tracer.js:324-340 | a candidate is queued exactly when it fits a body alone, fewer captures than the maximum fall in its minute, and there is room or an older queued event to give way |
| DeliveryCaptures.EventsAreKept | sdk/error-tracer.js:418-429 | on every run a queued capture becomes the newest event, and without room the oldest queued one goes for it; no other step adds, removes or reorders events |
| DeliveryCaptures.ThrottledExactly | sdk/error-tracer.js:335-338 | while the clock does not step back, a capture is throttled exactly when as many as the maximum were queued in the minute before it |
| DeliveryCaptures.AnswerMeans | sdk/error-tracer.js:340-351 | capture answers false exactly when the event is not queued, the promise of the flush just started, which holds the event last, exactly when it fills a batch of an idle client, and true otherwise |
| DeliveryCounters.RunCounts | sdk/error-tracer.js:263-352 | on every run each counter is the number of captures with its verdict: sampled, invalid, suppressed, throttled; failed those too large and the events given up, dropped these and those without room or displaced; batches the accepted ones; retries and transport calls what the attempts of all batches add up to |
| DeliveryCounters.GivenUpInTheEnd | sdk/error-tracer.js:568-577 | on every run a batch is dropped after exactly maxRetries + 1 calls, accepted after at most as many, and lost only with retries left |
| DeliveryCounters.RefusalsAreCounted | sdk/error-tracer.js:466-490 | in any state a snapshot sends exactly the events that fit a body, counts and releases the others, and answers false if there are any |
| Client.Tracker.constructor | sdk/error-tracer.js:263-269 | a new client is in the initial state and satisfies the invariant |
| Client.Tracker.FlushQueue | sdk/error-tracer.js:431-464 | flush takes the queue, reserves it behind an active delivery or sends it, and returns the tracked promise |
| Client.Tracker.BeginSnapshot | sdk/error-tracer.js:441-449 | a flush that waited for the one before it is sent |
| Client.Tracker.SendSnapshot | sdk/error-tracer.js:466-490 | refused events are counted and released, and the batches behind the first are reserved |
| Client.Tracker.ArmTimer | sdk/error-tracer.js:589-617 | arms at most one timer, none after the stop, and flushes at once when the timer throws |
| Client.Tracker.HasBudget | sdk/error-tracer.js:402-416 | leaves the stamps of the window and says whether there is room |
| Client.Tracker.Push | sdk/error-tracer.js:418-429 | makes room by dropping the oldest queued event, or drops the new one if reservations fill the bound |
| Client.Tracker.Record | sdk/error-tracer.js:263-352 | capture with all its outcomes, keeping the invariant; the promise is an immediate false exactly when the event was not queued |
| Client.Tracker.AdmitEvent | sdk/error-tracer.js:340-351 | an admitted event is queued and stamped, then flushed when a batch is full or scheduled, and the promise says which |
| Client.Tracker.SendBatch | sdk/error-tracer.js:537-560 | a batch too large is dropped, any other goes to the transport |
| Client.Tracker.BeginBatch | sdk/error-tracer.js:480-489 | releases the reservation of a batch when it starts |
| Client.Tracker.TransportAccepted | sdk/error-tracer.js:562-566 | counts the batch as sent and moves on |
| Client.Tracker.TransportRefused | sdk/error-tracer.js:568-587 | backs off while attempts remain, gives the batch up after the last, and rejects the flush when the timer throws |
| Client.Tracker.BackOffOver | sdk/error-tracer.js:568-573 | after the back-off the same batch goes out again with one attempt more |
| Client.Tracker.FlushSettled | sdk/error-tracer.js:448-461 | only the newest flush clears the promise; a full queue is flushed, another is scheduled |
| Client.Tracker.TimerFired | sdk/error-tracer.js:601-604 | the timer flushes |
| Client.Tracker.Stop | sdk/error-tracer.js:172-186 | destroy stops, disarms and flushes |
| Client.Tracker.GetStats | sdk/error-tracer.js:634-647 | the reported queue length is what is held less the batch being sent, within maxQueueSize |
| Limiter.Limiter.constructor | internal/server/ratelimit.go:38-52 | defaults for limits that are not positive, an empty map, at most 10,000 clients |
| Limiter.Limiter.Allow | internal/server/ratelimit.go:64-114 | the method computes the answer and the new state of the specification |
| Limiter.Limiter.DropExpired | internal/server/ratelimit.go:76-83 | deletes exactly the buckets unused for ten minutes |
| RateLimiter.MapNeverExceedsMaximum | internal/server/ratelimit.go:85-100 | for any clock and any requests, the map never holds more than maxClients |
| RateBound.GlobalRateBound | internal/server/ratelimit.go:64-123 | with burst at most ten minutes of refill, tokens granted over any window are at most (maxClients + 1)(burst + rate × time), despite sweeping, slot reuse and overflow |
| RateBound.GlobalRateBoundExactly | internal/server/ratelimit.go:64-123 | that bound holds on all runs and windows if and only if burst is at most 10 × perMinute |
| RateForgetting.RunAgrees | internal/server/ratelimit.go:76-123 | under that condition, with a clock that never steps back and no saturation, every answer is that of a limiter that keeps every bucket forever |
| RateForgetting.OwnIgnoresOthers | internal/server/ratelimit.go:85-113 | in the limiter that never forgets, a client's bucket depends on its own requests only |
| RateForgetting.ClientsAreIndependent | internal/server/ratelimit.go:76-123 | so every answer is the one the client would get alone |
| RateForgetting.ForgettingInvisibleExactly | internal/server/ratelimit.go:76-123 | sweeping is invisible on all such runs if and only if burst is at most 10 × perMinute |
| BucketLevels.AllowedExactly | internal/server/ratelimit.go:64-114 | under that condition, a request is let through if and only if, counted from each of the client's own requests so far, what it has been granted since and what it asks for stay within burst + rate × time; no tokens are always granted, more than the burst never |
| BucketLevels.BucketsHoldTightest | internal/server/ratelimit.go:101-108 | a bucket holds exactly what the tightest of these windows leaves |
| SweepTiming.NoBucketLingers | internal/server/ratelimit.go:76-83 | with a steady clock, a request leaves no bucket that has been idle for eleven minutes |
| SweepTiming.OnlyIdleGo | internal/server/ratelimit.go:76-83 | a bucket goes only in a sweep, at least a minute after the one before, and only when idle for ten minutes |
| SweepTiming.SweepsAreApart | internal/server/ratelimit.go:76-83 | a sweep comes with the first weighed request a minute or more after the one before, and no sooner |
| SweepTiming.OwnBucketUnlessFull | internal/server/ratelimit.go:85-100 | the overflow bucket serves exactly the clients that have none of their own when the map is full |
| RetryAdvice.RetryOnBucket | internal/server/ratelimit.go:101-113 | a refused request succeeds on the bucket left behind exactly from the advised nanosecond on |
| RetryAdvice.BucketLeftAlone | internal/server/ratelimit.go:76-123 | whatever other clients ask for, a client's bucket stays as it is until a sweep finds it idle for ten minutes |
| RetryAdvice.RetryAdviceIsExact | internal/server/ratelimit.go:76-123 | on every run, a refused client that comes back is allowed exactly from the advised moment on while its bucket is kept, which it is for ten minutes, and as a new client once it is swept |
| RetryAdvice.HeaderIsLeastSufficient | internal/server/ratelimit.go:139-142 | the header is the least positive number of seconds that covers the wait |
| IssueLog.SortIsSorted | internal/store/memory.go:113-121 | sorting gives the same occurrences, newest first, later arrivals first among equals |
| IssueLog.SortIsTheArrangement | internal/store/memory.go:113-121 | there is only one such arrangement, so any sort gives it |
| IssueLog.TrimPlaceAll | internal/store/memory.go:122-125 | trimming before further insertions changes nothing once the result is trimmed |
| IssueLog.HistoryGrows | internal/store/memory.go:105-126 | appending a batch to a trimmed history, sorting and trimming again gives the newest of everything ever recorded |
| IssueLog.HistoryIsNewest | internal/store/memory.go:111-126 | a retained history is newest first, has the right length, holds only what was recorded, and everything dropped is older |
| IssueLog.LastEventIsNewest | internal/store/memory.go:101-104 | the issue's last event is the first of its history and was received at last_seen |
| IssueLog.RecordedIssue | internal/store/memory.go:76-105 | recording an event makes its aggregate the lifetime count, earliest, latest and newest, and changes no other |
| IssueLog.StatusSetIssue | internal/store/memory.go:269-291 | setting a status changes that and nothing else |
| IssueLog.StatusMeans | internal/store/memory.go:90-92 | an issue is ignored while the last status set is, resolved while nothing came after it was resolved, and open otherwise |
| IssueLog.SeenNeverMovesBack | internal/store/memory.go:97-104 | however the log grows, last_seen never falls, first_seen never rises, the count never falls, and the issue stays |
| LogMeaning.IssueMeans | internal/store/memory.go:76-105 | an issue in terms of the log's entries: the number of its records, the head of the first, the earliest time, and the time and event of the latest, later records first among equals |
| LogMeaning.IssueExists | internal/store/memory.go:76-90 | an issue exists exactly when an event has been recorded for it |
| LogMeaning.RefusalMeans | internal/store/store.go:148-165 | a batch is refused for want of a project, of events, or of a reception time, in this order and for nothing else |
| LogMeaning.StatusRefusalMeans | internal/store/memory.go:269-287 | a status change is refused for want of a project, of a known status, or of a record of the issue |
| Memory.Memory.constructor | internal/store/memory.go:32-42 | an empty store; a history limit out of range becomes the default |
| Memory.Memory.RecordBatch | internal/store/memory.go:59-131 | refusals in the source's order without effect, or the log grows by the batch, the whole state is the one the log means, and the returned issues are the new aggregates |
| Memory.Memory.AppendBatch | internal/store/memory.go:71-110 | the first loop updates aggregates and appends to histories |
| Memory.Memory.TrimTouched | internal/store/memory.go:111-126 | the second loop sorts and trims the touched histories, in any order of the map |
| Memory.Memory.SetIssueStatus | internal/store/memory.go:269-291 | refusals in order without effect, or exactly the status of one issue changes |
| Memory.Memory.GetIssue | internal/store/memory.go:180-196 | the aggregate that the log means, or the error |
| Memory.Memory.ListIssues | internal/store/memory.go:199-261 | the requested page of the ordered listing of the matching issues |
| Memory.Memory.ListIssueEvents | internal/store/memory.go:134-177 | the requested page of the newest events of all recorded for the issue |
| Memory.SameLogSameState | internal/store/memory.go:59-131 | the log determines both maps and the counter |
| Memory.PartsMakeTheWhole | internal/store/memory.go:59-131 | recording a batch leaves the state that recording it in two parts leaves |
| Listing.Select | internal/store/memory.go:221-235 | the ordered listing holds exactly the matching issues |
| Listing.ListingIsUnique | internal/store/memory.go:230-235 | the order leaves only one listing |
| Listing.PagesAgree | internal/store/sqlite.go:843-900 | a cursor condition, an offset and one row more than the page give the page that searching the sorted list gives |
| ListingMeaning.ListingMeans | internal/store/memory.go:221-235 | a listing holds exactly the project's issues, with the status asked for if any, most recently seen first, then by fingerprint |
| ListingMeaning.StatusesSplit | internal/store/memory.go:221-235 | the listings of open, resolved and ignored issues split the listing of all, each in its order |
| ListingMeaning.PageSizes | internal/store/store.go:122-146 | the size asked for is served from 1 to 100, more is cut to 100, and 50 is the default |
| ListingMeaning.PageFromOffset | internal/store/memory.go:237-260 | without a cursor a page starts at the offset, holds as many issues as fit and are left, and has a cursor for the last one exactly when more are left |
| ListingMeaning.PageFromCursor | internal/store/memory.go:237-266 | with a cursor it starts at the first issue behind the cursor, whatever the offset |
| Listing.HistoryPagesAgree | internal/store/sqlite.go:936-997 | the same for occurrences, for two histories that hold equal events under different numbers |
| ListingMeaning.EventPageFrom | internal/store/memory.go:155-176 | the same for a page of occurrences, from the newest or behind a cursor |
| Listing.BackOnlyIfOlder | internal/store/memory.go:199-266 | along a walk through pages, whatever the store does in between, an issue is returned again only if its last sighting moved back |
| Listing.NoIssueTwice | internal/store/memory.go:199-266 | so with batches and status changes in between, no issue is returned twice |
| Listing.NoneMissed | internal/store/memory.go:199-266 | a walk that ends has returned every issue that matched throughout and was last seen at one time exactly once, whatever happened to the others, evictions included |
| Sqlite.TrimKeepsNewest | internal/store/sqlite.go:158-168 | after the trim, a touched issue holds its newest events and any other is as it was |
| Sqlite.TrimOneMore | internal/store/sqlite.go:682-688 | trimming issue by issue, in any order, is trimming all of them |
| Sqlite.NextNumber | internal/store/sqlite.go:50-54 | a new occurrence gets number one in an empty table and otherwise one more than the greatest number left |
| SqliteMigration.MergeAllIs | internal/store/sqlite.go:768-795 | merging candidates removes exactly their rows, moves exactly their events, and changes otherwise only the target |
| SqliteMigration.MergedRowCombines | internal/store/sqlite.go:117-142 | the merged row has the strictest status, the earliest and the latest sighting of all it was made from, and the last event of a part seen last |
| SqliteMigration.MigrationLosesNoEvent | internal/store/sqlite.go:776-795 | the cascade that deletes a merged row takes no event with it |
| SqliteMigration.MigrateAllKeeps | internal/store/sqlite.go:633-645 | migrating a batch keeps the tables consistent, the counts, and every version 1 row that it leaves |
| SqliteMigration.RecordingConserves | internal/store/sqlite.go:600-711 | recording a batch raises the project's occurrences by its length and no other project's; every version 2 row's last event hashes to its key; occurrences keep their issues |
| BatchMigration.MigrateAllIs | internal/store/sqlite.go:633-645 | the migration of a batch without its steps: claimed rows are gone, each fingerprint's row is merged from what was there before the call, other rows stay, events follow their rows |
| BatchMigration.AppendAllAbsorbs | internal/store/sqlite.go:91-111 | what the upserts of a batch make of the row of one fingerprint |
| BatchMigration.RecordedAggregate | internal/store/sqlite.go:600-711 | after any batch, each of its issues combines the row it had, the version 1 rows brought forward and the batch's events: ignored if a part was and open otherwise, the sum of all counts, the earliest and the latest sighting, the last event of the latest |
| MigrationScope.OutdatedRowsGo | internal/store/sqlite.go:144-156 | recording a batch removes exactly the version 1 rows whose last event hashes to their own key and to a fingerprint of the batch, and whose key or head the batch's first event with that fingerprint has; every other version 1 row stays as it was |
| MigrationScope.PartsAreOutdated | internal/store/sqlite.go:718-797 | the parts that a fingerprint's issue is made from are its own row and exactly those rows |
| BatchMigration.MigrationOrderFree | internal/store/sqlite.go:144-156 | migrating a batch under two orders of the candidates leaves equal tables apart from last events |
| BatchMigration.RecordingOrderFree | internal/store/sqlite.go:600-711 | so does recording it |
| MigrationOrder.LastEventFollowsOrder | internal/store/sqlite.go:136-141 | of the parts last seen at the greatest time, the one read last provides the last event |
| MigrationOrder.LastEventExactly | internal/store/sqlite.go:744-797 | for an issue that is not its own candidate, the last event after migration is the same for all orders of the candidates if and only if the grouped candidates that no part was seen after carry one last event |
| MigrationOrder.TwoOrdersTwoEvents | internal/store/sqlite.go:150-156 | two grouped candidates seen last at the same time, and two orders that give the merged issue different last events |
| MigrationCollisions.MigrationLosesNoEventExactly | internal/store/sqlite.go:768-795 | a migration keeps every occurrence under all orders of the candidates unless the issue is one of its own candidates and has occurrences at its turn, of its own or moved from a candidate that can come before it; then some order loses them |
| SqliteMigration.NoCollisionNoSelf | internal/store/sqlite.go:742-748 | where no version 1 row is stored under a fingerprint of the batch, no issue is its own candidate |
| MigrationCollisions.FailureIsACollision | internal/event/event.go:185-220 | where a version 1 row is stored under a fingerprint of the batch, two different inputs have one hash |
| SqliteSimulation.RecordingTracks | internal/store/sqlite.go:600-711 | without version 1 rows, recording a batch does to the tables what it does to the log |
| SqliteSimulation.StatusTracks | internal/store/sqlite.go:1000-1039 | so does setting a status |
| SqliteSimulation.RunTracks | internal/store/sqlite.go:600-711 | after every run of calls the tables say what the log means |
| SqliteSimulation.SqliteSimulatesMemory | internal/store/sqlite.go:91-168 | after every run of calls both stores hold equal aggregates and equal histories, though numbers may be reused |
| SqliteSimulation.IssuePagesAgree | internal/store/sqlite.go:812-900 | and show equal pages of issues, with equal totals and cursors |
| EventCursors.RecordingKeepsCursors | internal/store/sqlite.go:600-711 | a batch keeps two cursors handed out at the same place at the same place, though it may trim their occurrence and reuse its number |
| EventCursors.EventPagesAgree | internal/store/sqlite.go:903-997 | and equal pages of occurrences, from the start or behind any occurrence held earlier in the run, whatever calls came in between |
| EventWalks.NoOccurrenceTwice | internal/store/memory.go:134-177 | along a walk through pages of occurrences, whatever the store does in between, no occurrence is shown twice |
| EventWalks.NoOccurrenceMissed | internal/store/memory.go:134-177 | a walk that ends has shown every occurrence held throughout exactly once |
| EventWalks.MemoryWalkIsSound | internal/store/memory.go:134-177 | both hold of walks through the in-memory store, and an occurrence held at the first and the last page was held throughout |
| EventWalks.SqliteWalkIsSound | internal/store/sqlite.go:903-997 | both hold of walks through the SQLite store with batches and status changes in between, though numbers may be reused |
| SqliteStore.Store.RecordBatch | internal/store/sqlite.go:600-711 | refusals without effect, or the tables of the specification and the new aggregates |
| SqliteStore.Store.MigrateBatch | internal/store/sqlite.go:633-645 | each fingerprint of the batch is migrated once |
| SqliteStore.Store.MigrateEvent | internal/store/sqlite.go:718-797 | the exact candidate and the grouped ones are merged one after the other |
| SqliteStore.Store.TrimBatch | internal/store/sqlite.go:682-688 | the touched histories are trimmed, in any order of the map |
| SqliteStore.Store.SetIssueStatus | internal/store/sqlite.go:1000-1039 | an update that finds no row is refused; otherwise one status changes |
| SqliteStore.Store.GetIssue | internal/store/sqlite.go:800-809 | the stored aggregate, or the error |
| SqliteStore.Store.ListIssues | internal/store/sqlite.go:812-900 | the page fetched from the ordered matching rows |
| SqliteStore.Store.ListIssueEvents | internal/store/sqlite.go:903-997 | the page fetched from the issue's rows, newest first |
| SqliteStore.Store.EnforceIssueLimit | internal/store/sqlite.go:1084-1125 | one statement deletes the end of the listing, at most 500 issues and at most the excess |
| SqliteStore.Store.SweepLimit | cmd/error-tracer/main.go:363-377 | the loop ends with exactly the first `limit` of the listing; it makes one statement for each full portion of 500 and one more, the state after each is the listing cut shorter by its portion, and the total is what was deleted |
| Sweeps.ShortenedLists | internal/store/sqlite.go:1100-1119 | deleting the end of a listing leaves the front as the new listing |
| Sweeps.OldestGoFirst | internal/store/sqlite.go:1100-1119 | in each such state every deleted issue is older than every survivor, other projects are untouched, and occurrences stay exactly with their issues |
| SqliteStore.Store.PruneIssues | internal/store/sqlite.go:1044-1076 | one statement deletes at most 500 expired issues, the oldest ones, and all of them if they are fewer |
| SqliteStore.Store.SweepAge | cmd/error-tracer/main.go:379-398 | the loop deletes exactly the issues last seen before the cutoff and counts them |
| Sweeps.SelectGroups | internal/store/sqlite.go:351-389 | a keyset page of oversized histories, in order, with nothing skipped |
| SqliteStore.Store.Reconcile | internal/store/sqlite.go:343-412 | the loop leaves every history at its newest `maximum` events and touches nothing else |
| Sweeps.ReconciledIsNewest | internal/store/sqlite.go:343-412 | trimming only oversized histories leaves each one at its newest events |
| Fingerprint.WriteParts | internal/event/event.go:185-202 | the hasher is fed the length-prefixed parts in order |
| Fingerprint.PreimageIsInjective | internal/event/event.go:195-201 | length-prefixed bytes can be taken apart in one way only |
| Fingerprint.SameBytesSameGroup | internal/event/event.go:185-203 | two events are hashed alike exactly when kind, message, source, line, column and frame are equal |
| LegacyFingerprint.SameLegacyBytesSameGroup | internal/event/event.go:208-220 | an event without NULs shares its version 1 bytes with events of its own group only |
| LegacyFingerprint.BytesSharedExactly | internal/event/event.go:208-220 | among events with NUL-free kind and source, one shares its version 1 bytes with another group if and only if its bytes, cut at the NULs, can be read at a second place: two decimals, with the tag, a kind, a piece of a message and a source before them and the first line of a stack behind |
| LegacyFingerprint.DecimalExactly | internal/event/event.go:213-214 | what a line or a column is written as: digits without a needless zero, after a sign if negative |
| LegacyFingerprint.LegacyCollision | internal/event/event.go:208-220 | a message with a NUL and a numeric source, and the event of another group with the same version 1 bytes and other version 2 bytes |
| Fingerprint.VersionsAreApart | internal/event/event.go:185-220 | no version 1 bytes are version 2 bytes |
| Fingerprint.FirstStackFrame | internal/event/event.go:280-298 | the loop finds the first frame, made canonical, or the first line that is not blank |
| Fingerprint.FirstStackLine | internal/event/event.go:300-307 | the loop finds the first line that is not blank |
| Fingerprint.FixedExactly | internal/event/event.go:354-364 | making a location canonical leaves exactly those without `?` and `#` alone, and twice is once |
| Fingerprint.QueryDrops | internal/event/event.go:352-364 | with line and column, exactly the query goes, whatever it ends in |
| Fingerprint.QueryDropsExactly | internal/event/event.go:352-364 | with a line only, exactly the query goes if and only if it does not end in a colon and digits |
| Fingerprint.CanonicalFrameIs | internal/event/event.go:325-350 | in every shape, V8 with or without brackets and Firefox, making a frame canonical makes its location canonical and nothing else |
| Fingerprint.QueriesRegroup | internal/event/event.go:325-364 | frames of any of these shapes that differ only in the query of their location become the same frame, if and only if the position has a column or the query does not end in a colon and digits |
| StackFrames.StacksRegroup | internal/event/event.go:280-298 | two stacks whose first frames, behind any lines that are none, differ only in the query and in what stands behind have the same version 2 bytes, under the exact condition of QueriesRegroup |
| StackFrames.ShapesAreFrames | internal/event/event.go:309-323 | a line of each shape whose location ends in a position is a frame |
| StackFrames.StacksWithoutFrames | internal/event/event.go:280-298 | of a stack without a frame the first line that is not blank is hashed |
| StackFrames.FramesEndInDigits | internal/event/event.go:309-323 | a frame ends in a digit, or in one and a bracket, and one that is not V8 holds `@` before any colon and no white space |
| HashedFormats.LengthReads | internal/event/event.go:195-200 | a part's length is written in little-endian groups of seven bits, and only its last byte is below 128 |
| HashedFormats.HashedBytes | internal/event/event.go:185-202 | the version 2 input written out: the version, kind, message, source, line, column and frame, each behind its length |
| HashedFormats.LegacyBytes | internal/event/event.go:208-220 | the version 1 input written out, with the first stack line and NULs between the parts |
| HashedFormats.SpaceExactly | internal/event/event.go:282-284 | the characters trimmed off a line are the UTF-8 forms of the 25 white space characters of Unicode |
| HashedFormats.TrimMeans | internal/event/event.go:282-284 | trimming takes white space off both ends of a line until there is none |
| HashedFormats.FirefoxFrameExactly | internal/event/event.go:315 | a line matches the Firefox pattern exactly when it is a name without colon and `@`, an `@`, something, and a position, without a blank |
| HashedFormats.AnonymousFrame | internal/event/event.go:325-350 | a location in brackets without a name is a V8 frame, and its location is made canonical |
| CursorCodec.RoundTrip | internal/server/issues.go:284-293 | base64url without padding decodes to what was encoded |
| CursorCodec.RoundTripBackExactly | internal/server/issues.go:291-293 | text decodes and encodes to itself exactly when it has no line breaks and no stray low bits |
| CursorCodec.EncodeIssueCursor | internal/server/issues.go:276-289 | the buffer holds the version, the big-endian time and the digest |
| CursorCodec.IssueCursorIsEncoded | internal/server/issues.go:276-283 | a cursor is encoded exactly when its fingerprint is 64 hexadecimal digits |
| CursorCodec.IssueCursorRoundTripExactly | internal/server/issues.go:276-300 | the cursor comes back with its fingerprint in lower case, so the round trip holds exactly for lower-case cursors |
| CursorCodec.AcceptedIssueCursor | internal/server/issues.go:291-300 | every accepted text stands for a cursor that encodes, and is its encoding exactly when it is plain |
| CursorCodec.EncodeEventCursor | internal/server/issues.go:302-311 | the buffer holds the version, the time and the sequence |
| CursorCodec.EventCursorRoundTrip | internal/server/issues.go:302-326 | a cursor with a positive sequence comes back, any other is encoded as no cursor |
| CursorCodec.AcceptedEventCursor | internal/server/issues.go:313-326 | every accepted text stands for a cursor with a positive sequence that encodes, and is its encoding exactly when it is plain |
| CursorFormat.EncodedLetters | internal/server/issues.go:289 | each place of an encoded text holds the letter of the URL-safe alphabet for its six bits, with zero bits and no padding at the end |
| CursorFormat.IssueCursorBytes | internal/server/issues.go:276-289 | an encoded issue cursor is byte 1, eight bytes of the time in two's complement, most significant first, and the 32 bytes of the fingerprint |
| CursorFormat.EventCursorBytes | internal/server/issues.go:302-311 | an encoded event cursor is byte 1, the time and the sequence, eight bytes each |
| Containers.ExpandTabs | scripts/check-doc-links.mjs:726-740 | the loop computes the expansion of tabs to multiples of four columns |
| Containers.StripIndentation | scripts/check-doc-links.mjs:742-757 | the loop computes what is left behind the indentation |
| Containers.ScanPadding | scripts/check-doc-links.mjs:367-391 | the loop finds the end of a marker's padding, and leaves when it is wider than four columns |
| Containers.ExpandingKeepsInk | scripts/check-doc-links.mjs:726-740 | expansion keeps the characters that are not blank, leaves no tab, and keeps the columns |
| Containers.StrippingAdds | scripts/check-doc-links.mjs:742-757 | stripping twice strips the sum, tabs or no tabs |
| Containers.QuoteTakesInk | scripts/check-doc-links.mjs:287-304 | a quote marker takes exactly its own character |
| Containers.ItemTakesInk | scripts/check-doc-links.mjs:342-392 | a list marker takes at least one character that is not blank off the front, and none behind it |
| Containers.ParsingEnds | scripts/check-doc-links.mjs:255-285 | parsing containers ends, with or without a callback for interruptions, at content without a marker or at an item the callback refuses; the content keeps the end of the text, and each container used some of the rest |
| ContainerLaws.TabStops | scripts/check-doc-links.mjs:726-740 | a tab reaches to the next multiple of four columns |
| ContainerLaws.StripExactly | scripts/check-doc-links.mjs:742-757 | a line loses a width of indentation exactly when it starts with so many columns of white space, tabs expanded |
| ContainerLaws.QuoteExactly | scripts/check-doc-links.mjs:287-304 | a quote is up to three spaces and `>`, and leaves the columns behind it without one of white space |
| ContainerLaws.ItemExactly | scripts/check-doc-links.mjs:342-366 | a list item is up to three spaces and `-`, `+`, `*` or one to nine digits with a point or a bracket, at the end or in front of a blank |
| ContainerLaws.ItemMeans | scripts/check-doc-links.mjs:342-392 | its number, indentation, text and content: the columns behind one to four of white space, behind the first blank of more, or nothing |
| ContainerLaws.NumberReads | scripts/check-doc-links.mjs:342-392 | the number of a marker is the one its digits write |
| ContainerLaws.InterruptingExactly | scripts/check-doc-links.mjs:265-272 | an item may be refused inside a paragraph exactly when it is empty, has a number other than one, or has four columns of white space in its content |
| ContainerLaws.MarkerLineBelongs | scripts/check-doc-links.mjs:255-285 | a line belongs, with the parsed content, to the containers its own markers open, and starts a new item of them exactly when one is an item |
| ContainerLaws.WrappedContinues | scripts/check-doc-links.mjs:631-651 | a line written inside containers, by quotes and indentation, continues them all, starts no new item and holds its text |
| ContainerLaws.SiblingStarts | scripts/check-doc-links.mjs:653-686 | behind any containers a line starts a new item of a list exactly with a marker in the list's own place |
| ContainerLaws.ContinuedBelongs | scripts/check-doc-links.mjs:598-629 | a line that starts no new item belongs to containers exactly when it continues them all |
| ContainerLaws.LazyMeans | scripts/check-doc-links.mjs:688-692 | a line continues a paragraph lazily exactly when it leaves a container and its rest goes on with a paragraph |
| Paragraph.AlikeRead | scripts/check-doc-links.mjs:598-686 | containers with equal keys read every line alike |
| Paragraph.AlikeStep | scripts/check-doc-links.mjs:407-499 | the cache key determines what a turn of the scan does, look-ahead included |
| Paragraph.ScanResumes | scripts/check-doc-links.mjs:424-499 | stopping on the way to a line, and overshooting it, changes nothing |
| Paragraph.CachedAnswersAreFresh | scripts/check-doc-links.mjs:407-501 | after any queries in any order, the shared cache answers as a scan from the first line does |
| ParagraphLaws.NewItemStartsAfresh | scripts/check-doc-links.mjs:424-432 | what precedes a new list item at which the scan stops never shows in an answer behind it |
| ParagraphLaws.OutsideCloses | scripts/check-doc-links.mjs:433-444 | a line outside the containers that is not lazy cuts the document behind it |
| ParagraphLaws.LazyKeepsOpen | scripts/check-doc-links.mjs:433-444 | a lazy line keeps an open paragraph open |
| ParagraphLaws.DefinitionCloses | scripts/check-doc-links.mjs:475-494 | a definition where no paragraph goes on cuts the document behind its last line |
| ParagraphLaws.DefinitionReads | scripts/check-doc-links.mjs:475-494 | whether a line is a definition is asked of its content behind its markers and of what the lines behind it hold inside the same containers |
| ParagraphLaws.ContentDecides | scripts/check-doc-links.mjs:467-499 | behind any other line of content the line grammar decides, given whether a paragraph was open and its possible table header |
| ParagraphLaws.RowsOpenNothing | scripts/check-doc-links.mjs:445-465 | inside a table a line that would open a paragraph is a row and opens none |
| ParagraphLaws.TableEnds | scripts/check-doc-links.mjs:445-467 | any other line of content ends the table and is read as if there had been none |
| ParagraphLaws.KeyExactly | scripts/check-doc-links.mjs:407-414 | two stacks of containers share a cache entry exactly when they are equal but for texts, numbers and the indentation of footnotes |
| Paragraph.Scanner.ParagraphOpenBefore | scripts/check-doc-links.mjs:407-501 | the cached loop gives the answer of a fresh scan and keeps the cache right |

## Left out

- HTTP handlers, credentials, media types, JSON, the dashboard, metrics and configuration: plumbing and easy members.
- SQLite itself: transactions, foreign keys and each statement are taken at their stated meaning; opening,
  schema versions, pools, read-only mode and backup are not modelled.
- SqliteMigration.RecordingConserves: like the other lemmas on migration, assumes that no version 1 row is stored
  under a version 2 fingerprint of the batch. `MigrationCollisions.FailureIsACollision` derives a collision of
  SHA-256 from the opposite, and `MigrationLosesNoEventExactly` says what goes wrong then.
- RetryAdvice.RetryAdviceIsExact: exact rational arithmetic; the rounding of the source's floating-point tokens is not modelled.
- RetryAdvice.HeaderIsLeastSufficient: for the same reason without the rounding of `Duration.Seconds`.
- DeliveryTheorems.CapturesAreConserved: serialisation always succeeds, and callbacks do not call back into the
  client; patched JSON, throwing getters, the choice of beacon or fetch, and listeners are not modelled.
- URL scrubbing (`sanitizeURL`, `sanitizeStackURLs` and the client's counterparts): it depends on URL parsers.
- Integers are unbounded: `int64` nanoseconds and sequence numbers do not overflow, except in `CursorCodec`, where the width matters.
- Context cancellation, and deep copies of tags and times: values here are immutable.
- Paragraph.CachedAnswersAreFresh: for a fixed list of lines. In `withoutFencedCode` the list grows between
  queries, and look-ahead past its end is cut off there; that use is not covered.
- The grammar of single lines in the Markdown checker (tables, HTML blocks, reference definitions, titles) is a
  parameter of the scan; what each classifier accepts is not modelled.
- The cache key is a list of parts instead of the text that joins them with slashes; no part contains a slash.
