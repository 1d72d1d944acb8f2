# Verified model of the queue benchmark

The benchmark drives a Postgres job queue through a vendor-neutral harness, records what
happens as a log of events, and reports latencies and counts from that log. This project
models its core in Dafny and proves what the core promises:

- **The store** (`internal/queue/platlib/store.go`, `schema.sql`). Tables are sequences of
  versioned slots under READ COMMITTED with row locks (`Mvcc`, `Tables`). Any number of clients
  interleave one SQL statement at a time (`Sessions`), so every state between the statements of
  `QueuePop` and `QueueDelete` is a state of the model. `Permits`, `Quiet`, `Ordering` and
  `MissedPop` prove what holds in all of them. `Store` is the same store as a mutable object,
  method by method, and `Sequential` shows for pops, deletes and pushes that the two views agree.
  `Notifications` adds queueNotify, commits and the flush loop as steps of their own. `Addresses`
  has the statements on the unique address column and the failure table; `AddressCalls`,
  `FailureRecords` and `Duplicates` are about whole calls of any number of transactions, and
  `Overlaps` about the single statements of completions.
- **The retry protocol** (`adapter.go`). `Retry` puts enqueuers, attempts, re-enqueues, backoff
  timers, the agent's delete and shutdown on top of the statement-level store. `AtomicQueue`
  shows that for this purpose a pop is one atomic removal. `Tokens`, `Conservation` and
  `WorkLeft` prove conservation of jobs, uniqueness of attempts and termination. `Adapter` is
  the harness object; `KindCode` and `Backoff` are its hash and its delay function, in 64-bit
  arithmetic. `Witnesses` holds concrete runs that show why the conditions of these theorems are
  needed.
- **The analyzer** (`internal/analyze/analyze.go`). `AnalyzerSpec` defines each reported
  number over the whole log; `Analyzer` is the one-pass scan, proved equal to it; `AnalyzerMeaning`
  says of each field of a report which lines it is about;
  `AnalyzerFacts`, `TenantExtremes`, `OrderStats`, `Groups` and `GroupOrder` prove properties of
  the numbers.
- **The runner** (`internal/runner/runner.go`). `Runner` interleaves its goroutines' counters and
  records with every adapter move; `Agreement`, `LogLines`, `Drained`, `EndToEnd` and `ErrorClasses` prove
  that the log is true of the accepted jobs, that the report recovers the runner's counters and,
  for a drained run, that the payloads alone determine them, class by class.
- **The workload generator** (`internal/workload/workload.go`). `Workload` says what is drawn
  from an arbitrary deterministic random source, `Generator` is the object with its loops, and
  `WorkloadFacts`, `Replay` and `ReplayExact` prove what its draws satisfy and exactly when a run
  can be replayed.

What the environment decides (a failing statement, a failing commit, a tick, room in the channel,
the result of a worker function, the order of map iteration) is an action of the transition
systems or a parameter of the methods, so each theorem holds for every choice. Where a statement
would wait for another transaction's lock, the model lets it run once the lock is gone.

Several promises hold only under a condition. The condition is part of the theorem, and a lemma
shows what happens without it:

- The error of a pop's own commit is discarded. A pop whose commit fails still hands out its
  work, and the job is then in two places (`LostCommitDuplicates`) and can run the same attempt
  twice (`LostCommitRunsTwice`). A history conserves jobs exactly when this never happens
  (`ConservedIff`).
- When the second statement of an autocommitted `QueueDelete` fails, the permit row stays behind
  although no row carries it any more, until somebody deletes that permit again
  (`LeakReachable`, `LeakCanBeDeleted`). Claimed rows and permits match exactly when no such
  permit is present (`QuietBijection`).
- A row whose claim is rolled back, or that was inserted inside a transaction, can be overtaken
  (`RolledBackClaimOvertaken`, `LateInsertOvertaken`), so id order is guaranteed for runs without
  either.
- The error of the permit delete in a pop that misses is discarded too. In a borrowed transaction
  the permit then stays, unseen by others, until the broken transaction rolls back
  (`MissedPopLeavesNoTrace`).
- Callers of the shared top-level store announce in the order of their changes exactly when their
  calls do not overlap (`OrderIffNoOverlap`, `SharedStoreReorders`).
- Completions of one address keep a single failure row as long as none runs while another open
  transaction has an uncommitted write for the address (`LatestOnRecord`); otherwise two rows can
  be left even by calls that do not overlap (`DisorderlyLeavesTwo`). Statement by statement, at
  most one row is left exactly when of any two calls one has had a DELETE run after its row was
  visible (`AtMostOneIff`). A completion whose INSERT fails after its DELETE loses the failure it
  reports (`LostFailureReadsComplete`).
- A refused duplicate push leaves no trace exactly when it is made outside a transaction. Inside
  one it breaks the transaction (`DuplicateUnobservableIff`, `DuplicateDiscards`).
- The `uint64` to `int64` cast keeps the order of two priorities exactly when both are on the same
  side of 2^63 (`CastKeepsOrder`).
- The backoff is `failed_attempt^4` seconds exactly up to next attempt 310. From 311 to 369 it is
  negative, so those retries are immediate (`ExactUpTo310`, `NegativeFrom311`).
- `GroupRuns` joins library and scenario with `|`. Its groups are the pairs exactly when no two
  runs collide on the joined key (`PureIffNoCollision`, `KeysCanCollide`).
- A tenant without samples reports Min 0 and Max 0. The overall Min is the least tenant Min exactly
  when it is 0 or every reported tenant has samples (`ReportExtremes`, `IdleTenantBreaksMin`).
- `nextRequest` draws a job class twice, once for the kind and once for the payload. The payload
  obeys the bounds of its own request's class, for every random source, exactly when all classes
  that can be drawn have the same bounds (`OwnBoundsIff`).
- A fractional rate multiplier draws a random number before the requests of its tick. Where errors
  are injected at random and some tick has a whole multiplier, runs can be replayed exactly when
  no multiplier has a fraction (`ReplayIff`).
- The address of a new job can only collide with a row left by an earlier process, since the work
  id counter starts again at 1 (`AddressedPush`).
- The comment at `internal/queue/platlib/store.go:359-360` says that an address is complete only when no queue row exists.
  The code answers "complete" with an error when a failure row exists, whether or not there is a
  queue row. The model follows the code.

## Model

| member | source | states |
|---|---|---|
| Permits.StepKeeps | internal/queue/platlib/store.go:202-308 | every statement, failing ones included, keeps the invariant: permits on rows are distinct and nonzero, each has its row in queue_permits or one pending with the claim, and every client in the middle of a call finds the state its next statement relies on |
| Permits.RunKeeps | internal/queue/platlib/store.go:202-308 | the invariant holds in every state of every run |
| Quiet.ClaimsAlwaysBacked | internal/queue/platlib/store.go:248-308 | in every reachable state, also between the two statements of QueueDelete, a committed claim's permit is present in queue_permits and on no other row |
| Quiet.RunExplained | internal/queue/platlib/store.go:248-308 | in every reachable state each permit row is accounted for: a claimed row, a claim in progress, a delete in progress, or a leak |
| Quiet.RunLeaksDead | internal/queue/platlib/store.go:296-308 | a permit leaked by a failed delete is from then on carried by no row, committed or pending, in any state of any run |
| Quiet.QuietBijection | internal/queue/platlib/store.go:296-308 | when nobody is inside a call nothing is pending, claimed rows and permits are matched one to one apart from leaked permits, and exactly matched if and only if no leaked permit is still present |
| Witnesses.LeakReachable | internal/queue/platlib/store.go:299-304 | a run that ends quiet in the state with a present permit that no row carries, because the second statement of a delete failed |
| Witnesses.LeakCanBeDeleted | internal/queue/platlib/store.go:298-308 | from that state a later delete of the same permit removes the leak |
| Quiet.DeleteRemovesExactlyOne | internal/queue/platlib/store.go:298-301 | deleting under a held permit removes that one row and changes no other |
| Ordering.ClaimTakesNext | internal/queue/platlib/store.go:262-273 | the row a claim takes was not claimed before, and every earlier row was that is at least as urgent and open to the same pops |
| Ordering.RunInOrder | internal/queue/platlib/store.go:262-273 | in every run, as long as no claim was rolled back and no insert was transactional, no row is claimed twice, and each is claimed after every earlier row that is at least as urgent and open to the same pops |
| Ordering.NoOvertaking | internal/queue/platlib/store.go:262-273 | when a row has been claimed, every earlier row at least as urgent and open to the same pops has been claimed before it, so equal-priority rows open to every popper are claimed in id order, in every such run |
| Ordering.NeverLessUrgent | internal/queue/platlib/store.go:262-273 | in every run, rollbacks and transactional inserts included, a claim never takes a row while one with a smaller priority number, or the same one and a smaller id, is visible, unclaimed, unlocked and matching |
| Ordering.RollbackReopens | internal/queue/platlib/store.go:237-246 | rolling back a won claim makes its row claimable again |
| Witnesses.RolledBackClaimOvertaken | internal/queue/platlib/store.go:237-273 | a run in which the later of two equal rows is claimed while the earlier is locked, and the earlier claim is then rolled back |
| Witnesses.LateInsertOvertaken | internal/queue/platlib/store.go:262-273 | a run without rollback in which a row inserted inside a transaction is overtaken by an equal later row |
| Tables.FindLeast | internal/queue/platlib/store.go:265-271 | the sub-select returns the least (priority, id) of the visible, unclaimed, unlocked, matching rows, and nothing exactly when there is none |
| Tables.LeastIsMostUrgent | internal/queue/platlib/store.go:265-271 | the sub-select finds a row if and only if it is free (name, priority limit, permit 0, listed type, no foreign lock) and no free row has a smaller priority number, or the same one and a smaller id |
| MissedPop.PopStatementInvisible | internal/queue/platlib/store.go:214-284 | no statement of a pop that finds nothing, a failing permit delete included, changes a row, or what another session sees of the permits |
| MissedPop.MissedPopLeavesNoTrace | internal/queue/platlib/store.go:202-284 | a whole pop that returns no rows, also one whose permit delete fails, interleaved with anything, changed no row and had an instant at which no matching row was free; in every later state its permit is gone, or locked up in its caller's broken transaction where nobody else sees it |
| MissedPop.OnlyRollbackLeft | internal/queue/platlib/store.go:274-281 | in that broken transaction only a rollback is left, and it removes the permit for everybody |
| Sequential.PopAlone | internal/queue/platlib/store.go:202-294 | the statements of an uninterrupted pop, for every combination of failing statements, in its own or a borrowed transaction, do to the tables and the caller's transaction what Store.PgStore.QueuePop promises |
| Sequential.DeleteAlone | internal/queue/platlib/store.go:298-308 | the same for QueueDelete, inside or outside a transaction, also when its second statement fails |
| Sequential.PushAlone | internal/queue/platlib/store.go:154-190 | the same for a push, plain or addressed, successful or failing |
| Store.CastKeepsOrder | internal/queue/platlib/store.go:162 | int64 of two uint64 priorities keeps their order if and only if both are on the same side of 2^63 |
| Store.CastFits | internal/queue/platlib/store.go:162 | the cast gives an int64, and casting back gives the same uint64 |
| Store.PgStore.QueueNotify | internal/queue/platlib/store.go:420-429 | a notification is held in a transaction and sent at once outside one |
| Store.PgStore.BeginTransactionQueue | internal/queue/platlib/store.go:131-144 | a store view on a new transaction with nothing pending, an error inside a transaction or when the database refuses |
| Store.PgStore.CompleteTransaction | internal/queue/platlib/store.go:100-127 | commit makes the transaction's writes the visible ones and sends the held notifications in order; an error, a failed commit or a broken transaction discards both; outside a transaction nothing changes |
| Store.CompleteTwice | internal/queue/platlib/store.go:100-127 | completing a transaction twice, with whatever errors, settles, discards and sends exactly as once |
| Store.PgStore.Flush | internal/queue/platlib/store.go:121-125 | the loop sends every held notification, in order |
| Store.PgStore.QueuePush | internal/queue/platlib/store.go:154-168 | one unclaimed, unaddressed row is added and one notification held or sent, or neither; a transaction is broken exactly by a failure |
| Store.PgStore.QueuePushAddressed | internal/queue/platlib/store.go:173-190 | refused as a duplicate exactly when the session sees a row with that address; a refused push adds no row, notifies nobody and breaks its transaction |
| Store.PushInTransaction | internal/queue/platlib/store.go:100-168 | begin, push and commit without a fault succeed, show the row to every session and send one notification |
| Store.PgStore.ReserveAndClaim | internal/queue/platlib/store.go:248-293 | inside a transaction: hands out the free row with the smallest priority number, and of several the oldest, with claim and permit pending, or leaves all rows as they were with at most one permit slot that nobody outside sees; an error exactly when a statement failed, and then, or when the ignored permit delete fails, the transaction is broken |
| Store.PgStore.CloseOwn | internal/queue/platlib/store.go:237-246 | the deferred closer rolls back unless work was claimed, and ignores a failing commit |
| Store.PgStore.QueuePop | internal/queue/platlib/store.go:202-294 | hands out the free row with the smallest priority number, and of several the oldest, under a new permit and records the claim, pending or committed; without work it leaves the rows as they were and no permit behind, and reports no rows only if none was free; an error only if a statement failed; a failing own commit hands out the work with nothing recorded; a borrowed transaction is broken exactly by a failing statement |
| Store.PgStore.QueueDelete | internal/queue/platlib/store.go:298-308 | afterwards the session sees no row with the permit and no such permit, every other slot is untouched, and one notification went out; a failure in between leaves the permit and notifies nobody; a transaction is broken exactly by a failure |
| Store.PgStore.IsQueueAddressComplete | internal/queue/platlib/store.go:361-383 | complete without error if and only if the session sees neither a queue row nor a failure row; a failure row answers complete with its error |
| Store.PgStore.IsQueueAddressInProgress | internal/queue/platlib/store.go:386-392 | true if and only if the session sees a queue row with the address |
| Store.PgStore.QueueAddressedComplete | internal/queue/platlib/store.go:396-414 | afterwards the session sees at most one failure row for the address, the one just reported, and none after a success or a failed insert; a transaction is broken exactly by a failure |
| Notifications.AnnouncedIff | internal/queue/platlib/store.go:100-144 | in every state of every interleaving of statements, queueNotify calls, commits and flush turns, over all callers: no change is announced twice, and a change has been announced if and only if it was direct or its transaction committed, unless its caller is just about to |
| Notifications.PendingCanGo | internal/queue/platlib/store.go:121-125 | a notification that is due can always go out next |
| Notifications.PublicMeansShown | internal/queue/platlib/store.go:159-166 | the step that makes a change public, a direct statement or a commit, shows it to every session: a pushed row as its writer saw it, a deleted row and permit to nobody |
| Notifications.OpenIsHidden | internal/queue/platlib/store.go:129-144 | before the commit no other session sees a pushed row |
| Notifications.AnnouncedAfterVisible | internal/queue/platlib/store.go:111-125 | every notification goes out after a step at which its change became visible to every session |
| Notifications.AnnouncedInOrder | internal/queue/platlib/store.go:121-125 | the changes of one transaction, and the direct changes of one caller, are announced in the order in which they were made |
| Notifications.OrderIffNoOverlap | internal/queue/platlib/store.go:420-429 | two direct changes on the shared store are announced in order in every continuation if and only if the first was announced before the second was made, so the calls did not overlap |
| Notifications.SharedStoreReorders | internal/queue/platlib/store.go:159-168 | a run in which two overlapping pushes on the shared store are announced in the opposite order |
| Notifications.PushAnnounced | internal/queue/platlib/store.go:154-168 | an uninterrupted push sends or holds its notification as Store.PgStore.QueuePush promises |
| Notifications.EndAnnounced | internal/queue/platlib/store.go:100-127 | an uninterrupted completion sends exactly the held notifications, in order, on a commit and none otherwise, as Store.PgStore.CompleteTransaction promises |
| AddressCalls.OneRowPerAddress | internal/queue/platlib/store.go:173-190 | after any sequence of calls, with any number of transactions open and any statements failing, every session sees at most one queue row per address |
| FailureRecords.LatestOnRecord | internal/queue/platlib/store.go:396-414 | for every session, inside or outside any of the open transactions: exactly the failure row of the latest completion it can see, provided each completion of the address ran while no other open transaction had an uncommitted write for it |
| FailureRecords.DisorderlyLeavesTwo | internal/queue/platlib/store.go:396-414 | without that, two completions that do not overlap and fully succeed leave two failure rows: one in an open transaction, the other in a second transaction or in autocommit |
| Duplicates.DuplicateUnobservableIff | internal/queue/platlib/store.go:178-188 | a push refused as a duplicate cannot be told from no push by any continuation of calls of anybody if and only if it was made outside a transaction |
| Duplicates.DuplicateDiscards | internal/queue/platlib/store.go:178-188 | inside a transaction its commit becomes an error, and the rows the transaction had pushed are never seen by anybody |
| FailureRecords.CompleteMeansNeither | internal/queue/platlib/store.go:361-383 | complete without error holds exactly when the transaction is not broken, the session sees no queue row, and nothing is on record from the latest completion it can see; an error exactly in a broken transaction |
| FailureRecords.LostFailureReadsComplete | internal/queue/platlib/store.go:396-412 | a reported failure whose INSERT fails after the DELETE leaves the address complete without error |
| Overlaps.RowLeftIff | internal/queue/platlib/store.go:396-412 | however the statements of any number of failing completions of one address interleave, in autocommit or in transactions that commit: a call's row is left if and only if no DELETE ran after the row had become visible, at its INSERT in autocommit and at its commit otherwise |
| Overlaps.AtMostOneIff | internal/queue/platlib/store.go:396-412 | at most one failure row is left if and only if of any two calls at least one has had a DELETE run after its row was visible |
| Overlaps.TwoCalls | internal/queue/platlib/store.go:396-412 | for two calls: if and only if one's DELETE follows the INSERT, or in a transaction the commit, of the other |
| AtomicQueue.PushAdds | internal/queue/platlib/store.go:154-168 | seen as a map of waiting work, a push adds its item under a new id |
| AtomicQueue.CommitRemoves | internal/queue/platlib/store.go:242-293 | a pop's commit removes exactly the row whose work it hands out |
| AtomicQueue.OthersStutter | internal/queue/platlib/store.go:202-308 | every other statement leaves the waiting work as it is |
| Tokens.MoveKeeps | internal/queue/platlib/adapter.go:425-510 | every move of enqueuers, poppers, workers, timers, agent and shutdown keeps the agreement between each job's card and the rows, attempts and timers that carry it |
| Tokens.HistoryKeeps | internal/queue/platlib/adapter.go:291-510 | the agreement holds after every history |
| Conservation.OnePlace | internal/queue/platlib/adapter.go:425-510 | in every reachable state an accepted job is in exactly one place: an unclaimed row, an unfinished attempt, a live timer, or a final outcome; no other id is anywhere |
| Conservation.LivePlusFinal | internal/queue/platlib/adapter.go:291-323 | unclaimed rows, unfinished attempts, live timers and finished jobs add up to the accepted jobs |
| Conservation.LostCommitDuplicates | internal/queue/platlib/store.go:237-246 | a pop whose commit fails leaves its job in the queue and in an attempt at once |
| Conservation.ConservedIff | internal/queue/platlib/store.go:237-246 | all states of a history have exactly one place per accepted job if and only if no pop's commit was lost |
| Conservation.AttemptsConsecutive | internal/queue/platlib/adapter.go:471-480 | the j-th execution of a job carries attempt number j, and j is at most MaxAttempts |
| Conservation.AttemptRunsOnce | internal/queue/platlib/adapter.go:471-509 | no (work id, attempt) pair runs twice, even while the predecessor's row is still claimed |
| Retry.AfterWorkerMeans | internal/queue/platlib/adapter.go:451-510 | a job is tried again if and only if it failed, not permanently, and below MaxAttempts; then with the same job and the next attempt number, by a timer if and only if the backoff for that attempt is positive |
| Retry.EnqueueMeans | internal/queue/platlib/adapter.go:291-323 | an accepted enqueue adds one unclaimed row with the next id, the given tenant, kind and payload, and attempt 1 |
| Witnesses.LostCommitRunsTwice | internal/queue/platlib/store.go:237-246 | for every configuration and job a history in which a lost commit makes the same attempt run twice |
| WorkLeft.JobMoveUsesWork | internal/queue/platlib/adapter.go:450-509 | every move of a job strictly decreases the work left |
| WorkLeft.RunsOutOfWork | internal/queue/platlib/adapter.go:471-509 | in every run the moves of jobs number at most 8 times MaxAttempts per accepted job |
| Adapter.Harness.Register | internal/queue/platlib/adapter.go:211-222 | refused after Start and for a registered kind, else exactly that kind is added |
| Adapter.Harness.Start | internal/queue/platlib/adapter.go:225-288 | in whatever order the map is iterated, the runner codes are exactly the codes of the registered kinds, each leading to a registered kind with that code; refused when already started |
| Adapter.Harness.AddressedPush | internal/queue/platlib/adapter.go:312-318 | refused as a duplicate if and only if a row with the job's address is there, which cannot be a row of the same process |
| Adapter.Harness.Enqueue | internal/queue/platlib/adapter.go:291-323 | refused before Start and for unknown kinds, else one unclaimed row in the benchmark queue with the harness's priority, typed by the kind's code, addressed by its id if so configured, holding the given job under a new id on attempt 1, or an error and no row; without rows of an earlier process never refused as a duplicate |
| Adapter.Harness.Run | internal/queue/platlib/adapter.go:425-510 | calls the worker registered for the job's own kind with its id, tenant, kind, payload and attempt; adds a timer if and only if the worker fails, not permanently, below MaxAttempts, with a positive backoff for the next attempt; pushes a row, with the next attempt, if and only if instead that backoff is not positive; an error exactly if the failure is final or the push fails |
| Adapter.Harness.Dispatch | internal/queue/platlib/adapter.go:434-450 | the popped row is the most urgent free one; it is run by the worker registered for its own kind, with its own id, tenant, payload and attempt, even if another kind's code collides with its own and owns the runner; a job of an unregistered kind runs no worker |
| Adapter.EnqueueAndDispatch | internal/queue/platlib/adapter.go:291-450 | round trip: if nothing else is free and nothing fails, the worker registered for the kind gets the job with the id that Enqueue returned, its tenant, kind and payload, on attempt 1 |
| Adapter.Harness.Fire | internal/queue/platlib/adapter.go:487-495 | an expired timer pushes its attempt once and is gone |
| Adapter.Harness.AwaitTimers | internal/queue/platlib/adapter.go:364-366 | after the wait no timer is left, and exactly the expired ones have pushed, in whatever order the goroutines ran |
| Adapter.Harness.Stop | internal/queue/platlib/adapter.go:353-391 | no timer outlives the wait; stopping an unstarted harness changes nothing; it panics exactly when started again after an earlier stop |
| KindCode.KindCode | internal/queue/platlib/adapter.go:540-551 | the loop computes the FNV-1a fold over the kind's bytes |
| KindCode.IsFnv1a | internal/queue/platlib/adapter.go:540-551 | the empty kind has the 64-bit offset basis; one more byte is first xored in, then the state is multiplied by the 64-bit prime modulo 2^64 |
| KindCode.XorBits | internal/queue/platlib/adapter.go:547 | the exclusive or has a one at exactly the bits where its operands differ |
| KindCode.MixInjective | internal/queue/platlib/adapter.go:546-549 | one round is injective in the state and in the byte |
| KindCode.CommonSuffix | internal/queue/platlib/adapter.go:540-551 | kinds with a common suffix collide if and only if they collide without it |
| KindCode.OneByteApart | internal/queue/platlib/adapter.go:540-551 | two kinds that differ in exactly one byte have different codes |
| Jobs.JobNameInjective | internal/queue/platlib/adapter.go:412 | different work ids give different job ids |
| Jobs.JobNameReads | internal/queue/platlib/adapter.go:412 | the id is bench: and the decimal numeral of the work id, without leading zeros, which read back gives the work id |
| Backoff.DelayWrapsOnce | internal/queue/platlib/adapter.go:114-121 | the stepwise int64 products equal one wrap of the exact value |
| Backoff.ExactUpTo310 | internal/queue/platlib/adapter.go:114-121 | the delay is failed_attempt^4 seconds if and only if the next attempt is at most 310 and not the least int32 |
| Backoff.PositiveAndIncreasing | internal/queue/platlib/adapter.go:114-121 | for next attempts 2 to 310 the delay is positive, strictly increasing and fits in int64 |
| Backoff.NegativeFrom311 | internal/queue/platlib/adapter.go:114-121 | for next attempts 311 to 369 the delay is negative |
| Backoff.TotalClosedForm | internal/queue/platlib/adapter.go:475-485 | a job that uses m attempts, m up to 310, waits n(n+1)(2n+1)(3n²+3n-1)/30 seconds in all, with n = m - 1 |
| Analyzer.ReadLines | internal/analyze/analyze.go:120-216 | the one-pass loop: after every line its five maps and accumulators hold what the specification says of the lines so far; it stops at the first line that does not parse |
| Analyzer.PerTenant | internal/analyze/analyze.go:233-236 | the loop over tenants reports each tenant's counts and the statistics of its own samples |
| Analyzer.AnalyzeReader | internal/analyze/analyze.go:97-239 | a report exactly when every line parses and both run events are there, and every field of it is the one that AnalyzerSpec defines; what that says of the lines is in the rows of AnalyzerMeaning |
| AnalyzerMeaning.LastEnqueueMeans | internal/analyze/analyze.go:152-156 | the enqueue line used for a job is a line of that job with no later one before the line at hand, and none is used if and only if there is none |
| AnalyzerMeaning.LastStartMeans | internal/analyze/analyze.go:164-166 | the same for its start line, so a retried job counts from its latest start |
| AnalyzerMeaning.CountedMeans | internal/analyze/analyze.go:127-172 | a line counts if and only if it is not in the two seconds after the latest run_start before it |
| AnalyzerMeaning.PickupsOfReport | internal/analyze/analyze.go:164-179 | count, extremes, nearest-rank percentiles and mean of the report's pickup latency are those of the times from the latest enqueue line to each counted start line of the same job, in whole microseconds; each such pair of lines once |
| AnalyzerMeaning.WorksOfReport | internal/analyze/analyze.go:187-192 | the same for the work durations, from the latest start line to each counted completion line |
| AnalyzerMeaning.E2EsOfReport | internal/analyze/analyze.go:193-195 | the same for the end-to-end latencies, from the latest enqueue line to each counted completion line |
| AnalyzerMeaning.PairsOfLog | internal/analyze/analyze.go:164-195 | every log has complete lists of the pairs these statements are about |
| AnalyzerMeaning.TenantOfReport | internal/analyze/analyze.go:229-236 | a tenant is listed if and only if some enqueue line names it; its counts are the numbers of its enqueue lines and of its completion lines after the first of those; its pickup statistics are those of the pickups whose enqueue line names it |
| AnalyzerMeaning.ErrorsOfReport | internal/analyze/analyze.go:197-202 | each class is counted once per failure line that names it, a line without a class as unclassified |
| AnalyzerMeaning.BoundsOfReport | internal/analyze/analyze.go:127-141 | start and end are the times of the last run_start and the last run_end line |
| AnalyzerMeaning.LabelsOfReport | internal/analyze/analyze.go:131-136 | library and scenario come from the last run_start line that carries them |
| AnalyzerMeaning.TotalsOfReport | internal/analyze/analyze.go:141-150 | completed, enqueued and failed come from the last run_end line that carries them |
| AnalyzerMeaning.MissingFields | internal/analyze/analyze.go:131-150 | a label or total that no such line carries is empty or 0 |
| AnalyzerMeaning.PeaksOfReport | internal/analyze/analyze.go:204-214 | the two peaks are the greatest samples, 0 if none is positive |
| AnalyzerMeaning.ThroughputOfReport | internal/analyze/analyze.go:224-227 | throughput times the duration in seconds is the completed count, and 0 without a positive duration or count |
| AnalyzerFacts.SamplesPartition | internal/analyze/analyze.go:164-179 | the tenants' pickup samples together are exactly the overall samples, as multisets |
| AnalyzerFacts.CountsSum | internal/analyze/analyze.go:229-236 | tenant sample counts sum to the total |
| TenantExtremes.ReportExtremes | internal/analyze/analyze.go:229-236 | in the report of a run with a nondecreasing clock and samples, the overall Min is the least tenant Min if and only if it is 0 or every reported tenant has samples; the overall Max is always the greatest tenant Max |
| TenantExtremes.IdleTenantBreaksMin | internal/analyze/analyze.go:229-236 | a log whose every report gives an idle tenant a Min of 0 below the overall Min |
| AnalyzerFacts.SamplesNonNegative | internal/analyze/analyze.go:164-195 | with a nondecreasing clock every latency sample is nonnegative |
| AnalyzerFacts.EndToEndAddsUp | internal/analyze/analyze.go:164-195 | for a completion line, the last start line of its job before it, and before that the last enqueue line: if the first two are past the warmup, the samples are those times in whole microseconds, and end-to-end exceeds pickup plus work by exactly 0 or 1 microsecond |
| AnalyzerFacts.EnqueuedTotal | internal/analyze/analyze.go:152-162 | per-tenant enqueues sum to the enqueue lines |
| AnalyzerFacts.CompletedTotal | internal/analyze/analyze.go:181-186 | per-tenant completions sum to the completion lines less those with no earlier enqueue line of their tenant |
| AnalyzerFacts.FailedTotal | internal/analyze/analyze.go:197-202 | the error breakdown sums to the failure lines |
| AnalyzerFacts.LinesMean | internal/analyze/analyze.go:152-202 | the three line counts used in these sums are numbers of lines of the log |
| AnalyzerFacts.OrphansMean | internal/analyze/analyze.go:181-186 | a completion line is missing from the per-tenant sum if and only if no earlier enqueue line names its tenant |
| OrderStats.SortSorts | internal/analyze/analyze.go:275-277 | sorting is ascending and a permutation |
| OrderStats.PercentileIsNearestRank | internal/analyze/analyze.go:278-290 | the result is a sample; at least ceil(p·n) samples are at most it and at least n - ceil(p·n) + 1 are at least it |
| OrderStats.Pick | internal/analyze/analyze.go:278-290 | the index computation with its clamps gives the nearest rank |
| OrderStats.Summarize | internal/analyze/analyze.go:271-304 | count, least and greatest sample; P50, P95 and P99 are samples with at least 50, 95 and 99 percent of the samples at or below them and less than that strictly below; Mean times count is the sum; zeros for no samples |
| OrderStats.CountsMean | internal/analyze/analyze.go:278-290 | the counts in these statements are numbers of positions |
| OrderStats.StatsOrdered | internal/analyze/analyze.go:271-304 | Min <= P50 <= P95 <= P99 <= Max, and Min and Max are samples that bound all samples |
| OrderStats.MeanBetween | internal/analyze/analyze.go:291-303 | Min <= Mean <= Max |
| OrderStats.StatsIgnoreOrder | internal/analyze/analyze.go:271-304 | permuting the samples changes no statistic |
| OrderStats.DominationSorts | internal/analyze/analyze.go:415-422 | a list pointwise below another is below it at every order statistic after sorting |
| OrderStats.MedianMonotone | internal/analyze/analyze.go:415-422 | so medians keep the order of pointwise dominated lists |
| OrderStats.MedianVersusP50 | internal/analyze/analyze.go:415-422 | medianF equals P50 for odd n and the next order statistic for even n |
| OrderStats.MedianIsMiddle | internal/analyze/analyze.go:415-422 | medianF is a sample with more than n/2 samples at or below it and at least n - n/2 at or above it, in integer division, and 0 for none |
| Groups.MinF | internal/analyze/analyze.go:424-435 | the least element, 0 for none |
| Groups.MaxF | internal/analyze/analyze.go:437-448 | the greatest element, 0 for none |
| Groups.PopulateGroupStats | internal/analyze/analyze.go:376-413 | medians, spreads and totals of a group are those of its runs |
| Groups.SingleRun | internal/analyze/analyze.go:376-413 | of a single run every median and spread is that run's own field, the RSS in MiB, and every total its own count |
| Groups.ReportsAreGraded | internal/analyze/analyze.go:271-304 | every analyzed run has ordered pickup percentiles, also without samples |
| Groups.MedianPercentilesOrdered | internal/analyze/analyze.go:376-413 | MedPickupP50 <= MedPickupP95 <= MedPickupP99 for every group, although each may come from a different run |
| Groups.SpreadsEncloseMedians | internal/analyze/analyze.go:376-413 | Min <= Med <= Max for throughput and pickup P95 |
| Groups.FillBuckets | internal/analyze/analyze.go:352-361 | each bucket holds exactly the runs with its key, in their order, and is labelled by its first run |
| GroupOrder.GroupRuns | internal/analyze/analyze.go:351-374 | the buckets with their statistics, each once, in the order and with the contents stated in the next rows |
| GroupOrder.ReportOrder | internal/analyze/analyze.go:367-372 | of two entries the earlier has the scenario that comes first, or the same scenario and the library that comes first |
| GroupOrder.LessTextMeans | internal/analyze/analyze.go:367-372 | a text comes before another if and only if they agree up to some position at which it ends or has the smaller character |
| GroupOrder.EntryContents | internal/analyze/analyze.go:353-366 | an entry has exactly the runs whose joined key is that of its label, as often as given, is labelled by its first run, and has the statistics of its runs |
| GroupOrder.RunListed | internal/analyze/analyze.go:353-366 | every run is in some entry |
| GroupOrder.GroupingDeterministic | internal/analyze/analyze.go:362-373 | the list returned does not depend on the order in which the map is visited |
| Groups.PureIffNoCollision | internal/analyze/analyze.go:351-374 | every group has one library and one scenario if and only if no two runs collide on the joined key |
| Groups.SeparatorFreeKeys | internal/analyze/analyze.go:354-356 | library names without the separator never collide |
| Groups.KeysCanCollide | internal/analyze/analyze.go:354-356 | two different pairs with one key |
| Groups.TotalsConserved | internal/analyze/analyze.go:351-413 | group totals sum to the totals over all runs |
| Agreement.BenchmarkBooks | internal/runner/runner.go:78-198 | in every reachable state each counter equals its log lines plus the records still to come; the log is in clock order between one run_start and at most one run_end |
| Agreement.AnalyzerAgrees | internal/runner/runner.go:176-236 | for a run that ended with all records written the report has the runner's counters; tenants' enqueues sum to enqueued, errors to failed plus refused enqueues, tenants' completions to completed less exactly those with no earlier enqueue line of their tenant |
| Agreement.RunLatenciesNonNegative | internal/metrics/recorder.go:73-82 | every latency sample of every run is nonnegative |
| LogLines.LinesTrue | internal/runner/runner.go:78-198 | in every state of every run without a lost commit, every enqueue, start and completion line names a job that was accepted, with its own tenant |
| Drained.RunsAsExpected | internal/queue/harness.go:71-95 | in every state of an undisturbed run each job is where its payload allows, and the counters are the judgements made so far |
| Drained.DrainedCounts | internal/runner/runner.go:87-117 | a drained undisturbed run has one completion per accepted job whose payload asks for no failure and, as failures, one per job that asks for a permanent one plus MaxAttempts per job that asks for any other, with or without backoff |
| EndToEnd.PayloadsDetermineReport | internal/analyze/analyze.go:97-239 | so the report of such a run follows from the payloads and the refused enqueues alone |
| ErrorClasses.ClassAgrees | internal/runner/runner.go:87-117 | in every state of an undisturbed run and for every injected class, the failure lines of the class plus those still to come are the failures so far of the jobs that ask for it |
| ErrorClasses.BreakdownByClass | internal/analyze/analyze.go:197-202 | the report on such a run, drained, lists a retryable class MaxAttempts times and the permanent one once for each accepted job whose payload asks for it |
| Generator.Generator.DrawTenant | internal/workload/workload.go:206-223 | draws the tenant the specification names, always inside the pool, and none exactly for an empty pool |
| Generator.Generator.DrawKind | internal/workload/workload.go:226-242 | the accumulating loop draws the first class whose cumulative weight exceeds the scaled draw |
| Generator.Generator.FillBytes | internal/workload/workload.go:259-265 | as many bytes as asked, drawn in order |
| Generator.Generator.InjectError | internal/workload/workload.go:273-282 | the first error class, in the fixed order, whose own draw is below its probability; classes without probability draw nothing |
| Generator.Generator.DrawPayload | internal/workload/workload.go:246-284 | the payload obeys the bounds of its class and fails only with an error class of positive probability; what it draws, and in which order, is fixed by the state |
| Generator.Generator.NextRequest | internal/workload/workload.go:197-203 | the tenant of the pool at the drawn position, the kind of the class drawn first, and a payload within the bounds of some class of the mix; the nil tenant for an empty pool |
| Generator.Generator.SendAll | internal/workload/workload.go:176-191 | the inner loop sends, drops or is cancelled request by request as the channel allows |
| Generator.Generator.DrawCount | internal/workload/workload.go:167-175 | the multiplier rounded down or, only if it has a fraction, up; less than 1 away from it; without a fraction nothing is drawn |
| WorkloadFacts.RoundingExact | internal/workload/workload.go:167-175 | a negative multiplier asks for nothing and a whole one for that many; a fraction is rounded up if and only if the draw is below it |
| WorkloadFacts.LiveMeans | internal/workload/workload.go:157-164 | the ticks that generate are those up to the first at or past the duration |
| Generator.Generator.Run | internal/workload/workload.go:141-194 | for every script of ticks, blocking and cancellation, what reaches the channel is the generated stream offered to it in order; nothing for a rate of 0 or less |
| Channel.LosslessIsPrefix | internal/workload/workload.go:184-190 | without a dropped callback the requests sent are the generated ones up to the first that never found room |
| Channel.LossyKeeps | internal/workload/workload.go:178-183 | with one, every request is either sent, in order, or counted as dropped |
| WorkloadFacts.SliceExact | internal/workload/workload.go:230-242 | with nonnegative weights and a positive total, class i is drawn exactly on its slice of the cumulative weight, and the fallback is never reached |
| WorkloadFacts.DrawnHasWeight | internal/workload/workload.go:230-242 | only classes of positive weight are drawn |
| WorkloadFacts.SkewExact | internal/workload/workload.go:206-223 | the noisy tenant gets exactly the draws below the skew |
| WorkloadFacts.TenantReachable | internal/workload/workload.go:206-223 | some random source draws a given tenant if and only if it is in the pool and is the noisy one or the skew is below 1 |
| WorkloadFacts.PayloadInBounds | internal/workload/workload.go:246-265 | a payload obeys the bounds of the class it was built for |
| WorkloadFacts.PayloadDrawn | internal/workload/workload.go:246-284 | work time, size, bytes and failure are drawn in this order, each from the state the one before left, and a range without width draws nothing |
| WorkloadFacts.ByteAt | internal/workload/workload.go:259-265 | byte k of a payload is the k-th draw below 256 |
| WorkloadFacts.InjectedHasProbability | internal/workload/workload.go:270-282 | only classes with positive probability are injected |
| WorkloadFacts.FirstHitInjected | internal/workload/workload.go:273-282 | of the classes in their order the first with a probability above its own draw is injected and ends the draws, and none if there is none |
| WorkloadFacts.OwnBoundsIff | internal/workload/workload.go:197-203 | payloads obey the bounds of their request's own class, for every random source, if and only if all classes of positive weight have the same bounds |
| Replay.WholeStream | internal/workload/workload.go:165-177 | with whole multipliers a run generates the first so many requests of the seed's sequence |
| Replay.SentIsDetermined | internal/workload/workload.go:141-203 | then the k-th request sent is the k-th of the seed's sequence, whatever the ticks and the blocking, up to the names of the tenants |
| Replay.AllScheduledSent | internal/workload/workload.go:157-194 | everything scheduled before the duration is sent if and only if the channel takes each of it |
| Replay.BurstIsWhole | internal/workload/workload.go:84-92 | a burst with a whole multiplier has whole multipliers at every time |
| Replay.BurstScheduled | internal/workload/workload.go:84-92 | under a whole burst the requests asked for are the multiplier times the ticks inside the window plus the ticks outside it |
| Replay.FractionShiftsTheDraws | internal/workload/workload.go:171-175 | with a fractional multiplier the same seed can send different requests when a tick moves |
| ReplayExact.ReplayIff | internal/workload/workload.go:141-203 | for every spec that injects errors at random and has a tick with a whole positive multiplier: runs agree for every random source, timing and blocking if and only if no multiplier from the start to the duration has a fraction |

## Left out

- SQL text, pgx, connection pools and JSON: statements are atomic functions on tables, and encoding a work item and decoding it again is taken to give it back.
- Waiting for locks: a statement that would wait runs when the lock is gone, on what is then visible; Postgres's own re-check of a row that changed in the meantime is taken as given.
- The platform-lib agent, DatabaseQueue, broadcaster and concurrency enforcer, and River: their code is not part of this repository. The agent's delete after the runner returns is an environment step, and a push by the adapter is one autocommitted insert.
- The UNIQUE address constraint is enforced in Store and not in the interleaved system Sessions, which therefore has more behaviours than the database; it is in AddressCalls, whose calls run one at a time, in any order of any number of transactions. Sequential relates only pops, deletes and pushes.
- QueuePermitDelete, QueuePermits, QueuePeek, NotifyExtend, EnqueueMany and Stats: two of them return constants, the others add nothing to the protocol; QueuePermitDelete removes a permit from under its claim, so no run here calls it.
- Exhaustion of the 64-bit id sequences and of workIDCounter; overflow of durations near the int64 limit; ranges of a job class wider than int64.
- Retries registered after Stop's wait has returned: nothing waits for them.
- internal/runner/runner.go is modelled as interleaved steps on values, not as an object: its goroutines have no common sequence of updates. Its registration loop and shutdown order are not modelled; records that fail to be written are excluded by the assumption that all records are written.
- pickExtremes' choice among tied tenants: it depends on map iteration.
- Rounding of floating point: milliseconds, weights and multipliers are exact.
- The scanner's line limit, event kinds and fields the summary does not use, Markdown output, the CLI, scenario constants, scripts and resource sampling.
- Uniformity and other statistical claims, and real-time latency: the code alone does not decide them.
- Jobs whose stored tenant id or JSON does not parse are modelled in Adapter.Harness.Run and not in Retry, where every row was pushed by the adapter itself.
