# Protocol proofs for Polygon Replica

This project models, in Dafny, stateful protocols and naming kernels of Polygon Replica and
proves what they guarantee over every input, every run and every interleaving.

| area | source | files |
|---|---|---|
| SQLite connection pool, exclusive writer, drain and reopen | `app/db.py` | `Sqlite`, `PoolModel`, `PoolInvariant`, `PoolSteps`, `PoolTheorems`, `PoolLeases`, `Database`, `WriterOperations` |
| Export single-flight | `app/impl/workspace/context_job.py` | `ExportModel`, `ExportTheorems`, `ExportRuns`, `ExportOutcomes`, `ExportWorkers`, `ExportRuntime` |
| Verification start, exit paths | `app/impl/workspace/context_job.py` | `VerificationStart` |
| One-time password envelopes | `app/impl/auth/password_envelope.py` | `EnvelopePrune`, `EnvelopeStore`, `Windows` |
| Login failure limiter | `app/impl/auth/shared.py` | `LoginLimiter`, `Windows` |
| Flash messages and the flash cookie | `app/impl/auth/shared.py` | `FlashQueue`, `FlashOnePass`, `Text` |
| Streaming admission release | `app/impl/judgehost/api.py` | `FileDownload` |
| Contest import naming | `app/impl/root/contest_import.py` | `Numerals`, `FreshNames`, `Slugs`, `SlugOnePass`, `ImportNames`, `ProblemSlugs` |
| Scalar printer and column keys | `app/impl/agent/api.py` | `AgentText` |

Concurrent protocols are step machines. A `State`, an `Action` datatype with one constructor for
each section the code executes without releasing a lock, `Enabled` and `Apply`, and runs as
sequences of actions. An inductive invariant is kept by every action, and the theorems speak of
`After(INITIAL, run)` for every run. Beside the database, export and envelope machines stands a class
with the fields of the program's own object; each of its methods performs one section on those fields
and is proved equal to one action, so the theorems apply to it. `dafny verify dfyconfig.toml` verifies
the whole.

## What the code does not keep

- `write_transaction`: a failing body leaves nothing behind exactly when it did not itself commit
  a pending write (`Writer.WriteTransaction`, `TransactionIsAtomic`, `CommittingBodyEscapes`).
- `write_schema_reset_transaction`: its documentation says that failures roll back. A failure of
  the last `PRAGMA foreign_keys=ON` (line 1207) comes after the commit, and the call then raises
  with everything published that a return would have published (`Writer.WriteSchemaReset`).
- `export_workers` can keep a finished future forever (`FinishedFutureCanStay`): exactly when the
  starter adds it after the runner's cleanup, or after the runner looked for it in vain, and before
  the queue marks it done, and no failed start takes it out later (`FutureStaysIff`).
- A starter that joined a shared export finds no job row when the owner's row creation failed
  (`JoinerCanFindNoRow`; `JoinersSeeTerminalJobs` says that it finds one otherwise).
- The login bound of 2 * MAX_FAILURES - 1 failures per window holds exactly when the block time is
  at least the window time (`BoundHoldsIffBlockCoversWindow`). The configuration bounds the two
  settings separately, so a shorter block can be configured.
- A file response can end before the admission is given back, if its close finds the generator still
  executing on a pool thread and that generator has claimed the release but not yet left
  (`RacedResponseEndsEarly`). In every run without such a close the admission has been given back
  once (`ReleasedExactlyOnce`).
- `_normalize_flash_message` is not idempotent at any limit above one (`NotIdempotent`). It is on a
  message exactly when truncation does not cut right after white space and leave a text that wants a
  period (`OnceIsEnoughIff`).
- `_next_available_problem_slug` ends for every owner the user-name rule admits, unless the taken names
  number some 45 digits (`UserSearchEnds`). The function itself accepts longer owners, and for owners
  of 61 or 62 characters, which that rule refuses, it can search forever (`LongOwnerNeverEnds`):
  candidates longer than the segment limit are looked up by their cut form. `SearchEndsIff` says
  exactly when it ends.

## Model

| member | source | states |
|---|---|---|
| `Sqlite.OpenTransactionCollects` | app/db.py:1178-1182 | inside a transaction, statements that do not end it publish nothing, collect exactly the writes issued in order, and cannot change foreign-key enforcement |
| `Sqlite.BodyShowsIff` | app/db.py:1178-1182 | for arbitrary statements: the committed data only grows, and grows exactly when some commit follows a write with no rollback in between |
| `PoolSteps.ReturnLeaseCore` | app/db.py:1069-1076 | the return of a lease keeps the pool current, bounded, at rest, and empty while closed |
| `PoolSteps.StepKeepsInv` | app/db.py:1044-1147 | each of the 24 atomic sections keeps the whole invariant: one place per connection, current pool, lease generations, lock and writer thread, clean cached writer, thread nesting |
| `PoolSteps.InitialInv` | app/db.py:1044-1147 | a new database satisfies the invariant |
| `PoolSteps.RunKeepsInv` | app/db.py:1044-1147 | so does every state of every interleaving |
| `PoolSteps.StepMovesOwnCall` | app/db.py:1044-1147 | a section changes the progress of its own, innermost call and of no other |
| `PoolSteps.LeaseIsSole` | app/db.py:1052-1078 | a leased connection is not idle, not the writer, and held by no other call |
| `PoolTheorems.EveryConnectionIsInOnePlace` | app/db.py:1052-1138 | conservation: in every reachable state each connection ever opened is in exactly one idle slot, one call's hands, the writer slot or closed; nothing is leased or pooled twice; the pool holds at most 16 |
| `PoolTheorems.DrainedConnectionsAreNeverHandedOut` | app/db.py:1044-1078 | after any drain, in any continuation, no later lease, idle slot or writer body uses a connection that existed at the drain, also when a reader was between its lock release and its connect |
| `PoolTheorems.DrainClosesWhatItTook` | app/db.py:1129-1138 | however the closing loop interleaves with other threads, by its end every connection idle or cached at the drain is closed |
| `PoolTheorems.ReusableConnectionsAreCurrent` | app/db.py:1120-1147 | every idle connection, and the cached writer outside a drain, was opened under the current generation |
| `PoolTheorems.ClosedMeansDrained` | app/db.py:1127-1147 | closed with a free write lock: empty pool, no writer, every outstanding lease of an older generation |
| `PoolTheorems.ClosedRefusesWork` | app/db.py:1048-1050 | a closed database stays closed until a reopen: no call begun after the close ever holds a lease, and nobody gets inside the writer |
| `PoolTheorems.ShutdownLeaksNothing` | app/db.py:1120-1138 | once all calls of a closed database have ended, every connection ever opened has been closed |
| `PoolTheorems.WriterTestIsExact` | app/db.py:1080-1092 | at most one call is inside the writer, and the unlocked test of the writer thread is true exactly for its thread |
| `PoolTheorems.NestedEntryIsRejected` | app/db.py:1082-1084 | writers, drains and reopens are refused to the thread inside and to no other |
| `PoolTheorems.NoSelfDeadlock` | app/db.py:1082-1085 | no thread waits for the write lock while it holds it |
| `PoolTheorems.BodiesStartClean` | app/db.py:1010-1014 | every read or write body starts with foreign keys on and no transaction, whatever earlier bodies executed on the connection; readers start query-only |
| `PoolTheorems.StepOnWriter` | app/db.py:1102-1118 | no section of another call touches the writer's connection or the committed data while a writer body is open |
| `PoolTheorems.WriterRunsAlone` | app/db.py:1102-1118 | in any interleaving a writer body has the effect of its own statements alone |
| `PoolTheorems.TransactionIsAtomic` | app/db.py:1172-1182 | in any interleaving a transaction publishes its writes when it commits; a body that fails publishes nothing exactly when it committed no pending write itself |
| `PoolTheorems.ExitPublishesNothing` | app/db.py:1109-1118 | leaving the writer publishes nothing; a return leaves the cached connection without a transaction, a failure retires and closes it |
| `PoolLeases.RaisedLeaseIsClosed` | app/db.py:1056-1078 | when the body or the preparation of a lease raised, its connection is idle in no later state and closed once the call is over |
| `PoolLeases.ReturnedLeaseIsPooledIff` | app/db.py:1061-1078 | at its return a connection becomes the last of the pool exactly when the body returned, the generation is unchanged and fewer than 16 are idle; otherwise the pool stays and the connection is closed next |
| `PoolLeases.LastReturnedIsLeasedFirst` | app/db.py:1051-1055 | a lease takes the connection returned last and opens none while the pool is not empty |
| `Database.DB.constructor` | app/db.py:1044-1147 | a new object is the initial state of the machine |
| `Database.DB.BeginLease` | app/db.py:1048-1052 | refused exactly when closed; takes the last idle connection, which is current, without a transaction and in no other hands, and connects only when none is idle |
| `Database.DB.Connect` | app/db.py:1053-1055 | opening outside the locks, with the generation read earlier; the new connection is current and in no other hands |
| `Database.DB.PrepareLease` | app/db.py:1056-1060 | a body starts query-only, with foreign keys on and no transaction; a failed preparation makes the lease unusable for the pool |
| `Database.DB.FinishRead` | app/db.py:1060-1062 | a body that returns makes its connection reusable, one that raises does not; nothing is pooled yet |
| `Database.DB.Settle` | app/db.py:1063-1068 | rollback at return publishes nothing and leaves no transaction; its failure closes the connection at once |
| `Database.DB.ReturnLease` | app/db.py:1069-1078 | pooled exactly when the body returned, the generation is unchanged and there is room, and then last in the pool; otherwise the connection is to be closed |
| `Database.DB.CloseLease` | app/db.py:1077-1078 | what is not pooled is closed, and was not idle |
| `Database.DB.BeginWrite` | app/db.py:1082-1084 | the nesting test rejects exactly a thread that is inside |
| `Database.DB.EnterWrite` | app/db.py:1085-1088 | entry under the lock, refused when closed; nobody else is then inside |
| `Database.DB.OpenWriter` | app/db.py:1102-1108 | the cached writer, opened when missing, has no transaction; none is cached when opening failed |
| `Database.DB.PrepareWriter` | app/db.py:1109-1118 | a writer body starts with foreign keys on and no transaction; a failure retires and closes the connection |
| `Database.DB.FinishWrite` | app/db.py:1109-1118 | publishes nothing; a return leaves no transaction, a failure retires and closes the connection |
| `Database.DB.LeaveWrite` | app/db.py:1091-1092 | nobody is inside any more, before the lock is released |
| `Database.DB.ReleaseWrite` | app/db.py:1085-1092 | the lock is free and nobody is inside |
| `Database.DB.BeginClose` | app/db.py:1127-1128 | a drain is refused exactly to a thread inside the writer |
| `Database.DB.HoldClose` | app/db.py:1129 | the drain holds the write lock with nobody inside |
| `Database.DB.Drain` | app/db.py:1129-1133 | flag, generation and pool change in one locked section; every outstanding lease is then of an older generation |
| `Database.DB.DetachWriter` | app/db.py:1134-1136 | no writer is cached, and the one that was is among the connections to close |
| `Database.DB.CloseNext` | app/db.py:1137-1138 | one drained connection, which is not idle, is closed |
| `Database.DB.CloseDrained` | app/db.py:1137-1138 | the closing loop closes exactly the drained connections and changes nothing else |
| `Database.DB.ReleaseClose` | app/db.py:1129-1138 | the lock is free; a closed database has an empty pool and no writer |
| `Database.DB.BeginReopen` | app/db.py:1143-1144 | a reopen is refused exactly to a thread inside the writer |
| `Database.DB.Reopen` | app/db.py:1140-1147 | connections are admitted again, under the unchanged generation and with nothing left from before a close |
| `WriterOperations.TransactionBody` | app/db.py:1178-1182 | what a transaction body holds back and what its commit publishes |
| `WriterOperations.BodyOutcome` | app/db.py:1178-1182 | the same for bodies that may end their own transaction |
| `WriterOperations.Writer.Acquire` | app/db.py:1102-1111 | a lease starts with foreign keys on and no transaction, on the cached connection if there is one, also after a schema reset left them off; or it fails without a cached connection |
| `WriterOperations.Writer.Release` | app/db.py:1109-1118 | the end of a lease |
| `WriterOperations.Writer.WriteTransaction` | app/db.py:1172-1182 | published exactly when the call returns; which faults make it fail; when a failure leaves something behind |
| `WriterOperations.Writer.WriteSchemaReset` | app/db.py:1184-1208 | foreign keys off when the transaction opens and on again after a return; for every body, what each failure leaves behind: before the commit nothing exactly when the body committed no pending write itself, at the last pragma nothing exactly when body and commit publish nothing |
| `WriterOperations.Writer.Execute` | app/db.py:1210-1216 | any one statement; its write is published exactly when the call returns |
| `WriterOperations.CommittingBodyEscapes` | app/db.py:1172-1182 | what a body commits on its own survives the failure of the call |
| `ExportTheorems.StepKeepsInv` | app/impl/workspace/context_job.py:326-400 | each step of each starter and runner keeps the invariant over unboundedly many keys, jobs and tasks |
| `ExportTheorems.RunKeepsInv` | app/impl/workspace/context_job.py:326-556 | so does every interleaving |
| `ExportTheorems.SingleFlight` | app/impl/workspace/context_job.py:352-360 | of one key at most one completion is installed and unfinished, and it is the one in the map |
| `ExportTheorems.NoEviction` | app/impl/workspace/context_job.py:342-360 | no step removes or replaces an unfinished entry; a finished one is removed only by its own task or replaced by a new installer |
| `ExportTheorems.QuietKeyHasNoEntry` | app/impl/workspace/context_job.py:391-399 | a key without a starter or runner in progress has no entry |
| `ExportTheorems.JoinersSeeTerminalJobs` | app/impl/workspace/context_job.py:482-541 | when a joined completion is finished, its job is terminal if its row was created, and with unreused job ids there is a row exactly then |
| `ExportTheorems.FinishedJobsStaySettled` | app/impl/workspace/context_job.py:261-301 | no step changes the row of a finished job |
| `ExportTheorems.QuietMeansClean` | app/impl/workspace/context_job.py:342-399 | with nothing in progress the map is empty and every created job is finished and terminal |
| `ExportOutcomes.RowSaysWhatWasReported` | app/impl/workspace/context_job.py:261-301 | in every interleaving a job's row is the status its own starter and runner reported last: succeeded exactly when the runner's mark was ok, failed exactly when it was not or the start failed |
| `ExportOutcomes.MarkedOutcomeStays` | app/impl/workspace/context_job.py:293-301 | after a runner's mark every later state shows that outcome |
| `ExportOutcomes.FailedStartStaysFailed` | app/impl/workspace/context_job.py:385-390 | a start that fails after creating its row leaves the job failed for good |
| `ExportOutcomes.JoinersSeeOutcome` | app/impl/workspace/context_job.py:508-511 | once a joined completion is finished its job reads succeeded if the shared runner reported success and failed if not |
| `ExportRuns.JoinerCanFindNoRow` | app/impl/workspace/context_job.py:508-548 | a run, for every key and two job ids, in which a joiner's completion is finished and its job has no row |
| `ExportWorkers.FutureStaysIff` | app/impl/workspace/context_job.py:343-395 | after a task's end its future is still tracked exactly when some action of the run added it after the runner's cleanup or vain look, before it was done, and no later failed start took it out |
| `ExportRuns.FinishedFutureCanStay` | app/impl/workspace/context_job.py:343-384 | a run, for every key and job, in which that happens |
| `ExportRuntime.Tracking.Admit` | app/impl/workspace/context_job.py:352-360 | under the lock: join the live entry unchanged, or install this completion |
| `ExportRuntime.Tracking.Track` | app/impl/workspace/context_job.py:381-384 | add the worker unless it is done |
| `ExportRuntime.Tracking.CleanFailed` | app/impl/workspace/context_job.py:392-398 | after a failed start the map does not hold this completion, and other entries are untouched |
| `ExportRuntime.Tracking.RunnerFinish` | app/impl/workspace/context_job.py:342-344 | a completion is finished only after its job is terminal |
| `ExportRuntime.Tracking.RunnerClean` | app/impl/workspace/context_job.py:345-350 | after a runner the map does not hold its completion, and other entries are untouched |
| `VerificationStart.Tracking.Start` | app/impl/workspace/context_job.py:124-226 | every exit: a held key changes nothing; not admitted leaves no trace; admitted without an accepted worker leaves the verification failed, the key released and at most the rejected worker untracked; accepted keeps the key while the worker lives |
| `Windows.SpacingBoundsCount` | app/impl/auth/password_envelope.py:138-147 | events whose m-th successors are a window apart number at most m in any narrower interval |
| `LoginLimiter.Limiter.Check` | app/impl/auth/shared.py:587-603 | admitted exactly when no block lasts; afterwards no expired slot of the key is left, and other keys are untouched |
| `LoginLimiter.Limiter.Fail` | app/impl/auth/shared.py:606-629 | the count goes on inside the window and restarts outside it; reaching the limit blocks and resets it; other keys are untouched |
| `LoginLimiter.Limiter.Success` | app/impl/auth/shared.py:632-634 | the slot is forgotten, others stay |
| `LoginLimiter.StepKeepsInv` | app/impl/auth/shared.py:587-634 | one attempt on any key keeps the spacing invariant of a key's admitted failures |
| `LoginLimiter.FailuresPerWindow` | app/impl/auth/shared.py:587-634 | in every timed run with block time at least the window, any half-open window holds at most 2 * MAX_FAILURES - 1 admitted failures of a key, and the stored count stays below MAX_FAILURES |
| `LoginLimiter.ShortBlockBreaksBound` | app/impl/auth/shared.py:621-628 | for every shorter block time a run with twice MAX_FAILURES failures in one window |
| `LoginLimiter.BoundHoldsIffBlockCoversWindow` | app/impl/auth/shared.py:587-634 | the bound holds of all runs exactly when the block time is at least the window time |
| `LoginLimiter.BoundIsTight` | app/impl/auth/shared.py:587-634 | with equal times a run attains the bound |
| `EnvelopePrune.SortedPermutes` | app/impl/auth/password_envelope.py:134 | sorting loses and invents nothing |
| `EnvelopePrune.SortedIsSorted` | app/impl/auth/password_envelope.py:134 | earliest expiry first |
| `EnvelopePrune.SortIsStable` | app/impl/auth/password_envelope.py:134 | entries of equal expiry keep their insertion order |
| `EnvelopePrune.PruneIs` | app/impl/auth/password_envelope.py:123-136 | at most 128 entries remain, all unexpired and old; nothing is evicted while there is room; the evicted expire no later than the survivors |
| `EnvelopePrune.NewEntrySurvivesIff` | app/impl/auth/password_envelope.py:200-203 | exactly when an inserted entry survives the prune that follows |
| `EnvelopeStore.StepIs` | app/impl/auth/password_envelope.py:200-255 | every locked section keeps the bound and distinct ids, gains at most the inserted envelope, and an accepted consumption removes its id |
| `EnvelopeStore.InsertIs` | app/impl/auth/password_envelope.py:200-203 | after an insertion only the new envelope and old ones unexpired at both prunes are stored |
| `EnvelopeStore.RejectedConsumeKeepsEntry` | app/impl/auth/password_envelope.py:231-254 | a rejected consumption leaves every live entry in place |
| `EnvelopeStore.AcceptedConsumeTakesOwnEntry` | app/impl/auth/password_envelope.py:231-255 | an accepted consumption removes its own entry and leaves exactly the other live ones |
| `EnvelopeStore.AcceptsIff` | app/impl/auth/password_envelope.py:230-255 | a consumption is accepted exactly when the store holds an unexpired envelope under its id with its bindings whose signature is the token |
| `EnvelopeStore.AcceptedIs` | app/impl/auth/password_envelope.py:231-255 | an accepted one names a stored envelope, before expiry, with its bindings and token |
| `EnvelopeStore.ConsumedAtMostOnce` | app/impl/auth/password_envelope.py:230-255 | over every run no key id is consumed twice |
| `EnvelopeStore.ConsumedAsIssued` | app/impl/auth/password_envelope.py:181-255 | every consumption follows an issue of the same id with the same bindings, precedes its expiry and carries the token that signs it; never more than 128 entries |
| `EnvelopeStore.IssueSurvivesInSequence` | app/impl/auth/password_envelope.py:181-203 | with sequential issues and a clock that does not go back, an issued envelope is stored exactly when its last prune came before its expiry |
| `EnvelopeStore.StepKeepsRate` | app/impl/auth/password_envelope.py:138-154 | filtering and the removal of stale keys lose no timestamp that is still inside the window |
| `EnvelopeStore.IssuesPerWindow` | app/impl/auth/password_envelope.py:138-173 | in every run at most 128 rate checks of a non-empty key pass in any window (t-10, t] |
| `EnvelopeStore.CheckPassesIff` | app/impl/auth/password_envelope.py:138-147 | after any run a check passes exactly when fewer than 128 checks of its key passed in the last ten seconds, or it has no key |
| `EnvelopeStore.CheckDropsOldTimes` | app/impl/auth/password_envelope.py:141-154 | after a check only times inside the window are stored for its key, and after one that passes no stale key is left |
| `EnvelopeStore.PasswordEnvelopeStore.ExpiredIds` | app/impl/auth/password_envelope.py:124-128 | exactly the ids of expired entries |
| `EnvelopeStore.PasswordEnvelopeStore.PopExpired` | app/impl/auth/password_envelope.py:129-130 | the unexpired entries stay, in order |
| `EnvelopeStore.PasswordEnvelopeStore.EvictOverflow` | app/impl/auth/password_envelope.py:131-136 | popping the head of the sorted list is eviction of the earliest, one by one |
| `EnvelopeStore.PasswordEnvelopeStore.PruneLocked` | app/impl/auth/password_envelope.py:123-136 | the whole prune |
| `EnvelopeStore.PasswordEnvelopeStore.CheckRateLimitLocked` | app/impl/auth/password_envelope.py:138-154 | the sliding-window check and its update |
| `EnvelopeStore.PasswordEnvelopeStore.InsertLocked` | app/impl/auth/password_envelope.py:200-203 | prune, store, prune as one section of the machine |
| `EnvelopeStore.PasswordEnvelopeStore.ConsumeLocked` | app/impl/auth/password_envelope.py:230-255 | succeeds exactly on a matching live entry, which is then gone |
| `FlashQueue.CleanupCleans` | app/impl/auth/shared.py:139-144 | the cleanup leaves no tabs, no runs of blanks, no empty lines and no white space at line ends |
| `FlashQueue.CleanStays` | app/impl/auth/shared.py:139-144 | such a text is a fixed point of the cleanup |
| `FlashOnePass.CleanupKeepsLines` | app/impl/auth/shared.py:139-144 | a reader that splits at every carriage return and newline, drops white space around lines and counts runs of blanks once keeps the same lines of a message and of its cleanup |
| `FlashOnePass.CleanupIsOnePass` | app/impl/auth/shared.py:139-144 | the cleanup is exactly those lines, joined by newlines |
| `FlashOnePass.NormalizeIsOnePass` | app/impl/auth/shared.py:138-151 | the normal form is that text with a period after a final letter, digit or parenthesis, or its longest prefix within the limit that does not end in white space |
| `FlashQueue.NormalizeIs` | app/impl/auth/shared.py:138-151 | a normal form is clean, within the limit, and empty exactly when nothing was left |
| `FlashQueue.NormalizeAgain` | app/impl/auth/shared.py:145-150 | the only change of a second application is the missing period |
| `FlashQueue.StableAfterTwo` | app/impl/auth/shared.py:138-151 | two applications reach a fixed point within the limit, and the second only adds a missing period |
| `FlashQueue.OnceIsEnoughIff` | app/impl/auth/shared.py:145-150 | one application suffices exactly when the punctuated text is not cut right after white space with a rest that wants a period |
| `FlashQueue.NotIdempotent` | app/impl/auth/shared.py:138-151 | at every limit above one some message needs two |
| `FlashQueue.CollectNormalized` | app/impl/auth/shared.py:187-195 | the loop of both codecs yields the first non-empty normal forms up to the item limit |
| `FlashQueue.NormalizedIsPrefix` | app/impl/auth/shared.py:187-195 | these are the non-empty normal forms in order, as many as the limit allows |
| `FlashQueue.SettledQueueSurvives` | app/impl/auth/shared.py:175-212 | a queue of settled messages within the limit comes back from the cookie as it was |
| `FlashQueue.RoundTripSettles` | app/impl/auth/shared.py:175-212 | after one encode and decode every further round trip is the identity, with non-empty items within both limits |
| `FileDownload.MoveKeepsDownload` | app/impl/judgehost/api.py:349-402 | one step of one download; the admission is left at most once |
| `FileDownload.StepKeepsInv` | app/impl/judgehost/api.py:349-402 | every step of handler, generator and response keeps the count and each download's invariant |
| `FileDownload.CountIsExact` | app/service/judgehost/api.py:365-390 | in every interleaving the counter equals the number of downloads not given back, none is given back twice, and the counter never underflows |
| `FileDownload.ReleasedExactlyOnce` | app/impl/judgehost/api.py:457-476 | when a handler has failed or a response ended, its admission has been given back once, unless the generator is between claiming and leaving, which takes a close that found it executing |
| `FileDownload.RacedResponseEndsEarly` | app/impl/judgehost/api.py:393-401 | a run in which that exception happens |
| `FileDownload.Judgehost.EnterCallback` | app/service/judgehost/api.py:365-376 | admission counts exactly when open |
| `FileDownload.Judgehost.LeaveCallback` | app/service/judgehost/api.py:378-390 | leaving fails exactly on underflow |
| `FileDownload.AdmissionRelease.Call` | app/impl/judgehost/api.py:357-362 | the first call leaves, later calls do nothing |
| `FileDownload.Serve` | app/impl/judgehost/api.py:457-532 | on every course of one download the counter returns to its value, without underflow |
| `Numerals.ColumnOfIndex` | app/impl/root/contest_import.py:118-125 | the sort key's column number inverts the index |
| `Numerals.IndexOfColumn` | app/service/contest/problem_index.py:32-36 | every string of capital letters is the index of its column number |
| `Numerals.IndexIsBijective` | app/impl/root/contest_import.py:118-125 | positive numbers and non-empty strings of capital letters correspond one to one |
| `Numerals.IndexIsMonotone` | app/impl/root/contest_import.py:118-125 | indices increase strictly by length, then alphabetically |
| `Numerals.ContestIdxFromSequence` | app/impl/root/contest_import.py:118-125 | the loop ends with the index of the number, at least 1 |
| `FreshNames.TakenBounds` | app/impl/root/contest_import.py:136-142 | pigeonhole: as many distinct candidates as are taken, there are taken names |
| `FreshNames.NumberedNamesDiffer` | app/impl/root/contest_import.py:96-102 | names that end in different numbers differ |
| `ImportNames.ImportIndices.Assign` | app/impl/root/contest_import.py:128-142 | a usable raw index is kept, otherwise the first free index from the sequence number on; at most as many tries as used indices, plus one |
| `ImportNames.AssignAll` | app/impl/root/contest_import.py:128-142 | over a whole import the indices are pairwise different, whatever raw indices arrive; a usable one is kept, any other row gets the first free index from its own number on |
| `Slugs.SlugifyIs` | app/impl/root/contest_import.py:70-78 | the result is empty or dash-separated lower-case words within the limit, and slugifying again changes nothing |
| `Slugs.SlugifySlug` | app/service/problem/naming.py:23-27 | on a slug only the cut remains |
| `SlugOnePass.SlugifyIsOnePass` | app/impl/root/contest_import.py:70-78 | the slug of any text is its words of letters and digits, lower-cased and joined by single dashes, cut at the limit |
| `SlugOnePass.CutIsLongest` | app/impl/root/contest_import.py:76-77 | the cut leaves the longest prefix within the limit that does not end in a dash |
| `ImportNames.NumberedKeepsLongestHead` | app/impl/root/contest_import.py:98-101 | an alternative is the suffix after the longest part of the base that leaves room for it, at least one character, and does not end in a dash; after the fallback when there is none |
| `ImportNames.NumberedKeepsShortBase` | app/impl/root/contest_import.py:98-101 | a base that leaves room for the suffix is kept whole |
| `ImportNames.AlternativesDiffer` | app/impl/root/contest_import.py:97-102 | the alternatives of a base are pairwise different |
| `ImportNames.NumberedIsContestIdent` | app/impl/root/contest_import.py:98-101 | alternatives of a valid contest slug are valid contest slugs of at most 64 characters while the suffix has at most 63 |
| `ImportNames.NextAvailableContestSlug` | app/impl/root/contest_import.py:93-103 | ends for every finite set of slugs, with the stripped base, or the default for a blank one, if it is free and else its first free alternative; from a valid base and with suffixes that fit, a valid slug of at most 64 characters |
| `ProblemSlugs.NumberedIsCanonical` | app/service/problem/naming.py:30-45 | an alternative that fits is its own canonical form |
| `ProblemSlugs.ProblemTokenIs` | app/impl/root/contest_import.py:191-194 | the search starts from the words of the given name, or from the default for a blank one |
| `ProblemSlugs.SearchProblemSlug` | app/impl/root/contest_import.py:197-207 | a search that ends returns the first name tried that does not clash, or raises when full names are refused |
| `ProblemSlugs.SearchEndsIff` | app/impl/root/contest_import.py:190-207 | the search ends exactly when the base is free, or an alternative that fits is, or a name that longer alternatives are cut back to is unknown |
| `ProblemSlugs.NextAvailableProblemSlug` | app/impl/root/contest_import.py:190-207 | raises exactly when the owner is no user name, leaves no room for a segment, or the base has no canonical form; else the first name tried that is neither reserved nor known |
| `ProblemSlugs.RoomIsEnough` | app/impl/root/contest_import.py:190-207 | when the suffixes fit, the search ends within one try per taken name, with a slug within the limit outside both sets |
| `ProblemSlugs.OwnerDecides` | app/service/problem/naming.py:16-45 | full names fit for all candidates or for none, by the owner's length alone |
| `ProblemSlugs.UserSearchEnds` | app/service/problem/naming.py:16-20 | for owners of at most 16 characters and taken names whose count has at most 45 digits, the search ends with a free slug whose full name fits in 64 characters |
| `ProblemSlugs.LongOwnerNeverEnds` | app/impl/root/contest_import.py:199-206 | for owners of 61 or 62 characters, inputs on which the search never ends |
| `AgentText.ChainIsOnePass` | app/impl/agent/api.py:414 | the four chained replacements equal one pass over the text |
| `AgentText.ReadsBack` | app/impl/agent/api.py:414-415 | a reader of the double-quoted style recovers the text and stops at the closing quote |
| `AgentText.ScalarRoundTrip` | app/impl/agent/api.py:404-415 | every text is recovered from its printed form |
| `AgentText.ScalarIsInjective` | app/impl/agent/api.py:404-415 | different texts print differently |
| `AgentText.ScalarIsOneLine` | app/impl/agent/api.py:404-415 | a printed scalar never breaks its line |
| `AgentText.PrintedPlainIff` | app/impl/agent/api.py:406-413 | a text is printed without quotes exactly when it is not empty, has only the listed characters and no outer blanks, and spells no reserved word in any case |
| `AgentText.FreeKey` | app/impl/agent/api.py:466-470 | the preferred key if it is unused, else its first unused numbered form |
| `AgentText.CountTitles` | app/impl/agent/api.py:456-459 | the count of each label |
| `AgentText.PreferredKey` | app/impl/agent/api.py:463-465 | a column prefers a title that names it alone, else its source, its title, its id or a default, whichever comes first |
| `AgentText.ColumnKeys` | app/impl/agent/api.py:455-473 | one key per column, pairwise different, each the preferred or first unused numbered form |

## Assumptions

- A thread executes one call at a time and starts another only from the body of the calls it is in.
- `sqlite3.Connection.close` succeeds and rolls back; statements other than the modelled ones have no
  effect on transactions and pragmas; a failing `BEGIN`, statement or commit has no effect of its own.
- An accepted submission is executed once and a rejected one never; the `mark_*` services and
  `fail_verification` return; `require_job_format` gives the runner the answer it gave the starter;
  `_reset_process_job_tracking` does not overlap with starters or runners.
- An export key is the triple it is printed from.
- Envelope key ids are fresh, monotonic readings do not decrease, and time is a `real` number. RSA and
  the signature are opaque functions; JSON and base64 carry the flash queue unchanged.
- The lower-casing of slugs is that of ASCII; other letters become dashes either way unless they
  lower-case to an ASCII letter or digit.
- The slugs and problems that exist do not change during one search.
- Whether the `finally` of a file response can start while a pool thread still executes its generator is
  up to the server's thread pool, which is not part of this model; the machine admits that it can.

## Left out

- SQL schema, schema validation, `init` and statement tracing: data and logging beside the connection protocol.
- Database.DB.CloseDrained: states the loop of one thread alone; `DrainClosesWhatItTook` states it for every interleaving.
- VerificationStart.Tracking.Start: states the exits of one call by its own steps; who owns a key when calls and runners interleave is not modelled, as the set has no owner token and depends on the worker queue.
- LoginLimiter.FailuresPerWindow: attempts follow one another; two attempts that both pass the check before either fails are not modelled.
- LoginLimiter.Limiter.Check: the number of seconds in the message is not modelled.
- EnvelopeStore.PasswordEnvelopeStore.ConsumeLocked: ends with the locked section; decryption after it is not modelled.
- EnvelopeStore.PasswordEnvelopeStore.InsertLocked: the key generation and signing of `issue` before it are parameters.
- FlashQueue.RoundTripSettles: the queue items are strings and the cookie is one the application wrote; malformed cookies decode to an empty queue.
- ImportNames.ImportIndices.Assign: the canonical form of a raw index is a parameter.
- FileDownload.Serve: states one download alone, with its releases one after the other; the step machine has every interleaving. The rows that are streamed and the HTTP errors are not modelled.
- AgentText.ScalarRoundTrip: recovers the text; how YAML types plain scalars is not modelled.
- Routes, templates, page contexts, import drafts, Git, ZIP, TeX and mail: interface and input/output.
- Contest access pages, revision views and configuration: one-step case analysis.
