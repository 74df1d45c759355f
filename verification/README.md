# Lapinq: a verified model of its queue

Lapinq is a task queue kept in one PostgreSQL table and driven by many concurrent workers, in Python and
Rust. This project models the parts whose correctness does not show in any one function, and proves it:

- **The task table as a step machine** (`TaskTable`, `StorageOps`, `QueueMachine`, `QueueSteps`, `QueueShape`,
  `QueueRecord`, `FirstClaim`,
  `QueueLease`, `QueueLedger`, `RetrySpacing`, `Overlap`, `Overrun`,
  `ManualRetry`, `RustTwin`, `ClaimOrder`, `Hazards`). A statement is a WHERE predicate and a
  SET function on rows; class `Storage` runs them in place, and the machine lets any number of executors,
  reapers, expiry runs and operators issue them in any order. `fail_task` is two steps, a read and a write,
  with anything in between. No statement checks who owns a row, so the theorems come in two kinds: those of
  every run, and those of *leased* runs.
- **The rate limiter** (`RateLimit`), against a full log of admissions that the program does not keep.
- **Cron expressions and the scheduler** (`Cron`, `Scheduler`): the parser against a grammar with a meaning,
  then how often a schedule fires over a run of ticks.
- **The worker's claim loop** (`WorkerLoop`): its permits, beside the whole queue.
- **The two schema migrators** (`Migrations`), with crashes between any two statements.
- **The time-to-live display** (`Ttl`), against the cleanup it announces.

Run `dafny verify dfyconfig.toml`.

## The lease

A run is leased for a task when (1) every outcome write to the task lands within a lease of its executor's
claim, (2) no reaper takes the task back sooner than that, and (3) a `RetryError` raised in the task reaches
`fail_task`, as it does with inline execution. What happens to other tasks does not matter. `QueueLease`
shows what this buys.

The lease is enough, but more than is needed. What happens without it is settled exactly, for every run, in
`Overlap`:

- A task comes to have two executors exactly when a claim of it takes effect while an executor is still at work
  from which the task was taken, by a reap or by its own manual retry (`Overlap.TwoAtWorkExactlyWhen`). From
  every reachable state with a task that has run past a reaper's threshold, that reaper and a claim bring this
  about (`Hazards.TwoExecutors`). The defaults leave no slack: a task may run for 300 seconds
  (`python/lapinq/worker.py:131`, `src/main.rs:51-52`) and the reaper's threshold is 300 seconds too
  (`python/lapinq/worker.py:19`, `src/main.rs:57-58`).
- A completed, cancelled or expired row changes its status exactly when an executor at work on it writes to it,
  other than to complete it again (`Overlap.SettledStaysExactlyWhen`); with no executor at work it is settled
  for good (`Overlap.SettledForGood`). With two, one can complete the task and the other reopen it
  (`Hazards.CompletedReopened`).
- A `complete_task` that takes effect but raises, as on a database timeout, keeps the lease: its worker goes on
  to report a failure (`python/lapinq/worker.py:60-63`, `python/lapinq/worker.py:70-81`), which reopens the
  completed row (`Hazards.UnacknowledgedIsReopened`). All theorems allow it. Under the lease it is the only way
  in which a completed row changes (`QueueLease.CompletedLeftUnacknowledged`), so that completed rows stay as
  they are where completions are acknowledged (`QueueLease.OutcomesStick`).

## What the proofs brought up

- A `RetryError` raised in a subprocess makes the row pending, and the parent, which sees exit code 0, then
  completes it. `ManualRetry.RetriedExactlyWhen` says when there is another try all the same: when a worker
  claims the row after the countdown and before the parent's last write, which may then mark it completed while
  it runs again, or when that last write is a failure with tries left, as after a timeout, or after a completion
  that took effect without being acknowledged. A parent that completes within the countdown and sees it
  acknowledged, the usual case, loses the retry for good (`ManualRetry.PromptCompletionLosesRetry`); one that
  dies leaves it standing (`ManualRetry.WaitsAlong`). With inline execution the failure is an ordinary one and
  the countdown is dropped. Lapinq's `CHANGELOG.md:46` promises a retry after the countdown; its `README.md:135`
  lists the feature.
- The Rust worker ignores `retry_backoff = false` and `retry_delay`; `RustTwin.WritesAgree` says exactly when
  the two languages write the same row.
- The reaper never looks at `max_retries`: within the lease, a task that may be tried once can be claimed any
  number of times, its executors dying one after the other (`Overrun.ClaimedWithoutEnd`). A claim is one too
  many exactly when the row it takes already has max(1, max_retries) attempts
  (`QueueLedger.ExceedsExactlyWhen`), and there are at most as many of them as reaps
  (`QueueLedger.ClaimsAreBounded`).
- The limiter's capacity cut gives a client its whole allowance back, so the rate bound counts the cuts inside
  the window (`RateLimit.RateIsBounded`); with room for no client, any number of requests pass at once
  (`RateLimit.CutsRaiseTheRate`).
- A stamp that spills over into a later minute suppresses that minute's trigger
  (`Scheduler.FiresExactlyWhen`), and a loop that sleeps a full minute after each tick's work sooner or later
  leaves a minute out (`Scheduler.DriftSkipsAMinute`).
- The cron parser accepts numbers of any size. In the first four fields those outside the range match nothing;
  a weekday counts modulo 7, so that 0 and 7 are Sundays and 8 is a Monday (`Cron.EverMatches`,
  `Cron.EightIsMonday`). A negative step is accepted and yields nothing. `docs/en/usage.md:214` names the
  expression's column `cron_expression`; the code reads `cron`.
- The Rust migrator sets every version row to one number, which the primary key refuses once there are two
  rows, and there are two once a Python run that had something to do finishes. Such a database is closed to the
  Rust migrator for good (`Migrations.RustIsShutOut`): while Rust knows no more migrations than the database
  has recorded, five today, its run does nothing, so its own second to fifth would be skipped in silence; a
  sixth would be executed, and refused, at every start.
- A negative time-to-live is shown as expired and never cleaned up (`Ttl.ShownIsCleaned`).

## Model

| member | source | states |
|---|---|---|
| StorageOps.Storage.Run | python/lapinq/storage.py:436-447 | a row-by-row UPDATE loop computes exactly the statement's effect and the set of rows matched |
| StorageOps.Storage.Enqueue | python/lapinq/storage.py:312-359 | a new pending row under a fresh id, due at the time asked for or else now, with every other row untouched; nothing at all for a time-to-live of 0 |
| StorageOps.Storage.Select | python/lapinq/storage.py:416-421 | the scan returns a due row with one of the statuses, such that every other has a lower priority, or the same and is no older; none only if there is none |
| StorageOps.Storage.ClaimTask | python/lapinq/storage.py:401-430 | such a row, and only it, starts running now under the worker, its other columns as they were; no change when none is due |
| StorageOps.Storage.CompleteTask | python/lapinq/storage.py:432-447 | the row with that id, whatever its status or owner, becomes completed; no other changes |
| StorageOps.Storage.FailTask | python/lapinq/storage.py:449-503 | one attempt more; below the limit pending again, due after the schedule's entry, or with backoff off after the row's own delay or 10 seconds; else failed; nothing for a missing row |
| StorageOps.Storage.RetryTask | python/lapinq/execute.py:130-147 | any existing row is pending again, due after the countdown, charged one attempt, without start and owner |
| TaskTable.BackoffSchedule | python/lapinq/storage.py:821-826 | the lookup gives 0, 10, 30, 60, 300 and from the fifth attempt on 600 seconds |
| StorageOps.Storage.Heartbeat | python/lapinq/storage.py:540-548 | beats for exactly the running rows of the worker |
| StorageOps.Storage.RecoverStaleTasks | python/lapinq/storage.py:550-573 | exactly the unlocked running rows older than the threshold go back to pending, charged one attempt |
| StorageOps.Storage.RequeueTask | python/lapinq/storage.py:648-667 | true exactly for an existing failed row, which starts afresh |
| StorageOps.Storage.CancelTask | python/lapinq/storage.py:690-705 | true exactly for an existing pending row, which is cancelled |
| StorageOps.Storage.CleanupExpiredTasks | python/lapinq/storage.py:754-774 | expires exactly the overdue rows that are not terminal, running ones included, and counts them |
| StorageOps.Storage.DeleteTasks | python/lapinq/storage.py:707-752 | removes the selected rows in any status, leaves the rest, counts those removed |
| ClaimOrder.ClaimConsumes | python/lapinq/storage.py:401-424 | a claim removes exactly its row from the eligible ones, unless the caller asked for running rows |
| ClaimOrder.DrainExists | python/lapinq/storage.py:401-430 | claims can go on until nothing is eligible |
| ClaimOrder.DrainIsSorted | python/lapinq/storage.py:416-421 | repeated claims hand out exactly the due rows with the statuses asked for, each once, by descending priority and within a priority from the oldest on |
| QueueShape.ReclaimNeedsReturn | python/lapinq/storage.py:409-430 | between two claims of a task some step found it not pending and made it pending |
| QueueShape.AlwaysShaped | python/lapinq/storage.py:312-573 | in every run, stale writers included, every row and every executor keeps its shape |
| QueueShape.RowsAreShaped | python/lapinq/storage.py:432-503 | which columns are set in which status, their order in time, failed only past the limit, expired only past the deadline |
| QueueRecord.RowsKeepTheirRequest | python/lapinq/storage.py:312-359 | every run: a row keeps the creation time, limit, priority, time-to-live and retry settings of the one enqueue that made it |
| FirstClaim.UnclaimedIsDueAsAsked | python/lapinq/storage.py:334-357 | every run: a task never claimed has no executor, and its row is still due at the time its enqueue asked for, or at its creation |
| FirstClaim.FirstClaimExactlyWhen | python/lapinq/storage.py:416-418 | every run: the first claim of a task takes effect exactly when its executor is new, its row is pending, and the time asked for has come |
| QueueSteps.BeatsAndReapsMayAct | python/lapinq/storage.py:540-573 | in every state a heartbeat or a reap is possible, and does to the rows what its statement does |
| QueueSteps.CancelsMayAct | python/lapinq/storage.py:690-705 | the same for a cancellation |
| QueueSteps.RequeueMayAct | python/lapinq/storage.py:648-667 | the same for a requeue |
| QueueSteps.ExpiryMayAct | python/lapinq/storage.py:754-774 | the same for the expiry |
| QueueSteps.DeletesMayAct | python/lapinq/storage.py:744-752 | the same for a deletion |
| QueueSteps.AnyoneMayEnqueue | python/lapinq/storage.py:328-359 | in every state a request can be enqueued under any unused id |
| QueueSteps.AnyoneMayClaim | python/lapinq/storage.py:409-424 | a new executor can claim any pending row that is due, and remembers the row's attempts and limit |
| QueueSteps.ExecutorMayComplete | python/lapinq/storage.py:432-447 | an executor can complete its task at any moment, whatever has become of the row |
| QueueSteps.ExecutorMayDie | python/lapinq/worker.py:50-88 | and stop for good at any moment, without a write |
| QueueSteps.ExecutorMayFail | python/lapinq/storage.py:449-503 | likewise its failure: with nothing between read and write it is the uninterrupted call, for a missing row too |
| QueueSteps.PlannedFailureMayBeWritten | python/lapinq/storage.py:468-503 | the write of a failure is possible whenever it comes, and writes what the read decided |
| QueueSteps.RustMayFail | src/lib.rs:197-226 | a Rust executor's failure writes one attempt more than it claimed, and the schedule's entry, whatever the row's settings |
| QueueSteps.SubprocessMayRetry | python/lapinq/execute.py:130-148 | a subprocess can write its manual retry at any moment, once |
| QueueRecord.TerminalRowsRecordTheirStep | python/lapinq/storage.py:437-503 | every run: a terminal row holds the result or error and the time of the step that ended it, and has not changed since |
| QueueLease.LeaseIsKept | python/lapinq/worker.py:50-88 | an event keeps a task's lease if it is no manual retry of it, no write to it later than the lease after its executor's claim, and no reap with a shorter threshold |
| QueueLease.MutualExclusion | python/lapinq/worker.py:50-110 | leased: a task has at most one live executor, even once deleted; until then its row is still running, expired or completed under that executor's claim, with its attempts |
| QueueLease.OutcomesStick | python/lapinq/storage.py:432-447 | leased: a cancelled row never changes again while it exists, nor does a completed one where the task's completions are acknowledged |
| QueueLease.LeftByItsExecutor | python/lapinq/storage.py:754-767 | leased: an expired or completed row is changed only by an executor that was live for as long as the row has had that status |
| QueueLease.CompletedLeftUnacknowledged | python/lapinq/worker.py:60-81 | leased: a completed row is changed only by the executor that completed it, without having seen that acknowledged |
| QueueLease.FailedUntilRequeued | python/lapinq/storage.py:648-667 | leased: a failed row is unchanged until it is requeued |
| QueueLease.FailureWritesAgree | src/lib.rs:197-226 | leased: with backoff on, claim-time values (Rust) and freshly read ones (Python) plan the same failure write at any moment |
| QueueLedger.AttemptsAreCharged | python/lapinq/storage.py:449-503 | every run: neither attempts nor any pending plan exceeds the reaps, failure writes and manual retries so far |
| QueueLedger.ReapsNeedClaims | python/lapinq/storage.py:550-573 | every run: a task is reaped no more often than claimed, once less while it is running |
| QueueLedger.FailuresNeedClaims | python/lapinq/worker.py:50-88 | every run: failure writes plus executors still at work are at most the claims, and so for manual retries |
| QueueLedger.AttemptsPerClaim | python/lapinq/storage.py:449-573 | every run: attempts are at most twice the claims of the row's life, three times with subprocess retries |
| QueueLedger.LedgerIsExact | python/lapinq/storage.py:409-503 | leased: claims since the last enqueue or requeue are attempts, plus 1 exactly when running, completed, or expired while running; attempts are reaps plus failures |
| QueueLedger.ClaimsAreBounded | python/lapinq/storage.py:460-503 | leased: at most max(1, max_retries) + reaps claims between one enqueue or requeue and the next |
| QueueLedger.ExceedsExactlyWhen | python/lapinq/storage.py:555-566 | leased: a claim is past max(1, max_retries) exactly when the attempts of the row it takes are at or past it |
| Overrun.ClaimedWithoutEnd | python/lapinq/storage.py:550-573 | for every n, a leased run in which a task with max_retries 1 is claimed n times and waits with n attempts |
| QueueLedger.FailsForGood | python/lapinq/storage.py:460-503 | leased, no reaps: failed exactly when max(1, max_retries) failures have been written, and never more of them |
| RetrySpacing.BackoffIsWaitedFor | python/lapinq/storage.py:461-483 | leased: after a failure that brings attempts to k, no claim for the backoff of k, reaps or no reaps |
| RetrySpacing.DelayIsWaitedFor | python/lapinq/storage.py:461-483 | leased, whatever the task's settings: after a failure that sends it back, no claim for the schedule's entry, or with backoff off and a Python worker for its retry_delay, or 10 seconds without one |
| RetrySpacing.BackoffSumClosed | python/lapinq/storage.py:821-826 | the first n backoffs add up to 1000 + 600 (n - 5) from n = 5 on |
| RetrySpacing.FailuresAreSpaced | python/lapinq/storage.py:417-418 | leased, no reaps: the failures and the next start are as far apart as the backoffs between them add up to |
| RetrySpacing.FailuresSpan | python/lapinq/storage.py:461-483 | leased, no reaps: m failures span at least the first m - 1 backoffs, 1000 + 600 (m - 6) seconds from m = 6 on |
| RustTwin.BackoffsAgree | src/lib.rs:268-278 | the shipped release build's backoff is the Python one on every 32-bit attempt; a debug build panics at the least one and only there |
| RustTwin.BuildsAgree | src/lib.rs:205-207 | the two builds' failure decisions differ only at the largest attempts, where the debug build writes nothing and the release build wraps |
| RustTwin.WritesAgree | src/lib.rs:197-226 | the two failure writes agree exactly when the failure is final, backoff is on, or the row's delay happens to be the backoff |
| Overlap.TwoAtWorkExactlyWhen | python/lapinq/storage.py:409-430 | every run: a task has two executors at some moment exactly when a claim of it takes effect while an executor is at work from which a reap or its own manual retry took it |
| Overlap.SettledStaysExactlyWhen | python/lapinq/storage.py:437-503 | every run: a completed, cancelled or expired row keeps its status while it exists exactly when no executor at work on it writes to it, other than to complete a completed one |
| Overlap.SettledForGood | python/lapinq/storage.py:432-503 | every run: such a row with no executor at work never changes while it exists, and no executor takes the task up again |
| Hazards.TwoExecutors | python/lapinq/storage.py:555-566 | from every reachable state: past a reaper's threshold, its reap and any fresh claim give a held task two executors |
| Hazards.CompletedReopened | python/lapinq/storage.py:468-503 | from every state with two executors on a task: one completes it and the other's failure leaves it pending exactly when a try is left, else failed |
| Hazards.UnacknowledgedIsReopened | python/lapinq/worker.py:60-81 | from every state, within the lease: a completion that takes effect unacknowledged and the failure reported after it leave the row pending exactly when a try is left, else failed |
| ManualRetry.WaitsAlong | python/lapinq/execute.py:130-148 | until its executor's last outcome or a claim, a manually retried row stays due at the end of the countdown, and pending exactly unless cancelled, deleted, expired, or completed unacknowledged |
| ManualRetry.RetriedExactlyWhen | python/lapinq/worker.py:60-81 | with no other executor on the task: it is claimed before the parent's last outcome, or sent back to pending by it, exactly when a claim comes after the countdown with the row still waiting, or that outcome is a failure with tries left |
| ManualRetry.PromptCompletionLosesRetry | python/lapinq/worker.py:60-63 | a parent whose acknowledged completion comes before the countdown is over finds the task unclaimed; ever after the row, if it exists, is completed and no executor is at work on it |
| ManualRetry.QuickRetryRunsAgain | python/lapinq/execute.py:130-148 | without a countdown the task can be claimed at once, and its row then says completed while it runs again |
| WorkerLoop.Loop.TryAcquire | python/lapinq/worker.py:100-100 | takes a permit exactly when one is free, and keeps their total |
| WorkerLoop.Loop.OnClaim | python/lapinq/worker.py:101-110 | hands the permit to a process_task, or returns it with the sleep to come; keeps the total |
| WorkerLoop.Loop.OnFinish | python/lapinq/worker.py:87-88 | returns the permit on every outcome; keeps the total |
| WorkerLoop.IdleFollowsEmptyClaims | python/lapinq/worker.py:103-110 | in every run the idle sleep is the poll interval doubled once per empty claim since the last successful one, up to the maximum |
| WorkerLoop.PermitsAreConserved | python/lapinq/worker.py:50-110 | in every interleaving, permits free, in hand and in use add up to the concurrency |
| WorkerLoop.PermitFreeExactlyWhen | python/lapinq/worker.py:99-101 | in every run, while it holds none the loop can take a permit exactly when fewer process_tasks are live than the concurrency |
| WorkerLoop.ConcurrencyIsReached | python/lapinq/worker.py:98-106 | beside that many due tasks, the loop has a run in which all permits are in use by process_tasks for exactly those tasks |
| WorkerLoop.LoopMayClaim | python/lapinq/worker.py:101-110 | with a permit in hand the loop can claim any due row and start a process_task, or find none and return the permit |
| WorkerLoop.PermitComesBack | python/lapinq/worker.py:87-88 | a finished process_task gives its permit back, and the loop can take it again |
| WorkerLoop.RunningIsBounded | python/lapinq/worker.py:50-110 | started beside a queue in any reachable state in which it has claimed nothing, with no lost claim and no executor gone without a write: rows running under the worker never exceed its concurrency, whatever others do |
| RateLimit.Limiter.Evict | python/lapinq/server.py:161-167 | stale clients go; of the rest as many as fit stay, none of them less recently active than one that goes; lists untouched |
| RateLimit.EvictionMeans | python/lapinq/server.py:161-167 | in entries: who stays has one inside the window; who has one and goes leaves a full store of clients none less recent; no more than max_clients stay |
| RateLimit.Limiter.MostRecentOf | python/lapinq/server.py:165-167 | the selection keeps max_clients clients, none less recent than one left out |
| RateLimit.Limiter.Dispatch | python/lapinq/server.py:143-159 | admission by the entries inside the window, and the store afterwards; requests outside the API change nothing |
| RateLimit.RateIsBounded | python/lapinq/server.py:143-167 | for every client and instant t, at most max_requests admissions in (t - window, t] if no cut of the client falls in it, and in general that times one more than the cuts in it |
| RateLimit.CutsRaiseTheRate | python/lapinq/server.py:165-167 | the bound is reached: runs of n requests at once, all admitted, with n - 1 cuts |
| RateLimit.DecisionsSinceCut | python/lapinq/server.py:143-159 | every run: each decision is that of a limiter that keeps the log since the client's latest cut |
| RateLimit.StoredList | python/lapinq/server.py:150-157 | every run: a stored list is nonempty, sorted, at most max_requests long, and the end of the full log |
| RateLimit.RejectionsAreJustified | python/lapinq/server.py:152-155 | every run, cuts included: a rejection is one the full log would make |
| RateLimit.StoreIsBounded | python/lapinq/server.py:161-167 | every run: at most max_clients + 1 clients are held |
| RateLimit.NeverCut | python/lapinq/server.py:165-167 | with at most max_clients clients active in each window of a limiter that keeps the whole log, the capacity cut never strikes |
| RateLimit.RefinesFullLog | python/lapinq/server.py:134-167 | then this limiter and that one, each run on the same requests with its own state, decide alike each time and admit at the same moments |
| Cron.SplitJoins | python/lapinq/scheduler.py:56-56 | splitting gives separator-free pieces that join back to the text |
| Cron.SpaceCharacters | python/lapinq/scheduler.py:43-43 | the white space between fields is exactly the 29 characters str.split() splits at |
| Cron.IntMeans | python/lapinq/scheduler.py:59-72 | int() accepts exactly an optional sign and digits with single underscores between them, and gives their positional value in base ten |
| Cron.DecimalReads | python/lapinq/scheduler.py:72-72 | every number written in base ten is read back as itself |
| Cron.SegmentMeaning | python/lapinq/scheduler.py:57-72 | a segment's text parses to exactly the values it means: a number, an interval, or a congruence class inside the base |
| Cron.FieldMeaning | python/lapinq/scheduler.py:50-73 | a field's text parses to exactly its denotation |
| Cron.FieldAccepted | python/lapinq/scheduler.py:50-73 | a text is accepted exactly when it is the text of a well-formed field |
| Cron.WeekdaysRotate | python/lapinq/scheduler.py:75-80 | the rotation is a bijection on 0..6, has period 7 and sends exactly the multiples of 7 to Sunday |
| Cron.CronMeaning | python/lapinq/scheduler.py:36-95 | under any white space, five well-formed fields parse and fire exactly on the dates whose five coordinates they contain |
| Cron.CronOnNumbers | python/lapinq/scheduler.py:36-95 | fields of numbers, intervals and steps, written in base ten, fire exactly at the dates whose coordinates satisfy them |
| Cron.AsWritten | python/lapinq/scheduler.py:40-40 | such fields look as documented: `*`, `1,15`, `9-17` |
| Cron.StepsAsWritten | python/lapinq/scheduler.py:57-67 | and with steps: `*/15`, `30/10` |
| Cron.CronAccepted | python/lapinq/scheduler.py:43-73 | an expression is accepted exactly when it is five words, each a well-formed field |
| Cron.EverMatches | python/lapinq/scheduler.py:47-95 | some coordinates inside their ranges match exactly when each of the first four fields has a value inside its range and the weekdays are not empty |
| Cron.EightIsMonday | python/lapinq/scheduler.py:75-80 | a weekday of 8 matches exactly the Mondays |
| Cron.AddRange | python/lapinq/scheduler.py:67-70 | counting up or down by the step adds exactly the values of the range's congruence class |
| Cron.AddSegment | python/lapinq/scheduler.py:56-72 | one turn of the segment loop, every error included |
| Cron.FillField | python/lapinq/scheduler.py:50-73 | the loop over segments computes the field's set, or fails where one segment does |
| Cron.Parse | python/lapinq/scheduler.py:36-82 | the loop over fields computes the parsed expression, or fails where one field does |
| Scheduler.TaskScheduler.Due | python/lapinq/scheduler.py:138-149 | due exactly when enabled, matching, and not stamped in or after this minute; never when unparsable |
| Scheduler.FiresOnNumbers | python/lapinq/scheduler.py:138-149 | a schedule of written numbers fires exactly when enabled, the current minute's date satisfies them, and no stamp has reached the minute |
| Scheduler.MinutesAreSixtySeconds | python/lapinq/scheduler.py:148-148 | the minute of a moment, and the moment it begins |
| Scheduler.TaskScheduler.Tick | python/lapinq/scheduler.py:130-172 | one trigger for each schedule that is due and for no other; exactly those are stamped |
| Scheduler.TriggersInsert | python/lapinq/storage.py:328-329 | a trigger inserts a task exactly unless its schedule's time-to-live is 0 |
| Scheduler.PassesAreTicks | python/lapinq/scheduler.py:130-172 | over any run of ticks on the whole table, a schedule's enqueues and stamp are those of its own row's ticks |
| Scheduler.EnqueuedAtMostOnce | python/lapinq/scheduler.py:147-149 | no schedule is enqueued twice in a calendar minute, whatever is edited, added or removed between ticks |
| Scheduler.FiresAtMostOnce | python/lapinq/scheduler.py:147-149 | the same for one schedule's ticks |
| Scheduler.FiresExactlyWhen | python/lapinq/scheduler.py:147-172 | in a minute with a tick an untouched schedule fires exactly when it matches and no stamp had reached the minute before its first tick |
| Scheduler.FiresEveryMatchingMinute | python/lapinq/scheduler.py:120-172 | a tick in every minute and stamps in their tick's minute: as many enqueues as matching minutes |
| Scheduler.DriftSkipsAMinute | python/lapinq/scheduler.py:120-128 | ticks a minute plus any fixed delay apart leave some minute without a tick, and nothing fires in it |
| Migrations.Database.Migrate | python/lapinq/storage.py:799-818 | both migrators' loops, stopped after any number of statements, compute the specified ending |
| Migrations.MigratedExtends | src/lib.rs:86-136 | wherever a run stops: the version never decreases, the log only grows and stays in order, and a finished run repeats nothing |
| Migrations.RunsOnlyAdd | python/lapinq/storage.py:799-818 | over any serial runs of both migrators, version and log only grow |
| Migrations.VersionNamesAPrefix | python/lapinq/storage.py:803-818 | after any serial runs with crashes: the version names a prefix executed in order, at most one more has run, and repeats are at most the runs cut short |
| Migrations.FinishesExactlyWhen | src/lib.rs:112-134 | a run finishes exactly when it gets its statements and the primary key does not refuse the Rust UPDATE |
| Migrations.FinishedRunReaches | python/lapinq/storage.py:810-818 | a finished run leaves max(version before, n) |
| Migrations.RerunIsIdle | python/lapinq/storage.py:806-813 | a rerun, in either language, executes no migration and changes nothing |
| Migrations.RustIsNotRefusedYet | src/lib.rs:58-58 | with its one migration the Rust run always finishes |
| Migrations.KnownRunIsIdle | src/lib.rs:120-135 | a run that knows no more migrations than are recorded does nothing |
| Migrations.PythonLeavesManyRows | python/lapinq/storage.py:810-817 | a Python run that had something to do and finishes leaves two version rows or more |
| Migrations.RowsOnlyGrow | src/lib.rs:127-133 | once there are two rows, no serial runs of either migrator remove one |
| Migrations.RustIsShutOut | src/lib.rs:120-135 | from then on a Rust run with more migrations than recorded executes the next, is refused and changes no row, and any other is idle |
| Ttl.ShownWithinAUnit | python/lapinq/server.py:976-985 | the value v shown has v <= remaining < v + its smaller unit, with the lower unit inside its base |
| Ttl.ShownOfRow | python/lapinq/server.py:968-985 | a row shows its time left, creation plus time-to-live minus now: overdue from zero down, else within a unit as above; infinity without a time-to-live |
| Ttl.ShownIsTheOnlyOne | python/lapinq/server.py:976-985 | it is the only well-formed display that does |
| Ttl.CleanedExactlyWhenShownBefore | python/lapinq/storage.py:758-767 | cleanup expires a row exactly when its time-to-live is positive, it is not terminal, and it was shown as expired at an earlier instant |
| Ttl.CleanedIsShown | python/lapinq/server.py:974-977 | a row that cleanup would expire is shown as expired then and later |
| Ttl.ShownIsCleaned | python/lapinq/server.py:976-977 | a row shown as expired and not terminal is for cleanup at every later instant exactly when its time-to-live is positive |

## Left out

- Time is real-valued seconds on one non-decreasing database clock; microsecond rounding, the overflow of
  PostgreSQL's INT and of timestamps are not modelled. The Rust worker's 32-bit arithmetic is, in both
  builds; the machine has the debug build's write, which differs from the release build's only at 2^31 - 1
  attempts.
- `FOR UPDATE SKIP LOCKED`, pools, timeouts and reconnection: a statement is one atomic step. In the machine a
  claim may take any eligible row and a reap may pass over any set of locked rows, which covers what the
  locks can do. A completion that took effect but was reported as an error, and a lost claim, are steps.
- A NULL in `retry_backoff` is read as false, as Python's truth test does.
- Rust failures with attempts 0 and limit 3 when a subprocess cannot be spawned or waited on
  (`src/main.rs:250`, `src/main.rs:255`): they write values unrelated to the row.
- Timed-out threads and processes that keep running after their worker has moved on.
- No bound on the rows running under a Rust worker, which claims before it takes a permit
  (`src/main.rs:156-183`), and no drain at its shutdown (`src/main.rs:177-190`).
- enqueue_batch, which is enqueue repeated; progress, metadata and webhooks, which do not touch the lifecycle.
- archive_old_tasks: its `DELETE ... LIMIT` is not accepted by PostgreSQL.
- The order in which Python's sort leaves clients of equal activity: any choice is allowed.
- int() of non-ASCII digits and its limit on length; which error a malformed expression raises.
- The calendar: the date of each minute is a parameter of the scheduler, and EverMatches counts coordinates
  such as the 31st of February that no date has.
- More than one scheduler, and concurrent migrators: the code takes no lock for them.
- A tick that dies half-way through its schedules: a pass either enqueues and stamps or is not a tick.
- DeleteTasks: takes the rows its filters select as a parameter; the six filters, four of them text searches,
  are not modelled.
- FailTask: states the uninterrupted call; the read and the write apart, with anything in between, are steps
  of the machine.
- TryAcquire: returns false where the coroutine would wait.
- HTTP handlers, dashboard, WebSocket loop, client, command line, authentication, sessions, logging, listing
  and text search, and the execution of user functions.
