# favetto: a verified model of its queue, feeds and decoders

Favetto is a daemon that runs tasks from a durable SQLite queue and streams what happens to
web and terminal clients. This project models the parts whose correctness is not visible in
any one function and proves the properties they are for.

* **The task queue.** `Queue` gives each SQL statement's effect on the three tables (tasks,
  runs, dependency edges) as a function or, where SQLite may choose (`ORDER BY` ties), as a
  relation. `TaskStore.Store` is the database object: its methods change the tables in place
  and are proved to have exactly those effects; `StatementEffects` says column by column
  what those are. `QueueRuns` runs arbitrary interleavings of
  one dispatcher holding a listing with every other writer; `ExecutorProtocol` adds what the
  executor does around the statements, `RetryRace` and `LostAttempts` which retries are safe
  among that, and `Dispatch`, `DispatchOrder`, `Retention`, `Retry`
  and `Attention` hold the dependency gate, the order of claims, pruning, automatic retry and
  the attention watcher.
* **Usage statistics.** `Calendar` is proleptic Gregorian arithmetic, proved equal in
  `CivilCalendar` to another day count, `UsageBuckets` the
  bucket bounds and string keys, `UsageStats` the aggregation over the rows.
* **Client feeds.** `CappedFeed` is the reference ("a map of everything pushed, cut to the
  newest"), `EventCache` the durable event feed, `EventResume` what reconnecting leaves in it,
  `TaskFeed` and `TaskFeedRuns` the per-task one.
* **Incremental decoders.** `SseParser`, with `SseFields` for the single fields, and `FrameCodec`.
* **Smaller machines.** `LoginLimiter`, `LoginRace`, `RepoRefs`, and `WorkflowGraph`, `WorkflowOrder`,
  `WorkflowDot` for the workflow graph and its DOT text.

## What the proofs show about the code

* A finish is checked only against "the row is active". `QueueRuns.FinishKeepsAttemptsIff`
  says when that is enough: exactly when the row is not active or the finish carries the
  row's attempt. `QueueRuns.LateFinishOverwritesAttempt` is a run of the statements in which
  a first attempt reports after cancel, requeue and a second claim, and the row falls back to
  attempt 1.
* The executor as a whole can lose an attempt. `retry_task` reads the row, then the active
  run, and then requeues without looking again. `LostAttempts.OverlappingRetriesGetThrough`
  is a run of its own moves in which two retries overlap and the second reopens the row under
  a claimed, unreported run; `LostAttempts.RetriedOneShotGetsThrough` reopens a one-shot,
  which has no run row, while its end is being written. From either, a finish with the old
  attempt can still land. `RetryRace.ExactIff` is the exact condition for any guard on
  retries: attempts stay exact in every run if and only if the guard never lets a row be
  reopened under an unreported run. Making the run check in the requeue itself is enough for
  catalog tasks (`RetryRace.RunsInRequeueIsEnoughForCatalogTasks`), and with the live one-shot
  sessions in the check for all (`RetryRace.CheckInRequeueIsEnough`).
* `fail_task` finishes a task even when its own claim was refused, with the listing's old
  attempt; since one dispatcher holds that listing, this finish always misses
  (`ExecutorProtocol.RefusedFinishMisses`).
* The documentation says that a client which reconnects never misses a task result
  (docs/reference/remote-api.md:1039, docs/reference/supervisor-contract.md:115). The daemon
  replays one page of 500 events and then follows live pushes; the first of these moves the
  cursor past what the page left behind. Every event is delivered if and only if no connection
  skips, that is, has more events published before it subscribed than fit the page, and then a
  live push (`EventResume.CaughtUpIff`). What is skipped is never asked for again
  (`EventResume.SkippedIsLost`). A connection without a live push skips nothing.
* A push that cannot be encoded is sent as a comment that still has its id. The id stays
  pending in the parser, and the next event sent without one arrives under it
  (`SseParser.WireRoundTrip`).
* `TaskFeed::merge` is documented as not dropping live events. Within a session it does not
  (`TaskFeedRuns.RunShows`), but a late window of an older session replaces a newer feed, and
  what had arrived live before is gone (`TaskFeedRuns.LateWindowDropsLiveEvents`).
* The limiter's comment speaks of `max` failures within the window. The window is fixed at an
  entry's first failure, so a sliding span of the same length can hold more: for windows of
  two ticks or more exactly `2 * max - 1`, a bound that is kept (`LoginLimiter.AtMostBound`)
  and reached by every such limiter (`LoginLimiter.BoundIsReached`). `max` per span is kept if
  and only if `max` is 1 or the window at most one tick (`LoginLimiter.KeepsToMaxIff`).
  That is for handlers one after another. With `w` of them between check and verdict an entry
  exceeds `max` by at most `w - 1`, and that too is reached (`LoginRace.ExcessIsReached`).
* `resolve_repo_refs` is idempotent except on a catalog that holds both `repo:<r>/` and
  `repo:<r>/repo:<r>/` and refers to the empty name; `RepoRefs.IdempotentIff` is the exact
  condition. Header validation refuses the empty `needs`, not the empty `spawn`, but a name
  made from a file's path never ends in a slash, so a loaded catalog is resolved for good in
  one pass (`RepoRefs.LoadedIsIdempotent`).
* The workflow graph is documented as independent of the order of the tasks. That holds if
  and only if same-named definitions draw alike (`WorkflowOrder.OrderIrrelevantIff`), which
  a catalog with distinct names meets.
* SQLite's `/ 1000` truncates toward zero, so before 1970 it sees the next whole second. SQL
  and Rust give a timestamp one key if and only if that second does not begin an hour, day or
  month (`UsageBuckets.KeysAgreeIff`). The whole aggregation is right if and only if no run of
  the window finished at such a fraction of a second (`UsageStats.RightIff`); from 1970 on none
  does.
* A gate on dependencies is a property of the listing: `claim_task` does not look at edges
  again, and a task row exists before its edges. The ordering theorem speaks of the edges and
  predecessors on record when a task is listed, and
  `DispatchOrder.EdgeAfterListingDoesNotGate` is a run in which an edge comes too late.
* The gate wedges a quiet queue exactly when every pending task waits its way into a cycle of
  unfinished tasks (`Dispatch.WedgedIff`).

## Model

| member | source | states |
|---|---|---|
| TaskStore.Store.InsertTask | crates/favetto/src/db.rs:267-292 | a new row appears unless its id or dedupe key is taken; nothing else changes |
| TaskStore.Store.ClaimTask | crates/favetto/src/db.rs:1154-1189 | one transaction: a pending row becomes running at the snapshot's attempt plus one and its run row is inserted, or nothing changes; a run id in use is the error |
| TaskStore.Store.FinishActiveTask | crates/favetto/src/db.rs:1059-1096 | writes the outcome exactly when the row is active; reports whether it did; all tables otherwise as before |
| TaskStore.Store.CancelActiveTask | crates/favetto/src/db.rs:1039-1049 | cancels exactly a row that is not terminal yet |
| TaskStore.Store.FailStaleTask | crates/favetto/src/db.rs:961-978 | fails exactly an active row |
| TaskStore.Store.FailPendingTask | crates/favetto/src/db.rs:1100-1117 | fails exactly a pending row |
| TaskStore.Store.RetryStaleTask | crates/favetto/src/db.rs:983-993 | puts exactly an active row back to pending |
| TaskStore.Store.ScheduleTaskRetry | crates/favetto/src/db.rs:1002-1017 | puts exactly a failed row back to pending with a retry deadline |
| TaskStore.Store.RequeueTerminalTask | crates/favetto/src/db.rs:1023-1033 | puts exactly a terminal row back to pending |
| TaskStore.Store.SetTaskStatusIf | crates/favetto/src/db.rs:1315-1328 | the watcher's compare-and-set on the status column |
| TaskStore.Store.InterruptRun | crates/favetto/src/db.rs:940-957 | ends exactly an active run row as interrupted |
| TaskStore.Store.InsertDependency | crates/favetto/src/db.rs:1251-1267 | the edge set with the edge added once |
| TaskStore.Store.NextPendingTasks | crates/favetto/src/db.rs:1126-1145 | the answer is a listing: due, unblocked pending rows, oldest first, cut at the limit and missing none that is older than one listed |
| TaskStore.Store.Newest | crates/favetto/src/db.rs:1713-1716 | the newest rows by creation time, as many as asked for or all |
| TaskStore.Store.Prune | crates/favetto/src/db.rs:1692-1739 | zero days changes nothing; otherwise, with the cutoff `now` minus so many days of 86,400,000 ms, each row that had not finished by then stays unchanged with its runs, each that had loses its output, and it is deleted with its runs unless it is among the newest `min_tasks` |
| TaskStore.PrunedIsRetained | crates/favetto/src/db.rs:1702-1729 | the four statements amount to that, counted in rows created later or no earlier, ties left open |
| TaskStore.NewestIgnoresOutputs | crates/favetto/src/db.rs:1703-1721 | clearing outputs first does not change which rows are newest |
| TaskStore.ListOneMore | crates/favetto/src/db.rs:1138-1138 | taking the oldest remaining ready row keeps the listing ordered, distinct and gap free |
| StatementEffects.InsertWrites | crates/favetto/src/db.rs:267-292 | a row under a free id and a free key is there afterwards as given, without a deadline; otherwise the tables are as before |
| StatementEffects.ClaimWrites | crates/favetto/src/db.rs:1154-1189 | which columns of both tables a claim writes, in which state, and that nothing else changes |
| StatementEffects.FinishWrites | crates/favetto/src/db.rs:1059-1096 | after a finish that lands each outcome column is the reported one, output included; name, key, creation time and deadline are as before |
| StatementEffects.CancelWrites | crates/favetto/src/db.rs:1039-1049 | status and finish time only, of a pending, running or waiting row |
| StatementEffects.FailureWrites | crates/favetto/src/db.rs:961-978 | the failure columns, of an active row by one statement and of a pending one by the other |
| StatementEffects.RetryWrites | crates/favetto/src/db.rs:983-1033 | what the three ways back to pending clear, and from which states each works |
| StatementEffects.StatusWrites | crates/favetto/src/db.rs:1315-1328 | the status column only, of a row in the expected status |
| StatementEffects.SessionWrites | crates/favetto/src/db.rs:1334-1352 | session id and title are filled in where missing and never replaced |
| StatementEffects.InterruptWrites | crates/favetto/src/db.rs:940-957 | the outcome columns of an active run row; task, attempt and start stay |
| StatementEffects.FinalizeWrites | crates/favetto/src/db.rs:1461-1503 | the outcome columns of any run row; task, attempt and start stay |
| StatementEffects.ListedMayStart | crates/favetto/src/db.rs:1126-1138 | every listed task is pending, due, and waits on no unfinished task |
| StatementEffects.ListingCount | crates/favetto/src/db.rs:1138-1142 | as many as may start, or as the limit (at least one) says |
| StatementEffects.ListingIsOldest | crates/favetto/src/db.rs:1127-1138 | oldest first, each once, none left out that is older, without output and deadline |
| QueueRuns.RunKeepsConsistent | crates/favetto/src/db.rs:940-1189 | over every interleaving, `finished_at` is set exactly for terminal rows and no id is reused |
| QueueRuns.FinishedExactlyWhenTerminal | crates/favetto/src/db.rs:1039-1117 | the same from empty tables, for every reachable row |
| QueueRuns.ClaimKeepsAttempts | crates/favetto/src/db.rs:1154-1189 | a claim with a fresh snapshot adds the run of the next attempt and keeps one run per attempt |
| QueueRuns.StepKeepsAttempts | crates/favetto/src/db.rs:980-1189 | every single statement keeps "the runs carry exactly the attempts 1..attempt, each once" |
| QueueRuns.StepKeepsSnapshots | crates/favetto/src/db.rs:1126-1189 | a held snapshot's attempt stays the row's until that row is claimed, whatever the other writers do |
| QueueRuns.RunKeepsExact | crates/favetto/src/db.rs:980-1189 | exact attempts and fresh snapshots hold in every state of every fresh run |
| QueueRuns.AttemptsMatchRuns | crates/favetto/src/db.rs:980-1189 | from empty tables: each surviving task has exactly one run for each of the attempts 1..attempt and no other |
| QueueRuns.FinishKeepsAttemptsIff | crates/favetto/src/db.rs:1059-1096 | a finish keeps the attempt history exact if and only if it misses the row or carries the row's attempt |
| QueueRuns.LateFinishOverwritesAttempt | crates/favetto/src/db.rs:1059-1096 | a concrete run in which a late finish is accepted and sets the attempt back |
| QueueRuns.WorkIsConserved | crates/favetto/src/db.rs:983-1189 | per task and run of any writers with any snapshots: times it became pending equal claims plus drops from pending plus one if still pending |
| QueueRuns.TerminalStep | crates/favetto/src/db.rs:1002-1096 | one step leaves a terminal row's outcome alone, or prunes it, or is a scheduled retry of a failed row or a requeue |
| QueueRuns.OutcomeSticks | crates/favetto/src/db.rs:1002-1096 | over every interleaving without such a reopening, a terminal row is gone for good or unchanged but for a cleared output and a session filled in |
| QueueRuns.OutputSticks | crates/favetto/src/db.rs:1703-1711 | and while no prune reaches it the output stays too |
| QueueRuns.ReportSticks | crates/favetto/src/db.rs:1059-1096 | over every run after a finish that landed, and until a reopening, a row still there holds what was reported, column by column, and its output unless pruned |
| QueueRuns.KeysAreUnique | crates/favetto/src/db.rs:267-270 | in every run from empty tables no two rows share a dedupe key |
| QueueRuns.AfterResumeNotAwaiting | crates/favetto/src/attention.rs:264-270 | after the closing write of the watch loop the row is not awaiting input |
| QueueRuns.TerminalNeverClaimed | crates/favetto/src/db.rs:1154-1189 | a terminal task that nobody reopens is never claimed again |
| QueueRuns.ClaimsFollowEdges | crates/favetto/src/db.rs:1119-1189 | from a listing on: the listed task's present predecessors are terminal and no later step claims them unless they are reopened |
| DispatchOrder.ClaimsAreTopological | crates/favetto/src/db.rs:1119-1189 | over a whole run from empty tables: if the dispatcher claims a task at step i and its predecessor is claimed at step j, with the edge and the predecessor on record when the task was listed, then j comes before that listing, which comes before i |
| DispatchOrder.HeldWasListed | crates/favetto/src/executor.rs:289-303 | whatever the dispatcher holds came out of its latest listing |
| DispatchOrder.EdgeAfterListingDoesNotGate | crates/favetto/src/executor.rs:525-568 | any two fresh tasks: an edge recorded between the listing and the claim does not stop the claim |
| Dispatch.FollowBlockers | crates/favetto/src/db.rs:1126-1145 | in a quiet queue, following blockers from any pending task ends at a ready task or closes a cycle of unfinished tasks |
| Dispatch.DispatchNeverDeadlocks | crates/favetto/src/db.rs:1126-1145 | with nothing in flight and no cycle of unfinished tasks, any pending task makes every listing non-empty, for every limit |
| Dispatch.EmptyListingHasCycle | crates/favetto/src/db.rs:1126-1145 | a quiet queue that lists nothing although a task is pending comes with a cycle that task waits for |
| Dispatch.WedgedIff | crates/favetto/src/db.rs:1126-1145 | a quiet queue lists nothing if and only if every pending task waits its way into a cycle of unfinished tasks |
| Dispatch.CycleIsNeverListed | crates/favetto/src/db.rs:1131-1138 | quiet or not, tasks around a cycle of unfinished tasks are never listed |
| Dispatch.ListedAreUnblocked | crates/favetto/src/db.rs:1119-1138 | a listed task is pending and due and every present predecessor is terminal |
| Retention.PruneKeepsOpenTasks | crates/favetto/src/db.rs:1703-1721 | no task that is not terminal is deleted or changed |
| Retention.PruneKeepsReady | crates/favetto/src/db.rs:1692-1739 | a task is ready before a prune exactly when it is ready after |
| Retention.PruneInvisibleToDispatch | crates/favetto/src/db.rs:1692-1739 | at one instant a sequence answers the listing before a prune if and only if it does after |
| Retention.PruneInvisibleInEveryRun | crates/favetto/src/db.rs:1692-1739 | the same in every reachable state, with no assumption left |
| Retention.PruneDeletesExactly | crates/favetto/src/db.rs:1712-1721 | exactly the expired rows outside the newest `min_tasks` are deleted, and that many (or all) survive |
| Retention.PruneCascades | crates/favetto/src/db.rs:1722-1739 | afterwards every run has its task and every edge both ends, and no other run or edge is lost |
| ExecutorProtocol.MoveIsFresh | crates/favetto/src/executor.rs:572-789 | while every unreported run is anchored, every move of the executor is a possible and fresh step of the queue |
| ExecutorProtocol.MoveKeepsAnchor | crates/favetto/src/server.rs:1944-1963 | a move that does not reopen the row leaves a task with a finish to come gone, or at that finish's attempt and not pending |
| ExecutorProtocol.MoveKeepsAnchors | crates/favetto/src/executor.rs:637-648 | all unreported runs and one-shot ends stay anchored through claims, reports, retries, cancels and restarts |
| ExecutorProtocol.RefusedFinishMisses | crates/favetto/src/executor.rs:1662-1681 | the finish after a refused or rolled-back claim changes nothing |
| ExecutorProtocol.FreshMoveKeepsSteady | crates/favetto/src/executor.rs:271-369 | a fresh move keeps attempts exact and snapshots fresh, and while the dispatcher fails a snapshot its row stays pending, terminal or gone, whatever the others do |
| ExecutorProtocol.ProtocolRefinesFreshRun | crates/favetto/src/executor.rs:205-250 | restarts, reconciliation, retries and one-shots included, every run that never reopens a row under an unreported run is a fresh run of the queue |
| ExecutorProtocol.ProtocolKeepsAttempts | crates/favetto/src/executor.rs:572-789 | such a run from a first boot keeps one run per attempt, and every report still to come carries its row's latest attempt |
| ExecutorProtocol.ProtocolFinishesLatest | crates/favetto/src/executor.rs:1662-1681 | in such a run every finish that lands, from a run, `fail_task` or a one-shot, carries the attempt of its row's latest claim |
| RetryRace.ExactIff | crates/favetto/src/server.rs:1939-1973 | for any guard on retries: attempts are exact in every run under it if and only if it never lets a row be reopened under an unreported run |
| RetryRace.DoomedEnds | crates/favetto/src/executor.rs:271-372 | a row reopened under an unreported run can be listed, claimed again and then finished with the old attempt, whatever else is queued |
| RetryRace.LosesAttempt | crates/favetto/src/server.rs:1963-1963 | every reachable reopening under an unreported run extends to a run that loses an attempt |
| RetryRace.ReportKeepsLive | crates/favetto/src/executor.rs:637-648 | a report cannot take another live run's row, since two such runs would share an attempt |
| RetryRace.OwningIsClean | crates/favetto/src/server.rs:1950-1963 | with the check made in the requeue, a row that may be reopened has no run left to report |
| RetryRace.CheckInRequeueIsEnough | crates/favetto/src/server.rs:1939-1963 | with that check, live one-shot sessions included, attempts are exact in every run |
| RetryRace.RunsInRequeueIsEnoughForCatalogTasks | crates/favetto/src/server.rs:1939-1963 | without one-shots, looking at the run rows in the requeue is enough |
| LostAttempts.OverlappingRetriesGetThrough | crates/favetto/src/server.rs:1944-1973 | two overlapping retries of any submitted task: the second requeue is let through after the first attempt was claimed and cancelled, before it reported |
| LostAttempts.RetriedOneShotGetsThrough | crates/favetto/src/server.rs:1673-1733 | any one-shot that is cancelled and retried while its end is written passes every check of run rows |
| LostAttempts.NoGuardLosesAttempts | crates/favetto/src/server.rs:1944-1973 | so some run of the executor as it is loses an attempt |
| LostAttempts.RunsInRequeueIsNotEnough | crates/favetto/src/server.rs:1556-1582 | and with one-shots so does one whose requeue looks at the run rows |
| Retry.RetrySettings.ExponentialIsExact | crates/favetto-core/src/config.rs:750-760 | saturating arithmetic never shows: the delay is min(initial * 2^min(attempt-1, 31), max) |
| Retry.RetrySettings.DelayIsMonotone | crates/favetto-core/src/config.rs:747-760 | the delay never decreases from one attempt to a later one |
| Retry.RetrySettings.DelayDoubles | crates/favetto-core/src/config.rs:747-760 | below the cap and the 32nd attempt each delay is twice the one before |
| Retry.RetrySettings.FixedIsConstant | crates/favetto-core/src/config.rs:747-760 | a fixed backoff waits the smaller of initial delay and cap |
| Retry.Pow2Fits | crates/favetto-core/src/config.rs:755-755 | the shifted one fits 64 bits for every shift below 64 |
| Retry.AttemptOnce | crates/favetto/src/executor.rs:134-165 | one failing attempt: retried exactly when it is retryable, of an enabled kind and within the budget, due after the policy's delay and on no listing before; else failed for good; no other task touched |
| Retry.RunUntilGivenUp | crates/favetto/src/executor.rs:134-165 | claim, fail, retry from attempt 0 ends after at most max(1, max_attempts) attempts and (max_attempts - 1) * max_ms of delay, stops exactly where the policy first refuses, and touches no other task |
| Attention.Debouncer.Observe | crates/favetto/src/attention.rs:67-99 | the streak counters take exactly the step of the reference machine and give its edge |
| Attention.MatchAppended | crates/favetto/src/attention.rs:71-86 | how one more match changes "two matches in a row came last" |
| Attention.MissAppended | crates/favetto/src/attention.rs:87-97 | how one more miss changes it: only a third miss in a row does |
| Attention.ReplayMeaning | crates/favetto/src/attention.rs:53-60 | what all three fields mean in terms of the whole history |
| Attention.ConfirmedIff | crates/favetto/src/attention.rs:38-42 | after any history: confirmed exactly when two matches in a row occurred with no three misses in a row since |
| Attention.ReasonIsLatest | crates/favetto/src/attention.rs:67-78 | the stored reason is the latest match |
| Attention.EdgeIff | crates/favetto/src/attention.rs:67-99 | a Mark is emitted exactly with the second match in a row while unconfirmed and carries that match, a Clear exactly with the third miss in a row while confirmed |
| Attention.EdgesAlternate | crates/favetto/src/attention.rs:44-51 | emitted edges alternate Mark, Clear, starting with Mark, and the parity says whether it is confirmed |
| Attention.Watcher.Reconcile | crates/favetto/src/attention.rs:315-331 | the row moves only between running and awaiting input, and an active row shows the flag |
| Attention.Watcher.FoldEvents | crates/favetto/src/attention.rs:191-216 | the first structured event drops the screen signal; an active row then shows the last event that concerns input |
| Attention.Watcher.Poll | crates/favetto/src/attention.rs:187-240 | whatever others wrote, after a poll an active row shows the debounced signal or the structured state |
| Attention.Watcher.Watch | crates/favetto/src/attention.rs:178-275 | over all rounds: until the first structured event the row mirrors "two matches came last" of the screen history, then the events; when the loop stops and why; afterwards the row is not awaiting input |
| Calendar.MonthOfDayIff | crates/favetto/src/db.rs:1648-1652 | a day's month is the one whose first day and successor's first day enclose it |
| Calendar.DateRoundTrip | crates/favetto/src/db.rs:1648-1661 | year, month and day determine the day number they came from |
| Calendar.YearStartIsFormula | crates/favetto/src/db.rs:1655-1661 | adding month lengths agrees with the 4/100/400 leap rule's closed form in every year |
| Calendar.MonthFloorIs | crates/favetto/src/db.rs:1648-1652 | the first instant of the instant's own month |
| Calendar.AddMonthsIs | crates/favetto/src/db.rs:1655-1661 | the carry is right for every delta: the month index shifts and the day is the first |
| Calendar.AddMonthsAdds | crates/favetto/src/db.rs:1655-1671 | shifting twice is shifting by the sum |
| CivilCalendar.DayNumberIsCivil | crates/favetto/src/db.rs:1648-1661 | counting month by month agrees with the era method on every date of every year |
| CivilCalendar.BucketShapes | crates/favetto/src/db.rs:1600-1671 | 24 whole hours, 7 or 30 whole days, or 12 months each from a first to the next |
| UsageBuckets.SqlKeyIsBucketKey | crates/favetto/src/db.rs:1532-1541 | the key SQL formats is the key Rust formats for the whole second SQL sees, before and after 1970 |
| UsageBuckets.MisplacedIff | crates/favetto/src/db.rs:1534-1541 | that second lies in the timestamp's own hour, day or month unless it begins the next one |
| UsageBuckets.KeysAgreeIff | crates/favetto/src/db.rs:1534-1541 | SQL and Rust give a timestamp one key if and only if it is not a fraction of a second before 1970 whose next whole second begins a slot |
| UsageBuckets.KeyIffSlot | crates/favetto/src/db.rs:1621-1629 | two instants have one key exactly when they share the hour, day or month |
| UsageBuckets.SlotIff | crates/favetto/src/db.rs:1632-1652 | an instant's slot is the one whose bounds enclose it |
| UsageBuckets.BucketIsSlot | crates/favetto/src/db.rs:1600-1671 | the i-th of 24, 7, 30 or 12 buckets is the slot that many before the slot of `now` |
| UsageBuckets.BucketsTile | crates/favetto/src/db.rs:1600-1671 | the buckets are non-empty, adjacent, of fixed number, and the last contains `now` |
| UsageBuckets.InstantInWindow | crates/favetto/src/db.rs:1523-1532 | every instant of the window lies in one of its slots and has a year the formats can write |
| UsageBuckets.InRangeSince1970 | crates/favetto/src/db.rs:1600-1671 | from 1970 until the year 9999 every window is in the range of the formats |
| UsageBuckets.KeyMatchesBucket | crates/favetto/src/db.rs:1534-1580 | for every instant of the window, its SQL key is a bucket's key if and only if the second SQL sees lies in that bucket; unless misplaced, if and only if the run does |
| UsageBuckets.BucketKeysDistinct | crates/favetto/src/db.rs:1575-1590 | no two buckets of a window share a key |
| UsageBuckets.TruncationMisplacesNegative | crates/favetto/src/db.rs:1534-1541 | every misplaced timestamp is keyed into the slot after its own |
| UsageBuckets.LastSecondBefore1970 | crates/favetto/src/db.rs:1534-1541 | the last 999 milliseconds before 1970 are misplaced for every period |
| UsageStats.GroupIsDirectSum | crates/favetto/src/db.rs:1542-1573 | a group's tally is the sum over the runs whose key it is, at the seconds SQL sees |
| UsageStats.DirectSumSplits | crates/favetto/src/db.rs:1577-1590 | sums over adjacent spans add up to the sum over both |
| UsageStats.CollectGroups | crates/favetto/src/db.rs:1558-1573 | the map built row by row gives each key the merged tally of its rows |
| UsageStats.FillBuckets | crates/favetto/src/db.rs:1575-1592 | taking keys out one by one gives every bucket its group and totals the fold of the buckets |
| UsageStats.TotalIsWindow | crates/favetto/src/db.rs:1575-1592 | folding the buckets gives the direct sum over the whole window |
| UsageStats.MisplacedIsMissed | crates/favetto/src/db.rs:1534-1573 | a misplaced run is missing from the count up to the end of its bucket, and nothing makes up for it |
| UsageStats.RightIff | crates/favetto/src/db.rs:1511-1598 | buckets and totals are the direct sums over the finished runs if and only if no run of the window is misplaced |
| UsageStats.RightSince1970 | crates/favetto/src/db.rs:1511-1598 | with timestamps from 1970 on and `now` before the year 10000, that condition holds |
| UsageStats.DirectSumAddsUp | crates/favetto-wire/src/agent_state.rs:97-108 | each column of a tally over a span is the plain sum of what the runs in it report; cost is absent exactly when none reported one, else their sum |
| UsageStats.UsageStats | crates/favetto/src/db.rs:1511-1598 | for every period, `now` and run table: every column of every bucket and of the totals is the plain sum over the runs with start <= finished_at < end, cost absent exactly when none reported one, if and only if no run is misplaced; otherwise the same at the seconds SQL sees |
| CappedFeed.NewestUnique | web/src/state.rs:207-229 | the newest cut of a map is one sequence only |
| CappedFeed.NewestIdsUnique | web/src/state.rs:199-206 | the ids kept depend only on the set of ids ever pushed |
| CappedFeed.NewestCount | web/src/state.rs:224-227 | as many entries as ids, up to the cap |
| CappedFeed.LastWinsMeans | web/src/state.rs:199-203 | an id holds the payload that was pushed last under it |
| CappedFeed.FirstWinsMeans | web/src/state.rs:90-94 | in a merge an id holds the copy that was there first |
| CappedFeed.UpsertMeaning | web/src/state.rs:207-223 | the entry is in once, everything else stays, the order stays strict |
| CappedFeed.PushKeepsNewest | web/src/state.rs:207-229 | push then cut is the newest cut of the map with that id overwritten |
| EventCache.BinarySearch | web/src/state.rs:219-222 | finds the id's index or the only place where it can go |
| EventCache.Cache.PushEvent | web/src/state.rs:207-229 | append, replace and binary-search paths all give the one reference result, and the cursor is the maximum |
| EventCache.Cache.PushAll | web/src/state.rs:207-229 | after any pushes from empty, the feed is the newest 500 ids each with its last payload and the cursor the greatest id pushed |
| EventCache.Cache.Receive | web/src/state.rs:207-229 | pushing what a stream delivers is the fold of the reference push, on feed and cursor |
| EventResume.Resumable | crates/favetto/src/event_bus.rs:98-154 | what a subscriber is sent: one page after its cursor, if it has one, and then every push received live |
| EventResume.SentIsResumed | crates/favetto/src/db.rs:401-410 | that page is the stretch of the log from the cursor to the limit or to what was stored when it was read |
| EventResume.SkipsIff | crates/favetto/src/event_bus.rs:102-130 | a connection with a live push skips something exactly when more had been published since the cursor than fits the page |
| EventResume.UnskippedIsTail | crates/favetto/src/event_bus.rs:98-154 | a connection that skips nothing leaves the newest 500 of an unbroken stretch of the log that ends at the cursor |
| EventResume.ResumedIff | crates/favetto/src/event_bus.rs:98-154 | after a live push the feed is that tail if and only if nothing was skipped or 500 live events have pushed the hole out |
| EventResume.CursorStands | web/src/sse.rs:126-131 | the cursor ends up behind exactly the events up to the last one delivered |
| EventResume.SkippedIsLost | crates/favetto/src/event_bus.rs:119-137 | the first event behind the page of a connection that skips is passed by the cursor and delivered by no later connection |
| EventResume.CaughtUpIff | crates/favetto/src/event_bus.rs:98-154 | over any number of connections every event up to the cursor was delivered if and only if none skipped |
| EventResume.CaughtUpFeed | crates/favetto/src/event_bus.rs:98-154 | then the feed is the newest 500 of an unbroken stretch of the log that ends at the cursor |
| EventCache.ArrivalOrderIrrelevant | web/src/state.rs:199-206 | clients that saw the same ids keep the same ids, whatever the order |
| EventCache.ReplayIsInvisible | web/src/state.rs:199-203 | a replayed event, kept or long dropped, changes neither feed nor cursor |
| EventCache.TailIsNewest | crates/favetto/src/db.rs:389-398 | the tail query is the newest cut of the log |
| EventCache.OverlapIsInvisible | crates/favetto/src/db.rs:389-410 | any already read event of the log can be replayed onto a caught-up cache unseen |
| TaskFeed.TaskFeed.Push | web/src/state.rs:57-77 | another session starts afresh, an old `seq` is refused, a new one is appended and the feed cut; well-formed throughout |
| TaskFeed.TaskFeed.Merge | web/src/state.rs:79-106 | same session, any window: the newest 500 of the union with the live copy winning, and `last_seq` never lower; other session: replaced; unresolved: ignored |
| TaskFeed.SortHolds | web/src/state.rs:95-95 | sorting distinct entries keeps exactly the union and orders it strictly |
| TaskFeed.DedupKeepsAscending | web/src/state.rs:96-96 | the dedup after the sort never removes anything |
| TaskFeed.TrimIsNewest | web/src/state.rs:97-100 | dropping the front of the sorted union leaves its newest part |
| TaskFeed.AcceptedPushKeepsNewest | web/src/state.rs:67-76 | an accepted live push keeps the feed the newest cut of what it saw |
| TaskFeed.LiveEventSurvives | web/src/state.rs:79-100 | a live event is lost in a merge only to 500 newer ones |
| TaskFeedRuns.MergeIsNewestOfAll | web/src/state.rs:90-100 | ids cut off earlier stay cut off: after a merge the feed is the newest 500 of everything ever heard |
| TaskFeedRuns.RunShows | web/src/state.rs:55-106 | over any mix of pushes and merges of a session the feed is the newest 500 of everything accepted, first copies winning, and `last_seq` the highest `seq` heard |
| TaskFeedRuns.LateWindowDropsLiveEvents | web/src/state.rs:79-89 | after a late window of another session the live session's next event starts a feed of its own |
| SseParser.Parser.PushBytes | web/src/sse.rs:66-78 | events and state equal the one-shot reading: split on LF, strip one CR, fold the lines; no complete line stays buffered |
| SseParser.Parser.Line | web/src/sse.rs:80-122 | one line changes the frame and emits as the reference says |
| SseParser.LinesAppend | web/src/sse.rs:67-73 | a longer input has the same first lines; the remainder completes the buffered part |
| SseParser.OneShotAppend | web/src/sse.rs:67-78 | reading two pieces is reading their concatenation |
| SseParser.ChunkingIrrelevant | web/src/sse.rs:40-45 | every cutting of every byte string gives the events and state of one push of the whole |
| SseParser.CuttingsAgree | web/src/sse.rs:40-45 | two cuttings of the same bytes are indistinguishable |
| SseParser.FrameRoundTrip | web/src/sse.rs:80-122 | an event comes back with the payload that was sent and leaves a fresh parser; a comment as nothing; an id without data stays pending and fills in for a missing one |
| SseParser.JoinedPayload | web/src/sse.rs:115-121 | the data lines of a payload join to the payload, one line or many |
| SseParser.CutOfJoin | web/src/sse.rs:115-121 | cutting the data that arrives at its newlines gives back exactly the lines sent |
| SseFields.LineEndsAgree | web/src/sse.rs:70-74 | a line that ends in CR LF reads as one that ends in LF |
| SseFields.FieldWithoutSpace | web/src/sse.rs:93-96 | the space after the colon is optional, and so is the colon |
| SseFields.IgnoredFields | web/src/sse.rs:97-111 | an id with a NUL and any unknown field change nothing |
| SseFields.BlankWithoutData | web/src/sse.rs:81-88 | a blank line dispatches what is pending exactly when there is data, and otherwise keeps it |
| SseFields.RetryIsRead | web/src/sse.rs:105-109 | a retry line sets the number it spells, if it fits 64 bits |
| SseFields.ParseSigned | web/src/sse.rs:34-37 | every 64-bit id is read as itself, anything beyond as nothing |
| SseFields.CursorIsId | web/src/sse.rs:34-37 | the cursor of an event is the number its id spells, white space aside |
| SseParser.WireRoundTrip | crates/favetto/src/server.rs:347-380 | any sequence of events, comments and dropped events, as bytes and in any cutting, is received in order; with exactly the ids and payloads meant if and only if every dropped one is followed by an event with its own id, or by none |
| SseParser.NothingDropped | crates/favetto/src/server.rs:364-380 | without dropped events that holds and the parser is fresh again |
| SseParser.CommentsInvisible | web/src/sse.rs:89-92 | a comment line anywhere, even within a frame, changes nothing |
| SseParser.CursorIsMaximum | web/src/sse.rs:125-131 | the cursor is the greatest of its start and all ids seen |
| FrameCodec.Le4RoundTrip | crates/favetto-core/src/wire.rs:64-64 | the four length bytes give back the length |
| FrameCodec.Decode | crates/favetto-core/src/wire.rs:60-80 | one decode as a function of the buffer, errors included; `None` consumes no byte |
| FrameCodec.Encode | crates/favetto-core/src/wire.rs:86-93 | appends the length in four bytes, lowest first, and the payload; refuses exactly a payload over 64 MiB or a serialiser error, and then appends nothing |
| FrameCodec.DecodeByLength | crates/favetto-core/src/wire.rs:60-80 | by the length its first four bytes spell: too large is an error that consumes nothing, too short waits, else the payload is decoded or is an error that consumes the frame |
| FrameCodec.DrainBuffer | crates/favetto-core/src/wire.rs:53-81 | decoding until `None` gives the frames, the remainder and the error of the reference |
| FrameCodec.DrainAppend | crates/favetto-core/src/wire.rs:60-80 | more bytes never change the frames or the error already found |
| FrameCodec.ChunkingIrrelevant | crates/favetto-core/src/wire.rs:60-80 | every chunking of every byte string, valid or not, gives the frames and error of the whole |
| FrameCodec.DecodeFramed | crates/favetto-core/src/wire.rs:60-93 | an encoded frame decodes to itself and leaves what follows |
| FrameCodec.DecodePartial | crates/favetto-core/src/wire.rs:61-74 | with a byte missing nothing is decoded or consumed |
| FrameCodec.PrefixYieldsReceived | crates/favetto-core/src/wire.rs:53-93 | on any prefix of an encoded stream exactly the frames received in full come out, and the kept bytes begin the next |
| FrameCodec.StreamRoundTrip | crates/favetto-core/src/wire.rs:53-93 | every chunking of an encoded stream gives back exactly its frames and an empty buffer |
| LoginLimiter.Limiter.Login | crates/favetto/src/auth.rs:115-156 | the handler's effect on the limiter: locked requests are refused unread, failures recorded, success clears |
| LoginLimiter.ServedEntry | crates/favetto/src/auth.rs:56-86 | a request changes one key's entry only, by pruning and by its own outcome |
| LoginLimiter.RunKeepsBook | crates/favetto/src/auth.rs:33-38 | over every run, what the entry says about the key's failure history |
| LoginLimiter.EntryCountsItsFailures | crates/favetto/src/auth.rs:69-86 | an entry counts the failures since its first one, all within its window, at most `max` |
| LoginLimiter.AtMostBound | crates/favetto/src/auth.rs:45-47 | without a success no span of the window's length holds more recorded failures than 2 * max - 1, or max for a window of one tick |
| LoginLimiter.FailMore | crates/favetto/src/auth.rs:69-76 | failures at one instant all count while the entry has room for them |
| LoginLimiter.BoundIsReached | crates/favetto/src/auth.rs:56-86 | for every max and every window that bound is reached, by a burst across the end of the window |
| LoginLimiter.KeepsToMaxIff | crates/favetto/src/auth.rs:45-47 | no span of any run of handlers in turn holds more than max failures if and only if max is 1 or the window is at most one tick |
| LoginRace.EntryExceedsByAtMost | crates/favetto/src/auth.rs:115-156 | with at most w handlers of a key between check and verdict its entry never counts more than max + w - 1 |
| LoginRace.ExcessIsReached | crates/favetto/src/auth.rs:115-156 | for every max and w a run of handlers reaches that count |
| RepoRefs.ResolveRepoRefs | crates/favetto-core/src/tasks.rs:635-660 | the array holds, definition by definition, the resolution against the names it held at the start |
| RepoRefs.ResolveOne | crates/favetto-core/src/tasks.rs:641-658 | one definition's `needs` and `spawn` are resolved, every other field is kept |
| RepoRefs.SplitIff | crates/favetto-core/src/tasks.rs:564-595 | a name splits into repo and path exactly when it is their qualification, with a slash-free repo and neither part empty |
| RepoRefs.NeedsPartsQualified | crates/favetto-core/src/tasks.rs:302-317 | a repo prefix moves the source and never the kind, for every value |
| RepoRefs.SuffixKinds | crates/favetto-core/src/tasks.rs:302-317 | which kind each of the five suffixes gives, for every source |
| RepoRefs.NoSuffix | crates/favetto-core/src/tasks.rs:314-316 | any other value is a source as it stands |
| RepoRefs.ResolvesBoth | crates/favetto-core/src/tasks.rs:641-658 | of a task of a repo both references are resolved, each to `repo:<repo>/` and itself exactly when it is bare and that name is in the catalog |
| RepoRefs.ResolvesOwnRepoOnly | crates/favetto-core/src/tasks.rs:641-650 | a reference is rewritten exactly when it is bare and the own repo defines it, and keeps its kind |
| RepoRefs.ResolutionKeeps | crates/favetto-core/src/tasks.rs:627-634 | names, global tasks, qualified references and kinds stay; a rewritten reference names a catalog task |
| RepoRefs.NeedsTwice | crates/favetto-core/src/tasks.rs:641-650 | when resolving a `needs` twice is resolving it once |
| RepoRefs.IdempotentIff | crates/favetto-core/src/tasks.rs:635-660 | the pass is idempotent if and only if no definition refers to the empty name in a repo that holds both trap names |
| RepoRefs.NamedRefsAreIdempotent | crates/favetto-core/src/tasks.rs:641-658 | definitions whose references are not empty are resolved for good in one pass |
| RepoRefs.LoadedIsIdempotent | crates/favetto-core/src/tasks.rs:689-697 | so is every catalog of which no name ends in a slash, as no name made from a path does |
| RepoRefs.EmptyReferenceIsRewrittenTwice | crates/favetto-core/src/tasks.rs:651-658 | a catalog on which a second pass rewrites again |
| WorkflowGraph.SortIsStable | crates/favetto-core/src/workflow.rs:31-32 | the sort is an ordered rearrangement that leaves equal names in their order |
| WorkflowGraph.LeIsLexicographic | crates/favetto-core/src/workflow.rs:32-32 | the order of names: a prefix first, else the first differing character |
| WorkflowGraph.BuildGraph | crates/favetto-core/src/workflow.rs:31-95 | the loops build the graph whose nodes and edges the lemmas below describe |
| WorkflowGraph.Externals | crates/favetto-core/src/workflow.rs:48-63 | the loop collects the referenced names outside the catalog in one ordered set |
| WorkflowGraph.EdgesInOrder | crates/favetto-core/src/workflow.rs:70-92 | each definition's spawn edge, then its needs edge, in name order |
| WorkflowGraph.EdgeIff | crates/favetto-core/src/workflow.rs:70-92 | an edge is drawn exactly for a `spawn` or a `needs` of some definition, with the direction and kind of each |
| WorkflowGraph.NeedsEdgeKinds | crates/favetto-core/src/workflow.rs:79-92 | the kind of edge each suffix draws, from the task waited for to the one that waits |
| WorkflowGraph.SpawnBeforeNeeds | crates/favetto-core/src/workflow.rs:70-92 | a definition's spawn edge stands before its needs edge |
| WorkflowGraph.ForeignIff | crates/favetto-core/src/workflow.rs:46-68 | a name is external exactly when it is referred to and no definition carries it; external names are strictly ascending |
| WorkflowGraph.NodesAre | crates/favetto-core/src/workflow.rs:36-68 | one node per definition in name order, then one per external name |
| WorkflowGraph.NodesDistinctIff | crates/favetto-core/src/workflow.rs:36-68 | node names are unique exactly when the definitions' names are |
| WorkflowGraph.EdgeEndsAreNodes | crates/favetto-core/src/workflow.rs:25-95 | every edge ends in nodes of the graph, with distinct names in one node each |
| WorkflowOrder.DrawnPermuted | crates/favetto-core/src/workflow.rs:31-92 | lists drawn per definition agree on every rearrangement when same-named blocks commute |
| WorkflowOrder.OrderIrrelevantIff | crates/favetto-core/src/workflow.rs:25-30 | no rearrangement changes the graph if and only if same-named definitions draw alike |
| WorkflowOrder.DistinctIsUnordered | crates/favetto-core/src/workflow.rs:25-30 | with distinct names every rearrangement gives the same graph |
| WorkflowOrder.DuplicateNameShows | crates/favetto-core/src/workflow.rs:13-13 | two definitions of one name, one scheduled: their order shows |
| WorkflowDot.DotEscapeIsOnePass | crates/favetto-core/src/workflow.rs:22-24 | the two replacement passes equal one pass that puts a backslash before each backslash and quote |
| WorkflowDot.UnescapeEscape | crates/favetto-core/src/workflow.rs:22-24 | an unescaper undoes the escape |
| WorkflowDot.DotEscapeInjective | crates/favetto-core/src/workflow.rs:22-24 | distinct names get distinct ids |
| WorkflowDot.EscapeDelimits | crates/favetto-core/src/workflow.rs:22-24 | an escaped name ends at the first quote behind it and nowhere else |
| WorkflowDot.BuildDot | crates/favetto-core/src/workflow.rs:100-153 | the text is the header, a line per node, a line per edge and the brace |
| WorkflowDot.LinesAre | crates/favetto-core/src/workflow.rs:108-149 | the text of each of the three kinds of node line and five kinds of edge line |
| WorkflowDot.DotDeterminesGraph | crates/favetto-core/src/workflow.rs:100-153 | equal texts come from equal graphs, whatever characters the names hold |
| WorkflowDot.DotUnorderedIff | crates/favetto-core/src/workflow.rs:97-99 | no rearrangement changes the text if and only if same-named definitions draw alike |

## Left out

- SQL text, connection pools, migrations, row decoding and database errors: only the statements' effect on the tables is modelled, and every statement succeeds.
- Integer widths of attempts, sequence numbers, timestamps, token counts and row limits: unbounded here. The retry delay (64-bit saturation) and the limiter's counter (32-bit saturation) are modelled with their widths.
- Cost: an optional exact number, so the order of addition does not matter; the source adds floating point.
- `prune` of events, notifications and webhook deliveries, its counters, VACUUM and the checkpoint: plain deletions by age. Its statements are not one transaction; `TaskStore.Store.Prune` runs them together, `QueueRuns` as separate steps.
- Run ids: parameters. A run id already in use makes the claim an error; the rest of the transaction is rolled back.
- SQL's `GROUP BY` is the function `UsageStats.GroupBy`; order of groups is not modelled, since the map that is built from them does not depend on it.
- UsageStats.UsageStats: asks that the first bucket and `now` lie in years 0 to 9999, because beyond them the four-digit keys of the two formats end.
- QueueRuns.AttemptsMatchRuns: assumes that claims use the dispatcher's held snapshots and finishes carry the row's attempt. `ExecutorProtocol` derives both from the executor's moves as long as no row is reopened under an unreported run, which the code does not ensure (see above). That a one-shot finish takes the attempt it reads, even when that attempt is another run's, keeps the history exact and is not held against it.
- DispatchOrder.ClaimsAreTopological: speaks of the edges and predecessors on record at the listing, since rows are inserted before their edges and an edge may name a task that is inserted later; predecessors that are retried or requeued are outside it.
- EventResume.CaughtUpIff: events are published in the order of their ids and live delivery is unbroken until the stream ends. Two emitters that overtake each other between storing and publishing, and a WebSocket subscriber that lags and goes on, are outside it, as are clients that connect without a cursor. `AppState::set_cursor`, which may move the cursor back, is not part of this model.
- EventResume.UnskippedIsTail: asks that what the feed starts with had been published when the stream ended.
- TaskFeed.TaskFeed.Merge: a window of another session replaces the feed as it comes, so the feed is then well formed only if the server's reply was.
- SseParser.Parser.PushBytes: lossy UTF-8 decoding is an arbitrary function of one line's bytes; `SseParser.WireRoundTrip` asks that it gives back the lines that were encoded. As in the code there is no byte-order-mark handling, a lone CR does not end a line, and a blank line without data does not reset the pending id or event type.
- FrameCodec.StreamRoundTrip: the payload codec is a parameter, asked only to round-trip the frames sent; MessagePack itself is not modelled.
- LoginLimiter.AtMostBound: handlers run one after another; `LoginRace` bounds an entry, not a span, when they overlap. Password checking is the request's outcome.
- Attention.Watcher.Watch: other writers act between polls, not between two writes of one poll; the emitted notifications, the session's awaiting-input slot and the timing of the turn probe are left out.
- Rows and definitions carry the fields that the modelled code reads or writes. A definition's other header fields (agent, prompt, action and so on) pass through `resolve_repo_refs` and `build_graph` unread.
- Workflow file output (atomic write, regeneration), the executor's processes, the scheduler, HTTP, web views, notifications, providers and the task file parser: I/O or thin mapping.
- The stream reader's reconnect backoff (`web/src/sse.rs`): the same shape as the retry delay, which is modelled.
