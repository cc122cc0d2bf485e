/**
 What the executor does around the queue's statements.  A run reports its outcome
 once, with the attempt it was claimed under, before its run row is settled.  A manual
 retry reads the row, then the active run, and only then requeues.  A one-shot task is
 inserted running, and its end reads the row before it writes the outcome.  A task that
 cannot even be started is finished although its claim may have been refused.

 As long as no requeue reopens a row while an unreported run of it lives, every run of
 this protocol is a `Possible` and `Fresh` run of the queue, so its attempts stay exact.
 `RetryRace` shows that nothing less will do.
 */
module ExecutorProtocol {
  import opened Options
  import opened Queue
  import opened QueueRuns

  datatype LiveRun = LiveRun(taskId: Uuid, attempt: nat, reported: bool)

  /**
   Retries on their way: the row was read as terminal; no active run was found either;
   a failure that landed may be re-enqueued by its own run.
   */
  datatype Retries = Retries(read: multiset<Uuid>, checked: multiset<Uuid>, due: multiset<Uuid>)

  const NO_RETRIES := Retries(multiset{}, multiset{}, multiset{})

  /**
   `failing` is the snapshot the dispatcher is failing although its claim was refused.
   `shots` are the live one-shot sessions, `ending` those that have read their row, with
   the attempt they read.
   */
  datatype Daemon = Daemon(
    sys: System, live: map<Uuid, LiveRun>, failing: Option<Task>, retries: Retries,
    shots: set<Uuid>, ending: map<Uuid, nat>, booting: bool)

  datatype Move =
    | Dispatch(step: Step)                      // list, skip, claim
    | Refused                                   // `fail_task`: the popped snapshot's claim misses or rolls back
    | FailRefused(outcome: TaskRow)             // ... and is finished all the same, with the snapshot's attempt
    | Report(runId: Uuid, outcome: TaskRow)     // the run's `finish_active_task`
    | Settle(runId: Uuid, run: RunRow)          // then its `finalize_task_run`
    | AutoRetry(id: Uuid, at: Millis)           // then, if it failed, its `schedule_task_retry`
    | RetryRead(id: Uuid)                       // `retry_task`: the row is terminal
    | RetryCheck(id: Uuid)                      // ... no run row is active
    | ManualRetry(id: Uuid)                     // ... and the requeue, which looks at neither again
    | OneShot(task: Task)                       // inserted running, with no run row
    | EndShot(id: Uuid)                         // `finish_oneshot` reads the row
    | FinishShot(id: Uuid, outcome: TaskRow)    // ... and writes the outcome with the attempt it read
    | Other(step: Step)                         // enqueue, edges, cancel, session, watcher, retention
    | Restart
    | Reconcile(step: Step)
    | Open

  const BOOT := Daemon(START, map[], None, NO_RETRIES, {}, map[], true)

  predicate IsDispatch(step: Step) { step.List? || step.SkipHeld? || step.ClaimHeld? }

  /** An edge never joins a task to itself: a new task's id is fresh, and created graphs are acyclic. */
  predicate IsOther(step: Step) {
    match step
    case Insert(t) => t.row.attempt == 0 && t.row.status.Pending?
    case Write(_, u) => u.Cancel? || u.SetSession? || u.SetStatusIf?
    case AddEdge(id, p) => id != p
    case _ => step.PruneOutputs? || step.PruneTasks? || step.PruneRuns? || step.PruneEdges?
  }

  predicate IsReconcile(step: Step) {
    step.Interrupt? || (step.Write? && (step.update.FailStale? || step.update.RetryStale? || step.update.FailPending?))
  }

  predicate HasActiveRun(db: Tables, id: Uuid) {
    exists r :: r in db.runs && db.runs[r].taskId == id && db.runs[r].status.Active()
  }

  ghost predicate Enabled(d: Daemon, m: Move) {
    match m
    case Dispatch(step) =>
      && !d.booting && d.failing.None? && IsDispatch(step) && Possible(d.sys, step)
      && (step.ClaimHeld? ==> step.runId !in d.live)
    case Refused => !d.booting && d.failing.None? && d.sys.held != []
    case FailRefused(o) => d.failing.Some? && o.status.Failed? && o.finishedAt.Some?
    case Report(r, o) => r in d.live && !d.live[r].reported && o.status.Terminal() && o.finishedAt.Some?
    case Settle(r, run) => r in d.live && d.live[r].reported && !run.status.Active()
    case AutoRetry(id, _) => id in d.retries.due
    case RetryRead(id) => id in d.sys.db.tasks && d.sys.db.tasks[id].status.Terminal()
    case RetryCheck(id) => id in d.retries.read && !HasActiveRun(d.sys.db, id)
    case ManualRetry(id) => id in d.retries.checked
    case OneShot(t) => !d.booting && t.row.status.Running? && t.row.attempt == 0 && Possible(d.sys, Insert(t))
    case EndShot(id) => id in d.shots
    case FinishShot(id, o) => id in d.ending && o.status.Terminal() && o.finishedAt.Some?
    case Other(step) => IsOther(step) && Possible(d.sys, step)
    case Restart => true
    case Reconcile(step) => d.booting && IsReconcile(step)
    case Open => true
  }

  /** The queue step a move performs, if any. */
  function QueueStep(d: Daemon, m: Move): seq<Step> {
    match m
    case Dispatch(step) => [step]
    case Refused => [SkipHeld]
    case FailRefused(o) =>
      if d.failing.None? then []
      else [Write(d.failing.value.id, Finish(o.(attempt := d.failing.value.row.attempt)))]
    case Report(r, o) => if r in d.live then [Write(d.live[r].taskId, Finish(o.(attempt := d.live[r].attempt)))] else []
    case Settle(r, run) => [Finalize(r, run)]
    case AutoRetry(id, at) => [Write(id, ScheduleRetry(at))]
    case RetryRead(_) => []
    case RetryCheck(_) => []
    case ManualRetry(id) => [Write(id, Requeue)]
    case OneShot(t) => [Insert(t)]
    case EndShot(_) => []
    case FinishShot(id, o) => if id in d.ending then [Write(id, Finish(o.(attempt := d.ending[id])))] else []
    case Other(step) => [step]
    case Restart => [ForgetHeld]
    case Reconcile(step) => [step]
    case Open => []
  }

  function NextLive(d: Daemon, m: Move): map<Uuid, LiveRun> {
    match m
    case Dispatch(ClaimHeld(r, now)) =>
      if d.sys.held != [] && Claims(d.sys.db, d.sys.held[0], r, now)
      then d.live[r := LiveRun(d.sys.held[0].id, d.sys.held[0].row.attempt + 1, false)] else d.live
    case Report(r, _) => if r in d.live then d.live[r := d.live[r].(reported := true)] else d.live
    case Settle(r, _) => d.live - {r}
    case Restart => map[]
    case _ => d.live
  }

  function NextFailing(d: Daemon, m: Move): Option<Task> {
    match m
    case Refused => if d.sys.held != [] then Some(d.sys.held[0]) else None
    case FailRefused(_) => None
    case Restart => None
    case _ => d.failing
  }

  function NextRetries(d: Daemon, m: Move): Retries {
    var r := d.retries;
    match m
    case Report(run, o) =>
      if run in d.live && o.status.Failed? && Hits(d.sys.db, d.live[run].taskId, Finish(o))
      then r.(due := r.due + multiset{d.live[run].taskId}) else r
    case AutoRetry(id, _) => r.(due := r.due - multiset{id})
    case RetryRead(id) => r.(read := r.read + multiset{id})
    case RetryCheck(id) => r.(read := r.read - multiset{id}, checked := r.checked + multiset{id})
    case ManualRetry(id) => r.(checked := r.checked - multiset{id})
    case Restart => NO_RETRIES
    case _ => r
  }

  function NextShots(d: Daemon, m: Move): set<Uuid> {
    match m
    case OneShot(t) => d.shots + {t.id}
    case EndShot(id) => d.shots - {id}
    case Restart => {}
    case _ => d.shots
  }

  /** The end of a one-shot gives up unless it reads an active row. */
  function NextEnding(d: Daemon, m: Move): map<Uuid, nat> {
    match m
    case EndShot(id) =>
      if id in d.sys.db.tasks && d.sys.db.tasks[id].status.Active()
      then d.ending[id := d.sys.db.tasks[id].attempt] else d.ending
    case FinishShot(id, _) => d.ending - {id}
    case Restart => map[]
    case _ => d.ending
  }

  function Do(d: Daemon, m: Move): Daemon {
    Daemon(Run(d.sys, QueueStep(d, m)), NextLive(d, m), NextFailing(d, m), NextRetries(d, m),
           NextShots(d, m), NextEnding(d, m),
           if m.Restart? then true else if m.Open? then false else d.booting)
  }

  function DoAll(d: Daemon, moves: seq<Move>): Daemon
    decreases |moves|
  {
    if moves == [] then d else DoAll(Do(d, moves[0]), moves[1..])
  }

  ghost predicate EnabledAll(d: Daemon, moves: seq<Move>)
    decreases |moves|
  {
    moves == [] || (Enabled(d, moves[0]) && EnabledAll(Do(d, moves[0]), moves[1..]))
  }

  // -------------------------------------------------------------------------
  // Reopening a row under an unreported run
  // -------------------------------------------------------------------------

  /** A finish of `id` is still to come, and its attempt is fixed. */
  predicate Unreported(d: Daemon, id: Uuid) {
    id in d.ending || exists r :: r in d.live && d.live[r].taskId == id && !d.live[r].reported
  }

  /** The move puts a terminal row back to pending although one of its runs has not reported. */
  predicate ReopensUnreported(d: Daemon, m: Move) {
    && (m.ManualRetry? || m.AutoRetry?)
    && Hits(d.sys.db, m.id, if m.ManualRetry? then Requeue else ScheduleRetry(m.at))
    && Unreported(d, m.id)
  }

  ghost predicate CleanAll(d: Daemon, moves: seq<Move>)
    decreases |moves|
  {
    moves == [] || (!ReopensUnreported(d, moves[0]) && CleanAll(Do(d, moves[0]), moves[1..]))
  }

  /** While a finish is to come the row is gone, or at the finish's attempt and not pending. */
  predicate Anchored(s: System, id: Uuid, attempt: nat) {
    id in s.used && (id in s.db.tasks ==> !s.db.tasks[id].status.Pending? && s.db.tasks[id].attempt == attempt)
  }

  /** Until the next claim, and the dispatcher is busy, the row is pending, terminal or gone. */
  predicate Unclaimed(s: System, failing: Option<Task>) {
    failing.Some? ==>
      failing.value.id in s.used && (failing.value.id in s.db.tasks ==> !s.db.tasks[failing.value.id].status.Active())
  }

  predicate NoSelfEdges(db: Tables) { forall e :: e in db.deps ==> e.0 != e.1 }

  /** What holds whether or not rows are reopened. */
  ghost predicate Steady(d: Daemon) {
    && Consistent(d.sys) && Exact(d.sys) && NoSelfEdges(d.sys.db)
    && (d.booting ==> d.live == map[] && d.failing == None && d.shots == {} && d.ending == map[])
    && Unclaimed(d.sys, d.failing)
  }

  ghost predicate AllAnchored(d: Daemon) {
    && (forall r :: r in d.live && !d.live[r].reported ==> Anchored(d.sys, d.live[r].taskId, d.live[r].attempt))
    && (forall id :: id in d.ending ==> Anchored(d.sys, id, d.ending[id]))
  }

  ghost predicate Sound(d: Daemon) { Steady(d) && AllAnchored(d) }

  /** The finish after a refused claim never lands. */
  lemma RefusedFinishMisses(d: Daemon, o: TaskRow)
    requires Steady(d) && Enabled(d, FailRefused(o))
    ensures Do(d, FailRefused(o)).sys == d.sys
  {
    OneStep(d, FailRefused(o));
  }

  lemma OneStep(d: Daemon, m: Move)
    ensures Do(d, m).sys == if QueueStep(d, m) == [] then d.sys else Apply(d.sys, QueueStep(d, m)[0])
  {
    var steps := QueueStep(d, m);
    if steps != [] {
      assert |steps| == 1 && steps[1..] == [];
      assert Run(d.sys, steps) == Run(Apply(d.sys, steps[0]), steps[1..]);
    }
  }

  lemma MoveIsFresh(d: Daemon, m: Move)
    requires Sound(d) && Enabled(d, m) && QueueStep(d, m) != []
    ensures Possible(d.sys, QueueStep(d, m)[0]) && Fresh(d.sys, QueueStep(d, m)[0])
  {
  }

  lemma StepKeepsUnclaimed(s: System, step: Step, failing: Option<Task>)
    requires Consistent(s) && Possible(s, step) && !step.ClaimHeld? && !step.ClaimWith?
    requires Unclaimed(s, failing)
    ensures Unclaimed(Apply(s, step), failing)
  {
  }

  /** A fresh move keeps everything but the anchors. */
  lemma FreshMoveKeepsSteady(d: Daemon, m: Move)
    requires Steady(d) && Enabled(d, m)
    requires QueueStep(d, m) != [] ==> Possible(d.sys, QueueStep(d, m)[0]) && Fresh(d.sys, QueueStep(d, m)[0])
    ensures Steady(Do(d, m))
  {
    OneStep(d, m);
    if QueueStep(d, m) != [] {
      var step := QueueStep(d, m)[0];
      StepKeepsConsistent(d.sys, step);
      StepKeepsExact(d.sys, step);
      if NextFailing(d, m).Some? {
        if m.Refused? { assert SnapshotFresh(d.sys.db, d.sys.held[0]); }
        StepKeepsUnclaimed(d.sys, step, NextFailing(d, m));
      }
    }
  }

  /** The steps that leave an anchored row where it is. */
  lemma StepKeepsAnchor(s: System, step: Step, id: Uuid, attempt: nat)
    requires Consistent(s) && Possible(s, step) && Fresh(s, step) && Anchored(s, id, attempt)
    requires step.Write? && step.id == id ==>
               !step.update.RetryStale?
               && (step.update.Requeue? || step.update.ScheduleRetry? ==> !Hits(s.db, id, step.update))
    ensures Anchored(Apply(s, step), id, attempt)
  {
  }

  lemma MoveKeepsAnchor(d: Daemon, m: Move, id: Uuid, attempt: nat)
    requires Sound(d) && Enabled(d, m) && !ReopensUnreported(d, m)
    requires Unreported(d, id) && Anchored(d.sys, id, attempt)
    ensures Anchored(Do(d, m).sys, id, attempt)
  {
    OneStep(d, m);
    if QueueStep(d, m) != [] {
      MoveIsFresh(d, m);
      StepKeepsAnchor(d.sys, QueueStep(d, m)[0], id, attempt);
    }
  }

  lemma MoveKeepsAnchors(d: Daemon, m: Move)
    requires Sound(d) && Enabled(d, m) && !ReopensUnreported(d, m)
    ensures AllAnchored(Do(d, m))
  {
    OneStep(d, m);
    var next := Do(d, m);
    forall r | r in next.live && !next.live[r].reported
      ensures Anchored(next.sys, next.live[r].taskId, next.live[r].attempt)
    {
      if r in d.live && d.live[r] == next.live[r] {
        MoveKeepsAnchor(d, m, d.live[r].taskId, d.live[r].attempt);
      }
    }
    forall id | id in next.ending ensures Anchored(next.sys, id, next.ending[id]) {
      if id in d.ending && d.ending[id] == next.ending[id] { MoveKeepsAnchor(d, m, id, d.ending[id]); }
    }
  }

  lemma MoveKeepsSound(d: Daemon, m: Move)
    requires Sound(d) && Enabled(d, m) && !ReopensUnreported(d, m)
    ensures Sound(Do(d, m))
  {
    if QueueStep(d, m) != [] { MoveIsFresh(d, m); }
    FreshMoveKeepsSteady(d, m);
    MoveKeepsAnchors(d, m);
  }

  function QueueSteps(d: Daemon, moves: seq<Move>): seq<Step>
    decreases |moves|
  {
    if moves == [] then [] else QueueStep(d, moves[0]) + QueueSteps(Do(d, moves[0]), moves[1..])
  }

  /** Seen from the tables, a clean run of the protocol is one run of the queue, and a fresh one. */
  lemma {:induction false} ProtocolRefinesFreshRun(d: Daemon, moves: seq<Move>)
    requires Sound(d) && EnabledAll(d, moves) && CleanAll(d, moves)
    ensures var steps := QueueSteps(d, moves);
            && Run(d.sys, steps) == DoAll(d, moves).sys
            && PossibleRun(d.sys, steps) && FreshRun(d.sys, steps)
            && Sound(DoAll(d, moves))
    decreases |moves|
  {
    if moves != [] {
      var m := moves[0];
      MoveKeepsSound(d, m);
      ProtocolRefinesFreshRun(Do(d, m), moves[1..]);
      OneStep(d, m);
      var rest := QueueSteps(Do(d, m), moves[1..]);
      if QueueStep(d, m) != [] {
        MoveIsFresh(d, m);
        assert QueueSteps(d, moves)[1..] == rest;
      } else {
        assert QueueSteps(d, moves) == rest;
      }
    }
  }

  /** From an empty database: one run per attempt, and every finish to come carries its row's attempt. */
  lemma ProtocolKeepsAttempts(moves: seq<Move>)
    requires EnabledAll(BOOT, moves) && CleanAll(BOOT, moves)
    ensures var d := DoAll(BOOT, moves);
            && (forall id :: id in d.sys.db.tasks ==> AttemptsExact(d.sys.db, id))
            && (forall r :: r in d.live && !d.live[r].reported && d.live[r].taskId in d.sys.db.tasks ==>
                  d.live[r].attempt == d.sys.db.tasks[d.live[r].taskId].attempt)
  {
    ProtocolRefinesFreshRun(BOOT, moves);
    var d := DoAll(BOOT, moves);
    forall r | r in d.live && !d.live[r].reported && d.live[r].taskId in d.sys.db.tasks
      ensures d.live[r].attempt == d.sys.db.tasks[d.live[r].taskId].attempt
    {
      assert Anchored(d.sys, d.live[r].taskId, d.live[r].attempt);
    }
  }

  /** In a clean run every finish that lands carries the attempt of its row's latest claim. */
  lemma ProtocolFinishesLatest(moves: seq<Move>, m: Move, id: Uuid, o: TaskRow)
    requires EnabledAll(BOOT, moves) && CleanAll(BOOT, moves) && Enabled(DoAll(BOOT, moves), m)
    requires QueueStep(DoAll(BOOT, moves), m) == [Write(id, Finish(o))]
    ensures var db := DoAll(BOOT, moves).sys.db;
            Hits(db, id, Finish(o)) ==> o.attempt == db.tasks[id].attempt && !m.FailRefused?
  {
    ProtocolRefinesFreshRun(BOOT, moves);
    MoveIsFresh(DoAll(BOOT, moves), m);
  }
}
