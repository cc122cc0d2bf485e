/**
 Whole runs of the queue: any interleaving of one dispatcher, holding the
 snapshots of its last listing, with every other writer of the tables.

 `Possible` is what the writers may do at all; `Fresh` adds that a claim uses a
 held snapshot and that a finish carries the attempt of the latest claim.
 */
module QueueRuns {
  import opened Options
  import opened Queue

  /** `used` remembers every id a task was ever inserted under: ids are never reused. */
  datatype System = System(db: Tables, held: seq<Task>, used: set<Uuid>)

  datatype Step =
    | List(now: Millis, limit: int, out: seq<Task>)
    | ClaimHeld(runId: Uuid, now: Millis)                // the dispatcher takes its next snapshot
    | SkipHeld                                           // ... or passes over it
    | ForgetHeld                                         // a restart loses the listing
    | ClaimWith(task: Task, runId: Uuid, now: Millis)    // a claim with any snapshot whatsoever
    | Write(id: Uuid, update: Update)
    | Insert(task: Task)
    | AddEdge(id: Uuid, dependsOn: Uuid)
    | Interrupt(runId: Uuid, error: string, failure: Failure, now: Millis)
    | Finalize(runId: Uuid, outcome: RunRow)
    | PruneOutputs(cutoff: Millis)
    | PruneTasks(cutoff: Millis, keep: set<Uuid>)
    | PruneRuns
    | PruneEdges

  const START := System(Tables(map[], map[], {}), [], {})

  function Apply(s: System, step: Step): System {
    match step
    case List(_, _, out) => s.(held := out)
    case ClaimHeld(runId, now) =>
      if s.held == [] then s else s.(db := ClaimTask(s.db, s.held[0], runId, now), held := s.held[1..])
    case SkipHeld => if s.held == [] then s else s.(held := s.held[1..])
    case ForgetHeld => s.(held := [])
    case ClaimWith(t, runId, now) => s.(db := ClaimTask(s.db, t, runId, now))
    case Write(id, u) => s.(db := Cas(s.db, id, u))
    case Insert(t) => s.(db := InsertTask(s.db, t), used := s.used + {t.id})
    case AddEdge(id, p) => s.(db := AddDependency(s.db, id, p))
    case Interrupt(runId, e, f, now) => s.(db := InterruptRun(s.db, runId, e, f, now))
    case Finalize(runId, o) => s.(db := FinalizeRun(s.db, runId, o))
    case PruneOutputs(cutoff) => s.(db := ClearOutputs(s.db, cutoff))
    case PruneTasks(cutoff, keep) => s.(db := DeleteTasks(s.db, cutoff, keep))
    case PruneRuns => s.(db := DeleteOrphanRuns(s.db))
    case PruneEdges => s.(db := DeleteDanglingEdges(s.db))
  }

  predicate OutcomeMatches(r: TaskRow) { r.finishedAt.Some? <==> r.status.Terminal() }

  /** The watcher only moves a row between running and awaiting input. */
  predicate WatcherMove(to: Status, from: Status) {
    (to == AwaitingInput && from == Running) || (to == Running && from == AwaitingInput)
  }

  ghost predicate Possible(s: System, step: Step) {
    match step
    case List(now, limit, out) => IsListing(s.db, now, limit, out)
    case Insert(t) => t.id !in s.used && OutcomeMatches(t.row)
    case Write(_, Finish(o)) => o.status.Terminal() && o.finishedAt.Some?
    case Write(_, SetStatusIf(to, from)) => WatcherMove(to, from)
    case Write(_, Claim(_, _)) => false
    case _ => true
  }

  ghost predicate Fresh(s: System, step: Step) {
    match step
    case ClaimWith(_, _, _) => false
    case Insert(t) => t.row.attempt == 0
    case Write(id, Finish(o)) => Hits(s.db, id, step.update) ==> o.attempt == s.db.tasks[id].attempt
    case _ => true
  }

  function Run(s: System, steps: seq<Step>): System
    decreases |steps|
  {
    if steps == [] then s else Run(Apply(s, steps[0]), steps[1..])
  }

  ghost predicate PossibleRun(s: System, steps: seq<Step>)
    decreases |steps|
  {
    steps == [] || (Possible(s, steps[0]) && PossibleRun(Apply(s, steps[0]), steps[1..]))
  }

  ghost predicate FreshRun(s: System, steps: seq<Step>)
    decreases |steps|
  {
    steps == [] || (Fresh(s, steps[0]) && FreshRun(Apply(s, steps[0]), steps[1..]))
  }

  // -------------------------------------------------------------------------
  // finished_at is set exactly for terminal rows
  // -------------------------------------------------------------------------

  ghost predicate Consistent(s: System) {
    && (forall id :: id in s.db.tasks ==> id in s.used)
    && (forall id :: id in s.db.tasks ==> OutcomeMatches(s.db.tasks[id]))
  }

  lemma StepKeepsConsistent(s: System, step: Step)
    requires Consistent(s) && Possible(s, step)
    ensures Consistent(Apply(s, step))
  {
  }

  lemma {:induction false} RunKeepsConsistent(s: System, steps: seq<Step>)
    requires Consistent(s) && PossibleRun(s, steps)
    ensures Consistent(Run(s, steps))
    decreases |steps|
  {
    if steps != [] {
      StepKeepsConsistent(s, steps[0]);
      RunKeepsConsistent(Apply(s, steps[0]), steps[1..]);
    }
  }

  lemma FinishedExactlyWhenTerminal(steps: seq<Step>, id: Uuid)
    requires PossibleRun(START, steps) && id in Run(START, steps).db.tasks
    ensures var row := Run(START, steps).db.tasks[id]; row.finishedAt.Some? <==> row.status.Terminal()
  {
    RunKeepsConsistent(START, steps);
  }

  // -------------------------------------------------------------------------
  // Dedupe keys are unique
  // -------------------------------------------------------------------------

  ghost predicate KeysUnique(db: Tables) {
    forall a, b :: a in db.tasks && b in db.tasks && a != b && db.tasks[a].dedupeKey.Some? ==>
      db.tasks[a].dedupeKey != db.tasks[b].dedupeKey
  }

  lemma StepKeepsKeysUnique(s: System, step: Step)
    requires KeysUnique(s.db)
    ensures KeysUnique(Apply(s, step).db)
  {
  }

  lemma {:induction false} RunKeepsKeysUnique(s: System, steps: seq<Step>)
    requires KeysUnique(s.db)
    ensures KeysUnique(Run(s, steps).db)
    decreases |steps|
  {
    if steps != [] {
      StepKeepsKeysUnique(s, steps[0]);
      RunKeepsKeysUnique(Apply(s, steps[0]), steps[1..]);
    }
  }

  /** In every run whatsoever no two rows share a key, so a submission under a key is there at most once. */
  lemma KeysAreUnique(steps: seq<Step>, a: Uuid, b: Uuid)
    requires var db := Run(START, steps).db;
             a in db.tasks && b in db.tasks && db.tasks[a].dedupeKey.Some?
             && db.tasks[a].dedupeKey == db.tasks[b].dedupeKey
    ensures a == b
  {
    RunKeepsKeysUnique(START, steps);
  }

  // -------------------------------------------------------------------------
  // Each surviving task's runs carry exactly the attempts 1..attempt, each once
  // -------------------------------------------------------------------------

  predicate IsRunOf(db: Tables, r: Uuid, id: Uuid, a: nat) {
    r in db.runs && db.runs[r].taskId == id && db.runs[r].attempt == a
  }

  ghost predicate HasRun(db: Tables, id: Uuid, a: nat) {
    exists r: Uuid :: IsRunOf(db, r, id, a)
  }

  ghost predicate AttemptsExact(db: Tables, id: Uuid)
    requires id in db.tasks
  {
    && (forall a: nat :: 1 <= a <= db.tasks[id].attempt ==> HasRun(db, id, a))
    && (forall r: Uuid, a: nat :: IsRunOf(db, r, id, a) ==> 1 <= a <= db.tasks[id].attempt)
    && (forall r: Uuid, r': Uuid, a: nat :: IsRunOf(db, r, id, a) && IsRunOf(db, r', id, a) ==> r == r')
  }

  /** A held snapshot still has the row's attempt, and nobody else can have started the row. */
  ghost predicate SnapshotFresh(db: Tables, t: Task) {
    t.id in db.tasks ==> db.tasks[t.id].attempt == t.row.attempt && !db.tasks[t.id].status.Active()
  }

  ghost predicate Exact(s: System) {
    && (forall id :: id in s.db.tasks ==> AttemptsExact(s.db, id))
    && (forall r :: r in s.db.runs ==> s.db.runs[r].taskId in s.used)
    && (forall i :: 0 <= i < |s.held| ==> s.held[i].id in s.used && SnapshotFresh(s.db, s.held[i]))
    && (forall i, j :: 0 <= i < j < |s.held| ==> s.held[i].id != s.held[j].id)
  }

  lemma ClaimKeepsAttempts(db: Tables, t: Task, runId: Uuid, now: Millis, id: Uuid)
    requires id in db.tasks && AttemptsExact(db, id)
    requires id == t.id ==> db.tasks[id].attempt == t.row.attempt
    ensures AttemptsExact(ClaimTask(db, t, runId, now), id)
  {
    var db' := ClaimTask(db, t, runId, now);
    if Claims(db, t, runId, now) {
      forall r: Uuid, a: nat ensures IsRunOf(db', r, id, a) <==>
          IsRunOf(db, r, id, a) || (r == runId && id == t.id && a == t.row.attempt + 1) {}
      forall a: nat | 1 <= a <= db'.tasks[id].attempt ensures HasRun(db', id, a) {
        if a <= db.tasks[id].attempt {
          assert HasRun(db, id, a);
          var r: Uuid :| IsRunOf(db, r, id, a);
          assert IsRunOf(db', r, id, a);
        } else {
          assert IsRunOf(db', runId, id, a);
        }
      }
    }
  }

  /** Writes that keep a row's attempt and every run's owner and attempt keep exactness. */
  lemma SameAttempts(db: Tables, db': Tables, id: Uuid)
    requires id in db.tasks && id in db'.tasks && AttemptsExact(db, id)
    requires db'.tasks[id].attempt == db.tasks[id].attempt
    requires forall r: Uuid, a: nat :: IsRunOf(db, r, id, a) <==> IsRunOf(db', r, id, a)
    ensures AttemptsExact(db', id)
  {
    forall a: nat | 1 <= a <= db'.tasks[id].attempt ensures HasRun(db', id, a) {
      assert HasRun(db, id, a);
      var r: Uuid :| IsRunOf(db, r, id, a);
      assert IsRunOf(db', r, id, a);
    }
  }

  lemma StepKeepsAttempts(s: System, step: Step, id: Uuid)
    requires Consistent(s) && Exact(s) && Possible(s, step) && Fresh(s, step)
    requires id in Apply(s, step).db.tasks
    ensures AttemptsExact(Apply(s, step).db, id)
  {
    var db, db' := s.db, Apply(s, step).db;
    match step
    case ClaimHeld(runId, now) =>
      if s.held != [] {
        assert SnapshotFresh(db, s.held[0]);
        ClaimKeepsAttempts(db, s.held[0], runId, now, id);
      }
    case Insert(t) =>
      if id in db.tasks { SameAttempts(db, db', id); }
    case _ =>
      SameAttempts(db, db', id);
  }

  lemma StepKeepsSnapshots(s: System, step: Step)
    requires Consistent(s) && Exact(s) && Possible(s, step) && Fresh(s, step)
    ensures forall i :: 0 <= i < |Apply(s, step).held| ==>
              Apply(s, step).held[i].id in s.used && SnapshotFresh(Apply(s, step).db, Apply(s, step).held[i])
    ensures forall i, j :: 0 <= i < j < |Apply(s, step).held| ==> Apply(s, step).held[i].id != Apply(s, step).held[j].id
  {
  }

  lemma StepKeepsExact(s: System, step: Step)
    requires Consistent(s) && Exact(s) && Possible(s, step) && Fresh(s, step)
    ensures Exact(Apply(s, step))
  {
    StepKeepsSnapshots(s, step);
    forall id | id in Apply(s, step).db.tasks ensures AttemptsExact(Apply(s, step).db, id) {
      StepKeepsAttempts(s, step, id);
    }
  }

  lemma {:induction false} RunKeepsExact(s: System, steps: seq<Step>)
    requires Consistent(s) && Exact(s) && PossibleRun(s, steps) && FreshRun(s, steps)
    ensures Exact(Run(s, steps))
    decreases |steps|
  {
    if steps != [] {
      StepKeepsConsistent(s, steps[0]);
      StepKeepsExact(s, steps[0]);
      RunKeepsExact(Apply(s, steps[0]), steps[1..]);
    }
  }

  /** One run per attempt, over every interleaving from empty tables. */
  lemma AttemptsMatchRuns(steps: seq<Step>, id: Uuid)
    requires PossibleRun(START, steps) && FreshRun(START, steps)
    requires id in Run(START, steps).db.tasks
    ensures AttemptsExact(Run(START, steps).db, id)
  {
    RunKeepsExact(START, steps);
  }

  /** A finish keeps the history exact if and only if it misses the row or carries the row's attempt. */
  lemma FinishKeepsAttemptsIff(db: Tables, id: Uuid, o: TaskRow)
    requires id in db.tasks && AttemptsExact(db, id)
    ensures AttemptsExact(Cas(db, id, Finish(o)), id) <==>
            !db.tasks[id].status.Active() || o.attempt == db.tasks[id].attempt
  {
    var db' := Cas(db, id, Finish(o));
    if !Hits(db, id, Finish(o)) || o.attempt == db.tasks[id].attempt {
      SameAttempts(db, db', id);
    } else if o.attempt < db.tasks[id].attempt {
      assert HasRun(db, id, db.tasks[id].attempt);
      var r: Uuid :| IsRunOf(db, r, id, db.tasks[id].attempt);
      assert IsRunOf(db', r, id, db.tasks[id].attempt);
    } else if AttemptsExact(db', id) {
      assert HasRun(db', id, o.attempt);
      var r: Uuid :| IsRunOf(db', r, id, o.attempt);
      assert IsRunOf(db, r, id, o.attempt);
    }
  }

  /** A first attempt that reports only after its task was cancelled, requeued and claimed again. */
  function LateFinish(row: TaskRow): seq<Step> {
    var t := Task(7, row.(status := Pending, attempt := 0, finishedAt := None));
    [ Insert(t),
      ClaimWith(t, 1, 0), Write(7, Cancel(1)), Write(7, Requeue),
      ClaimWith(t.(row := t.row.(attempt := 1)), 2, 2),
      Write(7, Finish(t.row.(status := Succeeded, attempt := 1, finishedAt := Some(3)))) ]
  }

  /** The task is pending again after its first attempt was cancelled. */
  predicate RequeuedOnce(s: System) {
    && s.db.tasks.Keys == {7} && s.db.tasks[7].status == Pending && s.db.tasks[7].attempt == 1
    && s.db.runs.Keys == {1}
  }

  lemma FirstAttemptRequeued(row: TaskRow)
    ensures var steps := LateFinish(row);
            RequeuedOnce(Apply(Apply(Apply(Apply(START, steps[0]), steps[1]), steps[2]), steps[3]))
  {
    var steps := LateFinish(row);
    var s2 := Apply(Apply(START, steps[0]), steps[1]);
    assert s2.db.tasks.Keys == {7} && s2.db.tasks[7].status == Running && s2.db.runs.Keys == {1};
  }

  lemma LateFinishAccepted(s: System, row: TaskRow)
    requires RequeuedOnce(s)
    ensures var steps := LateFinish(row);
            var db := Apply(Apply(s, steps[4]), steps[5]).db;
            && 7 in db.tasks && db.tasks[7].attempt == 1 && db.tasks[7].status == Succeeded
            && IsRunOf(db, 2, 7, 2)
  {
    var s5 := Apply(s, LateFinish(row)[4]);
    assert s5.db.tasks[7].status == Running && IsRunOf(s5.db, 2, 7, 2);
  }

  lemma UnrollSix(s: System, steps: seq<Step>)
    requires |steps| == 6
    ensures Run(s, steps)
            == Apply(Apply(Apply(Apply(Apply(Apply(s, steps[0]), steps[1]), steps[2]), steps[3]), steps[4]), steps[5])
  {
    var s1 := Apply(s, steps[0]);
    var s2 := Apply(s1, steps[1]);
    var s3 := Apply(s2, steps[2]);
    var s4 := Apply(s3, steps[3]);
    var s5 := Apply(s4, steps[4]);
    Unroll(s, steps);
    Unroll(s1, steps[1..]);
    Unroll(s2, steps[2..]);
    Unroll(s3, steps[3..]);
    Unroll(s4, steps[4..]);
    Unroll(s5, steps[5..]);
    assert steps[6..] == [];
  }

  lemma LateFinishPossible(row: TaskRow)
    ensures PossibleRun(START, LateFinish(row))
  {
    var steps := LateFinish(row);
    AlwaysPossible(Apply(START, steps[0]), steps[1..]);
    Unroll(START, steps);
  }

  /** Steps that are possible in every state. */
  predicate AnyTime(step: Step) {
    match step
    case ClaimWith(_, _, _) => true
    case Write(_, Finish(o)) => o.status.Terminal() && o.finishedAt.Some?
    case Write(_, u) => u.Cancel? || u.Requeue?
    case _ => false
  }

  lemma {:induction false} AlwaysPossible(s: System, steps: seq<Step>)
    requires forall step :: step in steps ==> AnyTime(step)
    ensures PossibleRun(s, steps)
    decreases |steps|
  {
    if steps != [] {
      assert steps[0] in steps;
      AlwaysPossible(Apply(s, steps[0]), steps[1..]);
    }
  }

  /** The stale report is accepted and the row falls back to attempt 1 while attempt 2 is on record. */
  lemma LateFinishOverwritesAttempt(row: TaskRow)
    ensures var db := Run(START, LateFinish(row)).db;
            && PossibleRun(START, LateFinish(row))
            && 7 in db.tasks && db.tasks[7].attempt == 1 && db.tasks[7].status == Succeeded
            && IsRunOf(db, 2, 7, 2)
            && !AttemptsExact(db, 7)
  {
    var steps := LateFinish(row);
    LateFinishPossible(row);
    FirstAttemptRequeued(row);
    LateFinishAccepted(Apply(Apply(Apply(Apply(START, steps[0]), steps[1]), steps[2]), steps[3]), row);
    UnrollSix(START, steps);
  }

  lemma Unroll(s: System, steps: seq<Step>)
    requires steps != []
    ensures Run(s, steps) == Run(Apply(s, steps[0]), steps[1..])
    ensures PossibleRun(s, steps) <==> Possible(s, steps[0]) && PossibleRun(Apply(s, steps[0]), steps[1..])
  {
  }

  // -------------------------------------------------------------------------
  // Conservation of work
  // -------------------------------------------------------------------------

  predicate IsPending(s: System, id: Uuid) { id in s.db.tasks && s.db.tasks[id].status.Pending? }

  function One(b: bool): nat { if b then 1 else 0 }

  /** How often the row became pending, seen from outside. */
  function Enqueued(s: System, steps: seq<Step>, id: Uuid): nat
    decreases |steps|
  {
    if steps == [] then 0
    else One(!IsPending(s, id) && IsPending(Apply(s, steps[0]), id)) + Enqueued(Apply(s, steps[0]), steps[1..], id)
  }

  predicate ClaimsId(s: System, step: Step, id: Uuid) {
    match step
    case ClaimHeld(runId, now) => s.held != [] && s.held[0].id == id && Claims(s.db, s.held[0], runId, now)
    case ClaimWith(t, runId, now) => t.id == id && Claims(s.db, t, runId, now)
    case _ => false
  }

  function Claimed(s: System, steps: seq<Step>, id: Uuid): nat
    decreases |steps|
  {
    if steps == [] then 0 else One(ClaimsId(s, steps[0], id)) + Claimed(Apply(s, steps[0]), steps[1..], id)
  }

  predicate DropsId(s: System, step: Step, id: Uuid) {
    && step.Write? && step.id == id && IsPending(s, id)
    && (step.update.Cancel? || step.update.FailPending?)
  }

  /** Cancellations and failures taken from pending. */
  function Dropped(s: System, steps: seq<Step>, id: Uuid): nat
    decreases |steps|
  {
    if steps == [] then 0 else One(DropsId(s, steps[0], id)) + Dropped(Apply(s, steps[0]), steps[1..], id)
  }

  lemma StepConservesWork(s: System, step: Step, id: Uuid)
    requires Consistent(s) && Possible(s, step)
    ensures One(IsPending(s, id)) + One(!IsPending(s, id) && IsPending(Apply(s, step), id))
         == One(ClaimsId(s, step, id)) + One(DropsId(s, step, id)) + One(IsPending(Apply(s, step), id))
  {
  }

  /** Whoever claims, with whatever snapshots: every enqueue is consumed at most once, and by nothing else. */
  lemma {:induction false} WorkIsConserved(s: System, steps: seq<Step>, id: Uuid)
    requires Consistent(s) && PossibleRun(s, steps)
    ensures One(IsPending(s, id)) + Enqueued(s, steps, id)
         == Claimed(s, steps, id) + Dropped(s, steps, id) + One(IsPending(Run(s, steps), id))
    decreases |steps|
  {
    if steps != [] {
      StepConservesWork(s, steps[0], id);
      StepKeepsConsistent(s, steps[0]);
      WorkIsConserved(Apply(s, steps[0]), steps[1..], id);
    }
  }

  // -------------------------------------------------------------------------
  // A terminal outcome sticks
  // -------------------------------------------------------------------------

  /** Nothing but a pruned output and a session that was not known yet may differ. */
  predicate SameOutcome(r: TaskRow, r': TaskRow) {
    && r'.(output := r.output, sessionId := r.sessionId, sessionTitle := r.sessionTitle) == r
    && (r'.output == r.output || r'.output == None)
    && (r.sessionId.Some? ==> r'.sessionId == r.sessionId)
    && (r.sessionTitle.Some? ==> r'.sessionTitle == r.sessionTitle)
  }

  /** The steps that reopen a terminal row: a scheduled retry of a failed one, or a requeue. */
  predicate Reopens(s: System, step: Step, id: Uuid) {
    && step.Write? && step.id == id && Hits(s.db, id, step.update)
    && (step.update.ScheduleRetry? || step.update.Requeue?)
  }

  ghost predicate NeverReopened(s: System, steps: seq<Step>, id: Uuid)
    decreases |steps|
  {
    steps == [] || (!Reopens(s, steps[0], id) && NeverReopened(Apply(s, steps[0]), steps[1..], id))
  }

  /** One step: a terminal row is pruned, keeps its outcome, or is reopened (and then it is pending). */
  lemma TerminalStep(s: System, step: Step, id: Uuid)
    requires Consistent(s) && Possible(s, step)
    requires id in s.db.tasks && s.db.tasks[id].status.Terminal()
    ensures var db' := Apply(s, step).db;
            if Reopens(s, step, id) then
              && id in db'.tasks && db'.tasks[id].status == Pending && db'.tasks[id].finishedAt == None
              && (step.update.ScheduleRetry? ==> s.db.tasks[id].status == Failed)
            else if id !in db'.tasks then step.PruneTasks?
            else SameOutcome(s.db.tasks[id], db'.tasks[id])
  {
  }

  lemma {:induction false} OutcomeSticks(s: System, steps: seq<Step>, id: Uuid)
    requires Consistent(s) && PossibleRun(s, steps) && NeverReopened(s, steps, id)
    requires id in s.used
    requires id in s.db.tasks ==> s.db.tasks[id].status.Terminal()
    ensures id in Run(s, steps).db.tasks ==>
              id in s.db.tasks && SameOutcome(s.db.tasks[id], Run(s, steps).db.tasks[id])
    decreases |steps|
  {
    if steps != [] {
      if id in s.db.tasks { TerminalStep(s, steps[0], id); }
      StepKeepsConsistent(s, steps[0]);
      OutcomeSticks(Apply(s, steps[0]), steps[1..], id);
    }
  }

  /** No step prunes outputs of rows that finished by `at`. */
  predicate KeepsOutputs(steps: seq<Step>, at: Millis) {
    forall i :: 0 <= i < |steps| && steps[i].PruneOutputs? ==> steps[i].cutoff <= at
  }

  /** While no prune reaches it, a terminal row keeps its output too. */
  lemma {:induction false} OutputSticks(s: System, steps: seq<Step>, id: Uuid, at: Millis)
    requires Consistent(s) && PossibleRun(s, steps) && NeverReopened(s, steps, id)
    requires id in s.used && KeepsOutputs(steps, at)
    requires id in s.db.tasks ==> s.db.tasks[id].status.Terminal() && s.db.tasks[id].finishedAt == Some(at)
    ensures id in Run(s, steps).db.tasks ==>
              id in s.db.tasks && Run(s, steps).db.tasks[id].output == s.db.tasks[id].output
    decreases |steps|
  {
    if steps != [] {
      if id in s.db.tasks { TerminalStep(s, steps[0], id); }
      StepKeepsConsistent(s, steps[0]);
      OutputSticks(Apply(s, steps[0]), steps[1..], id, at);
    }
  }

  /**
   Over every run after a finish that landed, and until someone reopens the row, what was
   reported is what is there: the output too, unless a prune has cleared it.
   */
  lemma ReportSticks(s: System, steps: seq<Step>, id: Uuid, o: TaskRow)
    requires Consistent(s) && Possible(s, Write(id, Finish(o))) && id in s.db.tasks
    requires s.db.tasks[id].status == Running || s.db.tasks[id].status == AwaitingInput
    requires var s1 := Apply(s, Write(id, Finish(o))); PossibleRun(s1, steps) && NeverReopened(s1, steps, id)
    ensures var db := Run(Apply(s, Write(id, Finish(o))), steps).db;
            id in db.tasks ==>
              var r := db.tasks[id];
              && r.status == o.status && r.attempt == o.attempt && r.error == o.error && r.failure == o.failure
              && r.startedAt == o.startedAt && r.finishedAt == o.finishedAt
              && (r.output == o.output || r.output == None)
              && (KeepsOutputs(steps, o.finishedAt.value) ==> r.output == o.output)
              && (o.sessionId.Some? ==> r.sessionId == o.sessionId)
              && (o.sessionTitle.Some? ==> r.sessionTitle == o.sessionTitle)
              && r.name == s.db.tasks[id].name && r.dedupeKey == s.db.tasks[id].dedupeKey
              && r.createdAt == s.db.tasks[id].createdAt && r.retryAt == s.db.tasks[id].retryAt
  {
    var s1 := Apply(s, Write(id, Finish(o)));
    StepKeepsConsistent(s, Write(id, Finish(o)));
    OutcomeSticks(s1, steps, id);
    if KeepsOutputs(steps, o.finishedAt.value) { OutputSticks(s1, steps, id, o.finishedAt.value); }
  }

  /** The closing write of the watch loop leaves the row anything but awaiting input. */
  lemma AfterResumeNotAwaiting(db: Tables, id: Uuid)
    ensures var db' := Cas(db, id, SetStatusIf(Running, AwaitingInput));
            id in db'.tasks ==> !db'.tasks[id].status.AwaitingInput?
  {
  }

  // -------------------------------------------------------------------------
  // Dispatch follows the edges
  // -------------------------------------------------------------------------

  /** Some step of the run claims `id`. */
  ghost predicate EverClaimed(s: System, steps: seq<Step>, id: Uuid)
    decreases |steps|
  {
    steps != [] && (ClaimsId(s, steps[0], id) || EverClaimed(Apply(s, steps[0]), steps[1..], id))
  }

  lemma {:induction false} TerminalNeverClaimed(s: System, steps: seq<Step>, id: Uuid)
    requires Consistent(s) && PossibleRun(s, steps) && NeverReopened(s, steps, id)
    requires id in s.used
    requires id in s.db.tasks ==> s.db.tasks[id].status.Terminal()
    ensures !EverClaimed(s, steps, id)
    decreases |steps|
  {
    if steps != [] {
      if id in s.db.tasks { TerminalStep(s, steps[0], id); }
      StepKeepsConsistent(s, steps[0]);
      TerminalNeverClaimed(Apply(s, steps[0]), steps[1..], id);
    }
  }

  /**
   Once `id` is listed, no predecessor present at that moment is claimed any more
   (unless someone reopens it): claims happen in a topological order of the edges.
   */
  lemma ClaimsFollowEdges(s: System, now: Millis, limit: int, out: seq<Task>, rest: seq<Step>, id: Uuid, p: Uuid)
    requires Consistent(s) && PossibleRun(s, [List(now, limit, out)] + rest)
    requires Lists(out, id) && (id, p) in s.db.deps && p in s.db.tasks
    requires NeverReopened(s.(held := out), rest, p)
    ensures s.db.tasks[p].status.Terminal()
    ensures !EverClaimed(s.(held := out), rest, p)
  {
    var steps := [List(now, limit, out)] + rest;
    assert steps[1..] == rest && steps[0] == List(now, limit, out);
    var i :| 0 <= i < |out| && out[i].id == id;
    assert !IsBlocked(s.db, id);
    TerminalNeverClaimed(Apply(s, steps[0]), rest, p);
  }
}
