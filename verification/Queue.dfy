/**
 The tables behind the durable task queue, as values, and the effect each SQL
 statement has on them.  `TaskStore` is the mutable object that runs these
 statements; the theorems about whole runs are in `QueueRuns`, `Dispatch`,
 `Retention` and `ExecutorProtocol`.
 */
module Queue {
  import opened Options

  type Uuid = nat
  type Millis = int
  type Json = string

  datatype Status = Pending | Running | AwaitingInput | Succeeded | Failed | Cancelled {
    predicate Active() { Running? || AwaitingInput? }
    predicate Terminal() { Succeeded? || Failed? || Cancelled? }
  }

  datatype RunStatus =
    RunPending | RunRunning | RunAwaiting | RunSucceeded | RunFailed | RunCancelled | RunInterrupted | RunTimedOut
  {
    predicate Active() { RunPending? || RunRunning? || RunAwaiting? }
  }

  datatype FailureKind =
    Agent | Infrastructure | Timeout | InvalidInput | Dependency | CancelledByUser | Blocked | Unknown

  datatype Failure = Failure(kind: FailureKind, message: string, retryable: bool)

  /** The columns of `tasks` that some modelled statement reads or writes. */
  datatype TaskRow = TaskRow(
    name: string, status: Status, attempt: nat, output: Option<Json>, dedupeKey: Option<string>,
    createdAt: Millis, startedAt: Option<Millis>, finishedAt: Option<Millis>,
    error: Option<string>, failure: Option<Failure>,
    sessionId: Option<string>, sessionTitle: Option<string>, retryAt: Option<Millis>)

  /** A `Task` value in the daemon's memory: a row as some `SELECT` once read it. */
  datatype Task = Task(id: Uuid, row: TaskRow)

  datatype RunRow = RunRow(
    taskId: Uuid, attempt: nat, status: RunStatus, startedAt: Option<Millis>, finishedAt: Option<Millis>,
    error: Option<string>, failure: Option<Failure>)

  /** `deps` holds the pairs (task_id, depends_on). */
  datatype Tables = Tables(tasks: map<Uuid, TaskRow>, runs: map<Uuid, RunRow>, deps: set<(Uuid, Uuid)>)

  // -------------------------------------------------------------------------
  // Compare-and-set updates of one task row
  // -------------------------------------------------------------------------

  datatype Update =
    | Claim(attempt: nat, now: Millis)
    | Finish(outcome: TaskRow)
    | Cancel(now: Millis)
    | FailStale(error: string, failure: Failure, now: Millis)
    | FailPending(error: string, failure: Failure, now: Millis)
    | RetryStale
    | ScheduleRetry(at: Millis)
    | Requeue
    | SetStatusIf(to: Status, from: Status)
    | SetSession(sessionId: string, title: Option<string>)

  /** The status part of each statement's `WHERE`. */
  predicate Guard(u: Update, s: Status) {
    match u
    case Claim(_, _) => s.Pending?
    case Finish(_) => s.Active()
    case Cancel(_) => s.Pending? || s.Active()
    case FailStale(_, _, _) => s.Active()
    case FailPending(_, _, _) => s.Pending?
    case RetryStale => s.Active()
    case ScheduleRetry(_) => s.Failed?
    case Requeue => s.Terminal()
    case SetStatusIf(_, from) => s == from
    case SetSession(_, _) => true
  }

  /** The columns each statement's `SET` writes. */
  function Written(u: Update, r: TaskRow): TaskRow {
    match u
    case Claim(attempt, now) => r.(status := Running, startedAt := Some(now), attempt := attempt, retryAt := None)
    case Finish(o) =>
      r.(status := o.status, attempt := o.attempt, output := o.output, startedAt := o.startedAt,
         finishedAt := o.finishedAt, error := o.error, failure := o.failure,
         sessionId := o.sessionId, sessionTitle := o.sessionTitle)
    case Cancel(now) => r.(status := Cancelled, finishedAt := Some(now))
    case FailStale(error, failure, now) =>
      r.(status := Failed, error := Some(error), failure := Some(failure), finishedAt := Some(now))
    case FailPending(error, failure, now) =>
      r.(status := Failed, error := Some(error), failure := Some(failure), finishedAt := Some(now))
    case RetryStale =>
      r.(status := Pending, startedAt := None, finishedAt := None, error := None, failure := None, retryAt := None)
    case ScheduleRetry(at) =>
      r.(status := Pending, startedAt := None, finishedAt := None, error := None, failure := None,
         output := None, retryAt := Some(at))
    case Requeue =>
      r.(status := Pending, startedAt := None, finishedAt := None, error := None, failure := None,
         output := None, retryAt := None)
    case SetStatusIf(to, _) => r.(status := to)
    case SetSession(sessionId, title) =>
      r.(sessionId := if r.sessionId.Some? then r.sessionId else Some(sessionId),
         sessionTitle := if r.sessionTitle.Some? then r.sessionTitle else title)
  }

  /** Whether the statement affects a row. */
  predicate Hits(db: Tables, id: Uuid, u: Update) {
    id in db.tasks && Guard(u, db.tasks[id].status)
  }

  function Cas(db: Tables, id: Uuid, u: Update): Tables {
    if Hits(db, id, u) then db.(tasks := db.tasks[id := Written(u, db.tasks[id])]) else db
  }

  // -------------------------------------------------------------------------
  // Inserting, claiming, run history
  // -------------------------------------------------------------------------

  predicate KeyTaken(db: Tables, key: Option<string>) {
    key.Some? && exists id :: id in db.tasks && db.tasks[id].dedupeKey == key
  }

  /** `INSERT OR IGNORE`: a known id or dedupe key leaves the tables alone; `retry_at` is not inserted. */
  function InsertTask(db: Tables, t: Task): Tables {
    if t.id in db.tasks || KeyTaken(db, t.row.dedupeKey) then db
    else db.(tasks := db.tasks[t.id := t.row.(retryAt := None)])
  }

  function ClaimedRun(t: Task, now: Millis): RunRow {
    RunRow(t.id, t.row.attempt + 1, RunRunning, Some(now), None, None, None)
  }

  function ClaimUpdate(t: Task, now: Millis): Update {
    Claim(t.row.attempt + 1, now)
  }

  /** Whether the claim transaction commits: the row is pending and the new run's id is unused. */
  predicate Claims(db: Tables, t: Task, runId: Uuid, now: Millis) {
    Hits(db, t.id, ClaimUpdate(t, now)) && runId !in db.runs
  }

  /** One transaction: the row flips to running and the attempt's run appears, or nothing changes. */
  function ClaimTask(db: Tables, t: Task, runId: Uuid, now: Millis): Tables {
    if Claims(db, t, runId, now)
    then Cas(db, t.id, ClaimUpdate(t, now)).(runs := db.runs[runId := ClaimedRun(t, now)])
    else db
  }

  function InterruptRun(db: Tables, runId: Uuid, error: string, failure: Failure, now: Millis): Tables {
    if runId in db.runs && db.runs[runId].status.Active()
    then db.(runs := db.runs[runId := db.runs[runId].(
           status := RunInterrupted, finishedAt := Some(now), error := Some(error), failure := Some(failure))])
    else db
  }

  /** Only the outcome columns are written; the attempt and the owning task stay. */
  function FinalizeRun(db: Tables, runId: Uuid, outcome: RunRow): Tables {
    if runId in db.runs
    then db.(runs := db.runs[runId := db.runs[runId].(
           status := outcome.status, finishedAt := outcome.finishedAt,
            error := outcome.error, failure := outcome.failure)])
    else db
  }

  function AddDependency(db: Tables, id: Uuid, dependsOn: Uuid): Tables {
    db.(deps := db.deps + {(id, dependsOn)})
  }

  // -------------------------------------------------------------------------
  // Listing
  // -------------------------------------------------------------------------

  /** Some predecessor that is present has not reached a terminal state. */
  predicate IsBlocked(db: Tables, id: Uuid) {
    exists p :: p in db.tasks && (id, p) in db.deps && !db.tasks[p].status.Terminal()
  }

  predicate Ready(db: Tables, now: Millis, id: Uuid) {
    && id in db.tasks
    && db.tasks[id].status.Pending?
    && (db.tasks[id].retryAt.None? || db.tasks[id].retryAt.value <= now)
    && !IsBlocked(db, id)
  }

  /** What the listing's column list reads: neither `output` nor `retry_at`. */
  function Selected(db: Tables, id: Uuid): Task
    requires id in db.tasks
  {
    Task(id, db.tasks[id].(output := None, retryAt := None))
  }

  function RowLimit(limit: int): nat { if limit < 1 then 1 else limit }

  ghost predicate Lists(out: seq<Task>, id: Uuid) {
    exists i :: 0 <= i < |out| && out[i].id == id
  }

  /**
   `out` is an answer SQLite may give to the listing query.  `ORDER BY created_at`
   leaves ties open, so this is a relation and not a function.
   */
  ghost predicate IsListing(db: Tables, now: Millis, limit: int, out: seq<Task>) {
    && |out| <= RowLimit(limit)
    && (forall i :: 0 <= i < |out| ==> Ready(db, now, out[i].id) && out[i] == Selected(db, out[i].id))
    && (forall i, j :: 0 <= i < j < |out| ==> out[i].id != out[j].id && out[i].row.createdAt <= out[j].row.createdAt)
    && (forall id :: Ready(db, now, id) && !Lists(out, id) ==>
          |out| == RowLimit(limit) && forall i :: 0 <= i < |out| ==> out[i].row.createdAt <= db.tasks[id].createdAt)
  }

  // -------------------------------------------------------------------------
  // Retention
  // -------------------------------------------------------------------------

  predicate Expired(r: TaskRow, cutoff: Millis) {
    r.finishedAt.Some? && r.finishedAt.value < cutoff
  }

  function ClearOutputs(db: Tables, cutoff: Millis): Tables {
    db.(tasks := map id | id in db.tasks ::
          if Expired(db.tasks[id], cutoff) then db.tasks[id].(output := None) else db.tasks[id])
  }

  /** `keep` is an answer to `ORDER BY created_at DESC LIMIT n`, again with ties left open. */
  ghost predicate IsNewest(tasks: map<Uuid, TaskRow>, n: nat, keep: set<Uuid>) {
    && keep <= tasks.Keys
    && |keep| <= n
    && (forall id :: id in tasks && id !in keep ==>
          |keep| == n && forall k :: k in keep ==> tasks[id].createdAt <= tasks[k].createdAt)
  }

  function DeleteTasks(db: Tables, cutoff: Millis, keep: set<Uuid>): Tables {
    db.(tasks := map id | id in db.tasks && (id in keep || !Expired(db.tasks[id], cutoff)) :: db.tasks[id])
  }

  function DeleteOrphanRuns(db: Tables): Tables {
    db.(runs := map r | r in db.runs && db.runs[r].taskId in db.tasks :: db.runs[r])
  }

  function DeleteDanglingEdges(db: Tables): Tables {
    db.(deps := set e | e in db.deps && e.0 in db.tasks && e.1 in db.tasks)
  }

  /** The four statements `prune` runs on these tables, in order. */
  function Prune(db: Tables, cutoff: Millis, keep: set<Uuid>): Tables {
    DeleteDanglingEdges(DeleteOrphanRuns(DeleteTasks(ClearOutputs(db, cutoff), cutoff, keep)))
  }
}
