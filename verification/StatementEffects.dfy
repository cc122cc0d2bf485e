/**
 What each statement of the queue writes, column by column: the states a row must be in,
 the columns that change, and that nothing else does.
 */
module StatementEffects {
  import opened Options
  import opened Queue

  /** Only this task's row may differ. */
  ghost predicate OnlyRow(db: Tables, after: Tables, id: Uuid) {
    && after.runs == db.runs && after.deps == db.deps && after.tasks.Keys == db.tasks.Keys
    && forall k :: k in db.tasks && k != id ==> after.tasks[k] == db.tasks[k]
  }

  /** The row is in one of these states. */
  predicate In(db: Tables, id: Uuid, states: set<Status>) { id in db.tasks && db.tasks[id].status in states }

  /** A statement that hits turns the row into `row` and touches nothing else; one that misses does nothing. */
  ghost predicate Turns(db: Tables, after: Tables, id: Uuid, states: set<Status>, row: TaskRow) {
    if In(db, id, states) then OnlyRow(db, after, id) && id in after.tasks && after.tasks[id] == row
    else after == db
  }

  /** The row's columns that no finish touches, with the reported outcome in the others. */
  function Finished(r: TaskRow, o: TaskRow): TaskRow {
    o.(name := r.name, dedupeKey := r.dedupeKey, createdAt := r.createdAt, retryAt := r.retryAt)
  }

  lemma FinishWrites(db: Tables, id: Uuid, o: TaskRow)
    requires id in db.tasks
    ensures Turns(db, Cas(db, id, Finish(o)), id, {Running, AwaitingInput}, Finished(db.tasks[id], o))
    ensures In(db, id, {Running, AwaitingInput}) ==>
              var r := Cas(db, id, Finish(o)).tasks[id];
              && r.status == o.status && r.attempt == o.attempt && r.output == o.output
              && r.startedAt == o.startedAt && r.finishedAt == o.finishedAt
              && r.error == o.error && r.failure == o.failure
              && r.sessionId == o.sessionId && r.sessionTitle == o.sessionTitle
  {
  }

  lemma CancelWrites(db: Tables, id: Uuid, now: Millis)
    requires id in db.tasks
    ensures Turns(db, Cas(db, id, Cancel(now)), id, {Pending, Running, AwaitingInput},
                  db.tasks[id].(status := Cancelled, finishedAt := Some(now)))
  {
  }

  /** Failing a stale and failing a pending row write the same, in different states. */
  lemma FailureWrites(db: Tables, id: Uuid, error: string, failure: Failure, now: Millis)
    requires id in db.tasks
    ensures var row := db.tasks[id].(status := Failed, error := Some(error), failure := Some(failure),
                                     finishedAt := Some(now));
            && Turns(db, Cas(db, id, FailStale(error, failure, now)), id, {Running, AwaitingInput}, row)
            && Turns(db, Cas(db, id, FailPending(error, failure, now)), id, {Pending}, row)
  {
  }

  /** All three ways back to pending clear the outcome; only a stale row keeps its output. */
  lemma RetryWrites(db: Tables, id: Uuid, at: Millis)
    requires id in db.tasks
    ensures var row := db.tasks[id].(status := Pending, startedAt := None, finishedAt := None,
                                     error := None, failure := None, retryAt := None);
            && Turns(db, Cas(db, id, RetryStale), id, {Running, AwaitingInput}, row)
            && Turns(db, Cas(db, id, Requeue), id, {Succeeded, Failed, Cancelled}, row.(output := None))
            && Turns(db, Cas(db, id, ScheduleRetry(at)), id, {Failed}, row.(output := None, retryAt := Some(at)))
  {
  }

  lemma StatusWrites(db: Tables, id: Uuid, to: Status, from: Status)
    requires id in db.tasks
    ensures Turns(db, Cas(db, id, SetStatusIf(to, from)), id, {from}, db.tasks[id].(status := to))
  {
  }

  /** A session is written once: what is there stays. */
  lemma SessionWrites(db: Tables, id: Uuid, sessionId: string, title: Option<string>)
    requires id in db.tasks
    ensures var after := Cas(db, id, SetSession(sessionId, title));
            && OnlyRow(db, after, id)
            && after.tasks[id] == db.tasks[id].(sessionId := after.tasks[id].sessionId,
                                                sessionTitle := after.tasks[id].sessionTitle)
            && after.tasks[id].sessionId.Some?
            && (db.tasks[id].sessionId.Some? ==> after.tasks[id].sessionId == db.tasks[id].sessionId)
            && (db.tasks[id].sessionId.None? ==> after.tasks[id].sessionId == Some(sessionId))
            && (db.tasks[id].sessionTitle.Some? ==> after.tasks[id].sessionTitle == db.tasks[id].sessionTitle)
            && (db.tasks[id].sessionTitle.None? ==> after.tasks[id].sessionTitle == title)
  {
  }

  /** A claim needs a pending row and an unused run id; then both tables get the next attempt at the same instant. */
  lemma ClaimWrites(db: Tables, t: Task, runId: Uuid, now: Millis)
    ensures var after := ClaimTask(db, t, runId, now);
            if t.id in db.tasks && db.tasks[t.id].status == Pending && runId !in db.runs then
              && after.tasks == db.tasks[t.id := db.tasks[t.id].(status := Running, startedAt := Some(now),
                                                                   attempt := t.row.attempt + 1, retryAt := None)]
              && after.runs
                 == db.runs[runId := RunRow(t.id, t.row.attempt + 1, RunRunning, Some(now), None, None, None)]
              && after.deps == db.deps
            else after == db
  {
  }

  /** A row comes in under a free id and a free key, as it is but for the deadline; otherwise nothing happens. */
  lemma InsertWrites(db: Tables, t: Task)
    ensures var free := t.id !in db.tasks
                        && (t.row.dedupeKey == None
                            || forall id :: id in db.tasks ==> db.tasks[id].dedupeKey != t.row.dedupeKey);
            var after := InsertTask(db, t);
            if free then after == db.(tasks := db.tasks[t.id := t.row.(retryAt := None)]) else after == db
  {
  }

  lemma InterruptWrites(db: Tables, runId: Uuid, error: string, failure: Failure, now: Millis)
    ensures var after := InterruptRun(db, runId, error, failure, now);
            if runId in db.runs && db.runs[runId].status in {RunPending, RunRunning, RunAwaiting} then
              var run := db.runs[runId];
              after == db.(runs := db.runs[runId := RunRow(run.taskId, run.attempt, RunInterrupted, run.startedAt,
                                                           Some(now), Some(error), Some(failure))])
            else after == db
  {
  }

  lemma FinalizeWrites(db: Tables, runId: Uuid, o: RunRow)
    ensures var after := FinalizeRun(db, runId, o);
            if runId in db.runs then
              var run := db.runs[runId];
              after == db.(runs := db.runs[runId := RunRow(run.taskId, run.attempt, o.status, run.startedAt,
                                                           o.finishedAt, o.error, o.failure)])
            else after == db
  {
  }

  // -------------------------------------------------------------------------
  // The listing
  // -------------------------------------------------------------------------

  /** Pending, due, and waiting on no present task that is unfinished. */
  predicate MayStart(db: Tables, now: Millis, id: Uuid) {
    && id in db.tasks && db.tasks[id].status == Pending
    && (db.tasks[id].retryAt == None || db.tasks[id].retryAt.value <= now)
    && forall p :: p in db.tasks && (id, p) in db.deps ==> db.tasks[p].status in {Succeeded, Failed, Cancelled}
  }

  function Startable(db: Tables, now: Millis): set<Uuid> { set id | id in db.tasks && MayStart(db, now, id) }

  function Listed(out: seq<Task>): set<Uuid> { set i | 0 <= i < |out| :: out[i].id }

  lemma {:induction false} ListedCount(out: seq<Task>)
    requires forall i, j :: 0 <= i < j < |out| ==> out[i].id != out[j].id
    ensures |Listed(out)| == |out|
  {
    if out != [] {
      var front, last := out[..|out| - 1], out[|out| - 1];
      ListedCount(front);
      assert Listed(out) == Listed(front) + {last.id};
    }
  }

  lemma ReadyIsStartable(db: Tables, now: Millis, id: Uuid)
    ensures Ready(db, now, id) <==> id in Startable(db, now)
  {
  }

  lemma ListedIsLists(out: seq<Task>, id: Uuid)
    ensures id in Listed(out) <==> Lists(out, id)
  {
  }

  lemma ListedMayStart(db: Tables, now: Millis, limit: int, out: seq<Task>)
    requires IsListing(db, now, limit, out)
    ensures Listed(out) <= Startable(db, now)
  {
    forall id | id in Listed(out) ensures id in Startable(db, now) {
      ListedIsLists(out, id);
      ReadyIsStartable(db, now, id);
    }
  }

  /** As many as may start, if the limit (at least one) allows, else as many as it says. */
  lemma ListingCount(db: Tables, now: Millis, limit: int, out: seq<Task>)
    requires IsListing(db, now, limit, out)
    ensures var most, may := if limit >= 1 then limit else 1, |Startable(db, now)|;
            |out| == if may <= most then may else most
  {
    var may, listed := Startable(db, now), Listed(out);
    ListedMayStart(db, now, limit, out);
    ListedCount(out);
    assert may == listed + (may - listed);
    if id :| id in may - listed {
      ListedIsLists(out, id);
      ReadyIsStartable(db, now, id);
    } else {
      assert may == listed;
    }
  }

  /** The listing is the oldest of the tasks that may start, oldest first, as stored but for output and deadline. */
  lemma ListingIsOldest(db: Tables, now: Millis, limit: int, out: seq<Task>, i: nat, id: Uuid)
    requires IsListing(db, now, limit, out) && i < |out|
    ensures out[i].id in db.tasks && out[i].row == db.tasks[out[i].id].(output := None, retryAt := None)
    ensures forall j :: i < j < |out| ==> out[i].row.createdAt <= out[j].row.createdAt && out[i].id != out[j].id
    ensures id in Startable(db, now) && id !in Listed(out) ==> out[i].row.createdAt <= db.tasks[id].createdAt
  {
    ListedIsLists(out, id);
    ReadyIsStartable(db, now, id);
  }
}
