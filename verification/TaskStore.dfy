/**
 The database object: every statement of the queue as a method that changes the
 tables in place.  Each contract ties the whole new state to the statement's
 effect in `Queue`, where its properties are proved.
 */
module TaskStore {
  import opened Options
  import opened Queue
  import Calendar

  datatype DbError = DuplicateRunId

  class Store {
    var tasks: map<Uuid, TaskRow>
    var runs: map<Uuid, RunRow>
    var deps: set<(Uuid, Uuid)>

    function Tables(): Tables
      reads this
    {
      Queue.Tables(tasks, runs, deps)
    }

    constructor ()
      ensures Tables() == Queue.Tables(map[], map[], {})
    {
      tasks, runs, deps := map[], map[], {};
    }

    method InsertTask(t: Task)
      modifies this`tasks
      ensures Tables() == Queue.InsertTask(old(Tables()), t)
    {
      var taken := t.row.dedupeKey.Some? && exists id :: id in tasks && tasks[id].dedupeKey == t.row.dedupeKey;
      if t.id !in tasks && !taken {
        tasks := tasks[t.id := t.row.(retryAt := None)];
      }
    }

    method ClaimTask(t: Task, runId: Uuid, now: Millis) returns (r: Result<Option<RunRow>, DbError>)
      modifies this`tasks, this`runs
      ensures Tables() == Queue.ClaimTask(old(Tables()), t, runId, now)
      ensures r.Ok? && r.value.Some? <==> Claims(old(Tables()), t, runId, now)
      ensures r.Ok? && r.value.Some? ==> r.value.value == runs[runId] && runs[runId] == ClaimedRun(t, now)
      ensures r.Err? ==> runId in old(runs)
    {
      var attempt := t.row.attempt + 1;
      if t.id !in tasks || !tasks[t.id].status.Pending? {
        return Ok(None);
      }
      if runId in runs {
        return Err(DuplicateRunId);
      }
      tasks := tasks[t.id := tasks[t.id].(
                   status := Running, startedAt := Some(now), attempt := attempt, retryAt := None)];
      var run := RunRow(t.id, attempt, RunRunning, Some(now), None, None, None);
      runs := runs[runId := run];
      return Ok(Some(run));
    }

    method FinishActiveTask(t: Task) returns (changed: bool)
      modifies this`tasks
      ensures changed == Hits(old(Tables()), t.id, Finish(t.row))
      ensures Tables() == Cas(old(Tables()), t.id, Finish(t.row))
    {
      changed := t.id in tasks && tasks[t.id].status.Active();
      if changed {
        var o := t.row;
        tasks := tasks[t.id := tasks[t.id].(
                     status := o.status, attempt := o.attempt, output := o.output, startedAt := o.startedAt,
                     finishedAt := o.finishedAt, error := o.error, failure := o.failure,
                     sessionId := o.sessionId, sessionTitle := o.sessionTitle)];
      }
    }

    method CancelActiveTask(id: Uuid, now: Millis) returns (changed: bool)
      modifies this`tasks
      ensures changed == Hits(old(Tables()), id, Cancel(now))
      ensures Tables() == Cas(old(Tables()), id, Cancel(now))
    {
      changed := id in tasks && tasks[id].status in {Pending, Running, AwaitingInput};
      if changed {
        tasks := tasks[id := tasks[id].(status := Cancelled, finishedAt := Some(now))];
      }
    }

    method FailStaleTask(id: Uuid, error: string, failure: Failure, now: Millis) returns (changed: bool)
      modifies this`tasks
      ensures changed == Hits(old(Tables()), id, FailStale(error, failure, now))
      ensures Tables() == Cas(old(Tables()), id, FailStale(error, failure, now))
    {
      changed := id in tasks && tasks[id].status in {Running, AwaitingInput};
      if changed {
        tasks := tasks[id := tasks[id].(
                     status := Failed, error := Some(error), failure := Some(failure), finishedAt := Some(now))];
      }
    }

    method FailPendingTask(id: Uuid, error: string, failure: Failure, now: Millis) returns (changed: bool)
      modifies this`tasks
      ensures changed == Hits(old(Tables()), id, FailPending(error, failure, now))
      ensures Tables() == Cas(old(Tables()), id, FailPending(error, failure, now))
    {
      changed := id in tasks && tasks[id].status == Pending;
      if changed {
        tasks := tasks[id := tasks[id].(
                     status := Failed, error := Some(error), failure := Some(failure), finishedAt := Some(now))];
      }
    }

    method RetryStaleTask(id: Uuid) returns (changed: bool)
      modifies this`tasks
      ensures changed == Hits(old(Tables()), id, RetryStale)
      ensures Tables() == Cas(old(Tables()), id, RetryStale)
    {
      changed := id in tasks && tasks[id].status in {Running, AwaitingInput};
      if changed {
        tasks := tasks[id := tasks[id].(
                     status := Pending, startedAt := None, finishedAt := None,
                     error := None, failure := None, retryAt := None)];
      }
    }

    method ScheduleTaskRetry(id: Uuid, at: Millis) returns (changed: bool)
      modifies this`tasks
      ensures changed == Hits(old(Tables()), id, ScheduleRetry(at))
      ensures Tables() == Cas(old(Tables()), id, ScheduleRetry(at))
    {
      changed := id in tasks && tasks[id].status == Failed;
      if changed {
        tasks := tasks[id := tasks[id].(
                     status := Pending, startedAt := None, finishedAt := None,
                     error := None, failure := None, output := None, retryAt := Some(at))];
      }
    }

    method RequeueTerminalTask(id: Uuid) returns (changed: bool)
      modifies this`tasks
      ensures changed == Hits(old(Tables()), id, Requeue)
      ensures Tables() == Cas(old(Tables()), id, Requeue)
    {
      changed := id in tasks && tasks[id].status in {Succeeded, Failed, Cancelled};
      if changed {
        tasks := tasks[id := tasks[id].(
                     status := Pending, startedAt := None, finishedAt := None,
                     error := None, failure := None, output := None, retryAt := None)];
      }
    }

    method SetTaskStatusIf(id: Uuid, to: Status, from: Status) returns (changed: bool)
      modifies this`tasks
      ensures changed == Hits(old(Tables()), id, SetStatusIf(to, from))
      ensures Tables() == Cas(old(Tables()), id, SetStatusIf(to, from))
    {
      changed := id in tasks && tasks[id].status == from;
      if changed {
        tasks := tasks[id := tasks[id].(status := to)];
      }
    }

    method InterruptRun(runId: Uuid, error: string, failure: Failure, now: Millis) returns (changed: bool)
      modifies this`runs
      ensures changed == (runId in old(runs) && old(runs)[runId].status.Active())
      ensures Tables() == Queue.InterruptRun(old(Tables()), runId, error, failure, now)
    {
      changed := runId in runs && runs[runId].status in {RunPending, RunRunning, RunAwaiting};
      if changed {
        runs := runs[runId := runs[runId].(
                    status := RunInterrupted, finishedAt := Some(now), error := Some(error), failure := Some(failure))];
      }
    }

    method InsertDependency(id: Uuid, dependsOn: Uuid)
      modifies this`deps
      ensures Tables() == AddDependency(old(Tables()), id, dependsOn)
    {
      deps := deps + {(id, dependsOn)};
    }

    /** The pending tasks that may start now, oldest first, at most `max(limit, 1)` of them. */
    method NextPendingTasks(now: Millis, limit: int) returns (out: seq<Task>)
      ensures IsListing(Tables(), now, limit, out)
    {
      var rest := set id | id in tasks && Ready(Tables(), now, id);
      out := [];
      while |out| < RowLimit(limit) && rest != {}
        invariant |out| <= RowLimit(limit)
        invariant Listed(Tables(), now, out, rest)
        decreases |rest|
      {
        var id := Oldest(rest);
        ListOneMore(Tables(), now, out, rest, id);
        out := out + [Selected(Tables(), id)];
        rest := rest - {id};
      }
    }

    method Oldest(ids: set<Uuid>) returns (oldest: Uuid)
      requires ids != {} && ids <= tasks.Keys
      ensures oldest in ids
      ensures forall id :: id in ids ==> tasks[oldest].createdAt <= tasks[id].createdAt
    {
      oldest :| oldest in ids;
      var rest := ids - {oldest};
      while rest != {}
        invariant rest <= ids && oldest in ids
        invariant forall id :: id in ids - rest ==> tasks[oldest].createdAt <= tasks[id].createdAt
        decreases |rest|
      {
        var id :| id in rest;
        if tasks[id].createdAt < tasks[oldest].createdAt {
          oldest := id;
        }
        rest := rest - {id};
      }
    }

    /** The newest `n` ids by creation time. */
    method Newest(n: nat) returns (keep: set<Uuid>)
      ensures IsNewest(tasks, n, keep)
    {
      keep := {};
      var rest := tasks.Keys;
      while |keep| < n && rest != {}
        invariant |keep| <= n
        invariant keep + rest == tasks.Keys && keep !! rest
        invariant forall id, k :: id in rest && k in keep ==> tasks[id].createdAt <= tasks[k].createdAt
        decreases |rest|
      {
        var id := Youngest(rest);
        keep := keep + {id};
        rest := rest - {id};
      }
    }

    method Youngest(ids: set<Uuid>) returns (youngest: Uuid)
      requires ids != {} && ids <= tasks.Keys
      ensures youngest in ids
      ensures forall id :: id in ids ==> tasks[id].createdAt <= tasks[youngest].createdAt
    {
      youngest :| youngest in ids;
      var rest := ids - {youngest};
      while rest != {}
        invariant rest <= ids && youngest in ids
        invariant forall id :: id in ids - rest ==> tasks[id].createdAt <= tasks[youngest].createdAt
        decreases |rest|
      {
        var id :| id in rest;
        if tasks[youngest].createdAt < tasks[id].createdAt {
          youngest := id;
        }
        rest := rest - {id};
      }
    }

    method ClearOutputs(cutoff: Millis)
      modifies this`tasks
      ensures Tables() == Queue.ClearOutputs(old(Tables()), cutoff)
    {
      tasks := map id | id in tasks ::
          if tasks[id].finishedAt.Some? && tasks[id].finishedAt.value < cutoff
          then tasks[id].(output := None) else tasks[id];
    }

    method DeleteTasks(cutoff: Millis, keep: set<Uuid>)
      modifies this`tasks
      ensures Tables() == Queue.DeleteTasks(old(Tables()), cutoff, keep)
    {
      tasks := map id | id in tasks && !(Expired(tasks[id], cutoff) && id !in keep) :: tasks[id];
    }

    method DeleteOrphans()
      modifies this`runs, this`deps
      ensures Tables() == DeleteDanglingEdges(DeleteOrphanRuns(old(Tables())))
    {
      runs := map r | r in runs && runs[r].taskId in tasks :: runs[r];
      deps := deps - set e | e in deps && (e.0 !in tasks || e.1 !in tasks);
    }

    /** `days == 0` disables retention; otherwise the four statements run with one cutoff. */
    method Prune(days: nat, minTasks: nat, now: Millis) returns (ghost keep: set<Uuid>)
      modifies this
      ensures days == 0 ==> Tables() == old(Tables())
      ensures days != 0 ==> IsPruned(old(Tables()), Tables(), Cutoff(now, days), minTasks, keep)
      ensures days >= 1 ==> forall id :: id in old(tasks) ==>
                Retained(old(Tables()), Tables(), id, now - days * 86_400_000, minTasks)
    {
      keep := {};
      if days == 0 {
        return;
      }
      ghost var before := Tables();
      keep := PruneBefore(Cutoff(now, days), minTasks);
      PrunedIsRetained(before, Tables(), now, days, minTasks, keep);
    }

    method PruneBefore(cutoff: Millis, minTasks: nat) returns (ghost keep: set<Uuid>)
      modifies this
      ensures IsPruned(old(Tables()), Tables(), cutoff, minTasks, keep)
    {
      keep := DeleteExpired(cutoff, minTasks);
      ghost var kept := Tables();
      DeleteOrphans();
      assert Tables() == DeleteDanglingEdges(DeleteOrphanRuns(kept));
    }

    method DeleteExpired(cutoff: Millis, minTasks: nat) returns (keep: set<Uuid>)
      modifies this`tasks
      ensures IsNewest(old(tasks), minTasks, keep)
      ensures Tables() == Queue.DeleteTasks(Queue.ClearOutputs(old(Tables()), cutoff), cutoff, keep)
    {
      ClearOutputs(cutoff);
      keep := Newest(minTasks);
      NewestIgnoresOutputs(old(Tables()), cutoff, minTasks, keep);
      DeleteTasks(cutoff, keep);
    }
  }

  function Cutoff(now: Millis, days: nat): Millis { now - days * Calendar.DAY_MS }

  /** The four statements ran with one cutoff, and `keep` are newest rows of the tables before. */
  ghost predicate IsPruned(before: Tables, after: Tables, cutoff: Millis, minTasks: nat, keep: set<Uuid>) {
    IsNewest(before.tasks, minTasks, keep) && after == Queue.Prune(before, cutoff, keep)
  }

  /** The rows created later than this one, and those created no earlier. */
  function Later(tasks: map<Uuid, TaskRow>, id: Uuid): set<Uuid>
    requires id in tasks
  {
    set k | k in tasks && tasks[k].createdAt > tasks[id].createdAt
  }

  function NoEarlier(tasks: map<Uuid, TaskRow>, id: Uuid): set<Uuid>
    requires id in tasks
  {
    set k | k in tasks && k != id && tasks[k].createdAt >= tasks[id].createdAt
  }

  predicate HasRunsOf(before: Tables, after: Tables, id: Uuid) {
    forall r :: r in before.runs && before.runs[r].taskId == id ==> r in after.runs && after.runs[r] == before.runs[r]
  }

  /**
   What a prune that keeps everything since `since` does to one row: what has not finished
   by then stays as it is, with its runs; what has loses its output, and is deleted with
   its runs unless it is among the newest `minTasks`.
   */
  predicate Retained(before: Tables, after: Tables, id: Uuid, since: Millis, minTasks: nat)
    requires id in before.tasks
  {
    var row := before.tasks[id];
    if row.finishedAt == None || row.finishedAt.value >= since then
      id in after.tasks && after.tasks[id] == row && HasRunsOf(before, after, id)
    else
      && (id in after.tasks ==> after.tasks[id] == row.(output := None) && HasRunsOf(before, after, id))
      && (id !in after.tasks ==> forall r :: r in after.runs ==> after.runs[r].taskId != id)
      && (|Later(before.tasks, id)| >= minTasks ==> id !in after.tasks)
      && (|NoEarlier(before.tasks, id)| < minTasks ==> id in after.tasks)
  }

  lemma Larger(a: set<Uuid>, b: set<Uuid>)
    requires a <= b
    ensures |a| <= |b|
  {
    assert b == a + (b - a);
  }

  lemma NewestByCount(tasks: map<Uuid, TaskRow>, n: nat, keep: set<Uuid>, id: Uuid)
    requires IsNewest(tasks, n, keep) && id in tasks
    ensures |Later(tasks, id)| >= n ==> id !in keep
    ensures |NoEarlier(tasks, id)| < n ==> id in keep
  {
    if id in keep {
      forall k | k in Later(tasks, id) ensures k in keep {}
      Larger(Later(tasks, id) + {id}, keep);
    } else {
      Larger(keep, NoEarlier(tasks, id));
    }
  }

  lemma PrunedIsRetained(before: Tables, after: Tables, now: Millis, days: nat, minTasks: nat, keep: set<Uuid>)
    requires IsPruned(before, after, Cutoff(now, days), minTasks, keep)
    ensures forall id :: id in before.tasks ==> Retained(before, after, id, now - days * 86_400_000, minTasks)
  {
    forall id | id in before.tasks ensures Retained(before, after, id, now - days * 86_400_000, minTasks) {
      NewestByCount(before.tasks, minTasks, keep, id);
    }
  }

  /** The loop state of the listing: `out` is chosen, `rest` is still to choose from. */
  ghost predicate Listed(db: Tables, now: Millis, out: seq<Task>, rest: set<Uuid>) {
    && (forall id :: id in rest ==> Ready(db, now, id) && !Lists(out, id))
    && (forall id :: Ready(db, now, id) ==> id in rest || Lists(out, id))
    && (forall i :: 0 <= i < |out| ==> Ready(db, now, out[i].id) && out[i] == Selected(db, out[i].id))
    && (forall i, j :: 0 <= i < j < |out| ==> out[i].id != out[j].id && out[i].row.createdAt <= out[j].row.createdAt)
    && (forall i, id :: 0 <= i < |out| && id in rest ==> out[i].row.createdAt <= db.tasks[id].createdAt)
  }

  lemma ListOneMore(db: Tables, now: Millis, out: seq<Task>, rest: set<Uuid>, id: Uuid)
    requires Listed(db, now, out, rest)
    requires id in rest && forall k :: k in rest ==> db.tasks[id].createdAt <= db.tasks[k].createdAt
    ensures Listed(db, now, out + [Selected(db, id)], rest - {id})
  {
    var next := out + [Selected(db, id)];
    assert next[|out|].id == id;
    forall k ensures Lists(next, k) <==> Lists(out, k) || k == id {
      if Lists(out, k) {
        var i :| 0 <= i < |out| && out[i].id == k;
        assert next[i].id == k;
      }
    }
    forall i, j | 0 <= i < j < |next|
      ensures next[i].id != next[j].id && next[i].row.createdAt <= next[j].row.createdAt
    {
      if j == |out| {
        assert !Lists(out, id);
        assert out[i].id != id;
      }
    }
  }

  /** Clearing outputs moves no creation time, so the newest rows are chosen as before. */
  lemma NewestIgnoresOutputs(db: Tables, cutoff: Millis, n: nat, keep: set<Uuid>)
    requires IsNewest(Queue.ClearOutputs(db, cutoff).tasks, n, keep)
    ensures IsNewest(db.tasks, n, keep)
  {
    var cleared := Queue.ClearOutputs(db, cutoff).tasks;
    forall id | id in db.tasks && id !in keep
      ensures |keep| == n && forall k :: k in keep ==> db.tasks[id].createdAt <= db.tasks[k].createdAt
    {
      assert id in cleared && cleared[id].createdAt == db.tasks[id].createdAt;
      forall k | k in keep ensures db.tasks[id].createdAt <= db.tasks[k].createdAt {
        assert k in cleared && cleared[id].createdAt <= cleared[k].createdAt;
      }
    }
  }
}
