/** `prune` is invisible to the dispatcher, deletes only what it may, and leaves no dangling rows. */
module Retention {
  import opened Queue
  import opened QueueRuns

  ghost predicate OutcomesMatch(db: Tables) {
    forall id :: id in db.tasks ==> OutcomeMatches(db.tasks[id])
  }

  lemma PruneKeepsOpenTasks(db: Tables, cutoff: Millis, keep: set<Uuid>, id: Uuid)
    requires OutcomesMatch(db) && id in db.tasks && !db.tasks[id].status.Terminal()
    ensures id in Prune(db, cutoff, keep).tasks && Prune(db, cutoff, keep).tasks[id] == db.tasks[id]
  {
  }

  lemma PruneRows(db: Tables, cutoff: Millis, keep: set<Uuid>, id: Uuid)
    ensures id in Prune(db, cutoff, keep).tasks <==>
              id in db.tasks && (id in keep || !Expired(db.tasks[id], cutoff))
    ensures id in Prune(db, cutoff, keep).tasks ==>
              Prune(db, cutoff, keep).tasks[id].(output := db.tasks[id].output) == db.tasks[id]
  {
  }

  lemma PruneKeepsReady(db: Tables, cutoff: Millis, keep: set<Uuid>, now: Millis, id: Uuid)
    requires OutcomesMatch(db)
    ensures Ready(Prune(db, cutoff, keep), now, id) <==> Ready(db, now, id)
  {
    var after := Prune(db, cutoff, keep);
    PruneRows(db, cutoff, keep, id);
    if id in db.tasks && db.tasks[id].status.Pending? {
      PruneKeepsOpenTasks(db, cutoff, keep, id);
      if IsBlocked(db, id) {
        var p :| p in db.tasks && (id, p) in db.deps && !db.tasks[p].status.Terminal();
        PruneKeepsOpenTasks(db, cutoff, keep, p);
        assert (id, p) in after.deps;
      }
      if IsBlocked(after, id) {
        var p :| p in after.tasks && (id, p) in after.deps && !after.tasks[p].status.Terminal();
        PruneRows(db, cutoff, keep, p);
        assert (id, p) in db.deps;
      }
    }
  }

  /** At the same instant, the listing has the same possible answers before and after a prune. */
  lemma PruneInvisibleToDispatch(db: Tables, cutoff: Millis, keep: set<Uuid>, now: Millis, limit: int, out: seq<Task>)
    requires OutcomesMatch(db)
    ensures IsListing(db, now, limit, out) <==> IsListing(Prune(db, cutoff, keep), now, limit, out)
  {
    var after := Prune(db, cutoff, keep);
    forall id
      ensures Ready(after, now, id) <==> Ready(db, now, id)
      ensures Ready(db, now, id) ==> id in after.tasks && after.tasks[id] == db.tasks[id]
    {
      PruneKeepsReady(db, cutoff, keep, now, id);
      if Ready(db, now, id) { PruneKeepsOpenTasks(db, cutoff, keep, id); }
    }
  }

  /** The same over every run of the queue, with no assumption left. */
  lemma PruneInvisibleInEveryRun(steps: seq<Step>, cutoff: Millis, keep: set<Uuid>,
                                 now: Millis, limit: int, out: seq<Task>)
    requires PossibleRun(START, steps)
    ensures var db := Run(START, steps).db;
            IsListing(db, now, limit, out) <==> IsListing(Prune(db, cutoff, keep), now, limit, out)
  {
    RunKeepsConsistent(START, steps);
    PruneInvisibleToDispatch(Run(START, steps).db, cutoff, keep, now, limit, out);
  }

  /** Exactly the expired rows outside the newest `n` go; `n` or all rows at least survive. */
  lemma PruneDeletesExactly(db: Tables, cutoff: Millis, n: nat, keep: set<Uuid>)
    requires IsNewest(db.tasks, n, keep)
    ensures forall id :: id in db.tasks ==>
              (id !in Prune(db, cutoff, keep).tasks <==> Expired(db.tasks[id], cutoff) && id !in keep)
    ensures keep <= Prune(db, cutoff, keep).tasks.Keys
    ensures |keep| == if |db.tasks| < n then |db.tasks| else n
  {
    var after := Prune(db, cutoff, keep);
    forall id | id in db.tasks
      ensures id !in after.tasks <==> Expired(db.tasks[id], cutoff) && id !in keep
    {
      PruneRows(db, cutoff, keep, id);
    }
    forall id | id in keep ensures id in after.tasks { PruneRows(db, cutoff, keep, id); }
    Smaller(keep, db.tasks.Keys);
    if id :| id in db.tasks && id !in keep {
      assert |keep| == n;
    } else {
      assert keep == db.tasks.Keys;
    }
  }

  lemma Smaller(a: set<Uuid>, b: set<Uuid>)
    requires a <= b
    ensures |a| <= |b|
  {
    assert b == a + (b - a);
  }

  /** Afterwards every run has its task and every edge both endpoints, and nothing else of theirs is lost. */
  lemma PruneCascades(db: Tables, cutoff: Millis, keep: set<Uuid>)
    ensures var after := Prune(db, cutoff, keep);
            && (forall r :: r in after.runs <==> r in db.runs && db.runs[r].taskId in after.tasks)
            && (forall r :: r in after.runs ==> after.runs[r] == db.runs[r])
            && (forall e :: e in after.deps <==> e in db.deps && e.0 in after.tasks && e.1 in after.tasks)
  {
  }
}
