/** The dependency gate wedges a quiet queue exactly when unfinished tasks wait in a cycle. */
module Dispatch {
  import opened Queue

  /** `path` follows the edges: each task waits on the next one. */
  predicate IsChain(deps: set<(Uuid, Uuid)>, path: seq<Uuid>) {
    forall i :: 0 <= i < |path| - 1 ==> (path[i], path[i + 1]) in deps
  }

  predicate AllUnfinished(db: Tables, path: seq<Uuid>) {
    forall i :: 0 <= i < |path| ==> path[i] in db.tasks && !db.tasks[path[i]].status.Terminal()
  }

  /** A cycle of present, unfinished tasks; edges through finished or missing tasks block nobody. */
  predicate IsCycle(db: Tables, path: seq<Uuid>) {
    |path| >= 2 && path[0] == path[|path| - 1] && IsChain(db.deps, path) && AllUnfinished(db, path)
  }

  /** A way from the first task into such a cycle: the last task stood on the path before. */
  predicate RunsIntoCycle(db: Tables, path: seq<Uuid>) {
    |path| >= 2 && path[|path| - 1] in path[..|path| - 1] && IsChain(db.deps, path) && AllUnfinished(db, path)
  }

  predicate Waiting(db: Tables, now: Millis, id: Uuid) {
    && id in db.tasks && db.tasks[id].status.Pending?
    && (db.tasks[id].retryAt.None? || db.tasks[id].retryAt.value <= now)
  }

  /** Nothing is running or awaiting input, and every retry deadline has passed. */
  predicate Quiet(db: Tables, now: Millis) {
    forall id :: id in db.tasks ==> db.tasks[id].status.Terminal() || Waiting(db, now, id)
  }

  lemma CycleAtTheEnd(db: Tables, path: seq<Uuid>) returns (k: nat)
    requires RunsIntoCycle(db, path)
    ensures k < |path| && IsCycle(db, path[k..])
  {
    k :| 0 <= k < |path| - 1 && path[k] == path[|path| - 1];
    var cycle := path[k..];
    forall i | 0 <= i < |cycle| - 1 ensures (cycle[i], cycle[i + 1]) in db.deps {
      assert (path[k + i], path[k + i + 1]) in db.deps;
    }
  }

  /** Follow blockers from the end of `path`: distinct pending tasks run out, so the path ends or closes. */
  lemma {:induction false} FollowBlockers(db: Tables, now: Millis, path: seq<Uuid>) returns (r: seq<Uuid>)
    requires Quiet(db, now)
    requires path != [] && IsChain(db.deps, path)
    requires forall i :: 0 <= i < |path| ==> Waiting(db, now, path[i])
    requires forall i, j :: 0 <= i < j < |path| ==> path[i] != path[j]
    ensures r != [] && r[0] == path[0]
    ensures Ready(db, now, r[|r| - 1]) || RunsIntoCycle(db, r)
    decreases |db.tasks| - |path|
  {
    var last := path[|path| - 1];
    if !IsBlocked(db, last) {
      return path;
    }
    var p :| p in db.tasks && (last, p) in db.deps && !db.tasks[p].status.Terminal();
    var next := path + [p];
    assert IsChain(db.deps, next);
    if p in path {
      assert next[..|path|] == path;
      return next;
    }
    DistinctFit(next, db.tasks.Keys);
    r := FollowBlockers(db, now, next);
  }

  lemma {:induction false} DistinctFit(path: seq<Uuid>, ids: set<Uuid>)
    requires forall i :: 0 <= i < |path| ==> path[i] in ids
    requires forall i, j :: 0 <= i < j < |path| ==> path[i] != path[j]
    ensures |path| <= |ids|
  {
    if path != [] {
      DistinctFit(path[1..], ids - {path[0]});
    }
  }

  /** A listing that is empty although a task is pending and all is quiet comes with a cycle to blame. */
  lemma EmptyListingHasCycle(db: Tables, now: Millis, limit: int, id: Uuid) returns (path: seq<Uuid>)
    requires Quiet(db, now) && id in db.tasks && db.tasks[id].status.Pending?
    requires IsListing(db, now, limit, [])
    ensures RunsIntoCycle(db, path) && path[0] == id
  {
    path := FollowBlockers(db, now, [id]);
    assert !Lists([], path[|path| - 1]);
  }

  /** In a quiet queue with no cycle of unfinished tasks, any pending task makes every listing non-empty. */
  lemma DispatchNeverDeadlocks(db: Tables, now: Millis, limit: int, out: seq<Task>, id: Uuid)
    requires forall path :: !IsCycle(db, path)
    requires Quiet(db, now) && id in db.tasks && db.tasks[id].status.Pending?
    requires IsListing(db, now, limit, out)
    ensures out != []
  {
    if out == [] {
      var path := EmptyListingHasCycle(db, now, limit, id);
      var k := CycleAtTheEnd(db, path);
    }
  }

  /** The task waits its way into a cycle of unfinished tasks. */
  ghost predicate Wedged(db: Tables, id: Uuid) { exists path :: RunsIntoCycle(db, path) && path[0] == id }

  lemma EmptyListingIsWedged(db: Tables, now: Millis, limit: int, id: Uuid)
    requires Quiet(db, now) && id in db.tasks && db.tasks[id].status.Pending?
    requires IsListing(db, now, limit, [])
    ensures Wedged(db, id)
  {
    var path := EmptyListingHasCycle(db, now, limit, id);
    assert RunsIntoCycle(db, path) && path[0] == id;
  }

  lemma WedgedIsNotReady(db: Tables, now: Millis, id: Uuid)
    requires Wedged(db, id)
    ensures !Ready(db, now, id)
  {
    var path :| RunsIntoCycle(db, path) && path[0] == id;
    FirstIsBlocked(db, path);
  }

  /** Exactly: a quiet queue lists nothing if and only if every pending task waits its way into a cycle. */
  lemma WedgedIff(db: Tables, now: Millis, limit: int)
    requires Quiet(db, now)
    ensures IsListing(db, now, limit, []) <==>
            forall id :: id in db.tasks && db.tasks[id].status.Pending? ==> Wedged(db, id)
  {
    if IsListing(db, now, limit, []) {
      forall id | id in db.tasks && db.tasks[id].status.Pending? ensures Wedged(db, id) {
        EmptyListingIsWedged(db, now, limit, id);
      }
    }
    if forall id :: id in db.tasks && db.tasks[id].status.Pending? ==> Wedged(db, id) {
      forall id ensures !Ready(db, now, id) {
        if id in db.tasks && db.tasks[id].status.Pending? { WedgedIsNotReady(db, now, id); }
      }
    }
  }

  lemma FirstIsBlocked(db: Tables, path: seq<Uuid>)
    requires RunsIntoCycle(db, path)
    ensures IsBlocked(db, path[0])
  {
    assert (path[0], path[1]) in db.deps;
  }

  /** Whether or not the queue is quiet, tasks around a cycle of unfinished tasks are never listed. */
  lemma CycleIsNeverListed(db: Tables, now: Millis, limit: int, out: seq<Task>, path: seq<Uuid>, i: nat)
    requires IsCycle(db, path) && i < |path|
    requires IsListing(db, now, limit, out)
    ensures !Lists(out, path[i])
  {
    var k := if i == |path| - 1 then 0 else i;
    assert path[k] == path[i] && (path[k], path[k + 1]) in db.deps;
    assert IsBlocked(db, path[i]);
  }

  /** Every listed task is pending, due, and has all its present predecessors terminal. */
  lemma ListedAreUnblocked(db: Tables, now: Millis, limit: int, out: seq<Task>, id: Uuid, p: Uuid)
    requires IsListing(db, now, limit, out) && Lists(out, id)
    requires (id, p) in db.deps && p in db.tasks
    ensures db.tasks[p].status.Terminal()
    ensures Waiting(db, now, id)
  {
    var i :| 0 <= i < |out| && out[i].id == id;
    assert !IsBlocked(db, id);
  }
}
