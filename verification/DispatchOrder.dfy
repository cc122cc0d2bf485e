/**
 The order of claims over a whole run: a task is claimed after every predecessor
 that was on record when it was listed.  What is recorded later does not gate it.
 */
module DispatchOrder {
  import opened Options
  import opened Queue
  import opened QueueRuns

  /** The state before step `k`. */
  function At(s: System, steps: seq<Step>, k: nat): System
    requires k <= |steps|
  {
    Run(s, steps[..k])
  }

  ghost predicate ClaimsAt(steps: seq<Step>, k: nat, id: Uuid) {
    k < |steps| && ClaimsId(At(START, steps, k), steps[k], id)
  }

  /** The position of the latest listing before step `i`; 0 if there is none. */
  function ListedAt(steps: seq<Step>, i: nat): (l: nat)
    requires i <= |steps|
    ensures l <= i
  {
    if i == 0 then 0 else if steps[i - 1].List? then i - 1 else ListedAt(steps, i - 1)
  }

  lemma {:induction false} RunSplits(s: System, steps: seq<Step>, k: nat, id: Uuid)
    requires k <= |steps|
    ensures PossibleRun(s, steps) ==> PossibleRun(At(s, steps, k), steps[k..])
    ensures PossibleRun(s, steps) ==> PossibleRun(s, steps[..k])
    ensures NeverReopened(s, steps, id) ==> NeverReopened(At(s, steps, k), steps[k..], id)
    decreases k
  {
    if k == 0 {
      assert steps[0..] == steps;
    } else {
      RunSplits(Apply(s, steps[0]), steps[1..], k - 1, id);
      assert steps[..k][1..] == steps[1..][..k - 1] && steps[1..][k - 1..] == steps[k..];
    }
  }

  lemma {:induction false} OneStepOn(s: System, steps: seq<Step>, k: nat)
    requires k < |steps|
    ensures At(s, steps, k + 1) == Apply(At(s, steps, k), steps[k])
    decreases k
  {
    if k == 0 {
      assert steps[..1] == [steps[0]] && [steps[0]][1..] == [] && steps[..0] == [];
      assert Run(s, steps[..1]) == Run(Apply(s, steps[0]), []);
    } else {
      OneStepOn(Apply(s, steps[0]), steps[1..], k - 1);
      assert steps[..k + 1][1..] == steps[1..][..k] && steps[..k][1..] == steps[1..][..k - 1];
    }
  }

  /** Whatever the dispatcher holds came out of its latest listing. */
  lemma {:induction false} HeldWasListed(steps: seq<Step>, i: nat, t: Task)
    requires i <= |steps| && t in At(START, steps, i).held
    ensures var l := ListedAt(steps, i); l < i && steps[l].List? && t in steps[l].out
  {
    if i > 0 {
      OneStepOn(START, steps, i - 1);
      if !steps[i - 1].List? { HeldWasListed(steps, i - 1, t); }
    }
  }

  lemma {:induction false} ClaimedIsEverClaimed(s: System, steps: seq<Step>, k: nat, id: Uuid)
    requires k < |steps| && ClaimsId(At(s, steps, k), steps[k], id)
    ensures EverClaimed(s, steps, id)
    decreases k
  {
    if k > 0 {
      assert steps[..k][1..] == steps[1..][..k - 1];
      ClaimedIsEverClaimed(Apply(s, steps[0]), steps[1..], k - 1, id);
    }
  }

  lemma {:induction false} AtFrom(s: System, steps: seq<Step>, l: nat, k: nat)
    requires l <= k <= |steps|
    ensures At(s, steps, k) == At(At(s, steps, l), steps[l..], k - l)
    decreases l
  {
    if l == 0 {
      assert steps[0..] == steps;
    } else {
      AtFrom(Apply(s, steps[0]), steps[1..], l - 1, k - 1);
      assert steps[..k][1..] == steps[1..][..k - 1] && steps[..l][1..] == steps[1..][..l - 1];
      assert steps[1..][l - 1..] == steps[l..];
    }
  }

  lemma ClaimedAfter(steps: seq<Step>, l: nat, j: nat, p: Uuid)
    requires l < j && ClaimsAt(steps, j, p)
    ensures EverClaimed(Apply(At(START, steps, l), steps[l]), steps[l + 1..], p)
  {
    AtFrom(START, steps, l + 1, j);
    OneStepOn(START, steps, l);
    ClaimedIsEverClaimed(At(START, steps, l + 1), steps[l + 1..], j - l - 1, p);
  }

  lemma NotClaimedAfterListing(s: System, steps: seq<Step>, id: Uuid, p: Uuid)
    requires Consistent(s) && PossibleRun(s, steps) && NeverReopened(s, steps, p)
    requires steps != [] && steps[0].List? && Lists(steps[0].out, id)
    requires (id, p) in s.db.deps && p in s.db.tasks
    ensures !EverClaimed(Apply(s, steps[0]), steps[1..], p)
  {
    var List(now, limit, out) := steps[0];
    assert steps == [List(now, limit, out)] + steps[1..];
    ClaimsFollowEdges(s, now, limit, out, steps[1..], id, p);
  }

  lemma ClaimedWasListed(steps: seq<Step>, i: nat, id: Uuid)
    requires ClaimsAt(steps, i, id) && steps[i].ClaimHeld?
    ensures var l := ListedAt(steps, i); l < i && steps[l].List? && Lists(steps[l].out, id)
  {
    var t := At(START, steps, i).held[0];
    HeldWasListed(steps, i, t);
    var k :| 0 <= k < |steps[ListedAt(steps, i)].out| && steps[ListedAt(steps, i)].out[k] == t;
  }

  /**
   In every run from empty tables: if the dispatcher claims `id` at step `i` and anyone
   claims `p` at step `j`, and the edge and `p` were there when `id` was listed, then
   `p` came first, unless it is reopened.
   */
  lemma ClaimsAreTopological(steps: seq<Step>, i: nat, j: nat, id: Uuid, p: Uuid)
    requires PossibleRun(START, steps) && NeverReopened(START, steps, p)
    requires ClaimsAt(steps, i, id) && steps[i].ClaimHeld? && ClaimsAt(steps, j, p)
    requires var db := At(START, steps, ListedAt(steps, i)).db; (id, p) in db.deps && p in db.tasks
    ensures j < ListedAt(steps, i) < i
  {
    var l := ListedAt(steps, i);
    ClaimedWasListed(steps, i, id);
    RunSplits(START, steps, l, p);
    RunKeepsConsistent(START, steps[..l]);
    NotClaimedAfterListing(At(START, steps, l), steps[l..], id, p);
    assert steps[l..][0] == steps[l] && steps[l..][1..] == steps[l + 1..];
    if j > l { ClaimedAfter(steps, l, j, p); }
  }

  function TwoInserted(t: Task, p: Task): System { Apply(Apply(START, Insert(t)), Insert(p)) }

  /** A task is inserted and listed, then its edge to an unfinished task is recorded, then it is claimed. */
  function LateEdge(t: Task, p: Task, run: Uuid, now: Millis): seq<Step> {
    [Insert(t), Insert(p), List(now, 1, [t.(row := t.row.(output := None, retryAt := None))]),
     AddEdge(t.id, p.id), ClaimHeld(run, now)]
  }

  predicate TwoFresh(t: Task, p: Task) {
    && t.id != p.id && t.row.status == Pending && p.row.status == Pending
    && t.row.finishedAt == None && p.row.finishedAt == None
    && t.row.dedupeKey == None && p.row.dedupeKey == None && t.row.createdAt <= p.row.createdAt
  }

  lemma FirstIsListed(t: Task, p: Task, now: Millis)
    requires TwoFresh(t, p)
    ensures IsListing(TwoInserted(t, p).db, now, 1, [t.(row := t.row.(output := None, retryAt := None))])
  {
    var out := [t.(row := t.row.(output := None, retryAt := None))];
    assert out[0].id == t.id && Lists(out, t.id);
  }

  lemma LateEdgeRuns(t: Task, p: Task, run: Uuid, now: Millis)
    requires TwoFresh(t, p)
    ensures var steps := LateEdge(t, p, run, now);
            && PossibleRun(START, steps)
            && Run(START, steps) == Apply(Apply(Apply(TwoInserted(t, p), steps[2]), steps[3]), steps[4])
  {
    var steps := LateEdge(t, p, run, now);
    var s1, s2 := Apply(START, steps[0]), TwoInserted(t, p);
    var s3 := Apply(s2, steps[2]);
    var s4 := Apply(s3, steps[3]);
    FirstIsListed(t, p, now);
    Unroll(START, steps);
    Unroll(s1, steps[1..]);
    Unroll(s2, steps[2..]);
    Unroll(s3, steps[3..]);
    Unroll(s4, steps[4..]);
    assert steps[5..] == [];
  }

  /** Which is why the order speaks of edges present at the listing: an enqueue inserts the row first. */
  lemma EdgeAfterListingDoesNotGate(t: Task, p: Task, run: Uuid, now: Millis)
    requires TwoFresh(t, p)
    ensures var db := Run(START, LateEdge(t, p, run, now)).db;
            && PossibleRun(START, LateEdge(t, p, run, now))
            && {t.id, p.id} <= db.tasks.Keys && (t.id, p.id) in db.deps
            && db.tasks[t.id].status == Running && db.tasks[p.id].status == Pending
  {
    LateEdgeRuns(t, p, run, now);
  }
}
