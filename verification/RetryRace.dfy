/**
 Which retries are safe.  A guard decides which manual retries may requeue; attempts stay
 exact in every run under it if and only if it never lets a row be reopened under an
 unreported run.  The code, which checks before the requeue and not in it, has no such
 guard: two overlapping retries get through, and so does the retry of a one-shot.
 */
module RetryRace {
  import opened Options
  import opened Queue
  import opened QueueRuns
  import opened ExecutorProtocol

  /** Which requeues and automatic retries are let through. */
  type Guard = (Daemon, Move) -> bool

  /** What the code has: the requeue looks at nothing but the row's status. */
  const NO_GUARD: Guard := (d: Daemon, m: Move) => true

  ghost predicate EnabledBy(g: Guard, d: Daemon, m: Move) {
    Enabled(d, m) && (m.ManualRetry? || m.AutoRetry? ==> g(d, m))
  }

  ghost predicate EnabledAllBy(g: Guard, d: Daemon, moves: seq<Move>)
    decreases |moves|
  {
    moves == [] || (EnabledBy(g, d, moves[0]) && EnabledAllBy(g, Do(d, moves[0]), moves[1..]))
  }

  ghost predicate AllExact(d: Daemon) {
    forall id :: id in d.sys.db.tasks ==> AttemptsExact(d.sys.db, id)
  }

  /** From an empty database, every run under the guard keeps one run per attempt. */
  ghost predicate AlwaysExact(g: Guard) {
    forall moves :: EnabledAllBy(g, BOOT, moves) ==> AllExact(DoAll(BOOT, moves))
  }

  /** In no reachable state does the guard let a row be reopened under an unreported run. */
  ghost predicate NeverReopens(g: Guard) {
    forall moves, m :: EnabledAllBy(g, BOOT, moves) && EnabledBy(g, DoAll(BOOT, moves), m) ==>
      !ReopensUnreported(DoAll(BOOT, moves), m)
  }

  // -------------------------------------------------------------------------
  // Runs in pieces
  // -------------------------------------------------------------------------

  lemma {:induction false} DoAllAppend(g: Guard, d: Daemon, a: seq<Move>, b: seq<Move>)
    ensures DoAll(d, a + b) == DoAll(DoAll(d, a), b)
    ensures EnabledAllBy(g, d, a + b) <==> EnabledAllBy(g, d, a) && EnabledAllBy(g, DoAll(d, a), b)
    decreases |a|
  {
    if a == [] {
      assert a + b == b;
    } else {
      assert (a + b)[1..] == a[1..] + b;
      DoAllAppend(g, Do(d, a[0]), a[1..], b);
    }
  }

  lemma OneMove(g: Guard, d: Daemon, m: Move)
    ensures DoAll(d, [m]) == Do(d, m)
    ensures EnabledAllBy(g, d, [m]) <==> EnabledBy(g, d, m)
  {
    assert [m][1..] == [];
  }

  lemma OneMoveMore(g: Guard, d: Daemon, moves: seq<Move>, m: Move)
    requires EnabledAllBy(g, d, moves) && EnabledBy(g, DoAll(d, moves), m)
    ensures EnabledAllBy(g, d, moves + [m]) && DoAll(d, moves + [m]) == Do(DoAll(d, moves), m)
  {
    DoAllAppend(g, d, moves, [m]);
    OneMove(g, DoAll(d, moves), m);
  }

  // -------------------------------------------------------------------------
  // From a reopened row to a lost attempt
  // -------------------------------------------------------------------------

  /** The row waits at `attempt`, with a finish at that attempt to come. */
  ghost predicate Reopened(d: Daemon, id: Uuid, attempt: nat) {
    && Steady(d) && !d.booting
    && id in d.sys.db.tasks && d.sys.db.tasks[id].status.Pending? && d.sys.db.tasks[id].attempt == attempt
    && FinishToCome(d, id, attempt)
  }

  /** And the dispatcher is free to list it. */
  ghost predicate Doomed(d: Daemon, id: Uuid, attempt: nat) { Reopened(d, id, attempt) && d.failing == None }

  predicate FinishToCome(d: Daemon, id: Uuid, attempt: nat) {
    (id in d.ending && d.ending[id] == attempt)
    || exists r :: r in d.live && d.live[r] == LiveRun(id, attempt, false)
  }

  /** The only task that is not terminal is `id`. */
  predicate OnlyOpen(db: Tables, id: Uuid) {
    forall k :: k in db.tasks && k != id ==> db.tasks[k].status.Terminal()
  }

  function OpenOthers(db: Tables, id: Uuid): set<Uuid> {
    set k | k in db.tasks && k != id && !db.tasks[k].status.Terminal()
  }

  lemma CancelKeepsDoomed(d: Daemon, id: Uuid, attempt: nat, k: Uuid)
    requires Doomed(d, id, attempt) && k in OpenOthers(d.sys.db, id)
    ensures var m, next := Other(Write(k, Cancel(0))), Do(d, Other(Write(k, Cancel(0))));
            Enabled(d, m) && Doomed(next, id, attempt) && OpenOthers(next.sys.db, id) == OpenOthers(d.sys.db, id) - {k}
  {
    var m := Other(Write(k, Cancel(0)));
    OneStep(d, m);
    FreshMoveKeepsSteady(d, m);
    var next := Do(d, m);
    assert next.live == d.live && next.ending == d.ending;
  }

  lemma {:induction false} CancelOthers(g: Guard, d: Daemon, id: Uuid, attempt: nat) returns (moves: seq<Move>)
    requires Doomed(d, id, attempt)
    ensures EnabledAllBy(g, d, moves) && Doomed(DoAll(d, moves), id, attempt) && OnlyOpen(DoAll(d, moves).sys.db, id)
    decreases |OpenOthers(d.sys.db, id)|
  {
    moves := [];
    if k :| k in OpenOthers(d.sys.db, id) {
      var m := Other(Write(k, Cancel(0)));
      CancelKeepsDoomed(d, id, attempt, k);
      var rest := CancelOthers(g, Do(d, m), id, attempt);
      moves := [m] + rest;
      OneMove(g, d, m);
      DoAllAppend(g, d, [m], rest);
    } else {
      assert forall k :: k in d.sys.db.tasks && k != id ==> k !in OpenOthers(d.sys.db, id);
    }
  }

  function DueAt(row: TaskRow): Millis { row.retryAt.GetOr(0) }

  function ListIt(d: Daemon, id: Uuid): Move
    requires id in d.sys.db.tasks
  {
    Dispatch(List(DueAt(d.sys.db.tasks[id]), 1, [Selected(d.sys.db, id)]))
  }

  /** With all else terminal the row is what the dispatcher lists. */
  lemma ListedAlone(d: Daemon, id: Uuid, attempt: nat)
    requires Doomed(d, id, attempt) && OnlyOpen(d.sys.db, id)
    ensures Enabled(d, ListIt(d, id)) && Doomed(Do(d, ListIt(d, id)), id, attempt)
    ensures Do(d, ListIt(d, id)).sys == d.sys.(held := [Selected(d.sys.db, id)])
  {
    var db, out, m := d.sys.db, [Selected(d.sys.db, id)], ListIt(d, id);
    assert out[0].id == id && Lists(out, id);
    assert !IsBlocked(db, id);
    assert forall k :: Ready(db, DueAt(db.tasks[id]), k) ==> k == id;
    assert IsListing(db, DueAt(db.tasks[id]), 1, out);
    OneStep(d, m);
    FreshMoveKeepsSteady(d, m);
    var next := Do(d, m);
    assert next.live == d.live && next.ending == d.ending;
  }

  lemma {:induction false} IdAbove(a: set<Uuid>) returns (r: Uuid)
    ensures forall x :: x in a ==> x < r
    decreases |a|
  {
    r := 0;
    if x :| x in a {
      var q := IdAbove(a - {x});
      assert forall y :: y in a ==> y == x || y in a - {x};
      r := if q <= x then x + 1 else q;
    }
  }

  lemma FinishStillToCome(d: Daemon, m: Move, id: Uuid, attempt: nat)
    requires FinishToCome(d, id, attempt) && m.Dispatch? && (m.step.ClaimHeld? ==> m.step.runId !in d.live)
    ensures FinishToCome(Do(d, m), id, attempt)
  {
    var next := Do(d, m);
    assert next.ending == d.ending;
    assert forall q :: q in d.live ==> q in next.live && next.live[q] == d.live[q];
  }

  /** It is claimed once more while the earlier finish is still to come. */
  lemma ClaimedAgain(d: Daemon, id: Uuid, attempt: nat) returns (m: Move)
    requires Doomed(d, id, attempt) && d.sys.held == [Selected(d.sys.db, id)]
    ensures !m.ManualRetry? && !m.AutoRetry? && Enabled(d, m)
    ensures var next := Do(d, m);
            && Steady(next) && FinishToCome(next, id, attempt)
            && id in next.sys.db.tasks && next.sys.db.tasks[id].status == Running
            && next.sys.db.tasks[id].attempt == attempt + 1
  {
    var r := IdAbove(d.sys.db.runs.Keys + d.live.Keys);
    assert r !in d.sys.db.runs.Keys + d.live.Keys;
    m := Dispatch(ClaimHeld(r, 0));
    OneStep(d, m);
    FreshMoveKeepsSteady(d, m);
    FinishStillToCome(d, m, id, attempt);
  }

  /** The finish lands with the old attempt. */
  lemma LateFinishLands(d: Daemon, id: Uuid, attempt: nat, o: TaskRow) returns (m: Move)
    requires Steady(d) && FinishToCome(d, id, attempt)
    requires id in d.sys.db.tasks && d.sys.db.tasks[id].status == Running && d.sys.db.tasks[id].attempt == attempt + 1
    requires o.status.Terminal() && o.finishedAt.Some?
    ensures !m.ManualRetry? && !m.AutoRetry? && Enabled(d, m)
    ensures id in Do(d, m).sys.db.tasks && !AttemptsExact(Do(d, m).sys.db, id)
  {
    if id in d.ending && d.ending[id] == attempt {
      m := FinishShot(id, o);
    } else {
      var r :| r in d.live && d.live[r] == LiveRun(id, attempt, false);
      m := Report(r, o);
    }
    OneStep(d, m);
    assert QueueStep(d, m) == [Write(id, Finish(o.(attempt := attempt)))];
    FinishKeepsAttemptsIff(d.sys.db, id, o.(attempt := attempt));
  }

  lemma DoomedEnds(g: Guard, d: Daemon, id: Uuid, attempt: nat) returns (moves: seq<Move>)
    requires Doomed(d, id, attempt)
    ensures EnabledAllBy(g, d, moves)
    ensures id in DoAll(d, moves).sys.db.tasks && !AttemptsExact(DoAll(d, moves).sys.db, id)
  {
    moves := CancelOthers(g, d, id, attempt);
    var d1 := DoAll(d, moves);
    var list := ListIt(d1, id);
    ListedAlone(d1, id, attempt);
    OneMoveMore(g, d, moves, list);
    var d2 := Do(d1, list);
    var claim := ClaimedAgain(d2, id, attempt);
    OneMoveMore(g, d, moves + [list], claim);
    var d3 := Do(d2, claim);
    var o := d3.sys.db.tasks[id].(status := Succeeded, finishedAt := Some(0));
    var finish := LateFinishLands(d3, id, attempt, o);
    OneMoveMore(g, d, moves + [list] + [claim], finish);
    moves := moves + [list] + [claim] + [finish];
  }

  lemma ReopeningReopens(d: Daemon, m: Move)
    requires Sound(d) && Enabled(d, m) && ReopensUnreported(d, m)
    ensures Reopened(Do(d, m), m.id, d.sys.db.tasks[m.id].attempt)
  {
    OneStep(d, m);
    MoveIsFresh(d, m);
    FreshMoveKeepsSteady(d, m);
    var next := Do(d, m);
    assert next.live == d.live && next.ending == d.ending;
    if m.id !in d.ending {
      var r :| r in d.live && d.live[r].taskId == m.id && !d.live[r].reported;
      assert Anchored(d.sys, m.id, d.live[r].attempt);
    }
  }

  /** If the dispatcher is failing another snapshot, it gets done with that first. */
  lemma FreeDispatcher(g: Guard, d: Daemon, id: Uuid, attempt: nat) returns (moves: seq<Move>)
    requires Reopened(d, id, attempt)
    ensures EnabledAllBy(g, d, moves) && Doomed(DoAll(d, moves), id, attempt)
  {
    moves := [];
    if d.failing.Some? {
      var o := d.sys.db.tasks[id].(status := Failed, finishedAt := Some(0));
      var fail := FailRefused(o);
      RefusedFinishMisses(d, o);
      FreshMoveKeepsSteady(d, fail);
      OneMove(g, d, fail);
      assert Do(d, fail).live == d.live && Do(d, fail).ending == d.ending;
      moves := [fail];
    }
  }

  // -------------------------------------------------------------------------
  // The exact condition
  // -------------------------------------------------------------------------

  lemma NeverReopensIsExact(g: Guard)
    requires NeverReopens(g)
    ensures AlwaysExact(g)
  {
    forall moves | EnabledAllBy(g, BOOT, moves) ensures AllExact(DoAll(BOOT, moves)) {
      forall k: nat | k < |moves| ensures !ReopensUnreported(DoAll(BOOT, moves[..k]), moves[k]) {
        assert moves == moves[..k] + moves[k..];
        DoAllAppend(g, BOOT, moves[..k], moves[k..]);
        assert EnabledBy(g, DoAll(BOOT, moves[..k]), moves[k]);
      }
      CleanIsSound(g, moves);
    }
  }

  /** The clean part of a run up to the first row that is reopened. */
  lemma {:induction false} FirstReopening(g: Guard, moves: seq<Move>, m: Move) returns (before: seq<Move>, first: Move)
    requires EnabledAllBy(g, BOOT, moves) && EnabledBy(g, DoAll(BOOT, moves), m)
    requires ReopensUnreported(DoAll(BOOT, moves), m)
    ensures EnabledAllBy(g, BOOT, before) && Sound(DoAll(BOOT, before))
    ensures EnabledBy(g, DoAll(BOOT, before), first) && ReopensUnreported(DoAll(BOOT, before), first)
    decreases |moves|
  {
    if k: nat :| k < |moves| && ReopensUnreported(DoAll(BOOT, moves[..k]), moves[k]) {
      assert moves == moves[..k] + moves[k..];
      DoAllAppend(g, BOOT, moves[..k], moves[k..]);
      before, first := FirstReopening(g, moves[..k], moves[k]);
    } else {
      before, first := moves, m;
      CleanIsSound(g, moves);
    }
  }

  lemma CleanIsSound(g: Guard, moves: seq<Move>)
    requires EnabledAllBy(g, BOOT, moves)
    requires forall k: nat :: k < |moves| ==> !ReopensUnreported(DoAll(BOOT, moves[..k]), moves[k])
    ensures Sound(DoAll(BOOT, moves)) && AllExact(DoAll(BOOT, moves))
  {
    assert [] + moves == moves;
    CleanSoFar(g, [], moves);
    ProtocolRefinesFreshRun(BOOT, moves);
    ProtocolKeepsAttempts(moves);
  }

  lemma {:induction false} CleanSoFar(g: Guard, before: seq<Move>, moves: seq<Move>)
    requires EnabledAllBy(g, DoAll(BOOT, before), moves)
    requires forall k: nat :: |before| <= k < |before + moves| ==>
               !ReopensUnreported(DoAll(BOOT, (before + moves)[..k]), (before + moves)[k])
    ensures EnabledAll(DoAll(BOOT, before), moves) && CleanAll(DoAll(BOOT, before), moves)
    decreases |moves|
  {
    if moves != [] {
      var all, m := before + moves, moves[0];
      assert all[..|before|] == before && all[|before|] == m;
      DoAllAppend(g, BOOT, before, [m]);
      OneMove(g, DoAll(BOOT, before), m);
      assert before + [m] + moves[1..] == all;
      CleanSoFar(g, before + [m], moves[1..]);
    }
  }

  /** Attempts stay exact in every run under a guard if and only if it never reopens a row under an unreported run. */
  lemma ExactIff(g: Guard)
    ensures AlwaysExact(g) <==> NeverReopens(g)
  {
    if NeverReopens(g) {
      NeverReopensIsExact(g);
    } else {
      var moves, m :| EnabledAllBy(g, BOOT, moves) && EnabledBy(g, DoAll(BOOT, moves), m)
                      && ReopensUnreported(DoAll(BOOT, moves), m);
      var run := LosesAttempt(g, moves, m);
      assert !AllExact(DoAll(BOOT, run));
    }
  }

  lemma LosesAttempt(g: Guard, moves: seq<Move>, m: Move) returns (run: seq<Move>)
    requires EnabledAllBy(g, BOOT, moves) && EnabledBy(g, DoAll(BOOT, moves), m)
    requires ReopensUnreported(DoAll(BOOT, moves), m)
    ensures EnabledAllBy(g, BOOT, run) && !AllExact(DoAll(BOOT, run))
  {
    var before, first := FirstReopening(g, moves, m);
    var attempt := DoAll(BOOT, before).sys.db.tasks[first.id].attempt;
    ReopeningReopens(DoAll(BOOT, before), first);
    OneMoveMore(g, BOOT, before, first);
    run := before + [first];
    var freed := FreeDispatcher(g, DoAll(BOOT, run), first.id, attempt);
    DoAllAppend(g, BOOT, run, freed);
    run := run + freed;
    var ends := DoomedEnds(g, DoAll(BOOT, run), first.id, attempt);
    DoAllAppend(g, BOOT, run, ends);
    run := run + ends;
  }

  // -------------------------------------------------------------------------
  // A guard that is enough
  // -------------------------------------------------------------------------

  /** The check made in the requeue itself: no run row is active, and no one-shot session of the task lives. */
  const CHECK_IN_REQUEUE: Guard :=
    (d: Daemon, m: Move) => m.ManualRetry? ==> !HasActiveRun(d.sys.db, m.id) && m.id !in d.shots && m.id !in d.ending

  predicate Unfinished(db: Tables, id: Uuid) {
    id in db.tasks ==> db.tasks[id].status.Active() || db.tasks[id].status.Cancelled?
  }

  /** An unreported run owns its task's row: active or cancelled, its own run row active. */
  predicate LiveOwns(d: Daemon, r: Uuid) {
    r in d.live && !d.live[r].reported ==>
      var l := d.live[r];
      && l.taskId in d.sys.used && l.taskId !in d.shots && l.taskId !in d.ending
      && Unfinished(d.sys.db, l.taskId)
      && (l.taskId in d.sys.db.tasks ==> IsRunOf(d.sys.db, r, l.taskId, l.attempt) && d.sys.db.runs[r].status.Active())
  }

  predicate ShotOwns(d: Daemon, id: Uuid) {
    id in d.shots || id in d.ending ==>
      id in d.sys.used && Unfinished(d.sys.db, id) && !(id in d.shots && id in d.ending)
  }

  ghost predicate Owning(d: Daemon) {
    (forall r :: LiveOwns(d, r)) && (forall id :: ShotOwns(d, id))
  }

  /** Under this guard a row that may be reopened has no run left to report. */
  lemma OwningIsClean(d: Daemon, m: Move)
    requires Owning(d) && EnabledBy(CHECK_IN_REQUEUE, d, m)
    ensures !ReopensUnreported(d, m)
  {
    if (m.ManualRetry? || m.AutoRetry?) && Unreported(d, m.id) {
      assert ShotOwns(d, m.id);
      if m.id !in d.ending {
        var r :| r in d.live && d.live[r].taskId == m.id && !d.live[r].reported;
        assert LiveOwns(d, r);
      }
    }
  }

  /** Claims, failures of pending rows and automatic retries miss an open row. */
  lemma StepKeepsOpen(s: System, step: Step, id: Uuid)
    requires Consistent(s) && Possible(s, step) && id in s.used && Unfinished(s.db, id)
    requires step.Write? && step.id == id ==>
               !step.update.Finish? && !step.update.FailStale? && !step.update.RetryStale? && !step.update.Requeue?
    ensures Unfinished(Apply(s, step).db, id)
  {
  }

  lemma ShotRow(d: Daemon, m: Move, id: Uuid)
    requires Sound(d) && Owning(d) && EnabledBy(CHECK_IN_REQUEUE, d, m) && ShotOwns(d, id)
    requires id in d.shots || id in d.ending
    requires QueueStep(d, m) != [] && !m.Restart? && !(m.FinishShot? && m.id == id)
    ensures Unfinished(Apply(d.sys, QueueStep(d, m)[0]).db, id)
  {
    MoveIsFresh(d, m);
    if m.Report? { assert LiveOwns(d, m.runId); }
    if m.FailRefused? {
      RefusedFinishMisses(d, m.outcome);
      OneStep(d, m);
    } else {
      StepKeepsOpen(d.sys, QueueStep(d, m)[0], id);
    }
  }

  lemma MoveKeepsShot(d: Daemon, m: Move, id: Uuid)
    requires Sound(d) && Owning(d) && EnabledBy(CHECK_IN_REQUEUE, d, m)
    ensures ShotOwns(Do(d, m), id)
  {
    OneStep(d, m);
    assert ShotOwns(d, id);
    var next := Do(d, m);
    if (id in next.shots || id in next.ending) && (id in d.shots || id in d.ending) && QueueStep(d, m) != [] {
      ShotRow(d, m, id);
    }
  }

  lemma DispatchKeepsLive(d: Daemon, step: Step, r: Uuid)
    requires Sound(d) && Owning(d) && Enabled(d, Dispatch(step))
    ensures LiveOwns(Do(d, Dispatch(step)), r)
  {
    OneStep(d, Dispatch(step));
    assert LiveOwns(d, r);
    if step.ClaimHeld? && d.sys.held != [] { assert ShotOwns(d, d.sys.held[0].id); }
  }

  /** Two unreported runs of one task would have the row's attempt, so they are the same run. */
  lemma ReportKeepsLive(d: Daemon, m: Move, r: Uuid)
    requires Sound(d) && Owning(d) && Enabled(d, m) && m.Report?
    ensures LiveOwns(Do(d, m), r)
  {
    OneStep(d, m);
    var l := d.live[m.runId];
    assert LiveOwns(d, r) && LiveOwns(d, m.runId);
    assert Anchored(d.sys, l.taskId, l.attempt);
    if r in d.live && !d.live[r].reported && d.live[r].taskId == l.taskId && l.taskId in d.sys.db.tasks {
      assert Anchored(d.sys, d.live[r].taskId, d.live[r].attempt);
      assert AttemptsExact(d.sys.db, l.taskId);
      assert IsRunOf(d.sys.db, r, l.taskId, l.attempt) && IsRunOf(d.sys.db, m.runId, l.taskId, l.attempt);
    }
  }

  lemma RetryKeepsLive(d: Daemon, m: Move, r: Uuid)
    requires Sound(d) && Owning(d) && EnabledBy(CHECK_IN_REQUEUE, d, m)
    requires m.AutoRetry? || m.ManualRetry? || m.Settle? || m.FailRefused?
    ensures LiveOwns(Do(d, m), r)
  {
    OneStep(d, m);
    assert LiveOwns(d, r);
  }

  lemma ShotKeepsLive(d: Daemon, m: Move, r: Uuid)
    requires Sound(d) && Owning(d) && EnabledBy(CHECK_IN_REQUEUE, d, m)
    requires m.OneShot? || m.EndShot? || m.FinishShot?
    ensures LiveOwns(Do(d, m), r)
  {
    OneStep(d, m);
    assert LiveOwns(d, r);
  }

  lemma OtherKeepsLive(d: Daemon, step: Step, r: Uuid)
    requires Sound(d) && Owning(d) && Enabled(d, Other(step))
    ensures LiveOwns(Do(d, Other(step)), r)
  {
    OneStep(d, Other(step));
    assert LiveOwns(d, r);
  }

  lemma MoveKeepsLive(d: Daemon, m: Move, r: Uuid)
    requires Sound(d) && Owning(d) && EnabledBy(CHECK_IN_REQUEUE, d, m)
    ensures LiveOwns(Do(d, m), r)
  {
    assert LiveOwns(d, r);
    match m
    case Dispatch(step) => DispatchKeepsLive(d, step, r);
    case Report(_, _) => ReportKeepsLive(d, m, r);
    case AutoRetry(_, _) => RetryKeepsLive(d, m, r);
    case ManualRetry(_) => RetryKeepsLive(d, m, r);
    case Settle(_, _) => RetryKeepsLive(d, m, r);
    case FailRefused(_) => RetryKeepsLive(d, m, r);
    case OneShot(_) => ShotKeepsLive(d, m, r);
    case EndShot(_) => ShotKeepsLive(d, m, r);
    case FinishShot(_, _) => ShotKeepsLive(d, m, r);
    case Other(step) => OtherKeepsLive(d, step, r);
    case Refused => OneStep(d, m);
    case _ =>
  }

  lemma {:induction false} OwningAll(moves: seq<Move>)
    requires EnabledAllBy(CHECK_IN_REQUEUE, BOOT, moves)
    ensures Sound(DoAll(BOOT, moves)) && Owning(DoAll(BOOT, moves))
  {
    if moves != [] {
      var before, m := moves[..|moves| - 1], moves[|moves| - 1];
      var d := DoAll(BOOT, before);
      assert moves == before + [m];
      DoAllAppend(CHECK_IN_REQUEUE, BOOT, before, [m]);
      OneMove(CHECK_IN_REQUEUE, d, m);
      OwningAll(before);
      OwningIsClean(d, m);
      MoveKeepsSound(d, m);
      forall r ensures LiveOwns(Do(d, m), r) { MoveKeepsLive(d, m, r); }
      forall id ensures ShotOwns(Do(d, m), id) { MoveKeepsShot(d, m, id); }
    }
  }

  /** With the check in the requeue, attempts are exact in every run, one-shots and restarts included. */
  lemma CheckInRequeueIsEnough()
    ensures AlwaysExact(CHECK_IN_REQUEUE)
  {
    var g := CHECK_IN_REQUEUE;
    forall moves, m | EnabledAllBy(g, BOOT, moves) && EnabledBy(g, DoAll(BOOT, moves), m)
      ensures !ReopensUnreported(DoAll(BOOT, moves), m)
    {
      OwningAll(moves);
      OwningIsClean(DoAll(BOOT, moves), m);
    }
    ExactIff(g);
  }

  /** Half of that check: the requeue looks at the run rows again. */
  const RUNS_IN_REQUEUE: Guard := (d: Daemon, m: Move) => m.ManualRetry? ==> !HasActiveRun(d.sys.db, m.id)

  lemma {:induction false} NoShotsNoDifference(d: Daemon, moves: seq<Move>)
    requires d.shots == {} && d.ending == map[] && forall m :: m in moves ==> !m.OneShot?
    requires EnabledAllBy(RUNS_IN_REQUEUE, d, moves)
    ensures EnabledAllBy(CHECK_IN_REQUEUE, d, moves)
    decreases |moves|
  {
    if moves != [] {
      assert moves[0] in moves;
      NoShotsNoDifference(Do(d, moves[0]), moves[1..]);
    }
  }

  /** For catalog tasks half is enough. */
  lemma RunsInRequeueIsEnoughForCatalogTasks(moves: seq<Move>)
    requires EnabledAllBy(RUNS_IN_REQUEUE, BOOT, moves) && forall m :: m in moves ==> !m.OneShot?
    ensures AllExact(DoAll(BOOT, moves))
  {
    NoShotsNoDifference(BOOT, moves);
    CheckInRequeueIsEnough();
  }
}
