/**
 Two runs that the executor's own moves allow and that lose an attempt: two retries that
 overlap, and the retry of a one-shot whose end is being written.
 */
module LostAttempts {
  import opened Options
  import opened Queue
  import opened QueueRuns
  import opened ExecutorProtocol
  import opened RetryRace

  predicate Submitted(t: Task) {
    t.row.attempt == 0 && t.row.finishedAt == None && t.row.dedupeKey == None
  }

  /** One task, nothing listed, nothing being failed. */
  predicate Alone(d: Daemon, id: Uuid, row: TaskRow) {
    && !d.booting && d.failing == None && d.sys.held == [] && d.sys.used == {id}
    && d.sys.db.tasks == map[id := row] && d.sys.db.deps == {}
  }

  function Opened(m: Move): seq<Move> { [Open, m] }

  function Cancelling(id: Uuid): Move { Other(Write(id, Cancel(0))) }

  /** The two reads of `retry_task`, both passed. */
  function Checks(id: Uuid): seq<Move> { [RetryRead(id), RetryCheck(id)] }

  /** Two retries of a cancelled task pass their checks; the first requeues it, and it is claimed and cancelled. */
  function OverlappingRetries(t: Task): seq<Move> {
    Opened(Other(Insert(t))) + [Cancelling(t.id)] + Checks(t.id) + Checks(t.id) + Requeued(t)
  }

  function Requeued(t: Task): seq<Move> {
    [ManualRetry(t.id), Dispatch(List(0, 1, [Relisted(t)])), Dispatch(ClaimHeld(1, 0)), Cancelling(t.id)]
  }

  function Relisted(t: Task): Task {
    Task(t.id, t.row.(status := Pending, startedAt := None, error := None, failure := None, output := None,
                      retryAt := None))
  }

  /** A one-shot ends while it is cancelled and its retry passes the checks: it has no run row. */
  function RetriedOneShot(t: Task): seq<Move> {
    Opened(OneShot(t)) + [EndShot(t.id)] + [Cancelling(t.id)] + Checks(t.id)
  }

  // -------------------------------------------------------------------------
  // Move by move
  // -------------------------------------------------------------------------

  lemma StartsAlone(g: Guard, t: Task, m: Move)
    requires Submitted(t)
    requires (m == Other(Insert(t)) && t.row.status.Pending?) || (m == OneShot(t) && t.row.status.Running?)
    ensures EnabledAllBy(g, BOOT, Opened(m))
    ensures var d := DoAll(BOOT, Opened(m));
            && Alone(d, t.id, t.row.(retryAt := None)) && d.sys.db.runs == map[] && d.live == map[] && d.ending == map[]
            && d.retries == NO_RETRIES && (m.OneShot? ==> d.shots == {t.id})
  {
    var d1 := Do(BOOT, Open);
    OneStep(BOOT, Open);
    OneStep(d1, m);
    OneMove(g, BOOT, Open);
    OneMoveMore(g, BOOT, [Open], m);
    assert [Open] + [m] == Opened(m);
  }

  lemma CancelsAlone(g: Guard, d: Daemon, id: Uuid, row: TaskRow)
    requires Alone(d, id, row) && (row.status.Pending? || row.status.Active())
    ensures EnabledAllBy(g, d, [Cancelling(id)])
    ensures var e := DoAll(d, [Cancelling(id)]);
            && Alone(e, id, row.(status := Cancelled, finishedAt := Some(0)))
            && e == d.(sys := e.sys) && e.sys.db.runs == d.sys.db.runs
  {
    OneMove(g, d, Cancelling(id));
    OneStep(d, Cancelling(id));
  }

  lemma ChecksAlone(g: Guard, d: Daemon, id: Uuid, row: TaskRow)
    requires Alone(d, id, row) && row.status.Terminal() && d.sys.db.runs == map[]
    ensures EnabledAllBy(g, d, Checks(id))
    ensures var e := DoAll(d, Checks(id));
            e == d.(retries := e.retries) && e.retries.checked == d.retries.checked + multiset{id}
  {
    OneStep(d, RetryRead(id));
    OneMove(g, d, RetryRead(id));
    OneStep(Do(d, RetryRead(id)), RetryCheck(id));
    OneMoveMore(g, d, [RetryRead(id)], RetryCheck(id));
    assert [RetryRead(id)] + [RetryCheck(id)] == Checks(id);
  }

  lemma RequeuesAlone(d: Daemon, t: Task, row: TaskRow)
    requires Alone(d, t.id, row) && d.sys.db.runs == map[] && d.live == map[]
    requires row.status.Terminal() && Written(Requeue, row) == Relisted(t).row && t.id in d.retries.checked
    ensures EnabledAllBy(NO_GUARD, d, [ManualRetry(t.id)])
    ensures var e := DoAll(d, [ManualRetry(t.id)]);
            && Alone(e, t.id, Relisted(t).row) && e.sys.db.runs == map[] && e.live == map[]
            && e.retries.checked == d.retries.checked - multiset{t.id}
  {
    OneMove(NO_GUARD, d, ManualRetry(t.id));
    OneStep(d, ManualRetry(t.id));
  }

  lemma ClaimsAlone(d: Daemon, t: Task)
    requires Alone(d, t.id, Relisted(t).row) && d.sys.db.runs == map[] && d.live == map[]
    ensures var moves := [Dispatch(List(0, 1, [Relisted(t)])), Dispatch(ClaimHeld(1, 0))];
            var e := DoAll(d, moves);
            && EnabledAllBy(NO_GUARD, d, moves)
            && Alone(e, t.id, Written(ClaimUpdate(Relisted(t), 0), Relisted(t).row))
            && e.live == map[1 := LiveRun(t.id, t.row.attempt + 1, false)] && e.retries == d.retries
  {
    var list, claim := Dispatch(List(0, 1, [Relisted(t)])), Dispatch(ClaimHeld(1, 0));
    var out := [Relisted(t)];
    assert out[0].id == t.id && Lists(out, t.id) && !IsBlocked(d.sys.db, t.id);
    assert IsListing(d.sys.db, 0, 1, out);
    OneStep(d, list);
    OneMove(NO_GUARD, d, list);
    var d1 := Do(d, list);
    OneStep(d1, claim);
    OneMoveMore(NO_GUARD, d, [list], claim);
    assert [list] + [claim] == [list, claim];
  }

  // -------------------------------------------------------------------------
  // The two runs
  // -------------------------------------------------------------------------

  lemma BothPassed(t: Task)
    requires Submitted(t) && t.row.status.Pending?
    ensures var moves := Opened(Other(Insert(t))) + [Cancelling(t.id)] + Checks(t.id) + Checks(t.id);
            var d := DoAll(BOOT, moves);
            && EnabledAllBy(NO_GUARD, BOOT, moves)
            && Alone(d, t.id, t.row.(retryAt := None, status := Cancelled, finishedAt := Some(0)))
            && d.sys.db.runs == map[] && d.live == map[] && d.retries.checked == multiset{t.id, t.id}
  {
    var g, row, start := NO_GUARD, t.row.(retryAt := None), Opened(Other(Insert(t)));
    StartsAlone(g, t, Other(Insert(t)));
    CancelsAlone(g, DoAll(BOOT, start), t.id, row);
    DoAllAppend(g, BOOT, start, [Cancelling(t.id)]);
    var cancelled := start + [Cancelling(t.id)];
    ChecksAlone(g, DoAll(BOOT, cancelled), t.id, row.(status := Cancelled, finishedAt := Some(0)));
    DoAllAppend(g, BOOT, cancelled, Checks(t.id));
    ChecksAlone(g, DoAll(BOOT, cancelled + Checks(t.id)), t.id, row.(status := Cancelled, finishedAt := Some(0)));
    DoAllAppend(g, BOOT, cancelled + Checks(t.id), Checks(t.id));
  }

  /** The second retry may still requeue, and the first attempt has not reported. */
  lemma OverlappingRetriesGetThrough(t: Task)
    requires Submitted(t) && t.row.status.Pending?
    ensures var d, m := DoAll(BOOT, OverlappingRetries(t)), ManualRetry(t.id);
            && EnabledAllBy(NO_GUARD, BOOT, OverlappingRetries(t))
            && EnabledBy(NO_GUARD, d, m) && ReopensUnreported(d, m)
  {
    var before := Opened(Other(Insert(t))) + [Cancelling(t.id)] + Checks(t.id) + Checks(t.id);
    BothPassed(t);
    FirstRetryRuns(DoAll(BOOT, before), t);
    DoAllAppend(NO_GUARD, BOOT, before, Requeued(t));
    assert 1 in DoAll(BOOT, OverlappingRetries(t)).live;
  }

  lemma FirstRetryRuns(d: Daemon, t: Task)
    requires Alone(d, t.id, t.row.(retryAt := None, status := Cancelled, finishedAt := Some(0)))
    requires d.sys.db.runs == map[] && d.live == map[] && d.retries.checked == multiset{t.id, t.id}
    requires t.row.finishedAt == None
    ensures var e := DoAll(d, Requeued(t));
            && EnabledAllBy(NO_GUARD, d, Requeued(t))
            && t.id in e.sys.db.tasks && e.sys.db.tasks[t.id].status == Cancelled
            && e.live == map[1 := LiveRun(t.id, t.row.attempt + 1, false)] && t.id in e.retries.checked
  {
    var claimed := Written(ClaimUpdate(Relisted(t), 0), Relisted(t).row);
    FirstRetryClaimed(d, t);
    CancelsAlone(NO_GUARD, DoAll(d, RetryAndClaim(t)), t.id, claimed);
    DoAllAppend(NO_GUARD, d, RetryAndClaim(t), [Cancelling(t.id)]);
    assert RetryAndClaim(t) + [Cancelling(t.id)] == Requeued(t);
  }

  function RetryAndClaim(t: Task): seq<Move> {
    [ManualRetry(t.id)] + [Dispatch(List(0, 1, [Relisted(t)])), Dispatch(ClaimHeld(1, 0))]
  }

  lemma FirstRetryClaimed(d: Daemon, t: Task)
    requires Alone(d, t.id, t.row.(retryAt := None, status := Cancelled, finishedAt := Some(0)))
    requires d.sys.db.runs == map[] && d.live == map[] && d.retries.checked == multiset{t.id, t.id}
    requires t.row.finishedAt == None
    ensures var e := DoAll(d, RetryAndClaim(t));
            && EnabledAllBy(NO_GUARD, d, RetryAndClaim(t))
            && Alone(e, t.id, Written(ClaimUpdate(Relisted(t), 0), Relisted(t).row))
            && e.live == map[1 := LiveRun(t.id, t.row.attempt + 1, false)] && t.id in e.retries.checked
  {
    var retry := [ManualRetry(t.id)];
    RequeuesAlone(d, t, t.row.(retryAt := None, status := Cancelled, finishedAt := Some(0)));
    ClaimsAlone(DoAll(d, retry), t);
    DoAllAppend(NO_GUARD, d, retry, [Dispatch(List(0, 1, [Relisted(t)])), Dispatch(ClaimHeld(1, 0))]);
  }

  lemma EndsAlone(g: Guard, d: Daemon, id: Uuid, row: TaskRow)
    requires Alone(d, id, row) && row.status.Active() && id in d.shots
    ensures EnabledAllBy(g, d, [EndShot(id)])
    ensures var e := DoAll(d, [EndShot(id)]);
            e == d.(shots := e.shots, ending := e.ending) && id in e.ending
  {
    OneMove(g, d, EndShot(id));
    OneStep(d, EndShot(id));
  }

  lemma ShotRead(g: Guard, t: Task)
    requires Submitted(t) && t.row.status.Running?
    ensures var moves := Opened(OneShot(t)) + [EndShot(t.id)];
            && EnabledAllBy(g, BOOT, moves) && Alone(DoAll(BOOT, moves), t.id, t.row.(retryAt := None))
            && DoAll(BOOT, moves).sys.db.runs == map[] && t.id in DoAll(BOOT, moves).ending
  {
    StartsAlone(g, t, OneShot(t));
    EndsAlone(g, DoAll(BOOT, Opened(OneShot(t))), t.id, t.row.(retryAt := None));
    DoAllAppend(g, BOOT, Opened(OneShot(t)), [EndShot(t.id)]);
  }

  lemma CancelledAndChecked(g: Guard, d: Daemon, id: Uuid, row: TaskRow)
    requires Alone(d, id, row) && row.status.Active() && d.sys.db.runs == map[]
    ensures EnabledAllBy(g, d, [Cancelling(id)] + Checks(id))
    ensures var e := DoAll(d, [Cancelling(id)] + Checks(id));
            && Alone(e, id, row.(status := Cancelled, finishedAt := Some(0)))
            && e.sys.db.runs == map[] && e.ending == d.ending && id in e.retries.checked
            && (id in d.ending ==> ReopensUnreported(e, ManualRetry(id)))
  {
    CancelsAlone(g, d, id, row);
    ChecksAlone(g, DoAll(d, [Cancelling(id)]), id, row.(status := Cancelled, finishedAt := Some(0)));
    DoAllAppend(g, d, [Cancelling(id)], Checks(id));
  }

  /** The run check passes even in the requeue: the one-shot never had a run row. */
  lemma RetriedOneShotGetsThrough(g: Guard, t: Task)
    requires Submitted(t) && t.row.status.Running?
    ensures var d, m := DoAll(BOOT, RetriedOneShot(t)), ManualRetry(t.id);
            && EnabledAllBy(g, BOOT, RetriedOneShot(t))
            && Enabled(d, m) && ReopensUnreported(d, m) && d.sys.db.runs == map[]
  {
    var start, rest := Opened(OneShot(t)) + [EndShot(t.id)], [Cancelling(t.id)] + Checks(t.id);
    ShotRead(g, t);
    CancelledAndChecked(g, DoAll(BOOT, start), t.id, t.row.(retryAt := None));
    DoAllAppend(g, BOOT, start, rest);
    assert start + rest == RetriedOneShot(t);
  }

  /** So the code as it is can lose an attempt ... */
  lemma NoGuardLosesAttempts(t: Task)
    requires Submitted(t) && t.row.status.Pending?
    ensures !AlwaysExact(NO_GUARD)
  {
    OverlappingRetriesGetThrough(t);
    ExactIff(NO_GUARD);
  }

  /** ... and looking at the run rows in the requeue would not be enough for one-shots. */
  lemma RunsInRequeueIsNotEnough(t: Task)
    requires Submitted(t) && t.row.status.Running?
    ensures !AlwaysExact(RUNS_IN_REQUEUE)
  {
    RetriedOneShotGetsThrough(RUNS_IN_REQUEUE, t);
    ExactIff(RUNS_IN_REQUEUE);
  }
}
