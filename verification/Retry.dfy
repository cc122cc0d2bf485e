/** The automatic-retry policy and the claim, fail, re-enqueue loop it drives. */
module Retry {
  import opened Options
  import opened Queue
  import opened TaskStore
  import opened Bytes

  type u32 = x: nat | x <= 0xFFFF_FFFF
  type u64 = x: nat | x <= U64_MAX

  function Min(a: nat, b: nat): nat { if a < b then a else b }

  function Pow2(e: nat): nat { if e == 0 then 1 else 2 * Pow2(e - 1) }

  function SaturatingMul(a: u64, b: u64): u64 { Min(a * b, U64_MAX) }

  /** `1u64.checked_shl(e)`, falling back to the largest value. */
  function ShiftedOne(e: nat): u64 { if e < 64 then Pow2Fits(e); Pow2(e) else U64_MAX }

  lemma Pow2Fits(e: nat)
    requires e < 64
    ensures Pow2(e) <= U64_MAX
  {
    Pow2Monotone(e, 63);
    EightMore(0); EightMore(8); EightMore(16); EightMore(24); EightMore(32); EightMore(40); EightMore(48);
    EightMore(55);
    Pow2Monotone(55, 56);
  }

  lemma EightMore(e: nat)
    ensures Pow2(e + 8) == 256 * Pow2(e)
  {
    assert Pow2(e + 2) == 4 * Pow2(e);
    assert Pow2(e + 4) == 4 * Pow2(e + 2);
    assert Pow2(e + 6) == 4 * Pow2(e + 4);
    assert Pow2(e + 8) == 4 * Pow2(e + 6);
  }

  lemma {:induction false} Pow2Monotone(a: nat, b: nat)
    requires a <= b
    ensures 1 <= Pow2(a) <= Pow2(b)
    decreases b
  {
    if a < b { Pow2Monotone(a, b - 1); } else if a > 0 { Pow2Monotone(a - 1, b - 1); }
  }

  lemma MulMonotone(a: nat, b: nat, k: nat)
    requires a <= b
    ensures a * k <= b * k && k * a <= k * b
  {
  }

  lemma OneMore(a: nat, k: nat)
    ensures (a + 1) * k == a * k + k
  {
  }

  datatype Backoff = Exponential | Fixed

  datatype RetrySettings = RetrySettings(
    maxAttempts: u32, backoff: Backoff, initialMs: u64, maxMs: u64, retryOn: seq<FailureKind>)
  {
    predicate ShouldRetry(attempt: nat, failure: Failure) {
      attempt >= 1 && attempt < maxAttempts && failure.retryable && failure.kind in retryOn
    }

    function BackoffDelay(attempt: nat): u64 {
      var exponent := Min(if attempt == 0 then 0 else attempt - 1, 31);
      var ms := match backoff
        case Fixed => initialMs
        case Exponential => SaturatingMul(initialMs, ShiftedOne(exponent));
      Min(ms, maxMs)
    }

    /** Saturation never shows: the delay is the exact doubling sequence, cut at the cap. */
    lemma ExponentialIsExact(attempt: nat)
      requires attempt >= 1 && backoff == Exponential
      ensures BackoffDelay(attempt) == Min(initialMs * Pow2(Min(attempt - 1, 31)), maxMs)
    {
      Pow2Fits(Min(attempt - 1, 31));
    }

    lemma DelayIsMonotone(a: nat, b: nat)
      requires 1 <= a <= b
      ensures BackoffDelay(a) <= BackoffDelay(b) <= maxMs
    {
      if backoff == Exponential {
        ExponentialIsExact(a);
        ExponentialIsExact(b);
        var p, q := Pow2(Min(a - 1, 31)), Pow2(Min(b - 1, 31));
        Pow2Monotone(Min(a - 1, 31), Min(b - 1, 31));
        MulMonotone(p, q, initialMs);
      }
    }

    /** A fixed backoff waits the initial delay, cut at the cap, before every attempt. */
    lemma FixedIsConstant(attempt: nat)
      requires backoff == Fixed
      ensures BackoffDelay(attempt) == if initialMs <= maxMs then initialMs else maxMs
    {
    }

    /** Until the cap or the 32nd attempt, each delay is twice the one before. */
    lemma DelayDoubles(attempt: nat)
      requires 1 <= attempt <= 31 && backoff == Exponential && BackoffDelay(attempt + 1) < maxMs
      ensures BackoffDelay(attempt + 1) == 2 * BackoffDelay(attempt)
    {
      ExponentialIsExact(attempt);
      ExponentialIsExact(attempt + 1);
      assert Pow2(attempt) == 2 * Pow2(attempt - 1);
      assert initialMs * Pow2(attempt) == 2 * (initialMs * Pow2(attempt - 1));
    }
  }

  /** No delay exceeds the cap. */
  lemma {:induction false} DelaysAreCapped(policy: RetrySettings, n: nat)
    ensures Delays(policy, n) <= n * policy.maxMs
  {
    if n > 0 {
      DelaysAreCapped(policy, n - 1);
      OneMore(n - 1, policy.maxMs);
    }
  }

  /** Every other task is still there, unchanged. */
  ghost predicate OthersKept(before: map<Uuid, TaskRow>, tasks: map<Uuid, TaskRow>, id: Uuid) {
    forall other :: other in before && other != id ==> other in tasks && tasks[other] == before[other]
  }

  lemma OthersStillKept(a: map<Uuid, TaskRow>, b: map<Uuid, TaskRow>, c: map<Uuid, TaskRow>, id: Uuid)
    requires OthersKept(a, b, id) && OthersKept(b, c, id)
    ensures OthersKept(a, c, id)
  {
  }

  /**
   A task that keeps failing, left to the automatic policy: claim, run, record the
   failure, and re-enqueue after the backoff while the policy allows it.
   `failures` says how the k-th attempt would fail; `firstRun` starts unused run ids.
   */
  method RunUntilGivenUp(store: Store, id: Uuid, policy: RetrySettings, failures: nat -> Failure,
                         start: Millis, firstRun: Uuid)
    returns (attempts: nat, totalDelay: nat)
    requires id in store.tasks && store.tasks[id].status == Pending && store.tasks[id].attempt == 0
    requires forall r :: r in store.runs ==> r < firstRun
    modifies store
    ensures 1 <= attempts <= if policy.maxAttempts < 1 then 1 else policy.maxAttempts
    ensures forall k :: 1 <= k < attempts ==> MayRetry(policy, k, failures(k))
    ensures !MayRetry(policy, attempts, failures(attempts))
    ensures totalDelay == Delays(policy, attempts - 1)
    ensures totalDelay <= (attempts - 1) * policy.maxMs
    ensures policy.maxAttempts >= 1 ==> totalDelay <= (policy.maxAttempts - 1) * policy.maxMs
    ensures id in store.tasks && store.tasks[id].status == Failed && store.tasks[id].attempt == attempts
    ensures store.tasks[id].failure == Some(failures(attempts))
    ensures OthersKept(old(store.tasks), store.tasks, id)
  {
    attempts, totalDelay := 0, 0;
    ghost var before := store.tasks;
    var now, run := start, firstRun;
    while true
      invariant id in store.tasks && store.tasks[id].status == Pending && store.tasks[id].attempt == attempts
      invariant forall r :: r in store.runs ==> r < run
      invariant attempts >= 1 ==> attempts < policy.maxAttempts
      invariant forall k :: 1 <= k <= attempts ==> MayRetry(policy, k, failures(k))
      invariant totalDelay == Delays(policy, attempts)
      invariant OthersKept(before, store.tasks, id)
      decreases policy.maxAttempts - attempts
    {
      attempts := attempts + 1;
      ghost var was := store.tasks;
      var delay := AttemptOnce(store, id, policy, failures(attempts), now, run);
      OthersStillKept(before, was, store.tasks, id);
      run := run + 1;
      if delay.None? {
        break;
      }
      now := now + delay.value;
      totalDelay := totalDelay + delay.value;
    }
    DelaysAreCapped(policy, attempts - 1);
    if policy.maxAttempts >= 1 {
      MulMonotone(attempts - 1, policy.maxAttempts - 1, policy.maxMs);
    }
  }

  /** Marked retryable, of an enabled kind, and with attempts left. */
  predicate MayRetry(policy: RetrySettings, attempt: nat, failure: Failure) {
    1 <= attempt < policy.maxAttempts && failure.retryable
    && exists i :: 0 <= i < |policy.retryOn| && policy.retryOn[i] == failure.kind
  }

  /** What the delays of the first `n` failures add up to. */
  function Delays(policy: RetrySettings, n: nat): nat {
    if n == 0 then 0 else Delays(policy, n - 1) + policy.BackoffDelay(n)
  }

  /** One failing attempt, and the retry if the policy allows it: then the delay, else `None`. */
  method AttemptOnce(store: Store, id: Uuid, policy: RetrySettings, failure: Failure, now: Millis, run: Uuid)
    returns (delay: Option<u64>)
    requires id in store.tasks && store.tasks[id].status == Pending && run !in store.runs
    modifies store
    ensures store.runs.Keys == old(store.runs).Keys + {run}
    ensures id in store.tasks && store.tasks[id].attempt == old(store.tasks)[id].attempt + 1
    ensures delay.Some? <==> MayRetry(policy, store.tasks[id].attempt, failure)
    ensures delay.Some? ==>
              && store.tasks[id].status == Pending && store.tasks[id].retryAt == Some(now + delay.value)
              && delay.value == policy.BackoffDelay(store.tasks[id].attempt) <= policy.maxMs
    ensures delay.Some? ==> forall at, limit, out ::
              IsListing(store.Tables(), at, limit, out) && at < now + delay.value ==> !Lists(out, id)
    ensures delay.None? ==> store.tasks[id].status == Failed && store.tasks[id].failure == Some(failure)
    ensures OthersKept(old(store.tasks), store.tasks, id)
  {
    ghost var before := store.tasks;
    FailOneAttempt(store, id, failure, now, run);
    var attempt := store.tasks[id].attempt;
    if !policy.ShouldRetry(attempt, failure) {
      return None;
    }
    ghost var failed := store.tasks;
    var ms := policy.BackoffDelay(attempt);
    Reenqueue(store, id, now + ms);
    OthersStillKept(before, failed, store.tasks, id);
    return Some(ms);
  }

  /** One attempt of a pending task, from its claim to its recorded failure. */
  method FailOneAttempt(store: Store, id: Uuid, failure: Failure, now: Millis, run: Uuid)
    requires id in store.tasks && store.tasks[id].status == Pending && run !in store.runs
    modifies store
    ensures store.runs.Keys == old(store.runs).Keys + {run}
    ensures id in store.tasks && store.tasks[id].status == Failed
    ensures store.tasks[id].attempt == old(store.tasks)[id].attempt + 1
    ensures store.tasks[id].failure == Some(failure)
    ensures OthersKept(old(store.tasks), store.tasks, id)
  {
    var claimed := store.ClaimTask(Task(id, store.tasks[id]), run, now);
    var outcome := store.tasks[id].(
      status := Failed, error := Some(failure.message), failure := Some(failure), finishedAt := Some(now));
    var finished := store.FinishActiveTask(Task(id, outcome));
  }

  /** The retry the executor schedules for a failed row. */
  method Reenqueue(store: Store, id: Uuid, at: Millis)
    requires id in store.tasks && store.tasks[id].status == Failed
    modifies store
    ensures store.runs == old(store.runs)
    ensures id in store.tasks && store.tasks[id].status == Pending && store.tasks[id].retryAt == Some(at)
    ensures store.tasks[id].attempt == old(store.tasks)[id].attempt
    ensures OthersKept(old(store.tasks), store.tasks, id)
  {
    var scheduled := store.ScheduleTaskRetry(id, at);
  }
}
