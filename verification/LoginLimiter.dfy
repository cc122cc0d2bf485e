/**
 The failed-login limiter: a map from key to (failures, instant of the first one),
 pruned on every call, and the login handler that drives it.  Instants are
 milliseconds of a monotonic clock.
 */
module LoginLimiter {
  import opened Options

  type Instant = nat

  const U32_MAX: nat := 0xFFFF_FFFF

  datatype Entry = Entry(count: nat, first: Instant)

  type Failures = map<string, Entry>

  /** `duration_since` saturates at zero. */
  function Elapsed(now: Instant, first: Instant): nat { if now < first then 0 else now - first }

  datatype Config = Config(max: nat, window: nat)

  function Pruned(c: Config, m: Failures, now: Instant): Failures {
    map k | k in m && Elapsed(now, m[k].first) < c.window :: m[k]
  }

  predicate Locked(c: Config, m: Failures, key: string) {
    c.max != 0 && key in m && m[key].count >= c.max
  }

  function Recorded(m: Failures, key: string, now: Instant): Failures {
    var e := if key in m then m[key] else Entry(0, now);
    m[key := e.(count := if e.count < U32_MAX then e.count + 1 else U32_MAX)]
  }

  class Limiter {
    const config: Config
    var failures: Failures

    constructor (config: Config)
      ensures this.config == config && failures == map[]
    {
      this.config, failures := config, map[];
    }

    method Prune(now: Instant)
      modifies this
      ensures failures == Pruned(config, old(failures), now)
    {
      failures := map k | k in failures && Elapsed(now, failures[k].first) < config.window :: failures[k];
    }

    method IsLocked(key: string, now: Instant) returns (locked: bool)
      modifies this
      ensures failures == Pruned(config, old(failures), now)
      ensures locked <==> Locked(config, failures, key)
    {
      Prune(now);
      if config.max == 0 {
        return false;
      }
      return key in failures && failures[key].count >= config.max;
    }

    method RecordFailure(key: string, now: Instant)
      modifies this
      ensures failures == Recorded(Pruned(config, old(failures), now), key, now)
    {
      Prune(now);
      var entry := if key in failures then failures[key] else Entry(0, now);
      failures := failures[key := entry.(count := if entry.count < U32_MAX then entry.count + 1 else U32_MAX)];
    }

    method Clear(key: string)
      modifies this
      ensures failures == old(failures) - {key}
    {
      failures := failures - {key};
    }

    /** The part of the handler that touches the limiter; false means the attempt was refused unread. */
    method Login(r: Request) returns (checked: bool)
      modifies this
      ensures checked <==> Admits(config, old(failures), r)
      ensures failures == Served(config, old(failures), r)
    {
      var locked := IsLocked(r.key, r.checkedAt);
      if locked {
        return false;
      }
      match r.outcome {
        case Failure => RecordFailure(r.key, r.recordedAt);
        case Success => Clear(r.key);
        case NoVerdict =>
      }
      return true;
    }
  }

  /** `NoVerdict`: the lookup failed, or no users are configured; nothing is recorded. */
  datatype Outcome = Failure | Success | NoVerdict

  datatype Request = Request(key: string, checkedAt: Instant, recordedAt: Instant, outcome: Outcome)

  predicate Admits(c: Config, m: Failures, r: Request) {
    !Locked(c, Pruned(c, m, r.checkedAt), r.key)
  }

  function Served(c: Config, m: Failures, r: Request): Failures {
    var m1 := Pruned(c, m, r.checkedAt);
    if !Admits(c, m, r) then m1
    else match r.outcome
      case Failure => Recorded(Pruned(c, m1, r.recordedAt), r.key, r.recordedAt)
      case Success => m1 - {r.key}
      case NoVerdict => m1
  }

  // -------------------------------------------------------------------------
  // Runs of handlers, one after another
  // -------------------------------------------------------------------------

  function LastTime(rs: seq<Request>): Instant { if rs == [] then 0 else rs[|rs| - 1].recordedAt }

  predicate InTurn(rs: seq<Request>) {
    forall i :: 0 <= i < |rs| ==>
      && rs[i].checkedAt <= rs[i].recordedAt
      && (forall j :: 0 <= j < i ==> rs[j].recordedAt <= rs[i].checkedAt)
  }

  function After(c: Config, rs: seq<Request>): Failures {
    if rs == [] then map[] else Served(c, After(c, rs[..|rs| - 1]), rs[|rs| - 1])
  }

  /** The instants at which failures of `key` were recorded, in order. */
  function FailuresOf(c: Config, rs: seq<Request>, key: string): seq<Instant> {
    if rs == [] then []
    else
      var before, r := rs[..|rs| - 1], rs[|rs| - 1];
      FailuresOf(c, before, key)
        + if r.key == key && r.outcome == Failure && Admits(c, After(c, before), r) then [r.recordedAt] else []
  }

  predicate NoSuccess(rs: seq<Request>, key: string) {
    forall r :: r in rs ==> !(r.key == key && r.outcome == Success)
  }

  predicate Ordered(h: seq<Instant>) { forall i, j :: 0 <= i < j < |h| ==> h[i] <= h[j] }

  /** The most failures any span as long as the window can hold. */
  function Bound(c: Config): nat
    requires c.max > 0
  {
    if c.window == 0 then 0 else if c.window == 1 then c.max else 2 * c.max - 1
  }

  /** Among any `k + 1` consecutive failures the last is at least a window after the first. */
  ghost predicate Spread(c: Config, h: seq<Instant>, k: nat) {
    forall i, j :: 0 <= i && j == i + k && j < |h| ==> h[i] + c.window <= h[j]
  }

  /** One key's part of the map. */
  function EntryOf(m: Failures, key: string): Option<Entry> { if key in m then Some(m[key]) else None }

  function EntryPruned(c: Config, e: Option<Entry>, now: Instant): Option<Entry> {
    if e.Some? && Elapsed(now, e.value.first) < c.window then e else None
  }

  function EntryRecorded(e: Option<Entry>, now: Instant): Entry {
    match e
    case None => Entry(1, now)
    case Some(v) => Entry(if v.count < U32_MAX then v.count + 1 else U32_MAX, v.first)
  }

  /** Requests for other keys only prune this one. */
  lemma ServedEntry(c: Config, m: Failures, r: Request, key: string)
    ensures var e1 := EntryPruned(c, EntryOf(m, key), r.checkedAt);
            EntryOf(Served(c, m, r), key) ==
              if !Admits(c, m, r) then e1
              else match r.outcome
                case Failure =>
                  var e2 := EntryPruned(c, e1, r.recordedAt);
                  if r.key == key then Some(EntryRecorded(e2, r.recordedAt)) else e2
                case Success => if r.key == key then None else e1
                case NoVerdict => e1
    ensures var e1 := EntryPruned(c, EntryOf(m, key), r.checkedAt);
            r.key == key ==> (Admits(c, m, r) <==> c.max == 0 || e1.None? || e1.value.count < c.max)
  {
  }

  /**
   What the entry knows about the key's history at time `now`: it counts the failures
   since its first one, all within the window; the failure just before an entry's first
   is strictly earlier, and the one `max` places before it lies a whole window back.
   */
  predicate Book(c: Config, e: Option<Entry>, h: seq<Instant>, now: Instant)
    requires c.max > 0
  {
    && Ordered(h) && (forall i :: 0 <= i < |h| ==> h[i] <= now)
    && match e
       case None =>
         && (h != [] ==> h[|h| - 1] < now)
         && (|h| >= c.max ==> h[|h| - c.max] + c.window <= now)
       case Some(Entry(n, first)) =>
         && 1 <= n <= c.max && n <= |h|
         && first == h[|h| - n]
         && (forall i :: |h| - n <= i < |h| ==> h[i] - first < c.window)
         && (|h| > n ==> h[|h| - n - 1] < first)
         && (|h| - n >= c.max ==> h[|h| - n - c.max] + c.window <= first)
  }

  lemma PruneKeepsBook(c: Config, e: Option<Entry>, h: seq<Instant>, was: Instant, now: Instant)
    requires c.max > 0 && Book(c, e, h, was) && was <= now
    ensures Book(c, EntryPruned(c, e, now), h, now)
  {
    if e.Some? && |h| >= c.max {
      assert h[|h| - c.max] <= h[|h| - e.value.count];
    }
  }

  lemma RecordKeepsBook(c: Config, e: Option<Entry>, h: seq<Instant>, now: Instant)
    requires 0 < c.max <= U32_MAX && c.window > 0 && Book(c, e, h, now)
    requires e.Some? ==> e.value.count < c.max && now - e.value.first < c.window
    ensures Book(c, Some(EntryRecorded(e, now)), h + [now], now)
  {
    var h', n := h + [now], EntryRecorded(e, now).count;
    assert |h'| - n == if e.None? then |h| else |h| - e.value.count;
  }

  lemma RecordKeepsSpread(c: Config, e: Option<Entry>, h: seq<Instant>, now: Instant)
    requires 0 < c.max && 0 < c.window && Book(c, e, h, now) && Spread(c, h, Bound(c))
    requires e.Some? ==> e.value.count < c.max && now - e.value.first < c.window
    ensures Spread(c, h + [now], Bound(c))
  {
    var i := |h| - Bound(c);
    if i >= 0 {
      var n := if e.Some? then e.value.count else 0;
      var k := if c.window == 1 then |h| - n - 1 else |h| - n - c.max;
      assert i <= k;
      assert i < k ==> h[i] <= h[k];
    }
  }

  lemma {:induction false} RunKeepsBook(c: Config, rs: seq<Request>, key: string)
    requires 0 < c.max <= U32_MAX && c.window > 0 && InTurn(rs) && NoSuccess(rs, key)
    ensures Book(c, EntryOf(After(c, rs), key), FailuresOf(c, rs, key), LastTime(rs))
    ensures Spread(c, FailuresOf(c, rs, key), Bound(c))
  {
    if rs != [] {
      var before, r := rs[..|rs| - 1], rs[|rs| - 1];
      RunKeepsBook(c, before, key);
      assert LastTime(before) <= r.checkedAt <= r.recordedAt && r in rs;
      StepKeepsBook(c, After(c, before), r, key, FailuresOf(c, before, key), LastTime(before));
    }
  }

  lemma StepKeepsBook(c: Config, m: Failures, r: Request, key: string, h: seq<Instant>, was: Instant)
    requires 0 < c.max <= U32_MAX && c.window > 0
    requires Book(c, EntryOf(m, key), h, was) && Spread(c, h, Bound(c)) && was <= r.checkedAt <= r.recordedAt
    requires !(r.key == key && r.outcome == Success)
    ensures var h' := h + if r.key == key && r.outcome == Failure && Admits(c, m, r) then [r.recordedAt] else [];
            Book(c, EntryOf(Served(c, m, r), key), h', r.recordedAt) && Spread(c, h', Bound(c))
  {
    ServedEntry(c, m, r, key);
    var e1 := EntryPruned(c, EntryOf(m, key), r.checkedAt);
    var e2 := EntryPruned(c, e1, r.recordedAt);
    PruneKeepsBook(c, EntryOf(m, key), h, was, r.checkedAt);
    PruneKeepsBook(c, e1, h, r.checkedAt, r.recordedAt);
    if r.key == key && r.outcome == Failure && Admits(c, m, r) {
      RecordKeepsBook(c, e2, h, r.recordedAt);
      RecordKeepsSpread(c, e2, h, r.recordedAt);
    } else {
      assert h + [] == h;
      BookLater(c, e1, h, r.checkedAt, r.recordedAt);
    }
  }

  lemma BookLater(c: Config, e: Option<Entry>, h: seq<Instant>, was: Instant, now: Instant)
    requires c.max > 0 && Book(c, e, h, was) && was <= now
    ensures Book(c, e, h, now)
  {
  }

  // -------------------------------------------------------------------------
  // The bound
  // -------------------------------------------------------------------------

  /** How many of the instants lie in `[s, s + window)`. */
  function CountIn(h: seq<Instant>, s: Instant, window: nat): nat {
    if h == [] then 0
    else (if s <= h[0] < s + window then 1 else 0) + CountIn(h[1..], s, window)
  }

  lemma {:induction false} CountBefore(h: seq<Instant>, s: Instant, window: nat, k: nat)
    requires Ordered(h) && (k < |h| ==> s + window <= h[k])
    ensures CountIn(h, s, window) <= k
    decreases |h|, k
  {
    if h != [] {
      if k == 0 {
        CountBefore(h[1..], s, window, 0);
      } else {
        CountBefore(h[1..], s, window, k - 1);
      }
    }
  }

  lemma {:induction false} SpreadBoundsCount(c: Config, h: seq<Instant>, k: nat, s: Instant)
    requires Ordered(h) && Spread(c, h, k)
    ensures CountIn(h, s, c.window) <= k
  {
    if h != [] {
      if h[0] < s {
        SpreadTail(c, h, k);
        SpreadBoundsCount(c, h[1..], k, s);
      } else {
        CountBefore(h, s, c.window, k);
      }
    }
  }

  lemma SpreadTail(c: Config, h: seq<Instant>, k: nat)
    requires h != [] && Ordered(h) && Spread(c, h, k)
    ensures Ordered(h[1..]) && Spread(c, h[1..], k)
  {
    forall i, j | 0 <= i && j == i + k && j < |h[1..]| ensures h[1..][i] + c.window <= h[1..][j] {
      assert h[i + 1] + c.window <= h[j + 1];
    }
  }

  /** Handlers in turn and no success: no span as long as the window holds more failures than the bound. */
  lemma AtMostBound(c: Config, rs: seq<Request>, key: string, s: Instant)
    requires 0 < c.max <= U32_MAX && InTurn(rs) && NoSuccess(rs, key)
    ensures CountIn(FailuresOf(c, rs, key), s, c.window) <= Bound(c)
  {
    if c.window == 0 {
      EmptySpan(FailuresOf(c, rs, key), s);
    } else {
      RunKeepsBook(c, rs, key);
      SpreadBoundsCount(c, FailuresOf(c, rs, key), Bound(c), s);
    }
  }

  lemma {:induction false} EmptySpan(h: seq<Instant>, s: Instant)
    ensures CountIn(h, s, 0) == 0
  {
    if h != [] { EmptySpan(h[1..], s); }
  }

  /** An entry's count is the number of failures since its first one, never more than `max`. */
  lemma EntryCountsItsFailures(c: Config, rs: seq<Request>, key: string)
    requires 0 < c.max <= U32_MAX && c.window > 0 && InTurn(rs) && NoSuccess(rs, key)
    requires key in After(c, rs)
    ensures var e, h := After(c, rs)[key], FailuresOf(c, rs, key);
            && 1 <= e.count <= c.max && e.count <= |h|
            && h[|h| - e.count] == e.first
            && forall i :: |h| - e.count <= i < |h| ==> e.first <= h[i] < e.first + c.window
  {
    RunKeepsBook(c, rs, key);
  }

  // -------------------------------------------------------------------------
  // The bound is reached
  // -------------------------------------------------------------------------

  function Repeat(t: Instant, n: nat): seq<Instant> { seq(n, i => t) }

  /** `n` failing logins at one instant. */
  function Failing(key: string, t: Instant, n: nat): seq<Request> { seq(n, i => Request(key, t, t, Failure)) }

  /** One failure opens the entry; `max - 1` come just before the window ends and `max` just after. */
  function Burst(c: Config, key: string): seq<Request>
    requires c.max > 0
  {
    if c.window < 2 then Failing(key, 0, c.max)
    else Failing(key, 0, 1) + Failing(key, c.window - 1, c.max - 1) + Failing(key, c.window, c.max)
  }

  /** What a run leaves of one key: its failures and its entry. */
  predicate Leaves(c: Config, rs: seq<Request>, key: string, h: seq<Instant>, e: Option<Entry>) {
    FailuresOf(c, rs, key) == h && EntryOf(After(c, rs), key) == e
  }

  /** Room for `n` more failures. */
  predicate HasRoom(c: Config, e: Option<Entry>, n: nat) { (if e.Some? then e.value.count else 0) + n <= c.max }

  function Grown(e: Option<Entry>, t: Instant, n: nat): Option<Entry> {
    if n == 0 then e else if e.Some? then Some(Entry(e.value.count + n, e.value.first)) else Some(Entry(n, t))
  }

  lemma FailOnce(c: Config, before: seq<Request>, key: string, t: Instant, h: seq<Instant>, e: Option<Entry>)
    requires 0 < c.max <= U32_MAX && c.window > 0
    requires Leaves(c, before, key, h, e) && HasRoom(c, EntryPruned(c, e, t), 1)
    ensures Leaves(c, before + [Request(key, t, t, Failure)], key, h + [t], Grown(EntryPruned(c, e, t), t, 1))
  {
    var r := Request(key, t, t, Failure);
    assert (before + [r])[..|before|] == before;
    ServedEntry(c, After(c, before), r, key);
  }

  lemma GrownOnce(c: Config, e: Option<Entry>, t: Instant, n: nat, m: nat)
    requires c.window > 0 && HasRoom(c, EntryPruned(c, e, t), m) && m == n + 1
    ensures var g := Grown(EntryPruned(c, e, t), t, n);
            && EntryPruned(c, g, t) == g && HasRoom(c, g, 1)
            && Grown(g, t, 1) == Grown(EntryPruned(c, e, t), t, m)
  {
  }

  lemma FailingOnce(before: seq<Request>, h: seq<Instant>, key: string, t: Instant, n: nat, m: nat)
    requires m == n + 1
    ensures before + Failing(key, t, m) == before + Failing(key, t, n) + [Request(key, t, t, Failure)]
    ensures h + Repeat(t, m) == h + Repeat(t, n) + [t]
    ensures before + Failing(key, t, 0) == before && h + Repeat(t, 0) == h
  {
  }

  /** Failures at one instant all count while the entry has room for them. */
  lemma {:induction false} FailMore(c: Config, before: seq<Request>, key: string, t: Instant, n: nat,
                                    h: seq<Instant>, e: Option<Entry>)
    requires 0 < c.max <= U32_MAX && c.window > 0 && n > 0
    requires Leaves(c, before, key, h, e) && HasRoom(c, EntryPruned(c, e, t), n)
    ensures Leaves(c, before + Failing(key, t, n), key, h + Repeat(t, n), Grown(EntryPruned(c, e, t), t, n))
  {
    FailingOnce(before, h, key, t, n - 1, n);
    if n == 1 {
      FailOnce(c, before, key, t, h, e);
    } else {
      FailMore(c, before, key, t, n - 1, h, e);
      GrownOnce(c, e, t, n - 1, n);
      FailOnce(c, before + Failing(key, t, n - 1), key, t, h + Repeat(t, n - 1),
               Grown(EntryPruned(c, e, t), t, n - 1));
    }
  }

  lemma {:induction false} CountAppend(a: seq<Instant>, b: seq<Instant>, s: Instant, window: nat)
    ensures CountIn(a + b, s, window) == CountIn(a, s, window) + CountIn(b, s, window)
  {
    if a == [] {
      assert a + b == b;
    } else {
      assert (a + b)[1..] == a[1..] + b;
      CountAppend(a[1..], b, s, window);
    }
  }

  lemma {:induction false} CountRepeat(t: Instant, n: nat, s: Instant, window: nat)
    ensures CountIn(Repeat(t, n), s, window) == if s <= t < s + window then n else 0
  {
    if n > 0 {
      assert Repeat(t, n)[1..] == Repeat(t, n - 1);
      CountRepeat(t, n - 1, s, window);
    }
  }

  /** The entry opened at 0 is full before its window ends, and gone when it has. */
  lemma FullBeforeTheEnd(c: Config, key: string)
    requires 0 < c.max <= U32_MAX && c.window >= 2
    ensures Leaves(c, Failing(key, 0, 1) + Failing(key, c.window - 1, c.max - 1), key,
                   Repeat(0, 1) + Repeat(c.window - 1, c.max - 1), Some(Entry(c.max, 0)))
  {
    var one := Failing(key, 0, 1);
    FailMore(c, [], key, 0, 1, [], None);
    assert [] + one == one && [] + Repeat(0, 1) == Repeat(0, 1);
    if c.max == 1 {
      assert one + Failing(key, c.window - 1, 0) == one;
      assert Repeat(0, 1) + Repeat(c.window - 1, 0) == Repeat(0, 1);
    } else {
      FailMore(c, one, key, c.window - 1, c.max - 1, Repeat(0, 1), Some(Entry(1, 0)));
    }
  }

  lemma BurstFailures(c: Config, key: string)
    requires 0 < c.max <= U32_MAX && c.window >= 2
    ensures FailuresOf(c, Burst(c, key), key)
            == Repeat(0, 1) + Repeat(c.window - 1, c.max - 1) + Repeat(c.window, c.max)
  {
    FullBeforeTheEnd(c, key);
    FullThenPruned(c, Failing(key, 0, 1) + Failing(key, c.window - 1, c.max - 1), key,
                   Repeat(0, 1) + Repeat(c.window - 1, c.max - 1));
  }

  lemma FullThenPruned(c: Config, before: seq<Request>, key: string, h: seq<Instant>)
    requires 0 < c.max <= U32_MAX && c.window > 0 && Leaves(c, before, key, h, Some(Entry(c.max, 0)))
    ensures FailuresOf(c, before + Failing(key, c.window, c.max), key) == h + Repeat(c.window, c.max)
  {
    FailMore(c, before, key, c.window, c.max, h, Some(Entry(c.max, 0)));
  }

  lemma CountBurst(c: Config)
    requires 0 < c.max && c.window >= 2
    ensures CountIn(Repeat(0, 1) + Repeat(c.window - 1, c.max - 1) + Repeat(c.window, c.max), c.window - 1, c.window)
            == 2 * c.max - 1
  {
    var s, w, n := c.window - 1, c.window, c.max;
    CountRepeat(0, 1, s, w);
    CountRepeat(w - 1, n - 1, s, w);
    CountRepeat(w, n, s, w);
    CountAppend(Repeat(0, 1), Repeat(w - 1, n - 1), s, w);
    CountAppend(Repeat(0, 1) + Repeat(w - 1, n - 1), Repeat(w, n), s, w);
  }

  lemma BurstAtOnce(c: Config, key: string)
    requires 0 < c.max <= U32_MAX && c.window == 1
    ensures CountIn(FailuresOf(c, Failing(key, 0, c.max), key), 0, 1) == c.max
  {
    FailMore(c, [], key, 0, c.max, [], None);
    assert [] + Failing(key, 0, c.max) == Failing(key, 0, c.max) && [] + Repeat(0, c.max) == Repeat(0, c.max);
    CountRepeat(0, c.max, 0, 1);
  }

  /** Where the busiest span of the burst begins. */
  function BusySpan(c: Config): Instant { if c.window < 2 then 0 else c.window - 1 }

  lemma BurstInTurn(c: Config, key: string)
    requires c.max > 0
    ensures InTurn(Burst(c, key)) && NoSuccess(Burst(c, key), key)
  {
  }

  /** For every limiter the bound is reached, by a burst across the end of the window. */
  lemma BoundIsReached(c: Config, key: string)
    requires 0 < c.max <= U32_MAX
    ensures InTurn(Burst(c, key)) && NoSuccess(Burst(c, key), key)
    ensures CountIn(FailuresOf(c, Burst(c, key), key), BusySpan(c), c.window) == Bound(c)
  {
    BurstInTurn(c, key);
    if c.window == 0 {
      EmptySpan(FailuresOf(c, Burst(c, key), key), BusySpan(c));
    } else if c.window == 1 {
      BurstAtOnce(c, key);
    } else {
      BurstFailures(c, key);
      CountBurst(c);
    }
  }

  // -------------------------------------------------------------------------
  // When `max` failures per span is what the limiter keeps
  // -------------------------------------------------------------------------

  /** Whatever the handlers, no span as long as the window holds more than `max` failures of a key. */
  ghost predicate KeepsToMax(c: Config) {
    forall rs: seq<Request>, key: string, s: Instant :: InTurn(rs) && NoSuccess(rs, key) ==>
      CountIn(FailuresOf(c, rs, key), s, c.window) <= c.max
  }

  /** Only limits of one failure and windows of at most one tick are kept in every span. */
  lemma KeepsToMaxIff(c: Config)
    requires 0 < c.max <= U32_MAX
    ensures KeepsToMax(c) <==> c.max == 1 || c.window <= 1
  {
    if c.max == 1 || c.window <= 1 {
      forall rs: seq<Request>, key: string, s: Instant | InTurn(rs) && NoSuccess(rs, key)
        ensures CountIn(FailuresOf(c, rs, key), s, c.window) <= c.max
      {
        AtMostBound(c, rs, key, s);
      }
    } else {
      BoundIsReached(c, "");
      assert Bound(c) > c.max;
    }
  }
}
