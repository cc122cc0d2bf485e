/**
 `usage_stats`: group the finished runs of the window by calendar key, then look
 each bucket's key up.  Every bucket equals the direct sum over the runs whose
 finish lies in it, and the totals equal the sum over the whole window, if and
 only if no run of the window is misplaced by SQL's truncating division.
 */
module UsageStats {
  import opened Options
  import opened Calendar
  import opened UsageBuckets

  /** Cost is an exact number here; absent when nothing reported one. */
  datatype AgentUsage = AgentUsage(
    input: nat, output: nat, reasoning: nat, cacheRead: nat, cacheWrite: nat, cost: Option<real>)

  const NO_USAGE := AgentUsage(0, 0, 0, 0, 0, None)

  /** The columns of `task_runs` the aggregation reads; `usage` is `None` when they are all NULL. */
  datatype RunRecord = RunRecord(finishedAt: Option<Instant>, usage: Option<AgentUsage>)

  datatype Tally = Tally(usage: AgentUsage, runs: nat)

  const ZERO := Tally(NO_USAGE, 0)

  datatype GroupRow = GroupRow(key: string, tally: Tally)

  datatype Bucket = Bucket(start: Instant, end: Instant, tally: Tally)

  datatype Stats = Stats(period: Period, totals: Tally, buckets: seq<Bucket>)

  /** `AgentUsage::merge`. */
  function Merge(a: AgentUsage, b: AgentUsage): AgentUsage {
    AgentUsage(a.input + b.input, a.output + b.output, a.reasoning + b.reasoning,
               a.cacheRead + b.cacheRead, a.cacheWrite + b.cacheWrite,
               if b.cost.None? then a.cost else Some(a.cost.GetOr(0.0) + b.cost.value))
  }

  function Add(a: Tally, b: Tally): Tally { Tally(Merge(a.usage, b.usage), a.runs + b.runs) }

  lemma AddZero(a: Tally)
    ensures Add(a, ZERO) == a && Add(ZERO, a) == a
  {
  }

  lemma AddThree(a: Tally, b: Tally, c: Tally)
    ensures Add(Add(a, b), c) == Add(a, Add(b, c))
    ensures Add(Add(b, a), c) == Add(a, Add(b, c))
    ensures Add(b, Add(a, c)) == Add(a, Add(b, c))
  {
  }

  function OneRun(r: RunRecord): Tally { Tally(r.usage.GetOr(NO_USAGE), 1) }

  predicate FinishedIn(r: RunRecord, lo: Instant, hi: Instant) {
    r.finishedAt.Some? && lo <= r.finishedAt.value < hi
  }

  /** The direct sum over the runs that finished in `[lo, hi)`. */
  function DirectSum(runs: seq<RunRecord>, lo: Instant, hi: Instant): Tally {
    if runs == [] then ZERO
    else if FinishedIn(runs[0], lo, hi) then Add(OneRun(runs[0]), DirectSum(runs[1..], lo, hi))
    else DirectSum(runs[1..], lo, hi)
  }

  // -------------------------------------------------------------------------
  // The grouped scan
  // -------------------------------------------------------------------------

  function AddToGroup(rows: seq<GroupRow>, key: string, t: Tally): seq<GroupRow> {
    if rows == [] then [GroupRow(key, t)]
    else if rows[0].key == key then [GroupRow(key, Add(rows[0].tally, t))] + rows[1..]
    else [rows[0]] + AddToGroup(rows[1..], key, t)
  }

  predicate Keyed(runs: seq<RunRecord>) {
    forall r :: r in runs ==> r.finishedAt.Some? && InCalendar(Whole(r.finishedAt.value))
  }

  /** A run as SQL sees it: finished at a whole second. */
  function Seen(r: RunRecord): RunRecord {
    r.(finishedAt := if r.finishedAt.Some? then Some(Whole(r.finishedAt.value)) else None)
  }

  function SeenAll(runs: seq<RunRecord>): seq<RunRecord> {
    if runs == [] then [] else [Seen(runs[0])] + SeenAll(runs[1..])
  }

  function Filter(runs: seq<RunRecord>, lo: Instant, hi: Instant): (f: seq<RunRecord>)
    ensures forall r :: r in f ==> r in runs && FinishedIn(r, lo, hi)
  {
    if runs == [] then []
    else if FinishedIn(runs[0], lo, hi) then [runs[0]] + Filter(runs[1..], lo, hi)
    else Filter(runs[1..], lo, hi)
  }

  /** `GROUP BY` the run's key: one row per distinct key, each column summed. */
  function GroupBy(period: Period, runs: seq<RunRecord>): seq<GroupRow>
    requires Keyed(runs)
  {
    if runs == [] then []
    else AddToGroup(GroupBy(period, runs[1..]), SqlKey(period, runs[0].finishedAt.value), OneRun(runs[0]))
  }

  /** Everything the rows hold under `key`. */
  function Under(rows: seq<GroupRow>, key: string): Tally {
    if rows == [] then ZERO
    else if rows[0].key == key then Add(rows[0].tally, Under(rows[1..], key))
    else Under(rows[1..], key)
  }

  lemma {:induction false} UnderAdded(rows: seq<GroupRow>, key: string, t: Tally, k: string)
    ensures Under(AddToGroup(rows, key, t), k) == if k == key then Add(t, Under(rows, k)) else Under(rows, k)
  {
    if rows != [] {
      var rest := Under(rows[1..], k);
      if rows[0].key == key {
        var added := [GroupRow(key, Add(rows[0].tally, t))] + rows[1..];
        assert added[1..] == rows[1..];
        if k == key { AddThree(t, rows[0].tally, rest); }
      } else {
        var added := [rows[0]] + AddToGroup(rows[1..], key, t);
        assert added[1..] == AddToGroup(rows[1..], key, t);
        UnderAdded(rows[1..], key, t, k);
      }
    }
  }

  /** A key that means "SQL sees it in `[lo, hi)`" collects the direct sum over what SQL sees there. */
  lemma {:induction false} GroupIsDirectSum(period: Period, runs: seq<RunRecord>, key: string, lo: Instant, hi: Instant)
    requires Keyed(runs)
    requires forall r :: r in runs ==>
               (SqlKey(period, r.finishedAt.value) == key <==> lo <= Whole(r.finishedAt.value) < hi)
    ensures Under(GroupBy(period, runs), key) == DirectSum(SeenAll(runs), lo, hi)
  {
    if runs != [] {
      var r := runs[0];
      assert r in runs;
      GroupIsDirectSum(period, runs[1..], key, lo, hi);
      UnderAdded(GroupBy(period, runs[1..]), SqlKey(period, r.finishedAt.value), OneRun(r), key);
      SeenHead(runs, lo, hi);
    }
  }

  lemma SeenHead(runs: seq<RunRecord>, lo: Instant, hi: Instant)
    requires runs != []
    ensures var rest := DirectSum(SeenAll(runs[1..]), lo, hi);
            DirectSum(SeenAll(runs), lo, hi)
            == if FinishedIn(Seen(runs[0]), lo, hi) then Add(OneRun(runs[0]), rest) else rest
  {
    assert SeenAll(runs)[1..] == SeenAll(runs[1..]);
  }

  lemma {:induction false} FilterKeepsSum(runs: seq<RunRecord>, lo: Instant, hi: Instant, a: Instant, b: Instant)
    requires lo <= a && b <= hi
    ensures DirectSum(Filter(runs, lo, hi), a, b) == DirectSum(runs, a, b)
  {
    if runs != [] {
      FilterKeepsSum(runs[1..], lo, hi, a, b);
      if FinishedIn(runs[0], lo, hi) {
        assert Filter(runs, lo, hi)[1..] == Filter(runs[1..], lo, hi);
      }
    }
  }

  /** Adjacent windows add up: nothing is lost or counted twice. */
  lemma {:induction false} DirectSumSplits(runs: seq<RunRecord>, a: Instant, b: Instant, c: Instant)
    requires a <= b <= c
    ensures Add(DirectSum(runs, a, b), DirectSum(runs, b, c)) == DirectSum(runs, a, c)
  {
    if runs == [] {
      AddZero(ZERO);
    } else {
      var p, q, r := DirectSum(runs[1..], a, b), DirectSum(runs[1..], b, c), runs[0];
      DirectSumSplits(runs[1..], a, b, c);
      if FinishedIn(r, a, b) {
        AddThree(OneRun(r), p, q);
        assert DirectSum(runs, b, c) == q;
      } else if FinishedIn(r, b, c) {
        AddThree(OneRun(r), p, q);
        assert DirectSum(runs, a, b) == p;
      }
    }
  }

  lemma {:induction false} EmptySpan(runs: seq<RunRecord>, a: Instant)
    ensures DirectSum(runs, a, a) == ZERO
  {
    if runs != [] { EmptySpan(runs[1..], a); }
  }

  function Get(m: map<string, Tally>, key: string): Tally { if key in m then m[key] else ZERO }

  /** The rows the query selects: finished within the bounds of the window. */
  function Window(runs: seq<RunRecord>, b: seq<Bounds>): seq<RunRecord>
    requires b != []
  {
    Filter(runs, b[0].start, b[|b| - 1].end)
  }

  /** They are keyed by years the formats can write. */
  lemma WindowKeyed(period: Period, now: Instant, runs: seq<RunRecord>)
    requires InRange(period, now)
    ensures Keyed(Window(runs, BucketBounds(period, now)))
  {
    forall r | r in Window(runs, BucketBounds(period, now))
      ensures r.finishedAt.Some? && InCalendar(Whole(r.finishedAt.value))
    {
      KeyMatchesBucket(period, now, 0, r.finishedAt.value);
    }
  }

  /** Fold the SQL rows into a map from key to usage. */
  method CollectGroups(rows: seq<GroupRow>) returns (grouped: map<string, Tally>)
    ensures forall k :: Get(grouped, k) == Under(rows, k)
  {
    grouped := map[];
    var i := 0;
    while i < |rows|
      invariant 0 <= i <= |rows|
      invariant forall k :: Get(grouped, k) == Under(rows[..i], k)
    {
      ghost var was := grouped;
      grouped := grouped[rows[i].key := Add(Get(grouped, rows[i].key), rows[i].tally)];
      forall k ensures Get(grouped, k) == Under(rows[..i + 1], k) {
        assert rows[..i + 1][..i] == rows[..i];
        UnderLast(rows[..i + 1], k);
        assert k != rows[i].key ==> Get(grouped, k) == Get(was, k);
      }
      i := i + 1;
    }
    assert rows[..i] == rows;
  }

  lemma {:induction false} UnderLast(rows: seq<GroupRow>, k: string)
    requires rows != []
    ensures var n := |rows| - 1;
            Under(rows, k) == if rows[n].key == k then Add(Under(rows[..n], k), rows[n].tally) else Under(rows[..n], k)
  {
    var n := |rows| - 1;
    if n == 0 {
      AddZero(rows[0].tally);
    } else {
      UnderLast(rows[1..], k);
      assert rows[1..][..n - 1] == rows[..n][1..];
      if rows[0].key == k && rows[n].key == k {
        AddThree(rows[0].tally, Under(rows[..n][1..], k), rows[n].tally);
      }
    }
  }

  ghost predicate Tiled(b: seq<Bounds>) {
    && b != []
    && (forall i :: 0 <= i < |b| ==> b[i].start < b[i].end)
    && (forall i, j :: 0 <= i < j < |b| && j == i + 1 ==> b[i].end == b[j].start)
  }

  /** How far the first `i` buckets reach. */
  function Reach(b: seq<Bounds>, i: nat): Instant
    requires b != [] && i <= |b|
  {
    if i == 0 then b[0].start else b[i - 1].end
  }

  /** The buckets' tallies folded in order. */
  function Total(buckets: seq<Bucket>): Tally {
    if buckets == [] then ZERO else Add(Total(buckets[..|buckets| - 1]), buckets[|buckets| - 1].tally)
  }

  lemma RemoveKeepsOthers(m: map<string, Tally>, key: string)
    ensures forall k :: k != key ==> Get(m - {key}, k) == Get(m, k)
  {
  }

  /** Each bucket takes its key's group out of the map. */
  method FillBuckets(b: seq<Bounds>, keys: seq<string>, groups: map<string, Tally>)
    returns (totals: Tally, out: seq<Bucket>)
    requires |keys| == |b|
    requires forall i, j :: 0 <= i < j < |keys| ==> keys[i] != keys[j]
    ensures |out| == |b|
    ensures forall i :: 0 <= i < |b| ==> out[i] == Bucket(b[i].start, b[i].end, Get(groups, keys[i]))
    ensures totals == Total(out)
  {
    totals, out := ZERO, [];
    var grouped := groups;
    var i := 0;
    while i < |b|
      invariant 0 <= i <= |b| && |out| == i
      invariant forall j :: 0 <= j < i ==> out[j] == Bucket(b[j].start, b[j].end, Get(groups, keys[j]))
      invariant forall j :: i <= j < |b| ==> Get(grouped, keys[j]) == Get(groups, keys[j])
      invariant totals == Total(out)
    {
      var tally := Get(grouped, keys[i]);
      RemoveKeepsOthers(grouped, keys[i]);
      grouped := grouped - {keys[i]};
      totals := Add(totals, tally);
      ghost var before := out;
      out := out + [Bucket(b[i].start, b[i].end, tally)];
      assert out[..|out| - 1] == before;
      i := i + 1;
    }
  }

  predicate HoldsDirectSums(b: seq<Bounds>, out: seq<Bucket>, runs: seq<RunRecord>) {
    && |out| == |b|
    && forall i :: 0 <= i < |b| ==>
         out[i] == Bucket(b[i].start, b[i].end, DirectSum(runs, b[i].start, b[i].end))
  }

  lemma TotalOneMore(out: seq<Bucket>, n: nat)
    requires n < |out|
    ensures Total(out[..n + 1]) == Add(Total(out[..n]), out[n].tally)
  {
    assert out[..n + 1][..n] == out[..n];
  }

  lemma WindowOneMore(b: seq<Bounds>, runs: seq<RunRecord>, n: nat)
    requires Tiled(b) && n < |b|
    ensures Add(DirectSum(runs, b[0].start, Reach(b, n)), DirectSum(runs, b[n].start, b[n].end))
            == DirectSum(runs, b[0].start, Reach(b, n + 1))
  {
    InOrder(b, 0, n);
    assert Reach(b, n) == b[n].start;
    DirectSumSplits(runs, b[0].start, b[n].start, b[n].end);
  }

  lemma TotalWindowStep(b: seq<Bounds>, out: seq<Bucket>, runs: seq<RunRecord>, n: nat, m: nat)
    requires Tiled(b) && HoldsDirectSums(b, out, runs) && n < |b| && m == n + 1
    requires Total(out[..n]) == DirectSum(runs, b[0].start, Reach(b, n))
    ensures Total(out[..m]) == DirectSum(runs, b[0].start, Reach(b, m))
  {
    TotalOneMore(out, n);
    WindowOneMore(b, runs, n);
  }

  /** Over adjacent buckets the folded tallies are the sum over the whole window. */
  lemma {:induction false} TotalIsWindow(b: seq<Bounds>, out: seq<Bucket>, runs: seq<RunRecord>, n: nat)
    requires Tiled(b) && HoldsDirectSums(b, out, runs) && n <= |b|
    ensures Total(out[..n]) == DirectSum(runs, b[0].start, Reach(b, n))
  {
    if n == 0 {
      EmptySpan(runs, b[0].start);
    } else {
      TotalIsWindow(b, out, runs, n - 1);
      TotalWindowStep(b, out, runs, n - 1, n);
    }
  }

  lemma TotalsFollow(b: seq<Bounds>, out: seq<Bucket>, runs: seq<RunRecord>)
    requires Tiled(b) && HoldsDirectSums(b, out, runs)
    ensures Total(out) == DirectSum(runs, b[0].start, b[|b| - 1].end)
  {
    TotalIsWindow(b, out, runs, |b|);
    assert out[..|b|] == out;
  }

  function Keys(period: Period, b: seq<Bounds>): (keys: seq<string>)
    requires forall i :: 0 <= i < |b| ==> InCalendar(b[i].start)
    ensures |keys| == |b| && forall i :: 0 <= i < |b| ==> keys[i] == BucketKey(period, b[i].start)
  {
    seq(|b|, i requires 0 <= i < |b| => BucketKey(period, b[i].start))
  }

  lemma KeysDistinct(period: Period, now: Instant)
    requires InRange(period, now)
    ensures var b := BucketBounds(period, now);
            && Tiled(b)
            && (forall i :: 0 <= i < |b| ==> InCalendar(b[i].start))
            && (forall i, j :: 0 <= i < j < |b| ==> Keys(period, b)[i] != Keys(period, b)[j])
  {
    BucketsTile(period, now);
    var b := BucketBounds(period, now);
    forall i | 0 <= i < |b| ensures InCalendar(b[i].start) { BucketStart(period, now, i); }
    forall i, j | 0 <= i < j < |b| ensures Keys(period, b)[i] != Keys(period, b)[j] {
      BucketKeysDistinct(period, now, i, j);
    }
  }

  lemma GroupsAreDirectSums(period: Period, now: Instant, runs: seq<RunRecord>, i: nat)
    requires InRange(period, now) && i < Points(period) && Keyed(Window(runs, BucketBounds(period, now)))
    requires InCalendar(BucketBounds(period, now)[i].start)
    ensures var b, window := BucketBounds(period, now)[i], Window(runs, BucketBounds(period, now));
            Under(GroupBy(period, window), BucketKey(period, b.start)) == DirectSum(SeenAll(window), b.start, b.end)
  {
    var b, window := BucketBounds(period, now)[i], Window(runs, BucketBounds(period, now));
    forall r | r in window
      ensures r.finishedAt.Some? && InCalendar(Whole(r.finishedAt.value))
      ensures SqlKey(period, r.finishedAt.value) == BucketKey(period, b.start) <==>
              b.start <= Whole(r.finishedAt.value) < b.end
    {
      KeyMatchesBucket(period, now, i, r.finishedAt.value);
    }
    GroupIsDirectSum(period, window, BucketKey(period, b.start), b.start, b.end);
  }

  /** What the grouped scan must deliver for each bucket, seen without the calendar. */
  ghost predicate KeysFit(period: Period, b: seq<Bounds>, keys: seq<string>, window: seq<RunRecord>) {
    && |keys| == |b|
    && (forall i, j :: 0 <= i < j < |keys| ==> keys[i] != keys[j])
    && Keyed(window)
    && (forall i :: 0 <= i < |b| ==>
          Under(GroupBy(period, window), keys[i]) == DirectSum(SeenAll(window), b[i].start, b[i].end))
  }

  lemma KeysDoFit(period: Period, now: Instant, runs: seq<RunRecord>)
    requires InRange(period, now)
    ensures var b := BucketBounds(period, now);
            && Tiled(b)
            && (forall i :: 0 <= i < |b| ==> InCalendar(b[i].start))
            && KeysFit(period, b, Keys(period, b), Window(runs, b))
  {
    var b := BucketBounds(period, now);
    WindowKeyed(period, now, runs);
    KeysDistinct(period, now);
    forall i | 0 <= i < |b|
      ensures Under(GroupBy(period, Window(runs, b)), Keys(period, b)[i])
              == DirectSum(SeenAll(Window(runs, b)), b[i].start, b[i].end)
    {
      GroupsAreDirectSums(period, now, runs, i);
    }
  }

  /** Every bucket is the direct sum over it, and the totals are the sum over the whole window. */
  ghost predicate Sums(b: seq<Bounds>, out: seq<Bucket>, totals: Tally, runs: seq<RunRecord>) {
    b != [] && HoldsDirectSums(b, out, runs) && totals == DirectSum(runs, b[0].start, b[|b| - 1].end)
  }

  method Aggregate(period: Period, b: seq<Bounds>, keys: seq<string>, runs: seq<RunRecord>)
    returns (totals: Tally, out: seq<Bucket>)
    requires Tiled(b) && KeysFit(period, b, keys, Window(runs, b))
    ensures Sums(b, out, totals, SeenAll(Window(runs, b))) && totals == Total(out)
  {
    var grouped := CollectGroups(GroupBy(period, Window(runs, b)));
    totals, out := FillBuckets(b, keys, grouped);
    TotalsFollow(b, out, SeenAll(Window(runs, b)));
  }

  // -------------------------------------------------------------------------
  // When the answer is right
  // -------------------------------------------------------------------------

  /** No run of the window finished where SQL's division moves it into the next slot. */
  predicate NoneMisplaced(period: Period, window: seq<RunRecord>) {
    forall r :: r in window && r.finishedAt.Some? ==> !Misplaced(period, r.finishedAt.value)
  }

  lemma {:induction false} SeenSameSum(runs: seq<RunRecord>, lo: Instant, hi: Instant)
    requires forall r :: r in runs ==> (FinishedIn(Seen(r), lo, hi) <==> FinishedIn(r, lo, hi))
    ensures DirectSum(SeenAll(runs), lo, hi) == DirectSum(runs, lo, hi)
  {
    if runs != [] {
      SeenSameSum(runs[1..], lo, hi);
      SeenHead(runs, lo, hi);
      assert runs[0] in runs;
    }
  }

  /** If SQL sees no run that is not there, and misses one that is, it counts fewer. */
  lemma {:induction false} SeenCountsLess(runs: seq<RunRecord>, lo: Instant, hi: Instant)
    requires forall r :: r in runs && FinishedIn(Seen(r), lo, hi) ==> FinishedIn(r, lo, hi)
    ensures DirectSum(SeenAll(runs), lo, hi).runs <= DirectSum(runs, lo, hi).runs
    ensures (exists r :: r in runs && FinishedIn(r, lo, hi) && !FinishedIn(Seen(r), lo, hi)) ==>
              DirectSum(SeenAll(runs), lo, hi).runs < DirectSum(runs, lo, hi).runs
  {
    if runs != [] {
      SeenCountsLess(runs[1..], lo, hi);
      SeenHead(runs, lo, hi);
      assert runs[0] in runs;
      assert forall r :: r in runs <==> r == runs[0] || r in runs[1..];
    }
  }

  lemma RightWhenNoneMisplaced(period: Period, now: Instant, runs: seq<RunRecord>, out: seq<Bucket>)
    requires InRange(period, now)
    requires var window := Window(runs, BucketBounds(period, now));
             NoneMisplaced(period, window) && HoldsDirectSums(BucketBounds(period, now), out, SeenAll(window))
    ensures HoldsDirectSums(BucketBounds(period, now), out, runs)
  {
    var b := BucketBounds(period, now);
    var window := Window(runs, b);
    KeysDistinct(period, now);
    SumsUnfiltered(runs, b);
    forall i | 0 <= i < |b|
      ensures DirectSum(SeenAll(window), b[i].start, b[i].end) == DirectSum(runs, b[i].start, b[i].end)
    {
      forall r | r in window ensures FinishedIn(Seen(r), b[i].start, b[i].end) <==> FinishedIn(r, b[i].start, b[i].end)
      {
        KeyMatchesBucket(period, now, i, r.finishedAt.value);
      }
      SeenSameSum(window, b[i].start, b[i].end);
    }
  }

  /** A misplaced timestamp lies before the end of its bucket, its whole second does not. */
  lemma MisplacedBucket(period: Period, now: Instant, t: Instant) returns (n: nat)
    requires Misplaced(period, t)
    requires var b := BucketBounds(period, now); b[0].start <= t < b[|b| - 1].end
    ensures 1 <= n <= Points(period)
    ensures var hi := BucketBounds(period, now)[n - 1].end; hi % 1000 == 0 && t < hi <= Whole(t)
  {
    InstantInWindow(period, now, t);
    var k := Slot(period, t);
    n := k - Slot(period, now) + Points(period);
    BucketEnd(period, now, n, k);
    MisplacedPassesEnd(period, t, BucketBounds(period, now)[n - 1].end);
  }

  lemma BucketEnd(period: Period, now: Instant, n: nat, k: int)
    requires 1 <= n <= Points(period) && k == Slot(period, now) - (Points(period) - n)
    ensures BucketBounds(period, now)[n - 1].end == SlotStart(period, k + 1)
  {
    BucketIsSlot(period, now, n - 1);
  }

  lemma MissedBefore(window: seq<RunRecord>, lo: Instant, hi: Instant, r: RunRecord)
    requires hi % 1000 == 0 && forall x :: x in window ==> x.finishedAt.Some? && lo <= x.finishedAt.value
    requires r in window && r.finishedAt.value < hi <= Whole(r.finishedAt.value)
    ensures DirectSum(SeenAll(window), lo, hi).runs < DirectSum(window, lo, hi).runs
  {
    forall x | x in window && FinishedIn(Seen(x), lo, hi) ensures FinishedIn(x, lo, hi) {
      WholeKeepsOrder(x.finishedAt.value, hi);
    }
    assert FinishedIn(r, lo, hi) && !FinishedIn(Seen(r), lo, hi);
    SeenCountsLess(window, lo, hi);
  }

  /** Up to the end of a misplaced run's bucket, SQL counts too few. */
  lemma MisplacedIsMissed(period: Period, now: Instant, runs: seq<RunRecord>, r: RunRecord) returns (n: nat)
    requires r in Window(runs, BucketBounds(period, now)) && Misplaced(period, r.finishedAt.value)
    ensures 1 <= n <= Points(period)
    ensures var b := BucketBounds(period, now);
            DirectSum(SeenAll(Window(runs, b)), b[0].start, Reach(b, n)).runs
            < DirectSum(Window(runs, b), b[0].start, Reach(b, n)).runs
  {
    var b := BucketBounds(period, now);
    n := MisplacedBucket(period, now, r.finishedAt.value);
    MissedBefore(Window(runs, b), b[0].start, b[n - 1].end, r);
  }

  lemma WrongWhenMisplaced(period: Period, now: Instant, runs: seq<RunRecord>, out: seq<Bucket>, r: RunRecord)
    requires InRange(period, now)
    requires r in Window(runs, BucketBounds(period, now)) && Misplaced(period, r.finishedAt.value)
    requires HoldsDirectSums(BucketBounds(period, now), out, SeenAll(Window(runs, BucketBounds(period, now))))
    ensures !HoldsDirectSums(BucketBounds(period, now), out, runs)
  {
    var b := BucketBounds(period, now);
    KeysDistinct(period, now);
    var n := MisplacedIsMissed(period, now, runs, r);
    TotalIsWindow(b, out, SeenAll(Window(runs, b)), n);
    if HoldsDirectSums(b, out, runs) {
      TotalIsWindow(b, out, runs, n);
      InOrder(b, n - 1, |b| - 1);
      FilterKeepsSum(runs, b[0].start, b[|b| - 1].end, b[0].start, Reach(b, n));
    }
  }

  /** What SQL and the loop compute is right if and only if no run of the window is misplaced. */
  lemma RightIff(period: Period, now: Instant, runs: seq<RunRecord>, out: seq<Bucket>, totals: Tally)
    requires InRange(period, now)
    requires Sums(BucketBounds(period, now), out, totals, SeenAll(Window(runs, BucketBounds(period, now))))
    requires totals == Total(out)
    ensures Sums(BucketBounds(period, now), out, totals, runs) <==>
            NoneMisplaced(period, Window(runs, BucketBounds(period, now)))
  {
    var b := BucketBounds(period, now);
    if NoneMisplaced(period, Window(runs, b)) {
      RightWhenNoneMisplaced(period, now, runs, out);
      KeysDistinct(period, now);
      TotalsFollow(b, out, runs);
    } else {
      var r :| r in Window(runs, b) && r.finishedAt.Some? && Misplaced(period, r.finishedAt.value);
      WrongWhenMisplaced(period, now, runs, out, r);
    }
  }

  // -------------------------------------------------------------------------
  // In numbers
  // -------------------------------------------------------------------------

  /** The run has finished within the span. */
  predicate Within(r: RunRecord, lo: Instant, hi: Instant) {
    r.finishedAt.Some? && r.finishedAt.value >= lo && r.finishedAt.value < hi
  }

  /** What the runs of the span report in one column. */
  function Reported(column: AgentUsage -> nat, runs: seq<RunRecord>, lo: Instant, hi: Instant): nat {
    if runs == [] then 0
    else Reported(column, runs[1..], lo, hi)
         + if Within(runs[0], lo, hi) && runs[0].usage.Some? then column(runs[0].usage.value) else 0
  }

  function Finished(runs: seq<RunRecord>, lo: Instant, hi: Instant): nat {
    if runs == [] then 0 else Finished(runs[1..], lo, hi) + if Within(runs[0], lo, hi) then 1 else 0
  }

  predicate HasCost(r: RunRecord) { r.usage.Some? && r.usage.value.cost.Some? }

  function Cost(runs: seq<RunRecord>, lo: Instant, hi: Instant): real {
    if runs == [] then 0.0
    else Cost(runs[1..], lo, hi)
         + if Within(runs[0], lo, hi) && HasCost(runs[0]) then runs[0].usage.value.cost.value else 0.0
  }

  /** The tally of a span holds those numbers; its cost is absent exactly when no run of the span reported one. */
  ghost predicate AddsUp(t: Tally, runs: seq<RunRecord>, lo: Instant, hi: Instant) {
    && t.usage.input == Reported((u: AgentUsage) => u.input, runs, lo, hi)
    && t.usage.output == Reported((u: AgentUsage) => u.output, runs, lo, hi)
    && t.usage.reasoning == Reported((u: AgentUsage) => u.reasoning, runs, lo, hi)
    && t.usage.cacheRead == Reported((u: AgentUsage) => u.cacheRead, runs, lo, hi)
    && t.usage.cacheWrite == Reported((u: AgentUsage) => u.cacheWrite, runs, lo, hi)
    && t.runs == Finished(runs, lo, hi)
    && (t.usage.cost.Some? <==> exists r :: r in runs && Within(r, lo, hi) && HasCost(r))
    && (t.usage.cost.Some? ==> t.usage.cost.value == Cost(runs, lo, hi))
  }

  lemma {:induction false} DirectSumColumn(column: AgentUsage -> nat, runs: seq<RunRecord>, lo: Instant, hi: Instant)
    requires forall a, b :: column(Merge(a, b)) == column(a) + column(b)
    requires column(NO_USAGE) == 0
    ensures column(DirectSum(runs, lo, hi).usage) == Reported(column, runs, lo, hi)
  {
    if runs != [] { DirectSumColumn(column, runs[1..], lo, hi); }
  }

  lemma {:induction false} DirectSumCounts(runs: seq<RunRecord>, lo: Instant, hi: Instant)
    ensures DirectSum(runs, lo, hi).runs == Finished(runs, lo, hi)
  {
    if runs != [] { DirectSumCounts(runs[1..], lo, hi); }
  }

  lemma {:induction false} DirectSumCosts(runs: seq<RunRecord>, lo: Instant, hi: Instant)
    ensures var cost := DirectSum(runs, lo, hi).usage.cost;
            && (cost.Some? <==> exists r :: r in runs && Within(r, lo, hi) && HasCost(r))
            && (if cost.Some? then cost.value == Cost(runs, lo, hi) else Cost(runs, lo, hi) == 0.0)
  {
    if runs != [] {
      DirectSumCosts(runs[1..], lo, hi);
      assert runs[0] in runs;
      assert forall r :: r in runs <==> r == runs[0] || r in runs[1..];
    }
  }

  lemma DirectSumAddsUp(runs: seq<RunRecord>, lo: Instant, hi: Instant)
    ensures AddsUp(DirectSum(runs, lo, hi), runs, lo, hi)
  {
    DirectSumColumn((u: AgentUsage) => u.input, runs, lo, hi);
    DirectSumColumn((u: AgentUsage) => u.output, runs, lo, hi);
    DirectSumColumn((u: AgentUsage) => u.reasoning, runs, lo, hi);
    DirectSumColumn((u: AgentUsage) => u.cacheRead, runs, lo, hi);
    DirectSumColumn((u: AgentUsage) => u.cacheWrite, runs, lo, hi);
    DirectSumCounts(runs, lo, hi);
    DirectSumCosts(runs, lo, hi);
  }

  /** An answer adds up: each bucket over its own span, the totals over all of them. */
  ghost predicate AnswerAddsUp(b: seq<Bounds>, stats: Stats, runs: seq<RunRecord>) {
    && b != [] && |stats.buckets| == |b|
    && (forall i :: 0 <= i < |b| ==> AddsUp(stats.buckets[i].tally, runs, b[i].start, b[i].end))
    && (forall i :: 0 <= i < |b| ==> stats.buckets[i].start == b[i].start && stats.buckets[i].end == b[i].end)
    && AddsUp(stats.totals, runs, b[0].start, b[|b| - 1].end)
  }

  lemma SumsAddUp(b: seq<Bounds>, stats: Stats, runs: seq<RunRecord>)
    requires Sums(b, stats.buckets, stats.totals, runs)
    ensures AnswerAddsUp(b, stats, runs)
  {
    forall i | 0 <= i < |b| ensures AddsUp(stats.buckets[i].tally, runs, b[i].start, b[i].end) {
      DirectSumAddsUp(runs, b[i].start, b[i].end);
    }
    DirectSumAddsUp(runs, b[0].start, b[|b| - 1].end);
  }

  /**
   The aggregation as a whole, on every run table.  The window's years are those the
   four-digit key formats can write.
   */
  method UsageStats(period: Period, now: Instant, runs: seq<RunRecord>) returns (stats: Stats)
    requires InRange(period, now)
    ensures stats.period == period
    ensures var b := BucketBounds(period, now);
            && Sums(b, stats.buckets, stats.totals, SeenAll(Window(runs, b)))
            && (Sums(b, stats.buckets, stats.totals, runs) <==> NoneMisplaced(period, Window(runs, b)))
            && AnswerAddsUp(b, stats, SeenAll(Window(runs, b)))
            && (NoneMisplaced(period, Window(runs, b)) ==> AnswerAddsUp(b, stats, runs))
  {
    var b := BucketBounds(period, now);
    KeysDoFit(period, now, runs);
    var totals, out := Aggregate(period, b, Keys(period, b), runs);
    RightIff(period, now, runs, out, totals);
    stats := Stats(period, totals, out);
    SumsAddUp(b, stats, SeenAll(Window(runs, b)));
    if NoneMisplaced(period, Window(runs, b)) { SumsAddUp(b, stats, runs); }
  }

  /** Since 1970 nothing is misplaced. */
  lemma RightSince1970(period: Period, now: Instant, runs: seq<RunRecord>)
    requires now >= 0 && YearOf(now) < 10000
    requires forall r :: r in runs && r.finishedAt.Some? ==> r.finishedAt.value >= 0
    ensures InRange(period, now) && NoneMisplaced(period, Window(runs, BucketBounds(period, now)))
  {
    InRangeSince1970(period, now);
  }

  lemma SumsUnfiltered(runs: seq<RunRecord>, b: seq<Bounds>)
    requires Tiled(b)
    ensures var window := Filter(runs, b[0].start, b[|b| - 1].end);
            && (forall i :: 0 <= i < |b| ==>
                  DirectSum(window, b[i].start, b[i].end) == DirectSum(runs, b[i].start, b[i].end))
            && DirectSum(window, b[0].start, b[|b| - 1].end) == DirectSum(runs, b[0].start, b[|b| - 1].end)
  {
    forall i | 0 <= i < |b|
      ensures DirectSum(Filter(runs, b[0].start, b[|b| - 1].end), b[i].start, b[i].end)
           == DirectSum(runs, b[i].start, b[i].end)
    {
      InOrder(b, 0, i);
      InOrder(b, i, |b| - 1);
      FilterKeepsSum(runs, b[0].start, b[|b| - 1].end, b[i].start, b[i].end);
    }
    FilterKeepsSum(runs, b[0].start, b[|b| - 1].end, b[0].start, b[|b| - 1].end);
  }

  lemma {:induction false} InOrder(b: seq<Bounds>, i: nat, j: nat)
    requires Tiled(b) && i <= j < |b|
    ensures b[i].start <= b[j].start && b[i].end <= b[j].end
    decreases j
  {
    if i < j { InOrder(b, i, j - 1); }
  }
}
