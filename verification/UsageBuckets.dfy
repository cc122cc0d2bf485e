/**
 The buckets of `usage_stats` and the string keys that tie a SQL group to a bucket.
 SQL keys a run by formatting its timestamp; Rust keys a bucket by formatting its
 start.  They meet exactly inside the bucket.
 */
module UsageBuckets {
  import opened Calendar

  datatype Period = Day | Week | Month | Year

  datatype Bounds = Bounds(start: Instant, end: Instant)

  function DayBuckets(now: Instant, days: nat): seq<Bounds> {
    var end := FloorTo(now, DAY_MS) + DAY_MS;
    seq(days, i => var start := end - (days - i) * DAY_MS; Bounds(start, start + DAY_MS))
  }

  function HourBuckets(now: Instant): seq<Bounds> {
    var end := FloorTo(now, HOUR_MS) + HOUR_MS;
    seq(24, i => var start := end - (24 - i) * HOUR_MS; Bounds(start, start + HOUR_MS))
  }

  function MonthBucket(end: Instant, back: int): Bounds {
    var start := AddMonths(end, -back);
    Bounds(start, AddMonths(start, 1))
  }

  function MonthBuckets(now: Instant, months: nat): seq<Bounds> {
    var end := AddMonths(MonthFloor(now), 1);
    seq(months, i => MonthBucket(end, months - i))
  }

  function BucketBounds(period: Period, now: Instant): (b: seq<Bounds>)
    ensures |b| == Points(period)
  {
    match period
    case Day => HourBuckets(now)
    case Week => DayBuckets(now, 7)
    case Month => DayBuckets(now, 30)
    case Year => MonthBuckets(now, 12)
  }

  // -------------------------------------------------------------------------
  // Keys
  // -------------------------------------------------------------------------

  function Digit(n: nat): char requires n < 10 { '0' + n as char }

  function Two(n: int): string requires 0 <= n < 100 { [Digit(n / 10), Digit(n % 10)] }

  function Four(n: int): string requires 0 <= n < 10000 { Two(n / 100) + Two(n % 100) }

  function YearMonth(d: Date): string requires 0 <= d.year < 10000 && 1 <= d.month <= 12 {
    Four(d.year) + "-" + Two(d.month)
  }

  function FormatKey(period: Period, d: Date, hour: int): string
    requires 0 <= d.year < 10000 && 1 <= d.month <= 12 && 1 <= d.day <= 31 && 0 <= hour < 24
  {
    match period
    case Day => YearMonth(d) + "-" + Two(d.day) + "T" + Two(hour)
    case Week => YearMonth(d) + "-" + Two(d.day)
    case Month => YearMonth(d) + "-" + Two(d.day)
    case Year => YearMonth(d)
  }

  predicate InCalendar(t: Instant) { 0 <= YearOf(t) < 10000 }

  /** `start.format(..)`, the key of a bucket. */
  function BucketKey(period: Period, start: Instant): string
    requires InCalendar(start)
  {
    FormatKey(period, DateOfDay(DayOf(start)), HourOf(start))
  }

  /** SQL integer division truncates toward zero. */
  function SqlDiv(a: int, b: int): int requires b > 0 { if a >= 0 then a / b else -((-a) / b) }

  /** The whole second SQL sees in a timestamp: the last one up to 1970, the next one before. */
  function Whole(t: Instant): Instant { SqlDiv(t, 1000) * 1000 }

  /** `strftime(.., finished_at / 1000, 'unixepoch')`, the key of a run. */
  function SqlKey(period: Period, finishedAt: Instant): string
    requires InCalendar(Whole(finishedAt))
  {
    var seconds := SqlDiv(finishedAt, 1000);
    FormatKey(period, DateOfDay(seconds / 86_400), seconds % 86_400 / 3600)
  }

  lemma WholeIs(t: Instant)
    ensures t >= 0 || t % 1000 == 0 ==> Whole(t) == t / 1000 * 1000 <= t
    ensures t < 0 && t % 1000 != 0 ==> Whole(t) == (t / 1000 + 1) * 1000 && t < Whole(t) < t + 1000 && Whole(t) <= 0
    ensures Whole(t) % 1000 == 0
  {
  }

  lemma SecondsAreFields(s: int)
    ensures s / 86_400 == DayOf(s * 1000)
    ensures s % 86_400 / 3600 == HourOf(s * 1000)
  {
    var day, rest := s / 86_400, s % 86_400;
    assert s * 1000 == day * DAY_MS + rest * 1000 && 0 <= rest * 1000 < DAY_MS;
    assert (s * 1000) % DAY_MS == rest * 1000;
    var hour, left := rest / 3600, rest % 3600;
    assert rest * 1000 == hour * HOUR_MS + left * 1000 && 0 <= left * 1000 < HOUR_MS;
  }

  /** SQL keys a run as Rust keys the whole second it sees. */
  lemma SqlKeyIsBucketKey(period: Period, t: Instant)
    requires InCalendar(Whole(t))
    ensures SqlKey(period, t) == BucketKey(period, Whole(t))
  {
    SecondsAreFields(SqlDiv(t, 1000));
  }

  lemma YearMonotone(a: Instant, b: Instant)
    requires a <= b
    ensures YearOf(a) <= YearOf(b)
  {
    assert DayOf(a) <= DayOf(b);
    MonthOfDayMonotone(DayOf(a), DayOf(b));
  }

  lemma WholeInCalendar(t: Instant)
    requires InCalendar(t)
    ensures InCalendar(Whole(t))
  {
    WholeIs(t);
    MonthOfDayUnique(0, EPOCH_MONTH);
    if t >= 0 {
      YearMonotone(0, Whole(t));
      YearMonotone(Whole(t), t);
    } else {
      YearMonotone(t, Whole(t));
      YearMonotone(Whole(t), 0);
    }
  }

  lemma TwoInjective(a: int, b: int)
    requires 0 <= a < 100 && 0 <= b < 100 && Two(a) == Two(b)
    ensures a == b
  {
    assert Two(a)[0] == Two(b)[0] && Two(a)[1] == Two(b)[1];
  }

  lemma FourInjective(a: int, b: int)
    requires 0 <= a < 10000 && 0 <= b < 10000 && Four(a) == Four(b)
    ensures a == b
  {
    assert Four(a)[..2] == Two(a / 100) && Four(a)[2..] == Two(a % 100);
    assert Four(b)[..2] == Two(b / 100) && Four(b)[2..] == Two(b % 100);
    TwoInjective(a / 100, b / 100);
    TwoInjective(a % 100, b % 100);
  }

  lemma YearMonthInjective(a: Date, b: Date)
    requires 0 <= a.year < 10000 && 1 <= a.month <= 12 && 0 <= b.year < 10000 && 1 <= b.month <= 12
    requires YearMonth(a) == YearMonth(b)
    ensures a.year == b.year && a.month == b.month
  {
    assert YearMonth(a)[..4] == Four(a.year) && YearMonth(a)[5..] == Two(a.month);
    assert YearMonth(b)[..4] == Four(b.year) && YearMonth(b)[5..] == Two(b.month);
    FourInjective(a.year, b.year);
    TwoInjective(a.month, b.month);
  }

  /** What a key determines: the hour, the day or the month. */
  function Slot(period: Period, t: Instant): int {
    match period
    case Day => t / HOUR_MS
    case Week => t / DAY_MS
    case Month => t / DAY_MS
    case Year => MonthOf(t)
  }

  lemma HourSlot(t: Instant)
    ensures t / HOUR_MS == 24 * DayOf(t) + HourOf(t)
    ensures 0 <= HourOf(t) < 24
  {
    assert t == DayOf(t) * DAY_MS + t % DAY_MS;
  }

  lemma DayKeyInjective(a: Date, b: Date)
    requires 0 <= a.year < 10000 && 1 <= a.month <= 12 && 1 <= a.day <= 31
    requires 0 <= b.year < 10000 && 1 <= b.month <= 12 && 1 <= b.day <= 31
    requires FormatKey(Week, a, 0) == FormatKey(Week, b, 0)
    ensures a == b
  {
    var ka, kb := FormatKey(Week, a, 0), FormatKey(Week, b, 0);
    assert ka[..7] == YearMonth(a) && ka[8..] == Two(a.day);
    assert kb[..7] == YearMonth(b) && kb[8..] == Two(b.day);
    YearMonthInjective(a, b);
    TwoInjective(a.day, b.day);
  }

  /** Two instants have the same key exactly when they share the hour, day or month. */
  lemma KeyIffSlot(period: Period, a: Instant, b: Instant)
    requires InCalendar(a) && InCalendar(b)
    ensures BucketKey(period, a) == BucketKey(period, b) <==> Slot(period, a) == Slot(period, b)
  {
    var da, db := DateOfDay(DayOf(a)), DateOfDay(DayOf(b));
    DateRoundTrip(DayOf(a));
    DateRoundTrip(DayOf(b));
    HourSlot(a);
    HourSlot(b);
    match period
    case Year =>
      if YearMonth(da) == YearMonth(db) { YearMonthInjective(da, db); }
    case Day =>
      var ka, kb := BucketKey(Day, a), BucketKey(Day, b);
      assert ka[..10] == FormatKey(Week, da, 0) && ka[11..] == Two(HourOf(a));
      assert kb[..10] == FormatKey(Week, db, 0) && kb[11..] == Two(HourOf(b));
      if ka == kb {
        DayKeyInjective(da, db);
        TwoInjective(HourOf(a), HourOf(b));
      }
    case _ =>
      if FormatKey(Week, da, 0) == FormatKey(Week, db, 0) { DayKeyInjective(da, db); }
  }

  // -------------------------------------------------------------------------
  // The buckets tile the window
  // -------------------------------------------------------------------------

  /** The instant a slot begins. */
  function SlotStart(period: Period, k: int): Instant {
    match period
    case Day => k * HOUR_MS
    case Week => k * DAY_MS
    case Month => k * DAY_MS
    case Year => MonthStart(k) * DAY_MS
  }

  lemma SlotIff(period: Period, t: Instant, k: int)
    ensures Slot(period, t) == k <==> SlotStart(period, k) <= t < SlotStart(period, k + 1)
  {
    if period == Year {
      MonthOfDayIff(DayOf(t), k);
      DayBefore(t, MonthStart(k));
      DayBefore(t, MonthStart(k + 1));
    }
  }

  lemma DayBefore(t: Instant, day: int)
    ensures t < day * DAY_MS <==> DayOf(t) < day
  {
  }

  function Points(period: Period): nat {
    match period case Day => 24 case Week => 7 case Month => 30 case Year => 12
  }

  // -------------------------------------------------------------------------
  // Where the truncating division goes wrong
  // -------------------------------------------------------------------------

  /** An hour, a day or a month begins at this instant. */
  predicate StartsSlot(period: Period, t: Instant) {
    match period
    case Day => t % HOUR_MS == 0
    case Week => t % DAY_MS == 0
    case Month => t % DAY_MS == 0
    case Year => t % DAY_MS == 0 && DateOfDay(DayOf(t)).day == 1
  }

  /** A fraction of a second before 1970 whose next whole second begins a slot. */
  predicate Misplaced(period: Period, t: Instant) {
    t < 0 && t % 1000 != 0 && StartsSlot(period, (t / 1000 + 1) * 1000)
  }

  lemma StartsSlotIff(period: Period, t: Instant)
    ensures StartsSlot(period, t) <==> t == SlotStart(period, Slot(period, t))
  {
  }

  lemma DaysAreWhole(k: int)
    ensures (k * DAY_MS) % 1000 == 0 && (k * HOUR_MS) % 1000 == 0
  {
  }

  lemma SlotStartIsWhole(period: Period, k: int)
    ensures SlotStart(period, k) % 1000 == 0
  {
    match period
    case Year => DaysAreWhole(MonthStart(k));
    case _ => DaysAreWhole(k);
  }

  lemma SameSecond(t: Instant, s: Instant, u: Instant)
    requires s % 1000 == 0 && u % 1000 == 0 && t < s <= u < t + 1000
    ensures s == u
  {
  }

  lemma WholeKeepsOrder(t: Instant, bound: Instant)
    requires bound % 1000 == 0
    ensures Whole(t) < bound ==> t < bound
    ensures t >= 0 || t % 1000 == 0 || (t / 1000 + 1) * 1000 != bound ==> (t < bound <==> Whole(t) < bound)
  {
    WholeIs(t);
  }

  /** The whole second lies in the timestamp's own slot, or it begins the next one. */
  lemma MisplacedIff(period: Period, t: Instant)
    ensures Slot(period, Whole(t)) == Slot(period, t) <==> !Misplaced(period, t)
    ensures Misplaced(period, t) ==> SlotStart(period, Slot(period, t) + 1) <= Whole(t)
  {
    var k, u := Slot(period, t), Whole(t);
    WholeIs(t);
    SlotIff(period, t, k);
    SlotIff(period, u, k);
    SlotStartIsWhole(period, k);
    SlotStartIsWhole(period, k + 1);
    WholeKeepsOrder(t, SlotStart(period, k));
    WholeKeepsOrder(t, SlotStart(period, k + 1));
    StartsSlotIff(period, u);
    SlotIff(period, u, Slot(period, u));
    if SlotStart(period, k + 1) <= u { NextSlotBegins(period, t, u); }
  }

  /** No slot fits between a timestamp and the end of its second. */
  lemma NextSlotBegins(period: Period, t: Instant, u: Instant)
    requires u % 1000 == 0 && t < SlotStart(period, Slot(period, t) + 1) <= u < t + 1000
    ensures u == SlotStart(period, Slot(period, t) + 1) && Slot(period, u) == Slot(period, t) + 1
  {
    var k := Slot(period, t) + 1;
    SlotStartIsWhole(period, k);
    SameSecond(t, SlotStart(period, k), u);
    StartInSlot(period, k);
  }

  /** It lies before the end of its slot, and its whole second does not. */
  lemma MisplacedPassesEnd(period: Period, t: Instant, end: Instant)
    requires Misplaced(period, t) && end == SlotStart(period, Slot(period, t) + 1)
    ensures end % 1000 == 0 && t < end <= Whole(t)
  {
    MisplacedIff(period, t);
    BeforeSlotEnd(period, t);
    SlotStartIsWhole(period, Slot(period, t) + 1);
  }

  lemma BeforeSlotEnd(period: Period, t: Instant)
    ensures t < SlotStart(period, Slot(period, t) + 1)
  {
    SlotIff(period, t, Slot(period, t));
  }

  /** SQL and Rust give a timestamp the same key if and only if it is not misplaced. */
  lemma KeysAgreeIff(period: Period, t: Instant)
    requires InCalendar(t)
    ensures InCalendar(Whole(t))
    ensures SqlKey(period, t) == BucketKey(period, t) <==> !Misplaced(period, t)
  {
    WholeInCalendar(t);
    SqlKeyIsBucketKey(period, t);
    KeyIffSlot(period, Whole(t), t);
    MisplacedIff(period, t);
  }

  /** A misplaced timestamp is keyed into the slot after its own. */
  lemma TruncationMisplacesNegative(period: Period, t: Instant)
    requires InCalendar(t) && Misplaced(period, t)
    ensures InCalendar(Whole(t)) && Whole(t) == SlotStart(period, Slot(period, t) + 1)
    ensures SqlKey(period, t) == BucketKey(period, Whole(t)) != BucketKey(period, t)
  {
    KeysAgreeIff(period, t);
    SqlKeyIsBucketKey(period, t);
    WholeIs(t);
    MisplacedIff(period, t);
    SlotIff(period, t, Slot(period, t));
    NextSlotBegins(period, t, Whole(t));
  }

  /** The last 999 milliseconds before 1970 are misplaced whatever the period. */
  lemma LastSecondBefore1970(period: Period, t: Instant)
    requires -1000 < t < 0
    ensures Misplaced(period, t)
  {
    MonthOfDayUnique(0, EPOCH_MONTH);
  }

  // -------------------------------------------------------------------------
  // The buckets of a window
  // -------------------------------------------------------------------------

  lemma DayBucketAt(now: Instant, days: nat, i: nat)
    requires i < days
    ensures DayBuckets(now, days)[i]
            == Bounds((DayOf(now) - (days - 1 - i)) * DAY_MS, (DayOf(now) - (days - 1 - i) + 1) * DAY_MS)
  {
  }

  lemma HourBucketAt(now: Instant, i: nat)
    requires i < 24
    ensures HourBuckets(now)[i]
            == Bounds((now / HOUR_MS - (23 - i)) * HOUR_MS, (now / HOUR_MS - (23 - i) + 1) * HOUR_MS)
  {
  }

  lemma MonthBucketAt(now: Instant, months: nat, i: nat, k: int)
    requires i < months && k == MonthOf(now) - (months - 1 - i)
    ensures MonthBuckets(now, months)[i] == Bounds(MonthStart(k) * DAY_MS, MonthStart(k + 1) * DAY_MS)
  {
    MonthsEnd(now);
    MonthBucketsAt(now, months, i);
    MonthBucketIs(AddMonths(MonthFloor(now), 1), months - i, k);
  }

  lemma MonthsEnd(now: Instant)
    ensures MonthOf(AddMonths(MonthFloor(now), 1)) == MonthOf(now) + 1
  {
    MonthFloorIs(now);
    AddMonthsTo(MonthFloor(now), 1, MonthOf(now) + 1);
  }

  lemma MonthBucketsAt(now: Instant, months: nat, i: nat)
    requires i < months
    ensures MonthBuckets(now, months)[i] == MonthBucket(AddMonths(MonthFloor(now), 1), months - i)
  {
  }

  lemma MonthBucketIs(end: Instant, back: int, k: int)
    requires MonthOf(end) - back == k
    ensures MonthBucket(end, back) == Bounds(MonthStart(k) * DAY_MS, MonthStart(k + 1) * DAY_MS)
  {
    AddMonthsTo(end, -back, k);
    AddMonthsTo(AddMonths(end, -back), 1, k + 1);
  }

  lemma AddMonthsTo(base: Instant, delta: int, m: int)
    requires MonthOf(base) + delta == m
    ensures AddMonths(base, delta) == MonthStart(m) * DAY_MS && MonthOf(AddMonths(base, delta)) == m
  {
    AddMonthsIs(base, delta);
  }

  /** The i-th bucket is the slot `Points - 1 - i` before the slot of `now`. */
  lemma BucketIsSlot(period: Period, now: Instant, i: nat)
    requires i < Points(period)
    ensures |BucketBounds(period, now)| == Points(period)
    ensures var k := Slot(period, now) - (Points(period) - 1 - i);
            BucketBounds(period, now)[i] == Bounds(SlotStart(period, k), SlotStart(period, k + 1))
  {
    match period
    case Day => HourBucketAt(now, i);
    case Week => DayBucketAt(now, 7, i);
    case Month => DayBucketAt(now, 30, i);
    case Year => MonthBucketAt(now, 12, i, Slot(period, now) - (Points(period) - 1 - i));
  }

  lemma SlotGrows(period: Period, k: int)
    ensures SlotStart(period, k) < SlotStart(period, k + 1)
  {
    if period == Year { MonthStep(k); }
  }

  lemma BucketNotEmpty(period: Period, now: Instant, i: nat)
    requires i < Points(period)
    ensures |BucketBounds(period, now)| == Points(period)
    ensures BucketBounds(period, now)[i].start < BucketBounds(period, now)[i].end
  {
    BucketIsSlot(period, now, i);
    SlotGrows(period, Slot(period, now) - (Points(period) - 1 - i));
  }

  lemma BucketsAdjacent(period: Period, now: Instant, i: nat)
    requires i + 1 < Points(period)
    ensures |BucketBounds(period, now)| == Points(period)
    ensures BucketBounds(period, now)[i].end == BucketBounds(period, now)[i + 1].start
  {
    BucketIsSlot(period, now, i);
    BucketIsSlot(period, now, i + 1);
  }

  lemma LastBucketHoldsNow(period: Period, now: Instant)
    ensures |BucketBounds(period, now)| == Points(period)
    ensures var last := BucketBounds(period, now)[Points(period) - 1]; last.start <= now < last.end
  {
    BucketIsSlot(period, now, Points(period) - 1);
    SlotIff(period, now, Slot(period, now));
  }

  /** A fixed number of buckets, adjacent, each non-empty, the last one around `now`. */
  lemma BucketsTile(period: Period, now: Instant)
    ensures var b := BucketBounds(period, now);
            && |b| == Points(period)
            && (forall i :: 0 <= i < |b| ==> b[i].start < b[i].end)
            && (forall i :: 0 <= i < |b| - 1 ==> b[i].end == b[i + 1].start)
            && b[|b| - 1].start <= now < b[|b| - 1].end
  {
    LastBucketHoldsNow(period, now);
    var b := BucketBounds(period, now);
    forall i | 0 <= i < |b| ensures b[i].start < b[i].end { BucketNotEmpty(period, now, i); }
    forall i | 0 <= i < |b| - 1 ensures b[i].end == b[i + 1].start { BucketsAdjacent(period, now, i); }
  }

  lemma SlotsAscend(period: Period, a: int, b: int)
    requires a <= b
    ensures SlotStart(period, a) <= SlotStart(period, b)
  {
    if period == Year && a < b { MonthStartMonotone(a, b); }
  }

  /** The keys of the window have four-digit years: so do its first bucket and `now`. */
  predicate InRange(period: Period, now: Instant) {
    InCalendar(BucketBounds(period, now)[0].start) && InCalendar(now)
  }

  /** From 1970 on, the year of `now` is all that matters. */
  lemma InRangeSince1970(period: Period, now: Instant)
    requires now >= 0 && YearOf(now) < 10000
    ensures InRange(period, now)
  {
    var first := Slot(period, now) - (Points(period) - 1);
    MonthOfDayUnique(0, EPOCH_MONTH);
    YearMonotone(0, now);
    BucketIsSlot(period, now, 0);
    SlotStartsBefore(period, first, now);
    FirstSlotSince1970(period, now, first);
  }

  lemma FirstSlotSince1970(period: Period, now: Instant, first: int)
    requires now >= 0 && first == Slot(period, now) - (Points(period) - 1)
    ensures YearOf(SlotStart(period, first)) >= 1969
  {
    if period == Year {
      MonthOfDayUnique(0, EPOCH_MONTH);
      MonthOfDayMonotone(0, DayOf(now));
      MonthOfStart(first);
    } else {
      MonthOfDayUnique(-30, EPOCH_MONTH - 1);
      assert -30 * DAY_MS <= SlotStart(period, first);
      YearMonotone(-30 * DAY_MS, SlotStart(period, first));
    }
  }

  lemma SlotStartsBefore(period: Period, k: int, t: Instant)
    requires k <= Slot(period, t)
    ensures YearOf(SlotStart(period, k)) <= YearOf(t)
  {
    SlotIff(period, t, Slot(period, t));
    SlotsAscend(period, k, Slot(period, t));
    YearMonotone(SlotStart(period, k), t);
  }

  lemma SlotGivesYear(period: Period, a: Instant, b: Instant)
    requires Slot(period, a) <= Slot(period, b)
    ensures YearOf(a) <= YearOf(b)
  {
    if period != Year {
      assert DayOf(a) <= DayOf(b) by { HourSlot(a); HourSlot(b); }
      MonthOfDayMonotone(DayOf(a), DayOf(b));
    }
  }

  lemma WindowInCalendar(period: Period, now: Instant, t: Instant)
    requires InRange(period, now)
    requires Slot(period, now) - (Points(period) - 1) <= Slot(period, t) <= Slot(period, now)
    ensures InCalendar(t)
  {
    var first := Slot(period, now) - (Points(period) - 1);
    BucketIsSlot(period, now, 0);
    SlotStartsBefore(period, first, t);
    SlotGivesYear(period, t, now);
  }

  lemma StartInSlot(period: Period, k: int)
    ensures Slot(period, SlotStart(period, k)) == k
  {
    if period == Year { MonthOfStart(k); }
  }

  lemma BucketStart(period: Period, now: Instant, i: nat)
    requires InRange(period, now) && i < Points(period)
    ensures |BucketBounds(period, now)| == Points(period)
    ensures Slot(period, BucketBounds(period, now)[i].start) == Slot(period, now) - (Points(period) - 1 - i)
    ensures InCalendar(BucketBounds(period, now)[i].start)
  {
    BucketIsSlot(period, now, i);
    StartInSlot(period, Slot(period, now) - (Points(period) - 1 - i));
    WindowInCalendar(period, now, BucketBounds(period, now)[i].start);
  }

  lemma SlotBetween(period: Period, t: Instant, first: int, last: int)
    requires SlotStart(period, first) <= t < SlotStart(period, last + 1)
    ensures first <= Slot(period, t) <= last
  {
    var k := Slot(period, t);
    SlotIff(period, t, k);
    if k < first { SlotsAscend(period, k + 1, first); }
    if last < k { SlotsAscend(period, last + 1, k); }
  }

  /** An instant of the window lies in one of the window's slots. */
  lemma InstantInWindow(period: Period, now: Instant, t: Instant)
    requires var b := BucketBounds(period, now); b[0].start <= t < b[|b| - 1].end
    ensures Slot(period, now) - (Points(period) - 1) <= Slot(period, t) <= Slot(period, now)
    ensures InRange(period, now) ==> InCalendar(t)
  {
    BucketIsSlot(period, now, 0);
    BucketIsSlot(period, now, Points(period) - 1);
    SlotBetween(period, t, Slot(period, now) - (Points(period) - 1), Slot(period, now));
    if InRange(period, now) { WindowInCalendar(period, now, t); }
  }

  /**
   The heart of the aggregation: for every instant of the window, its SQL key is a
   bucket's key if and only if the whole second SQL sees lies in that bucket; and that
   is the run's own bucket exactly when the run is not misplaced.
   */
  lemma KeyMatchesBucket(period: Period, now: Instant, i: nat, t: Instant)
    requires InRange(period, now) && i < Points(period)
    requires var b := BucketBounds(period, now); b[0].start <= t < b[|b| - 1].end
    ensures InCalendar(BucketBounds(period, now)[i].start) && InCalendar(Whole(t))
    ensures var b := BucketBounds(period, now)[i];
            && (SqlKey(period, t) == BucketKey(period, b.start) <==> b.start <= Whole(t) < b.end)
            && (!Misplaced(period, t) ==> (b.start <= Whole(t) < b.end <==> b.start <= t < b.end))
  {
    InstantInWindow(period, now, t);
    WholeInCalendar(t);
    BucketStart(period, now, i);
    SqlKeyIsBucketKey(period, t);
    KeyIffSlot(period, Whole(t), BucketBounds(period, now)[i].start);
    InBucketIff(period, now, i, Whole(t));
    InBucketIff(period, now, i, t);
    MisplacedIff(period, t);
  }

  lemma InBucketIff(period: Period, now: Instant, i: nat, t: Instant)
    requires i < Points(period)
    ensures |BucketBounds(period, now)| == Points(period)
    ensures var b := BucketBounds(period, now)[i];
            b.start <= t < b.end <==> Slot(period, t) == Slot(period, now) - (Points(period) - 1 - i)
  {
    BucketIsSlot(period, now, i);
    SlotIff(period, t, Slot(period, now) - (Points(period) - 1 - i));
  }

  lemma BucketKeysDistinct(period: Period, now: Instant, i: nat, j: nat)
    requires InRange(period, now) && i < j < Points(period)
    ensures |BucketBounds(period, now)| == Points(period)
    ensures var b := BucketBounds(period, now);
            && InCalendar(b[i].start) && InCalendar(b[j].start)
            && BucketKey(period, b[i].start) != BucketKey(period, b[j].start)
  {
    BucketStart(period, now, i);
    BucketStart(period, now, j);
    KeyIffSlot(period, BucketBounds(period, now)[i].start, BucketBounds(period, now)[j].start);
  }
}
