/**
 Proleptic Gregorian calendar arithmetic on day numbers (0 is 1970-01-01) and
 month indices (12 * year + month0), and the daemon's helpers built on it.
 An instant is a number of milliseconds since the Unix epoch.
 */
module Calendar {

  type Instant = int

  const HOUR_MS: int := 3_600_000
  const DAY_MS: int := 86_400_000
  const EPOCH_MONTH: int := 12 * 1970

  predicate IsLeap(year: int) { year % 4 == 0 && (year % 100 != 0 || year % 400 == 0) }

  function DaysInMonth(year: int, month0: int): (d: int)
    ensures 28 <= d <= 31
  {
    if month0 == 1 then (if IsLeap(year) then 29 else 28)
    else if month0 == 3 || month0 == 5 || month0 == 8 || month0 == 10 then 30 else 31
  }

  function MonthLength(m: int): (d: int) ensures 28 <= d <= 31 { DaysInMonth(m / 12, m % 12) }

  /** The day number of the first of month `m`. */
  function MonthStart(m: int): int
    decreases if m < EPOCH_MONTH then EPOCH_MONTH - m else m - EPOCH_MONTH
  {
    if m == EPOCH_MONTH then 0
    else if m > EPOCH_MONTH then MonthStart(m - 1) + MonthLength(m - 1)
    else MonthStart(m + 1) - MonthLength(m)
  }

  lemma MonthStep(m: int)
    ensures MonthStart(m + 1) == MonthStart(m) + MonthLength(m)
  {
  }

  lemma {:induction false} MonthStartMonotone(a: int, b: int)
    requires a < b
    ensures MonthStart(a) + 28 * (b - a) <= MonthStart(b)
    decreases b - a
  {
    MonthStep(b - 1);
    if a + 1 < b { MonthStartMonotone(a, b - 1); }
  }

  /** The month a day lies in, searched from a month known to start no later, or end no earlier. */
  function MonthFrom(day: int, m: int): (r: int)
    requires MonthStart(m) <= day
    ensures MonthStart(r) <= day < MonthStart(r + 1)
    decreases day - MonthStart(m)
  {
    MonthStep(m);
    if day < MonthStart(m + 1) then m else MonthFrom(day, m + 1)
  }

  function MonthBackFrom(day: int, m: int): (r: int)
    requires day < MonthStart(m + 1)
    ensures MonthStart(r) <= day < MonthStart(r + 1)
    decreases MonthStart(m + 1) - day
  {
    MonthStep(m);
    if MonthStart(m) <= day then m else MonthBackFrom(day, m - 1)
  }

  function MonthOfDay(day: int): (m: int)
    ensures MonthStart(m) <= day < MonthStart(m + 1)
  {
    if day >= 0 then MonthFrom(day, EPOCH_MONTH) else MonthBackFrom(day, EPOCH_MONTH - 1)
  }

  lemma MonthOfDayUnique(day: int, m: int)
    requires MonthStart(m) <= day < MonthStart(m + 1)
    ensures MonthOfDay(day) == m
  {
    var r := MonthOfDay(day);
    if r < m {
      if r + 1 < m { MonthStartMonotone(r + 1, m); }
    } else if m < r {
      if m + 1 < r { MonthStartMonotone(m + 1, r); }
    }
  }

  /** Both directions: a month's days are exactly the days whose month it is. */
  lemma MonthOfDayIff(day: int, m: int)
    ensures MonthOfDay(day) == m <==> MonthStart(m) <= day < MonthStart(m + 1)
  {
    if MonthStart(m) <= day < MonthStart(m + 1) { MonthOfDayUnique(day, m); }
  }

  lemma MonthOfDayMonotone(a: int, b: int)
    requires a <= b
    ensures MonthOfDay(a) <= MonthOfDay(b)
  {
    var m, n := MonthOfDay(a), MonthOfDay(b);
    if n < m {
      if n + 1 < m { MonthStartMonotone(n + 1, m); }
    }
  }

  datatype Date = Date(year: int, month: int, day: int)

  function DateOfDay(day: int): (d: Date)
    ensures 1 <= d.month <= 12 && 1 <= d.day <= 31
  {
    var m := MonthOfDay(day);
    MonthStep(m);
    Date(m / 12, m % 12 + 1, day - MonthStart(m) + 1)
  }

  /** `from_ymd_opt` for a date that exists. */
  function DayNumber(year: int, month: int, day: int): int {
    MonthStart(12 * year + month - 1) + day - 1
  }

  lemma DateRoundTrip(day: int)
    ensures var d := DateOfDay(day); DayNumber(d.year, d.month, d.day) == day
  {
  }

  // -------------------------------------------------------------------------
  // The closed form of the Gregorian day number
  // -------------------------------------------------------------------------

  function LeapsThrough(year: int): int { year / 4 - year / 100 + year / 400 }

  function YearStartFormula(year: int): int {
    365 * (year - 1970) + LeapsThrough(year - 1) - LeapsThrough(1969)
  }

  lemma LeapStep(year: int)
    ensures LeapsThrough(year) == LeapsThrough(year - 1) + (if IsLeap(year) then 1 else 0)
  {
    var a, b, c := (year - 1) / 4, (year - 1) / 100, (year - 1) / 400;
    assert year / 4 == if year % 4 == 0 then a + 1 else a;
    assert year / 100 == if year % 100 == 0 then b + 1 else b;
    assert year / 400 == if year % 400 == 0 then c + 1 else c;
  }

  lemma Quarter(year: int, k: int)
    requires 0 <= k <= 9
    ensures MonthStart(12 * year + k + 3) == MonthStart(12 * year + k)
              + DaysInMonth(year, k) + DaysInMonth(year, k + 1) + DaysInMonth(year, k + 2)
  {
    var m := 12 * year + k;
    MonthStep(m);
    MonthStep(m + 1);
    MonthStep(m + 2);
    assert m / 12 == year && (m + 1) / 12 == year && (m + 2) / 12 == year;
  }

  lemma YearLength(year: int)
    ensures MonthStart(12 * (year + 1)) == MonthStart(12 * year) + (if IsLeap(year) then 366 else 365)
  {
    Quarter(year, 0);
    Quarter(year, 3);
    Quarter(year, 6);
    Quarter(year, 9);
    assert 12 * year + 9 + 3 == 12 * (year + 1);
  }

  /** Counting month lengths one by one agrees with the 4/100/400 formula, in every year. */
  lemma {:induction false} YearStartIsFormula(year: int)
    ensures MonthStart(12 * year) == YearStartFormula(year)
    decreases if year < 1970 then 1970 - year else year - 1970
  {
    if year > 1970 {
      YearStartIsFormula(year - 1);
      YearLength(year - 1);
      LeapStep(year - 1);
    } else if year < 1970 {
      YearStartIsFormula(year + 1);
      YearLength(year);
      LeapStep(year);
    }
  }

  // -------------------------------------------------------------------------
  // Instants
  // -------------------------------------------------------------------------

  function DayOf(t: Instant): int { t / DAY_MS }
  function HourOf(t: Instant): int { t % DAY_MS / HOUR_MS }
  function MonthOf(t: Instant): int { MonthOfDay(DayOf(t)) }
  function YearOf(t: Instant): int { DateOfDay(DayOf(t)).year }

  /** `div_euclid` is Dafny's `/`. */
  function FloorTo(t: Instant, step: int): Instant
    requires step > 0
  {
    t / step * step
  }

  function MonthFloor(now: Instant): Instant {
    var d := DateOfDay(DayOf(now));
    DayNumber(d.year, d.month, 1) * DAY_MS
  }

  function AddMonths(base: Instant, delta: int): Instant {
    var d := DateOfDay(DayOf(base));
    var total := d.year * 12 + (d.month - 1) + delta;
    var year := total / 12;
    var month := total % 12 + 1;
    DayNumber(year, month, 1) * DAY_MS
  }

  lemma MonthFloorIs(t: Instant)
    ensures MonthFloor(t) == MonthStart(MonthOf(t)) * DAY_MS
    ensures MonthOf(MonthFloor(t)) == MonthOf(t)
  {
    MonthOfStart(MonthOf(t));
  }

  /** The carry is right: months shift the index and land on the first of the month. */
  lemma AddMonthsIs(base: Instant, delta: int)
    ensures AddMonths(base, delta) == MonthStart(MonthOf(base) + delta) * DAY_MS
    ensures MonthOf(AddMonths(base, delta)) == MonthOf(base) + delta
  {
    var d, target := DateOfDay(DayOf(base)), MonthOf(base) + delta;
    assert d.year * 12 + (d.month - 1) + delta == target;
    assert 12 * (target / 12) + target % 12 == target;
    assert AddMonths(base, delta) == MonthStart(target) * DAY_MS;
    MonthOfStart(target);
  }

  lemma MonthOfStart(m: int)
    ensures MonthOf(MonthStart(m) * DAY_MS) == m
  {
    MonthStep(m);
    MonthOfDayUnique(MonthStart(m), m);
    assert DayOf(MonthStart(m) * DAY_MS) == MonthStart(m);
  }

  lemma AddMonthsAdds(base: Instant, a: int, b: int)
    ensures AddMonths(AddMonths(base, a), b) == AddMonths(base, a + b)
  {
    AddMonthsIs(base, a);
    AddMonthsIs(AddMonths(base, a), b);
    AddMonthsIs(base, a + b);
  }
}
