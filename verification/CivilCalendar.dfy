/**
 The calendar and the buckets against plain arithmetic: day numbers by another method, and
 where the buckets lie.
 */
module CivilCalendar {
  import opened Calendar
  import opened UsageBuckets

  /**
   Days since 1970-01-01 by the era method: years run from March to February, so that the
   leap day comes last and the months before it have lengths given by one fraction.
   */
  function CivilDays(year: int, month: int, day: int): int {
    var y := if month <= 2 then year - 1 else year;
    var sinceMarch := if month > 2 then month - 3 else month + 9;
    365 * y + y / 4 - y / 100 + y / 400 + (153 * sinceMarch + 2) / 5 + day - 1 - 719_468
  }

  /** Days of the year before a month. */
  function DaysBefore(year: int, month0: nat): int {
    if month0 == 0 then 0 else DaysBefore(year, month0 - 1) + DaysInMonth(year, month0 - 1)
  }

  lemma {:induction false} MonthWithinYear(year: int, month0: nat)
    requires month0 <= 12
    ensures MonthStart(12 * year + month0) == MonthStart(12 * year) + DaysBefore(year, month0)
  {
    if month0 > 0 {
      MonthWithinYear(year, month0 - 1);
      MonthStep(12 * year + month0 - 1);
      assert (12 * year + (month0 - 1)) / 12 == year && (12 * year + (month0 - 1)) % 12 == month0 - 1;
    }
  }

  lemma DaysBeforeAre(year: int)
    ensures var leap := if IsLeap(year) then 1 else 0;
            && DaysBefore(year, 0) == 0 && DaysBefore(year, 1) == 31 && DaysBefore(year, 2) == 59 + leap
            && DaysBefore(year, 3) == 90 + leap && DaysBefore(year, 4) == 120 + leap
            && DaysBefore(year, 5) == 151 + leap && DaysBefore(year, 6) == 181 + leap
            && DaysBefore(year, 7) == 212 + leap && DaysBefore(year, 8) == 243 + leap
            && DaysBefore(year, 9) == 273 + leap && DaysBefore(year, 10) == 304 + leap
            && DaysBefore(year, 11) == 334 + leap
  {
    assert DaysBefore(year, 3) == DaysBefore(year, 2) + DaysInMonth(year, 2);
    assert DaysBefore(year, 6) == DaysBefore(year, 5) + DaysInMonth(year, 5);
    assert DaysBefore(year, 9) == DaysBefore(year, 8) + DaysInMonth(year, 8);
  }

  lemma CivilEarly(year: int, month: int, day: int)
    requires 1 <= month <= 2
    ensures CivilDays(year, month, day) == YearStartFormula(year) + DaysBefore(year, month - 1) + day - 1
  {
    DaysBeforeAre(year);
    assert month == 1 ==> (153 * 10 + 2) / 5 == 306;
    assert month == 2 ==> (153 * 11 + 2) / 5 == 337;
  }

  lemma CivilLate(year: int, month: int, day: int)
    requires 3 <= month <= 12
    ensures CivilDays(year, month, day) == YearStartFormula(year) + DaysBefore(year, month - 1) + day - 1
  {
    DaysBeforeAre(year);
    LeapStep(year);
    assert LeapsThrough(year) == year / 4 - year / 100 + year / 400;
  }

  /** Counting month by month agrees with it on every date of every year. */
  lemma DayNumberIsCivil(year: int, month: int, day: int)
    requires 1 <= month <= 12
    ensures DayNumber(year, month, day) == CivilDays(year, month, day)
  {
    MonthWithinYear(year, month - 1);
    YearStartIsFormula(year);
    if month <= 2 { CivilEarly(year, month, day); } else { CivilLate(year, month, day); }
  }

  // -------------------------------------------------------------------------
  // The buckets
  // -------------------------------------------------------------------------

  /** Both are midnights of a first, and the second is one month after the first. */
  predicate StartsNextMonth(start: Instant, end: Instant) {
    && start % 86_400_000 == 0 && end % 86_400_000 == 0
    && var a, b := DateOfDay(start / 86_400_000), DateOfDay(end / 86_400_000);
       && a.day == 1 && b.day == 1
       && (if a.month == 12 then b.year == a.year + 1 && b.month == 1 else b.year == a.year && b.month == a.month + 1)
  }

  lemma Multiples(k: int)
    ensures (k * HOUR_MS) % 3_600_000 == 0 && (k * DAY_MS) % 86_400_000 == 0
    ensures (k + 1) * HOUR_MS == k * HOUR_MS + 3_600_000 && (k + 1) * DAY_MS == k * DAY_MS + 86_400_000
    ensures (k * DAY_MS) / 86_400_000 == k
  {
  }

  lemma MonthsFollow(k: int)
    ensures StartsNextMonth(MonthStart(k) * DAY_MS, MonthStart(k + 1) * DAY_MS)
  {
    Multiples(MonthStart(k));
    Multiples(MonthStart(k + 1));
    FirstOfMonth(k);
    FirstOfMonth(k + 1);
  }

  lemma FirstOfMonth(k: int)
    ensures DateOfDay(MonthStart(k)) == Date(k / 12, k % 12 + 1, 1)
  {
    MonthStep(k);
    MonthOfDayUnique(MonthStart(k), k);
  }

  lemma HourShape(k: int, b: Bounds)
    requires b == Bounds(SlotStart(Day, k), SlotStart(Day, k + 1))
    ensures b.start % 3_600_000 == 0 && b.end == b.start + 3_600_000
  {
    Multiples(k);
  }

  lemma DayShape(period: Period, k: int, b: Bounds)
    requires (period == Week || period == Month) && b == Bounds(SlotStart(period, k), SlotStart(period, k + 1))
    ensures b.start % 86_400_000 == 0 && b.end == b.start + 86_400_000
  {
    Multiples(k);
  }

  lemma MonthShape(k: int, b: Bounds)
    requires b == Bounds(SlotStart(Year, k), SlotStart(Year, k + 1))
    ensures StartsNextMonth(b.start, b.end)
  {
    MonthsFollow(k);
  }

  /** In plain terms: how many buckets there are, and that they are whole hours, days or months. */
  lemma BucketShapes(period: Period, now: Instant, i: nat)
    requires i < |BucketBounds(period, now)|
    ensures |BucketBounds(period, now)| ==
              match period case Day => 24 case Week => 7 case Month => 30 case Year => 12
    ensures var b := BucketBounds(period, now)[i];
            match period
            case Day => b.start % 3_600_000 == 0 && b.end == b.start + 3_600_000
            case Week => b.start % 86_400_000 == 0 && b.end == b.start + 86_400_000
            case Month => b.start % 86_400_000 == 0 && b.end == b.start + 86_400_000
            case Year => StartsNextMonth(b.start, b.end)
  {
    BucketIsSlot(period, now, i);
    var k, b := Slot(period, now) - (Points(period) - 1 - i), BucketBounds(period, now)[i];
    match period
    case Day => HourShape(k, b);
    case Year => MonthShape(k, b);
    case _ => DayShape(period, k, b);
  }
}
