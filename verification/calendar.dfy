/**
 * Civil dates of the proleptic Gregorian calendar, as Python's `datetime`
 * holds them: years 1 to 9999, day ordinals counted from 01/01/0001 = 1,
 * and the one-day step that `+ timedelta(days=1)` performs.
 */
module Calendar {
  import opened Wrappers

  datatype Date = Date(year: int, month: int, day: int)

  const MinYear := 1
  const MaxYear := 9999

  /** The last date `datetime` can represent; one day later overflows. */
  const LastDate := Date(MaxYear, 12, 31)

  predicate IsLeapYear(y: int) {
    y % 4 == 0 && (y % 100 != 0 || y % 400 == 0)
  }

  function DaysInYear(y: int): int {
    if IsLeapYear(y) then 366 else 365
  }

  function DaysInMonth(y: int, m: int): (n: int)
    requires 1 <= m <= 12
    ensures 28 <= n <= 31
  {
    if m == 2 then (if IsLeapYear(y) then 29 else 28)
    else if m == 4 || m == 6 || m == 9 || m == 11 then 30
    else 31
  }

  /** A date `datetime` accepts: year in range, month 1..12, day within the month. */
  predicate ValidDate(d: Date) {
    MinYear <= d.year <= MaxYear && 1 <= d.month <= 12 && 1 <= d.day <= DaysInMonth(d.year, d.month)
  }

  /** Days of year `y` that precede the first of month `m`: the cumulative table plus the leap day. */
  function DaysBeforeMonth(y: int, m: int): int
    requires 1 <= m <= 12
  {
    var table := [0, 31, 59, 90, 120, 151, 181, 212, 243, 273, 304, 334];
    table[m - 1] + (if m > 2 && IsLeapYear(y) then 1 else 0)
  }

  /** Days of the years 1 .. y-1. */
  function DaysBeforeYear(y: int): int
    requires y >= 1
  {
    var n := y - 1;
    n * 365 + n / 4 - n / 100 + n / 400
  }

  /** The day number of a date, 01/01/0001 being day 1; date subtraction is the difference of these. */
  function ToOrdinal(d: Date): (o: int)
    requires ValidDate(d)
    ensures o >= 1
  {
    DaysBeforeYear(d.year) + DaysBeforeMonth(d.year, d.month) + d.day
  }

  /** Calendar order: earlier year, or same year and earlier month, or same month and earlier day. */
  predicate Before(a: Date, b: Date) {
    a.year < b.year
    || (a.year == b.year && (a.month < b.month || (a.month == b.month && a.day < b.day)))
  }

  /**
   * The following calendar day, rolling over month and year ends, or None when
   * the date is the last representable one (Python raises OverflowError there).
   */
  function NextDay(d: Date): (r: Option<Date>)
    requires ValidDate(d)
    ensures r.None? <==> d == LastDate
    ensures r.Some? ==> ValidDate(r.value) && ToOrdinal(r.value) == ToOrdinal(d) + 1
    ensures r.Some? ==> Before(d, r.value)
  {
    if d.day < DaysInMonth(d.year, d.month) then
      Some(Date(d.year, d.month, d.day + 1))
    else if d.month < 12 then
      DaysBeforeMonthStep(d.year, d.month);
      Some(Date(d.year, d.month + 1, 1))
    else if d.year < MaxYear then
      DaysBeforeYearStep(d.year);
      Some(Date(d.year + 1, 1, 1))
    else
      None
  }

  /** The date `k` days after `d`, or None when that passes the last date. */
  function NextDays(d: Date, k: nat): (r: Option<Date>)
    requires ValidDate(d)
    ensures r.Some? ==> ValidDate(r.value) && ToOrdinal(r.value) == ToOrdinal(d) + k
    decreases k
  {
    if k == 0 then Some(d)
    else
      match NextDay(d)
      case None => None
      case Some(n) => NextDays(n, k - 1)
  }

  lemma DivStep4(n: int)
    requires n >= 0
    ensures (n + 1) / 4 == n / 4 + (if (n + 1) % 4 == 0 then 1 else 0)
  {
  }

  lemma DivStep100(n: int)
    requires n >= 0
    ensures (n + 1) / 100 == n / 100 + (if (n + 1) % 100 == 0 then 1 else 0)
  {
  }

  lemma DivStep400(n: int)
    requires n >= 0
    ensures (n + 1) / 400 == n / 400 + (if (n + 1) % 400 == 0 then 1 else 0)
  {
  }

  /** A year contributes its own length to the days before the next one. */
  lemma DaysBeforeYearStep(y: int)
    requires y >= 1
    ensures DaysBeforeYear(y + 1) == DaysBeforeYear(y) + DaysInYear(y)
  {
    var n := y - 1;
    assert DaysBeforeYear(y + 1) == DaysBeforeYear(y) + 365 + (y / 4 - n / 4) - (y / 100 - n / 100) + (y / 400 - n / 400);
    DivStep4(n);
    DivStep100(n);
    DivStep400(n);
    CenturiesAreLeapCandidates(y);
  }

  lemma CenturiesAreLeapCandidates(y: int)
    ensures y % 100 == 0 ==> y % 4 == 0
    ensures y % 400 == 0 ==> y % 100 == 0
  {
    if y % 100 == 0 {
      assert y == 4 * (25 * (y / 100));
    }
    if y % 400 == 0 {
      assert y == 100 * (4 * (y / 400));
    }
  }

  /** A month contributes its own length to the days before the next one. */
  lemma DaysBeforeMonthStep(y: int, m: int)
    requires 1 <= m < 12
    ensures DaysBeforeMonth(y, m + 1) == DaysBeforeMonth(y, m) + DaysInMonth(y, m)
  {
  }

  /** The twelve months fill the year exactly. */
  lemma MonthsFillYear(y: int, m: int)
    requires 1 <= m <= 12
    ensures DaysBeforeMonth(y, m) + DaysInMonth(y, m) <= DaysInYear(y)
  {
  }

  lemma {:induction false} DaysBeforeYearMonotone(y1: int, y2: int)
    requires 1 <= y1 <= y2
    ensures DaysBeforeYear(y1) <= DaysBeforeYear(y2)
    decreases y2 - y1
  {
    if y1 < y2 {
      DaysBeforeYearMonotone(y1, y2 - 1);
      DaysBeforeYearStep(y2 - 1);
    }
  }

  lemma {:induction false} DaysBeforeMonthMonotone(y: int, m1: int, m2: int)
    requires 1 <= m1 < m2 <= 12
    ensures DaysBeforeMonth(y, m1) + DaysInMonth(y, m1) <= DaysBeforeMonth(y, m2)
    decreases m2 - m1
  {
    if m1 + 1 < m2 {
      DaysBeforeMonthMonotone(y, m1, m2 - 1);
      DaysBeforeMonthStep(y, m2 - 1);
    } else {
      DaysBeforeMonthStep(y, m1);
    }
  }

  /** Ordinals grow strictly with calendar order. */
  lemma OrdinalMonotone(a: Date, b: Date)
    requires ValidDate(a) && ValidDate(b) && Before(a, b)
    ensures ToOrdinal(a) < ToOrdinal(b)
  {
    if a.year < b.year {
      MonthsFillYear(a.year, a.month);
      DaysBeforeYearStep(a.year);
      DaysBeforeYearMonotone(a.year + 1, b.year);
    } else if a.month < b.month {
      DaysBeforeMonthMonotone(a.year, a.month, b.month);
    }
  }

  /** Comparing ordinals is comparing dates, and the ordinal identifies the date. */
  lemma OrdinalOrder(a: Date, b: Date)
    requires ValidDate(a) && ValidDate(b)
    ensures ToOrdinal(a) < ToOrdinal(b) <==> Before(a, b)
    ensures ToOrdinal(a) == ToOrdinal(b) <==> a == b
  {
    if Before(a, b) {
      OrdinalMonotone(a, b);
    } else if Before(b, a) {
      OrdinalMonotone(b, a);
    }
  }

  /** Every valid date precedes or is the last date. */
  lemma NotAfterLastDate(d: Date)
    requires ValidDate(d)
    ensures !Before(LastDate, d)
  {
  }

  /** Stepping `k` days reaches exactly the date whose ordinal is `k` higher. */
  lemma {:induction false} NextDaysReaches(a: Date, b: Date, k: nat)
    requires ValidDate(a) && ValidDate(b)
    ensures NextDays(a, k) == Some(b) <==> ToOrdinal(b) == ToOrdinal(a) + k
    decreases k
  {
    if k == 0 {
      OrdinalOrder(a, b);
    } else if ToOrdinal(b) == ToOrdinal(a) + k {
      OrdinalOrder(LastDate, b);
      NotAfterLastDate(b);
      OrdinalOrder(a, LastDate);
      var n := NextDay(a).value;
      NextDaysReaches(n, b, k - 1);
    } else {
      match NextDay(a)
      case None =>
      case Some(n) => NextDaysReaches(n, b, k - 1);
    }
  }
}
