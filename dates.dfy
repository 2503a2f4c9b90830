/**
 * The proleptic Gregorian calendar of Python's `datetime.date`, with the
 * arithmetic the cash-flow engine uses: `timedelta(days=...)`,
 * `relativedelta(days=1 | weeks=1 | months=k)` and date comparison.
 */
module Dates {

  datatype Date = Date(year: int, month: int, day: int)

  predicate IsLeapYear(y: int) {
    y % 4 == 0 && (y % 100 != 0 || y % 400 == 0)
  }

  function DaysInMonth(y: int, m: int): int
    requires 1 <= m <= 12
  {
    if m == 2 then (if IsLeapYear(y) then 29 else 28)
    else if m == 4 || m == 6 || m == 9 || m == 11 then 30
    else 31
  }

  predicate ValidDate(d: Date) {
    1 <= d.year && 1 <= d.month <= 12 && 1 <= d.day <= DaysInMonth(d.year, d.month)
  }

  /** The dates Python's `date` constructor accepts (its upper bound, year 9999, is not modelled). */
  type CalendarDate = d: Date | ValidDate(d) witness Date(1, 1, 1)

  function DaysInYear(y: int): int {
    if IsLeapYear(y) then 366 else 365
  }

  function DaysBeforeYear(y: int): int
    requires y >= 1
  {
    var k := y - 1;
    365 * k + k / 4 - k / 100 + k / 400
  }

  function DaysBeforeMonth(y: int, m: int): int
    requires 1 <= m <= 12
  {
    [0, 31, 59, 90, 120, 151, 181, 212, 243, 273, 304, 334][m - 1]
    + (if m > 2 && IsLeapYear(y) then 1 else 0)
  }

  /** The day's ordinal: 1 January of year 1 is day 1, as Python's `date.toordinal()`. */
  function DayNumber(d: CalendarDate): int {
    DaysBeforeYear(d.year) + DaysBeforeMonth(d.year, d.month) + d.day
  }

  /** Months counted from January of year 0; `strftime('%Y-%m')` names the same month exactly when this agrees. */
  function MonthIndex(d: Date): int {
    d.year * 12 + d.month - 1
  }

  predicate SameMonth(a: Date, b: Date) {
    a.year == b.year && a.month == b.month
  }

  /** Python's `a < b` on dates: lexicographic on (year, month, day). */
  predicate Before(a: Date, b: Date) {
    a.year < b.year || (a.year == b.year && (a.month < b.month || (a.month == b.month && a.day < b.day)))
  }

  /** Python's `a <= b` on dates. */
  predicate NotAfter(a: Date, b: Date) {
    !Before(b, a)
  }

  lemma DaysBeforeYearStep(y: int)
    requires y >= 1
    ensures DaysBeforeYear(y + 1) == DaysBeforeYear(y) + DaysInYear(y)
  {
    var k := y - 1;
    assert (k + 1) / 4 == k / 4 + (if y % 4 == 0 then 1 else 0);
    assert (k + 1) / 100 == k / 100 + (if y % 100 == 0 then 1 else 0);
    assert (k + 1) / 400 == k / 400 + (if y % 400 == 0 then 1 else 0);
  }

  lemma {:induction false} DaysBeforeYearMonotone(y1: int, y2: int)
    requires 1 <= y1 < y2
    ensures DaysBeforeYear(y1) + DaysInYear(y1) <= DaysBeforeYear(y2)
    decreases y2 - y1
  {
    DaysBeforeYearStep(y1);
    if y1 + 1 < y2 {
      DaysBeforeYearMonotone(y1 + 1, y2);
    }
  }

  lemma DayOfYearBound(d: CalendarDate)
    ensures DaysBeforeMonth(d.year, d.month) + d.day <= DaysInYear(d.year)
  {
  }

  lemma DaysBeforeMonthMonotone(y: int, m1: int, m2: int)
    requires 1 <= m1 < m2 <= 12
    ensures DaysBeforeMonth(y, m1) + DaysInMonth(y, m1) <= DaysBeforeMonth(y, m2)
  {
  }

  /** One day later. */
  function NextDay(d: CalendarDate): (r: CalendarDate)
    ensures DayNumber(r) == DayNumber(d) + 1
  {
    if d.day < DaysInMonth(d.year, d.month) then
      Date(d.year, d.month, d.day + 1)
    else if d.month < 12 then
      DaysBeforeMonthMonotone(d.year, d.month, d.month + 1);
      Date(d.year, d.month + 1, 1)
    else
      DaysBeforeYearStep(d.year);
      Date(d.year + 1, 1, 1)
  }

  /** `d + timedelta(days=n)` for n >= 0. */
  function AddDays(d: CalendarDate, n: nat): (r: CalendarDate)
    ensures DayNumber(r) == DayNumber(d) + n
    decreases n
  {
    if n == 0 then d else AddDays(NextDay(d), n - 1)
  }

  /**
   * `d + relativedelta(months=k)`: the month moves k ahead and the day is
   * clamped to the length of the month reached.
   */
  function AddMonths(d: CalendarDate, k: nat): (r: CalendarDate)
    ensures MonthIndex(r) == MonthIndex(d) + k
    ensures r.day <= d.day
    ensures r.day < d.day ==> r.day == DaysInMonth(r.year, r.month)
  {
    var t := MonthIndex(d) + k;
    var y := t / 12;
    var m := t % 12 + 1;
    var last := DaysInMonth(y, m);
    Date(y, m, if d.day <= last then d.day else last)
  }

  /** Date order is day-number order. */
  lemma BeforeIsDayNumberOrder(a: CalendarDate, b: CalendarDate)
    ensures Before(a, b) <==> DayNumber(a) < DayNumber(b)
  {
    if Before(a, b) {
      BeforeMeansSmaller(a, b);
    } else if a != b {
      assert Before(b, a);
      BeforeMeansSmaller(b, a);
    }
  }

  lemma BeforeMeansSmaller(a: CalendarDate, b: CalendarDate)
    requires Before(a, b)
    ensures DayNumber(a) < DayNumber(b)
  {
    if a.year < b.year {
      DayOfYearBound(a);
      DaysBeforeYearMonotone(a.year, b.year);
    } else if a.month < b.month {
      DaysBeforeMonthMonotone(a.year, a.month, b.month);
    }
  }

  /** Different dates have different day numbers. */
  lemma DayNumberInjective(a: CalendarDate, b: CalendarDate)
    requires DayNumber(a) == DayNumber(b)
    ensures a == b
  {
    BeforeIsDayNumberOrder(a, b);
    BeforeIsDayNumberOrder(b, a);
  }

  lemma MonthIndexOrder(a: Date, b: Date)
    requires 1 <= a.month <= 12 && 1 <= b.month <= 12
    requires MonthIndex(a) < MonthIndex(b)
    ensures Before(a, b)
  {
  }

  lemma SameMonthIsSameIndex(a: Date, b: Date)
    requires 1 <= a.month <= 12 && 1 <= b.month <= 12
    ensures SameMonth(a, b) <==> MonthIndex(a) == MonthIndex(b)
  {
  }

  /** Moving at least one month ahead always reaches a strictly later date. */
  lemma AddMonthsIsLater(d: CalendarDate, k: nat)
    requires k >= 1
    ensures DayNumber(d) < DayNumber(AddMonths(d, k))
  {
    MonthIndexOrder(d, AddMonths(d, k));
    BeforeMeansSmaller(d, AddMonths(d, k));
  }
}
