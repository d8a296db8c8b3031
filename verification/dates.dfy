/** Calendar dates as plain (year, month, day) triples, ordered the way
    Python's `datetime.date` is ordered, with the month arithmetic the
    ledger uses: the first and the last day of a month, and the last day
    of the previous month. */
module Dates {

  datatype Date = Date(year: int, month: int, day: int)

  /** Gregorian leap years. */
  predicate IsLeapYear(y: int) {
    y % 4 == 0 && (y % 100 != 0 || y % 400 == 0)
  }

  /** Number of days in month `m` of year `y`. */
  function DaysInMonth(y: int, m: int): (n: int)
    requires 1 <= m <= 12
    ensures 28 <= n <= 31
    ensures m == 2 ==> (n == 29 <==> IsLeapYear(y))
    ensures m in {4, 6, 9, 11} ==> n == 30
    ensures m in {1, 3, 5, 7, 8, 10, 12} ==> n == 31
  {
    if m == 2 then (if IsLeapYear(y) then 29 else 28)
    else if m == 4 || m == 6 || m == 9 || m == 11 then 30
    else 31
  }

  /** A date that Python's `date` constructor accepts (the year range
      1..9999 is not modelled). */
  predicate ValidDate(d: Date) {
    1 <= d.month <= 12 && 1 <= d.day <= DaysInMonth(d.year, d.month)
  }

  /** `a` is on or before `b`: lexicographic on (year, month, day). */
  predicate OnOrBefore(a: Date, b: Date) {
    a.year < b.year
    || (a.year == b.year && a.month < b.month)
    || (a.year == b.year && a.month == b.month && a.day <= b.day)
  }

  /** `a` is strictly before `b`. */
  predicate Before(a: Date, b: Date) {
    OnOrBefore(a, b) && a != b
  }

  /** The later of two dates (Python's `max` on dates). */
  function Max(a: Date, b: Date): (r: Date)
    ensures r == a || r == b
    ensures OnOrBefore(a, r) && OnOrBefore(b, r)
  {
    if OnOrBefore(a, b) then b else a
  }

  /** Counts months since a fixed origin; two dates share a month iff they
      share this index. */
  function MonthIndex(d: Date): int {
    d.year * 12 + d.month
  }

  /** `date(year, month, 1)`. */
  function FirstOfMonth(y: int, m: int): (r: Date)
    requires 1 <= m <= 12
    ensures ValidDate(r) && r.year == y && r.month == m && r.day == 1
  {
    Date(y, m, 1)
  }

  /** `date(year, month, 1) + relativedelta(months=1) - relativedelta(days=1)`. */
  function EndOfMonth(y: int, m: int): (r: Date)
    requires 1 <= m <= 12
    ensures ValidDate(r) && r.year == y && r.month == m
    ensures forall d :: ValidDate(d) && d.year == y && d.month == m ==> OnOrBefore(d, r)
  {
    Date(y, m, DaysInMonth(y, m))
  }

  /** `date(year, month, 1) - relativedelta(days=1)`. */
  function EndOfPrevMonth(y: int, m: int): (r: Date)
    requires 1 <= m <= 12
    ensures ValidDate(r) && Before(r, FirstOfMonth(y, m))
    ensures MonthIndex(r) + 1 == MonthIndex(FirstOfMonth(y, m))
  {
    if m == 1 then EndOfMonth(y - 1, 12) else EndOfMonth(y, m - 1)
  }

  /** The month that follows (y, m), rolling over the year after December. */
  function NextMonth(y: int, m: int): (r: (int, int))
    requires 1 <= m <= 12
    ensures 1 <= r.1 <= 12
    ensures r.0 * 12 + r.1 == y * 12 + m + 1
  {
    if m == 12 then (y + 1, 1) else (y, m + 1)
  }

  /** `d` lies in [first day, last day] of month (y, m). */
  predicate InMonth(d: Date, y: int, m: int) {
    1 <= m <= 12 && OnOrBefore(FirstOfMonth(y, m), d) && OnOrBefore(d, EndOfMonth(y, m))
  }

  /** The date range test used for a month agrees with the ORM's
      `date__year=y, date__month=m` filter on valid dates. */
  lemma InMonthIsYearMonth(d: Date, y: int, m: int)
    requires 1 <= m <= 12 && ValidDate(d)
    ensures InMonth(d, y, m) <==> d.year == y && d.month == m
  {
  }

  /** Nothing lies strictly between the last day of the previous month and
      the first day of the month: a valid date is before the 1st iff it is
      on or before the previous month's end. */
  lemma BeforeFirstIffOnOrBeforePrevEnd(d: Date, y: int, m: int)
    requires 1 <= m <= 12 && ValidDate(d)
    ensures Before(d, FirstOfMonth(y, m)) <==> OnOrBefore(d, EndOfPrevMonth(y, m))
  {
  }

  /** The end of month (y, m) is the day before the first of the next month. */
  lemma EndOfMonthIsPrevOfNext(y: int, m: int)
    requires 1 <= m <= 12
    ensures EndOfPrevMonth(NextMonth(y, m).0, NextMonth(y, m).1) == EndOfMonth(y, m)
  {
  }

  lemma OnOrBeforeTransitive(a: Date, b: Date, c: Date)
    requires OnOrBefore(a, b) && OnOrBefore(b, c)
    ensures OnOrBefore(a, c)
  {
  }

  lemma OnOrBeforeTotal(a: Date, b: Date)
    ensures OnOrBefore(a, b) || OnOrBefore(b, a)
  {
  }

  /** Date order refines month order. */
  lemma OnOrBeforeMonthIndex(a: Date, b: Date)
    requires ValidDate(a) && ValidDate(b) && OnOrBefore(a, b)
    ensures MonthIndex(a) <= MonthIndex(b)
  {
  }
}
