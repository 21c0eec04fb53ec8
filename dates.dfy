/**
 * Calendar dates as `datetime.date` holds them: proleptic Gregorian, years 1 to 9999, compared
 * field by field. The day count `Ordinal` (CPython's `date.toordinal`) is an independent
 * reference for that comparison.
 */
module Dates {
  datatype Date = Date(year: int, month: int, day: int)

  predicate IsLeap(year: int) {
    year % 4 == 0 && (year % 100 != 0 || year % 400 == 0)
  }

  function DaysInYear(year: int): int {
    if IsLeap(year) then 366 else 365
  }

  function DaysInMonth(year: int, month: int): (n: int)
    requires 1 <= month <= 12
    ensures 28 <= n <= 31
  {
    if month == 2 then (if IsLeap(year) then 29 else 28)
    else if month == 4 || month == 6 || month == 9 || month == 11 then 30
    else 31
  }

  /** The triple is one `datetime.date(year, month, day)` accepts. */
  predicate Valid(d: Date) {
    1 <= d.year <= 9999 && 1 <= d.month <= 12 && 1 <= d.day <= DaysInMonth(d.year, d.month)
  }

  /** `a < b` on dates: the `(year, month, day)` tuples compared in order. */
  predicate Before(a: Date, b: Date) {
    || a.year < b.year
    || (a.year == b.year && a.month < b.month)
    || (a.year == b.year && a.month == b.month && a.day < b.day)
  }

  /** `a <= b` on dates, which for real dates is the order of their day numbers. */
  predicate LessEq(a: Date, b: Date): (r: bool)
    ensures Valid(a) && Valid(b) ==> (r <==> Ordinal(a) <= Ordinal(b))
  {
    if Valid(a) && Valid(b) then
      FieldOrderIsDayOrder(a, b);
      Before(a, b) || a == b
    else
      Before(a, b) || a == b
  }

  /** Days in the years before `year` (`_days_before_year`). */
  function DaysBeforeYear(year: int): int
    requires year >= 1
  {
    var y := year - 1;
    y * 365 + y / 4 - y / 100 + y / 400
  }

  /** Days in the months of `year` before `month` (`_days_before_month`). */
  function DaysBeforeMonth(year: int, month: int): int
    requires 1 <= month <= 12
  {
    var table := [0, 0, 31, 59, 90, 120, 151, 181, 212, 243, 273, 304, 334];
    table[month] + (if month > 2 && IsLeap(year) then 1 else 0)
  }

  /** Day number counted from 0001-01-01 as day 1 (`date.toordinal`). */
  function Ordinal(d: Date): int
    requires Valid(d)
  {
    DaysBeforeYear(d.year) + DaysBeforeMonth(d.year, d.month) + d.day
  }

  lemma YearStep(year: int)
    requires year >= 1
    ensures DaysBeforeYear(year + 1) == DaysBeforeYear(year) + DaysInYear(year)
  {
    var y := year - 1;
    assert y / 4 + (if year % 4 == 0 then 1 else 0) == year / 4;
    assert y / 100 + (if year % 100 == 0 then 1 else 0) == year / 100;
    assert y / 400 + (if year % 400 == 0 then 1 else 0) == year / 400;
    assert year % 400 == 0 ==> year % 100 == 0;
    assert year % 100 == 0 ==> year % 4 == 0;
  }

  lemma {:induction false} YearsBefore(a: int, b: int)
    requires 1 <= a < b
    ensures DaysBeforeYear(a) + DaysInYear(a) <= DaysBeforeYear(b)
    decreases b - a
  {
    YearStep(a);
    if a + 1 < b {
      YearsBefore(a + 1, b);
    }
  }

  lemma MonthStep(year: int, month: int)
    requires 1 <= month < 12
    ensures DaysBeforeMonth(year, month + 1) == DaysBeforeMonth(year, month) + DaysInMonth(year, month)
  {
  }

  lemma {:induction false} MonthsBefore(year: int, a: int, b: int)
    requires 1 <= a < b <= 12
    ensures DaysBeforeMonth(year, a) + DaysInMonth(year, a) <= DaysBeforeMonth(year, b)
    decreases b - a
  {
    MonthStep(year, a);
    if a + 1 < b {
      MonthsBefore(year, a + 1, b);
    }
  }

  /** The months of a year add up to the year. */
  lemma MonthsFillYear(year: int, month: int)
    requires 1 <= month <= 12
    ensures DaysBeforeMonth(year, month) + DaysInMonth(year, month) <= DaysInYear(year)
  {
  }

  /** A date that comes before another in field order has a smaller day number. */
  lemma StrictlyBefore(a: Date, b: Date)
    requires Valid(a) && Valid(b) && Before(a, b)
    ensures Ordinal(a) < Ordinal(b)
  {
    if a.year < b.year {
      MonthsFillYear(a.year, a.month);
      YearsBefore(a.year, b.year);
    } else if a.month < b.month {
      MonthsBefore(a.year, a.month, b.month);
    }
  }

  /** Comparing dates field by field agrees with comparing their day numbers. */
  lemma FieldOrderIsDayOrder(a: Date, b: Date)
    requires Valid(a) && Valid(b)
    ensures Before(a, b) || a == b <==> Ordinal(a) <= Ordinal(b)
  {
    if Before(a, b) {
      StrictlyBefore(a, b);
    } else if a != b {
      StrictlyBefore(b, a);
    }
  }

  /** Field order is a total order. */
  lemma LessEqTotalOrder(a: Date, b: Date, c: Date)
    ensures LessEq(a, a)
    ensures LessEq(a, b) || LessEq(b, a)
    ensures LessEq(a, b) && LessEq(b, a) ==> a == b
    ensures LessEq(a, b) && LessEq(b, c) ==> LessEq(a, c)
  {
  }
}
