/**
 * Calendar dates as Python's datetime.date represents them: a proleptic
 * Gregorian (year, month, day) triple with years 1..9999, its ordinal
 * (date.toordinal(), 1 for 0001-01-01) and its weekday (0 is Monday).
 */
module Dates {

  datatype Date = Date(year: int, month: int, day: int)

  const MinYear := 1
  const MaxYear := 9999

  predicate IsLeapYear(y: int) {
    y % 4 == 0 && (y % 100 != 0 || y % 400 == 0)
  }

  function DaysInMonth(y: int, m: int): (n: int)
    requires 1 <= m <= 12
    ensures 28 <= n <= 31
    ensures m == 2 ==> (n == 29 <==> IsLeapYear(y))
  {
    if m == 2 then (if IsLeapYear(y) then 29 else 28)
    else if m == 4 || m == 6 || m == 9 || m == 11 then 30
    else 31
  }

  /** What the date constructor accepts; anything else raises ValueError. */
  predicate IsValidDate(d: Date)
    ensures IsValidDate(d) ==> 1 <= d.day <= 31 && (d.month == 2 && d.day == 29 ==> IsLeapYear(d.year))
  {
    MinYear <= d.year <= MaxYear && 1 <= d.month <= 12 && 1 <= d.day <= DaysInMonth(d.year, d.month)
  }

  /** Lexicographic order on (year, month, day): the order Python compares dates by. */
  predicate Before(d1: Date, d2: Date) {
    d1.year < d2.year
    || (d1.year == d2.year && d1.month < d2.month)
    || (d1.year == d2.year && d1.month == d2.month && d1.day < d2.day)
  }

  /** Days in the years before year y (Python's _days_before_year). */
  function DaysBeforeYear(y: int): (n: int)
    requires y >= 1
  {
    var p := y - 1;
    p * 365 + p / 4 - p / 100 + p / 400
  }

  /** Days in the months of year y before month m in a common year. */
  function CommonDaysBeforeMonth(m: int): (n: int)
    requires 1 <= m <= 12
  {
    match m
    case 1 => 0
    case 2 => 31
    case 3 => 59
    case 4 => 90
    case 5 => 120
    case 6 => 151
    case 7 => 181
    case 8 => 212
    case 9 => 243
    case 10 => 273
    case 11 => 304
    case _ => 334
  }

  /** Days in year y before month m (Python's _days_before_month). */
  function DaysBeforeMonth(y: int, m: int): (n: int)
    requires 1 <= m <= 12
  {
    CommonDaysBeforeMonth(m) + (if m > 2 && IsLeapYear(y) then 1 else 0)
  }

  /** date.toordinal(): 1 for 0001-01-01, counting every day since. */
  function Ordinal(d: Date): (o: int)
    requires IsValidDate(d)
    ensures o >= 1
  {
    DaysBeforeYear(d.year) + DaysBeforeMonth(d.year, d.month) + d.day
  }

  /** date.weekday() of the date with ordinal o: 0 is Monday, 6 is Sunday. */
  function Weekday(o: int): (w: int)
    ensures 0 <= w < 7
  {
    (o + 6) % 7
  }

  /** Monday to Friday: the days numpy's busday functions count by default. */
  predicate IsWeekday(o: int) {
    Weekday(o) < 5
  }

  lemma MonthStep(y: int, m: int)
    requires 1 <= m < 12
    ensures DaysBeforeMonth(y, m + 1) == DaysBeforeMonth(y, m) + DaysInMonth(y, m)
  {
  }

  lemma {:induction false} DaysBeforeMonthGrows(y: int, m1: int, m2: int)
    requires 1 <= m1 < m2 <= 12
    ensures DaysBeforeMonth(y, m1) + DaysInMonth(y, m1) <= DaysBeforeMonth(y, m2)
    decreases m2 - m1
  {
    MonthStep(y, m1);
    if m1 + 1 < m2 {
      DaysBeforeMonthGrows(y, m1 + 1, m2);
    }
  }

  /** A year holds 365 days, or 366 when it is a leap year. */
  lemma YearStep(y: int)
    requires y >= 1
    ensures DaysBeforeYear(y + 1) == DaysBeforeYear(y) + 365 + (if IsLeapYear(y) then 1 else 0)
  {
    var p := y - 1;
    assert (p + 1) / 4 == p / 4 + (if y % 4 == 0 then 1 else 0);
    assert (p + 1) / 100 == p / 100 + (if y % 100 == 0 then 1 else 0);
    assert (p + 1) / 400 == p / 400 + (if y % 400 == 0 then 1 else 0);
  }

  lemma {:induction false} DaysBeforeYearGrows(y1: int, y2: int)
    requires 1 <= y1 < y2
    ensures DaysBeforeYear(y1) + 365 + (if IsLeapYear(y1) then 1 else 0) <= DaysBeforeYear(y2)
    decreases y2 - y1
  {
    YearStep(y1);
    if y1 + 1 < y2 {
      DaysBeforeYearGrows(y1 + 1, y2);
      YearStep(y1 + 1);
    }
  }

  /** The last day of a year comes before the first day of any later year. */
  lemma DayOfYearBound(d: Date)
    requires IsValidDate(d)
    ensures DaysBeforeMonth(d.year, d.month) + d.day <= 365 + (if IsLeapYear(d.year) then 1 else 0)
  {
    if d.month < 12 {
      DaysBeforeMonthGrows(d.year, d.month, 12);
    }
  }

  lemma OrdinalMonotone(d1: Date, d2: Date)
    requires IsValidDate(d1) && IsValidDate(d2) && Before(d1, d2)
    ensures Ordinal(d1) < Ordinal(d2)
  {
    if d1.year < d2.year {
      DayOfYearBound(d1);
      DaysBeforeYearGrows(d1.year, d2.year);
    } else if d1.month < d2.month {
      DaysBeforeMonthGrows(d1.year, d1.month, d2.month);
    }
  }

  /**
   * Storing a date by its ordinal loses nothing: ordinals compare exactly as
   * the dates do, so the range filters on ordinals select the same rows as
   * the comparisons on dates.
   */
  lemma OrdinalOrder(d1: Date, d2: Date)
    requires IsValidDate(d1) && IsValidDate(d2)
    ensures Before(d1, d2) <==> Ordinal(d1) < Ordinal(d2)
    ensures d1 == d2 <==> Ordinal(d1) == Ordinal(d2)
  {
    if Before(d1, d2) {
      OrdinalMonotone(d1, d2);
    } else if Before(d2, d1) {
      OrdinalMonotone(d2, d1);
    }
  }

  /** 2020-10-10 has ordinal 737708 and was a Saturday. */
  lemma OrdinalExample()
    ensures Ordinal(Date(2020, 10, 10)) == 737708
    ensures Weekday(737708) == 5
  {
  }
}
