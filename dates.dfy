/** A proleptic Gregorian calendar date with only the facts the day-count
    conventions read: year, month, day-of-month, month and year lengths,
    day-of-year, the epoch-day number and chronological order. */
module Dates {

  /** A year-month-day triple; it is a date only when `ValidDate` holds. */
  datatype CalendarDate = CalendarDate(year: int, month: int, day: int)

  /** The proleptic Gregorian leap-year rule (every fourth year, except
      centuries that are not a multiple of 400). */
  predicate IsLeapYear(year: int) {
    year % 4 == 0 && (year % 100 != 0 || year % 400 == 0)
  }

  function LengthOfMonth(year: int, month: int): int {
    if month == 2 then (if IsLeapYear(year) then 29 else 28)
    else if month == 4 || month == 6 || month == 9 || month == 11 then 30
    else 31
  }

  function LengthOfYear(year: int): int {
    if IsLeapYear(year) then 366 else 365
  }

  predicate ValidDate(d: CalendarDate) {
    1 <= d.month <= 12 && 1 <= d.day <= LengthOfMonth(d.year, d.month)
  }

  /** A calendar date that exists. */
  type Date = d: CalendarDate | ValidDate(d) witness CalendarDate(1970, 1, 1)

  /** Number of days of the year that come before the first of `month`. */
  function DaysBeforeMonth(year: int, month: int): int
    requires 1 <= month <= 12
  {
    var leap := if IsLeapYear(year) then 1 else 0;
    match month
    case 1 => 0
    case 2 => 31
    case 3 => 59 + leap
    case 4 => 90 + leap
    case 5 => 120 + leap
    case 6 => 151 + leap
    case 7 => 181 + leap
    case 8 => 212 + leap
    case 9 => 243 + leap
    case 10 => 273 + leap
    case 11 => 304 + leap
    case _ => 334 + leap
  }

  /** The day-of-year, counting 1 January as 1; it never exceeds the year length. */
  function DayOfYear(d: Date): (n: int)
    ensures 1 <= n <= LengthOfYear(d.year)
    ensures n == LengthOfYear(d.year) <==> d.month == 12 && d.day == 31
  {
    DaysBeforeMonth(d.year, d.month) + d.day
  }

  /** Signed count of leap years in [0, year) (negative for negative years). */
  function LeapYearsBefore(year: int): int {
    (year + 3) / 4 - (year + 99) / 100 + (year + 399) / 400
  }

  /** Epoch day of 1 January of `year`, with 1970-01-01 as day 0. */
  function YearStart(year: int): int {
    365 * (year - 1970) + LeapYearsBefore(year) - LeapYearsBefore(1970)
  }

  /** Days since 1970-01-01 (negative before it). */
  function EpochDay(d: Date): int {
    YearStart(d.year) + DayOfYear(d) - 1
  }

  /** Rounding up a quotient by 4 steps up exactly when `year` is a multiple of 4. */
  lemma QuarterStep(year: int)
    ensures (year + 4) / 4 == (year + 3) / 4 + (if year % 4 == 0 then 1 else 0)
  {
    var q := year / 4;
    assert year + 4 == 4 * (q + 1) + year % 4;
    assert (year + 4) / 4 == q + 1;
    if year % 4 == 0 {
      assert year + 3 == 4 * q + 3;
    } else {
      assert year + 3 == 4 * (q + 1) + (year % 4 - 1);
    }
  }

  lemma CenturyStep(year: int)
    ensures (year + 100) / 100 == (year + 99) / 100 + (if year % 100 == 0 then 1 else 0)
  {
    var q := year / 100;
    assert year + 100 == 100 * (q + 1) + year % 100;
    assert (year + 100) / 100 == q + 1;
    if year % 100 == 0 {
      assert year + 99 == 100 * q + 99;
    } else {
      assert year + 99 == 100 * (q + 1) + (year % 100 - 1);
    }
  }

  lemma QuadricentennialStep(year: int)
    ensures (year + 400) / 400 == (year + 399) / 400 + (if year % 400 == 0 then 1 else 0)
  {
    var q := year / 400;
    assert year + 400 == 400 * (q + 1) + year % 400;
    assert (year + 400) / 400 == q + 1;
    if year % 400 == 0 {
      assert year + 399 == 400 * q + 399;
    } else {
      assert year + 399 == 400 * (q + 1) + (year % 400 - 1);
    }
  }

  /** A multiple of 400 is a multiple of 100, and a multiple of 100 one of 4. */
  lemma DivisibilityChain(year: int)
    ensures year % 400 == 0 ==> year % 100 == 0
    ensures year % 100 == 0 ==> year % 4 == 0
  {
    if year % 400 == 0 {
      HundredDividesMultipleOf400(year);
    }
    if year % 100 == 0 {
      FourDividesMultipleOf100(year);
    }
  }

  lemma HundredDividesMultipleOf400(year: int)
    requires year % 400 == 0
    ensures year % 100 == 0
  {
    var k := 4 * (year / 400);
    assert year == 100 * k + 0;
  }

  lemma FourDividesMultipleOf100(year: int)
    requires year % 100 == 0
    ensures year % 4 == 0
  {
    var k := 25 * (year / 100);
    assert year == 4 * k + 0;
  }

  lemma LeapYearsBeforeStep(year: int)
    ensures LeapYearsBefore(year + 1) == LeapYearsBefore(year) + (if IsLeapYear(year) then 1 else 0)
  {
    DivisibilityChain(year);
    QuarterStep(year);
    CenturyStep(year);
    QuadricentennialStep(year);
  }

  /** Consecutive years are laid end to end on the epoch-day line. */
  lemma YearStartStep(year: int)
    ensures YearStart(year + 1) == YearStart(year) + LengthOfYear(year)
  {
    LeapYearsBeforeStep(year);
  }

  lemma {:induction false} YearStartMonotone(y1: int, y2: int)
    requires y1 < y2
    ensures YearStart(y1) + LengthOfYear(y1) <= YearStart(y2)
    decreases y2 - y1
  {
    YearStartStep(y1);
    if y1 + 1 < y2 {
      YearStartMonotone(y1 + 1, y2);
    }
  }

  lemma DaysBeforeMonthStep(year: int, month: int)
    requires 1 <= month < 12
    ensures DaysBeforeMonth(year, month + 1) == DaysBeforeMonth(year, month) + LengthOfMonth(year, month)
  {
  }

  lemma {:induction false} DaysBeforeMonthMonotone(year: int, m1: int, m2: int)
    requires 1 <= m1 < m2 <= 12
    ensures DaysBeforeMonth(year, m1) + LengthOfMonth(year, m1) <= DaysBeforeMonth(year, m2)
    decreases m2 - m1
  {
    DaysBeforeMonthStep(year, m1);
    if m1 + 1 < m2 {
      DaysBeforeMonthMonotone(year, m1 + 1, m2);
    }
  }

  /** The lexicographic comparison of (year, month, day) agrees with the
      epoch-day order. */
  lemma EpochDayOrder(a: Date, b: Date)
    ensures (a.year < b.year
             || (a.year == b.year && (a.month < b.month || (a.month == b.month && a.day < b.day))))
            <==> EpochDay(a) < EpochDay(b)
  {
    if a.year < b.year {
      YearStartMonotone(a.year, b.year);
    } else if b.year < a.year {
      YearStartMonotone(b.year, a.year);
    } else if a.month < b.month {
      DaysBeforeMonthMonotone(a.year, a.month, b.month);
    } else if b.month < a.month {
      DaysBeforeMonthMonotone(a.year, b.month, a.month);
    }
  }

  /** `a` is strictly earlier than `b`, compared field by field as a date
      compares (year, then month, then day). */
  predicate IsBefore(a: Date, b: Date)
    ensures IsBefore(a, b) <==> EpochDay(a) < EpochDay(b)
  {
    EpochDayOrder(a, b);
    a.year < b.year
    || (a.year == b.year && (a.month < b.month || (a.month == b.month && a.day < b.day)))
  }

  predicate IsAfter(a: Date, b: Date)
  {
    IsBefore(b, a)
  }

  /** Two dates are the same date exactly when they have the same epoch day. */
  lemma EpochDayInjective(a: Date, b: Date)
    ensures EpochDay(a) == EpochDay(b) <==> a == b
  {
    EpochDayOrder(a, b);
    EpochDayOrder(b, a);
  }

  /** The following calendar day; it leaves the year only from 31 December,
      and then lands on 1 January. */
  function NextDay(d: Date): (r: Date)
    ensures r.year == d.year || (d.month == 12 && d.day == 31 && r == CalendarDate(d.year + 1, 1, 1))
  {
    if d.day < LengthOfMonth(d.year, d.month) then CalendarDate(d.year, d.month, d.day + 1)
    else if d.month < 12 then CalendarDate(d.year, d.month + 1, 1)
    else CalendarDate(d.year + 1, 1, 1)
  }

  /** The following calendar day is exactly one epoch day later. */
  lemma NextDayIsOneLater(d: Date)
    ensures EpochDay(NextDay(d)) == EpochDay(d) + 1
  {
    if d.day == LengthOfMonth(d.year, d.month) {
      if d.month < 12 {
        DaysBeforeMonthStep(d.year, d.month);
      } else {
        YearStartStep(d.year);
      }
    }
  }

  /** 1 January of `year`. */
  function StartOfYear(year: int): (d: Date)
    ensures EpochDay(d) == YearStart(year) && DayOfYear(d) == 1
  {
    CalendarDate(year, 1, 1)
  }
}
