/** The standard day count conventions: each turns an ordered pair of dates
    into a year fraction for interest accrual, following the 2006 ISDA
    Definitions (section 4.16) and ICMA Rule 251.1 where they apply.
    Year fractions are exact reals. */
module DayCounts {
  import opened Dates
  import opened LeapDays

  datatype DayCountError =
    | DatesNotInOrder            // "Dates must be in order": the second date is before the first
    | UnknownName(name: string)  // no convention has this name

  datatype Result<T> = Success(value: T) | Failure(error: DayCountError) {
    predicate IsFailure() {
      Failure?
    }

    function PropagateFailure<U>(): Result<U>
      requires Failure?
    {
      Failure(error)
    }

    function Extract(): T
      requires Success?
    {
      value
    }
  }

  /** What a convention may ask of the schedule the period belongs to. */
  datatype ScheduleInfo = ScheduleInfo(
    isEndOfMonthConvention: bool,
    isScheduleEndDate: Date -> bool)

  /** The thirteen standard conventions, in declaration order. */
  datatype DayCount =
    | OneOne
    | ActActIsda
    | Act365Actual
    | Act360
    | Act364
    | Act365
    | Act365_25
    | Nl365
    | Thirty360Isda
    | ThirtyU360
    | ThirtyE360Isda
    | ThirtyE360
    | ThirtyEPlus360
  {
    /** The unique name, which is also the string form of the convention:
        a day count over a year basis, written with a '/'. */
    function Name(): (name: string)
      ensures 3 <= |name| && '/' in name
    {
      match this
      case OneOne => "1/1"
      case ActActIsda => "Act/Act ISDA"
      case Act365Actual => "Act/365 Actual"
      case Act360 => "Act/360"
      case Act364 => "Act/364"
      case Act365 => "Act/365"
      case Act365_25 => "Act/365.25"
      case Nl365 => "NL/365"
      case Thirty360Isda => "30/360 ISDA"
      case ThirtyU360 => "30U/360"
      case ThirtyE360Isda => "30E/360 ISDA"
      case ThirtyE360 => "30E/360"
      case ThirtyEPlus360 => "30E+/360"
    }
  }

  /** The registered conventions, in declaration order. */
  const Standard: seq<DayCount> := [
    OneOne, ActActIsda, Act365Actual, Act360, Act364, Act365, Act365_25,
    Nl365, Thirty360Isda, ThirtyU360, ThirtyE360Isda, ThirtyE360, ThirtyEPlus360]

  /** The first convention of `conventions` named `name`, or UnknownName. */
  function Lookup(conventions: seq<DayCount>, name: string): (r: Result<DayCount>)
    ensures r.Success? ==> r.value in conventions && r.value.Name() == name
    ensures r.Failure? ==> r.error == UnknownName(name)
                           && forall c :: c in conventions ==> c.Name() != name
  {
    if |conventions| == 0 then Failure(UnknownName(name))
    else if conventions[0].Name() == name then Success(conventions[0])
    else Lookup(conventions[1..], name)
  }

  /** The convention with the given unique name. */
  function Of(uniqueName: string): (r: Result<DayCount>)
    ensures r.Success? ==> r.value.Name() == uniqueName
    ensures r.Failure? ==> r.error == UnknownName(uniqueName)
                           && forall c: DayCount :: c.Name() != uniqueName
  {
    StandardIsComplete();
    Lookup(Standard, uniqueName)
  }

  /** The registry holds thirteen conventions, none of them twice. */
  lemma StandardHasThirteenDistinct()
    ensures |Standard| == 13
    ensures forall i, j :: 0 <= i < j < |Standard| ==> Standard[i] != Standard[j]
  {
    forall i, j | 0 <= i < j < |Standard|
      ensures Standard[i] != Standard[j]
    {
      assert Standard[i].Name() != Standard[j].Name();
    }
  }

  lemma StandardIsComplete()
    ensures forall c: DayCount :: c in Standard
  {
    forall c: DayCount ensures c in Standard {
      match c
      case OneOne =>
      case ActActIsda =>
      case Act365Actual =>
      case Act360 =>
      case Act364 =>
      case Act365 =>
      case Act365_25 =>
      case Nl365 =>
      case Thirty360Isda =>
      case ThirtyU360 =>
      case ThirtyE360Isda =>
      case ThirtyE360 =>
      case ThirtyEPlus360 =>
    }
  }

  /** The 30/360 formula on (possibly adjusted) year, month and day values:
      a year counts 1, a month 1/12 and a day 1/360, and the fraction is
      the distance between the two dates on a calendar of twelve 30-day
      months. */
  function Thirty360(y1: int, m1: int, d1: int, y2: int, m2: int, d2: int): (r: real)
    ensures r == (Day360(y2, m2, d2) - Day360(y1, m1, d1)) as real / 360.0
    ensures m1 == m2 && d1 == d2 ==> r == (y2 - y1) as real
    ensures y1 == y2 && d1 == d2 ==> r == (m2 - m1) as real / 12.0
    ensures y1 == y2 && m1 == m2 ==> r == (d2 - d1) as real / 360.0
  {
    (360 * (y2 - y1) + 30 * (m2 - m1) + (d2 - d1)) as real / 360.0
  }

  /** The position of a day on a calendar of twelve 30-day months. */
  function Day360(year: int, month: int, day: int): int {
    360 * year + 30 * (month - 1) + (day - 1)
  }

  /** The 30/360 formula is additive over any intermediate (adjusted) date. */
  lemma Thirty360Additive(y1: int, m1: int, d1: int, y2: int, m2: int, d2: int, y3: int, m3: int, d3: int)
    ensures Thirty360(y1, m1, d1, y3, m3, d3)
            == Thirty360(y1, m1, d1, y2, m2, d2) + Thirty360(y2, m2, d2, y3, m3, d3)
  {
  }

  /** Rejects a second date that is before the first; equal dates pass. */
  function Check(firstDate: Date, secondDate: Date): (r: Result<()>)
    ensures r.Success? <==> EpochDay(firstDate) <= EpochDay(secondDate)
    ensures r.Failure? ==> r.error == DatesNotInOrder
  {
    if IsBefore(secondDate, firstDate) then Failure(DatesNotInOrder) else Success(())
  }

  /** The actual number of days from the first date to the second, rejected
      when negative. */
  function CheckGetActualDays(firstDate: Date, secondDate: Date): (r: Result<int>)
    ensures r.Success? <==> !IsBefore(secondDate, firstDate)
    ensures r.Success? ==> r.value >= 0 && EpochDay(firstDate) + r.value == EpochDay(secondDate)
    ensures r.Failure? ==> r.error == DatesNotInOrder
  {
    var actualDays := EpochDay(secondDate) - EpochDay(firstDate);
    if actualDays >= 0 then Success(actualDays) else Failure(DatesNotInOrder)
  }

  /** The date is the last day of February of its year: the 29th in a leap
      year, the 28th otherwise, and the day after it is in March. */
  predicate IsLastDayOfFebruary(d: Date)
    ensures IsLastDayOfFebruary(d) <==> d.month == 2 && NextDay(d).month == 3
    ensures IsLastDayOfFebruary(d) ==> (d.day == 29 <==> IsLeapYear(d.year)) && 28 <= d.day
  {
    d.month == 2 && d.day == LengthOfMonth(d.year, d.month)
  }

  /** The year fraction from `firstDate` to `secondDate` under `dayCount`.
      Every convention fails, and only fails, when the dates are out of
      order; it never swaps them. */
  function YearFraction(dayCount: DayCount, firstDate: Date, secondDate: Date, info: ScheduleInfo): (r: Result<real>)
    ensures r.Failure? <==> IsBefore(secondDate, firstDate)
    ensures r.Failure? ==> r.error == DatesNotInOrder
  {
    match dayCount
    case OneOne =>
      var _ :- Check(firstDate, secondDate);
      Success(1.0)
    case ActActIsda =>
      var _ :- Check(firstDate, secondDate);
      var y1 := firstDate.year;
      var y2 := secondDate.year;
      var firstYearLength := LengthOfYear(y1) as real;
      if y1 == y2 then
        var actualDays := (DayOfYear(secondDate) - DayOfYear(firstDate)) as real;
        Success(actualDays / firstYearLength)
      else
        var firstRemainderOfYear := firstYearLength - DayOfYear(firstDate) as real + 1.0;
        var secondRemainderOfYear := (DayOfYear(secondDate) - 1) as real;
        var secondYearLength := LengthOfYear(y2) as real;
        Success(firstRemainderOfYear / firstYearLength
                + secondRemainderOfYear / secondYearLength
                + (y2 - y1 - 1) as real)
    case Act365Actual =>
      var actualDays :- CheckGetActualDays(firstDate, secondDate);
      var nextLeap := NextLeapDay(firstDate);
      if IsAfter(nextLeap, secondDate) then Success(actualDays as real / 365.0)
      else Success(actualDays as real / 366.0)
    case Act360 =>
      var actualDays :- CheckGetActualDays(firstDate, secondDate);
      Success(actualDays as real / 360.0)
    case Act364 =>
      var actualDays :- CheckGetActualDays(firstDate, secondDate);
      Success(actualDays as real / 364.0)
    case Act365 =>
      var actualDays :- CheckGetActualDays(firstDate, secondDate);
      Success(actualDays as real / 365.0)
    case Act365_25 =>
      var actualDays :- CheckGetActualDays(firstDate, secondDate);
      Success(actualDays as real / 365.25)
    case Nl365 =>
      var actualDays :- CheckGetActualDays(firstDate, secondDate);
      Success((actualDays - LeapDaysIn(firstDate, secondDate)) as real / 365.0)
    case Thirty360Isda =>
      var _ :- Check(firstDate, secondDate);
      var d1 := if firstDate.day == 31 then 30 else firstDate.day;
      var d2 := if secondDate.day == 31 && d1 == 30 then 30 else secondDate.day;
      Success(Thirty360(firstDate.year, firstDate.month, d1, secondDate.year, secondDate.month, d2))
    case ThirtyU360 =>
      var _ :- Check(firstDate, secondDate);
      var lastFeb1 := IsLastDayOfFebruary(firstDate);
      var lastFeb2 := IsLastDayOfFebruary(secondDate);
      var endOfFebruary := info.isEndOfMonthConvention && lastFeb1;
      // the end-of-February rule sets the first day to 30, which the 31 rule leaves alone
      var d1 := if endOfFebruary || firstDate.day == 31 then 30 else firstDate.day;
      var d2 :=
        if endOfFebruary && lastFeb2 then 30
        else if secondDate.day == 31 && d1 == 30 then 30
        else secondDate.day;
      Success(Thirty360(firstDate.year, firstDate.month, d1, secondDate.year, secondDate.month, d2))
    case ThirtyE360Isda =>
      var _ :- Check(firstDate, secondDate);
      var lastFeb1 := IsLastDayOfFebruary(firstDate);
      var lastFeb2 := IsLastDayOfFebruary(secondDate);
      var d1 := if firstDate.day == 31 || lastFeb1 then 30 else firstDate.day;
      var d2 :=
        if secondDate.day == 31 || (lastFeb2 && !info.isScheduleEndDate(secondDate)) then 30
        else secondDate.day;
      Success(Thirty360(firstDate.year, firstDate.month, d1, secondDate.year, secondDate.month, d2))
    case ThirtyE360 =>
      var _ :- Check(firstDate, secondDate);
      var d1 := if firstDate.day == 31 then 30 else firstDate.day;
      var d2 := if secondDate.day == 31 then 30 else secondDate.day;
      Success(Thirty360(firstDate.year, firstDate.month, d1, secondDate.year, secondDate.month, d2))
    case ThirtyEPlus360 =>
      var _ :- Check(firstDate, secondDate);
      var d1 := if firstDate.day == 31 then 30 else firstDate.day;
      // a 31st becomes the 1st of the following month; month 13 needs no carry into the year
      var d2 := if secondDate.day == 31 then 1 else secondDate.day;
      var m2 := if secondDate.day == 31 then secondDate.month + 1 else secondDate.month;
      Success(Thirty360(firstDate.year, firstDate.month, d1, secondDate.year, m2, d2))
  }

  /** 'NL/365' as the source computes it: the leap days in (first, second]
      are counted by stepping from one 29 February to the next. */
  method Nl365Fraction(firstDate: Date, secondDate: Date, info: ScheduleInfo) returns (r: Result<real>)
    ensures r == YearFraction(Nl365, firstDate, secondDate, info)
  {
    var checked := CheckGetActualDays(firstDate, secondDate);
    if checked.Failure? {
      return Failure(checked.error);
    }
    var actualDays := checked.value;
    var numberOfLeapDays := 0;
    var temp := NextLeapDay(firstDate);
    ghost var previous := firstDate;
    while !IsAfter(temp, secondDate)
      invariant EpochDay(firstDate) <= EpochDay(previous) <= EpochDay(secondDate)
      invariant temp == NextLeapDay(previous)
      invariant numberOfLeapDays == LeapDaysIn(firstDate, previous)
      decreases EpochDay(secondDate) - EpochDay(temp)
    {
      LeapDaysStepToNext(firstDate, previous);
      numberOfLeapDays := numberOfLeapDays + 1;
      previous := temp;
      temp := NextLeapDay(temp);
    }
    LeapDaysNoneBeyond(firstDate, previous, secondDate);
    Nl365Value(firstDate, secondDate, info, actualDays, numberOfLeapDays);
    r := Success((actualDays - numberOfLeapDays) as real / 365.0);
  }

  /** The 'Act/365 Actual' fraction of an ordered pair: actual days over 365,
      or over 366 when the next 29 February is not after the second date. */
  lemma Act365ActualValue(firstDate: Date, secondDate: Date, info: ScheduleInfo, actualDays: int)
    requires EpochDay(firstDate) <= EpochDay(secondDate)
    requires actualDays == EpochDay(secondDate) - EpochDay(firstDate)
    ensures IsAfter(NextLeapDay(firstDate), secondDate)
            ==> YearFraction(Act365Actual, firstDate, secondDate, info) == Success(actualDays as real / 365.0)
    ensures !IsAfter(NextLeapDay(firstDate), secondDate)
            ==> YearFraction(Act365Actual, firstDate, secondDate, info) == Success(actualDays as real / 366.0)
  {
    assert CheckGetActualDays(firstDate, secondDate) == Success(actualDays);
  }

  /** The 'NL/365' fraction of an ordered pair: actual days less leap days, over 365. */
  lemma Nl365Value(firstDate: Date, secondDate: Date, info: ScheduleInfo, actualDays: int, leapDays: int)
    requires EpochDay(firstDate) <= EpochDay(secondDate)
    requires actualDays == EpochDay(secondDate) - EpochDay(firstDate)
    requires leapDays == LeapDaysIn(firstDate, secondDate)
    ensures YearFraction(Nl365, firstDate, secondDate, info) == Success((actualDays - leapDays) as real / 365.0)
  {
    assert CheckGetActualDays(firstDate, secondDate) == Success(actualDays);
  }

  /** '30/360 ISDA' as the source computes it, adjusting the days in place. */
  method Thirty360IsdaFraction(firstDate: Date, secondDate: Date, info: ScheduleInfo) returns (r: Result<real>)
    ensures r == YearFraction(Thirty360Isda, firstDate, secondDate, info)
  {
    var checked := Check(firstDate, secondDate);
    if checked.Failure? {
      return Failure(checked.error);
    }
    var d1 := firstDate.day;
    var d2 := secondDate.day;
    if d1 == 31 {
      d1 := 30;
    }
    if d2 == 31 && d1 == 30 {
      d2 := 30;
    }
    r := Success(Thirty360(firstDate.year, firstDate.month, d1, secondDate.year, secondDate.month, d2));
  }

  /** '30U/360' as the source computes it, adjusting the days in place. */
  method ThirtyU360Fraction(firstDate: Date, secondDate: Date, info: ScheduleInfo) returns (r: Result<real>)
    ensures r == YearFraction(ThirtyU360, firstDate, secondDate, info)
  {
    var checked := Check(firstDate, secondDate);
    if checked.Failure? {
      return Failure(checked.error);
    }
    var d1 := firstDate.day;
    var d2 := secondDate.day;
    var lastFeb1 := IsLastDayOfFebruary(firstDate);
    var lastFeb2 := IsLastDayOfFebruary(secondDate);
    if info.isEndOfMonthConvention && lastFeb1 {
      if lastFeb2 {
        d2 := 30;
      }
      d1 := 30;
    }
    if d1 == 31 {
      d1 := 30;
    }
    if d2 == 31 && d1 == 30 {
      d2 := 30;
    }
    r := Success(Thirty360(firstDate.year, firstDate.month, d1, secondDate.year, secondDate.month, d2));
  }

  /** '30E/360 ISDA' as the source computes it, adjusting the days in place. */
  method ThirtyE360IsdaFraction(firstDate: Date, secondDate: Date, info: ScheduleInfo) returns (r: Result<real>)
    ensures r == YearFraction(ThirtyE360Isda, firstDate, secondDate, info)
  {
    var checked := Check(firstDate, secondDate);
    if checked.Failure? {
      return Failure(checked.error);
    }
    var d1 := firstDate.day;
    var d2 := secondDate.day;
    var lastFeb1 := IsLastDayOfFebruary(firstDate);
    var lastFeb2 := IsLastDayOfFebruary(secondDate);
    if d1 == 31 || lastFeb1 {
      d1 := 30;
    }
    if d2 == 31 || (lastFeb2 && !info.isScheduleEndDate(secondDate)) {
      d2 := 30;
    }
    r := Success(Thirty360(firstDate.year, firstDate.month, d1, secondDate.year, secondDate.month, d2));
  }

  /** '30E/360' as the source computes it, adjusting the days in place. */
  method ThirtyE360Fraction(firstDate: Date, secondDate: Date, info: ScheduleInfo) returns (r: Result<real>)
    ensures r == YearFraction(ThirtyE360, firstDate, secondDate, info)
  {
    var checked := Check(firstDate, secondDate);
    if checked.Failure? {
      return Failure(checked.error);
    }
    var d1 := firstDate.day;
    var d2 := secondDate.day;
    if d1 == 31 {
      d1 := 30;
    }
    if d2 == 31 {
      d2 := 30;
    }
    r := Success(Thirty360(firstDate.year, firstDate.month, d1, secondDate.year, secondDate.month, d2));
  }

  /** '30E+/360' as the source computes it, adjusting the day and month in place. */
  method ThirtyEPlus360Fraction(firstDate: Date, secondDate: Date, info: ScheduleInfo) returns (r: Result<real>)
    ensures r == YearFraction(ThirtyEPlus360, firstDate, secondDate, info)
  {
    var checked := Check(firstDate, secondDate);
    if checked.Failure? {
      return Failure(checked.error);
    }
    var d1 := firstDate.day;
    var d2 := secondDate.day;
    var m1 := firstDate.month;
    var m2 := secondDate.month;
    if d1 == 31 {
      d1 := 30;
    }
    if d2 == 31 {
      d2 := 1;
      m2 := m2 + 1;
    }
    r := Success(Thirty360(firstDate.year, m1, d1, secondDate.year, m2, d2));
  }

  /** The year fraction as each convention's own code computes it: 'NL/365'
      and the 30/360 variants step by step, the others as single expressions. */
  method GetDayCountFraction(dayCount: DayCount, firstDate: Date, secondDate: Date, info: ScheduleInfo)
    returns (r: Result<real>)
    ensures r == YearFraction(dayCount, firstDate, secondDate, info)
  {
    match dayCount {
      case Nl365 =>
        r := Nl365Fraction(firstDate, secondDate, info);
      case Thirty360Isda =>
        r := Thirty360IsdaFraction(firstDate, secondDate, info);
      case ThirtyU360 =>
        r := ThirtyU360Fraction(firstDate, secondDate, info);
      case ThirtyE360Isda =>
        r := ThirtyE360IsdaFraction(firstDate, secondDate, info);
      case ThirtyE360 =>
        r := ThirtyE360Fraction(firstDate, secondDate, info);
      case ThirtyEPlus360 =>
        r := ThirtyEPlus360Fraction(firstDate, secondDate, info);
      case _ =>
        r := YearFraction(dayCount, firstDate, secondDate, info);
    }
  }
}
