/** What the conventions promise, stated over all ordered date pairs. */
module DayCountProperties {
  import opened Dates
  import opened LeapDays
  import opened DayCounts

  // ---------------------------------------------------------------------
  // 1/1 and the fixed-denominator actual conventions

  /** '1/1' is one for every ordered pair, equal dates included. */
  lemma OneOneIsOne(firstDate: Date, secondDate: Date, info: ScheduleInfo)
    requires !IsBefore(secondDate, firstDate)
    ensures YearFraction(OneOne, firstDate, secondDate, info) == Success(1.0)
  {
  }

  /** 'Act/360', 'Act/364', 'Act/365' and 'Act/365.25' divide the actual
      days by a fixed denominator; the fraction is never negative and is
      zero exactly on equal dates. */
  lemma ActualOverFixedDenominator(dayCount: DayCount, denominator: real, firstDate: Date, secondDate: Date, info: ScheduleInfo)
    requires (dayCount, denominator) in {(Act360, 360.0), (Act364, 364.0), (Act365, 365.0), (Act365_25, 365.25)}
    requires !IsBefore(secondDate, firstDate)
    ensures YearFraction(dayCount, firstDate, secondDate, info)
            == Success((EpochDay(secondDate) - EpochDay(firstDate)) as real / denominator)
    ensures YearFraction(dayCount, firstDate, secondDate, info).value >= 0.0
    ensures YearFraction(dayCount, firstDate, secondDate, info).value == 0.0 <==> firstDate == secondDate
  {
    if EpochDay(firstDate) == EpochDay(secondDate) {
      EpochDayInjective(firstDate, secondDate);
    }
  }

  // ---------------------------------------------------------------------
  // Act/Act ISDA: each day of the period weighs 1 / (length of its year)

  /** Reference definition: the sum over every day of [a, b) of one over the
      length of that day's year (first day included, last excluded). */
  function ActActDailySum(a: Date, b: Date): (s: real)
    requires EpochDay(a) <= EpochDay(b)
    ensures s >= 0.0
    ensures s == 0.0 <==> a == b
    decreases EpochDay(b) - EpochDay(a)
  {
    if a == b then 0.0
    else
      EpochDayInjective(a, b);
      NextDayIsOneLater(a);
      1.0 / LengthOfYear(a.year) as real + ActActDailySum(NextDay(a), b)
  }

  /** Adding day counts over the same year length. */
  lemma SumOverSameLength(x: int, y: int, len: int)
    requires len > 0
    ensures x as real / len as real + y as real / len as real == (x + y) as real / len as real
  {
  }

  lemma WholeOverSameLength(len: int)
    requires len > 0
    ensures (len - 1 + 1) as real / len as real == 1.0
  {
  }

  lemma {:induction false} DailySumAdditive(a: Date, b: Date, c: Date)
    requires EpochDay(a) <= EpochDay(b) <= EpochDay(c)
    ensures ActActDailySum(a, c) == ActActDailySum(a, b) + ActActDailySum(b, c)
    decreases EpochDay(b) - EpochDay(a)
  {
    if a != b {
      EpochDayInjective(a, b);
      NextDayIsOneLater(a);
      DailySumAdditive(NextDay(a), b, c);
    }
  }

  /** Within one year the sum is the day-of-year difference over the year length. */
  lemma {:induction false} DailySumWithinYear(a: Date, b: Date)
    requires a.year == b.year && EpochDay(a) <= EpochDay(b)
    ensures ActActDailySum(a, b) == (DayOfYear(b) - DayOfYear(a)) as real / LengthOfYear(a.year) as real
    decreases EpochDay(b) - EpochDay(a)
  {
    if a != b {
      EpochDayInjective(a, b);
      NextDayIsOneLater(a);
      var next := NextDay(a);
      if next.year != a.year {
        YearStartStep(a.year);
        assert false;
      }
      DailySumWithinYear(next, b);
      SumOverSameLength(1, DayOfYear(b) - DayOfYear(next), LengthOfYear(a.year));
    }
  }

  /** From a date to the next 1 January: the days left in its year over the year length. */
  lemma {:induction false} DailySumToYearEnd(a: Date)
    ensures EpochDay(a) < EpochDay(StartOfYear(a.year + 1))
    ensures ActActDailySum(a, StartOfYear(a.year + 1))
            == (LengthOfYear(a.year) - DayOfYear(a) + 1) as real / LengthOfYear(a.year) as real
    decreases LengthOfYear(a.year) - DayOfYear(a)
  {
    YearStartStep(a.year);
    NextDayIsOneLater(a);
    var next := NextDay(a);
    var start := StartOfYear(a.year + 1);
    var len := LengthOfYear(a.year);
    var rest := len - DayOfYear(a);
    assert ActActDailySum(a, start) == 1.0 / len as real + ActActDailySum(next, start);
    if next.year != a.year {
      assert next == start && rest == 0;
    } else {
      assert ActActDailySum(next, start) == rest as real / len as real by {
        assert DayOfYear(next) == DayOfYear(a) + 1;
        DailySumToYearEnd(next);
      }
      SumOverSameLength(rest, 1, len);
    }
  }

  /** Whole calendar years count one each. */
  lemma {:induction false} DailySumWholeYears(fromYear: int, toYear: int)
    requires fromYear <= toYear
    ensures EpochDay(StartOfYear(fromYear)) <= EpochDay(StartOfYear(toYear))
    ensures ActActDailySum(StartOfYear(fromYear), StartOfYear(toYear)) == (toYear - fromYear) as real
    decreases toYear - fromYear
  {
    if fromYear < toYear {
      var first, last, end := StartOfYear(fromYear), StartOfYear(toYear - 1), StartOfYear(toYear);
      DailySumWholeYears(fromYear, toYear - 1);
      DailySumToYearEnd(last);
      assert last.year + 1 == toYear;
      WholeOverSameLength(LengthOfYear(last.year));
      assert ActActDailySum(last, end) == 1.0;
      DailySumAdditive(first, last, end);
    }
  }

  /** Across years the sum splits into the rest of the first year, the
      whole years between, and the start of the last year. */
  lemma DailySumAcrossYears(a: Date, b: Date)
    requires EpochDay(a) <= EpochDay(b) && a.year < b.year
    ensures ActActDailySum(a, b)
            == (LengthOfYear(a.year) - DayOfYear(a) + 1) as real / LengthOfYear(a.year) as real
               + (b.year - a.year - 1) as real
               + (DayOfYear(b) - 1) as real / LengthOfYear(b.year) as real
  {
    var start1 := StartOfYear(a.year + 1);
    var start2 := StartOfYear(b.year);
    assert EpochDay(a) < EpochDay(start1)
           && ActActDailySum(a, start1)
              == (LengthOfYear(a.year) - DayOfYear(a) + 1) as real / LengthOfYear(a.year) as real by {
      DailySumToYearEnd(a);
    }
    assert EpochDay(start1) <= EpochDay(start2)
           && ActActDailySum(start1, start2) == (b.year - a.year - 1) as real by {
      DailySumWholeYears(a.year + 1, b.year);
    }
    assert EpochDay(start2) <= EpochDay(b)
           && ActActDailySum(start2, b) == (DayOfYear(b) - 1) as real / LengthOfYear(b.year) as real by {
      DailySumWithinYear(start2, b);
    }
    assert ActActDailySum(a, b)
           == ActActDailySum(a, start1) + ActActDailySum(start1, start2) + ActActDailySum(start2, b) by {
      DailySumAdditive(start1, start2, b);
      DailySumAdditive(a, start1, b);
    }
  }

  /** 'Act/Act ISDA' is the daily sum: days falling in a leap year count
      1/366 each, the others 1/365; so it is zero exactly on equal dates. */
  lemma ActActIsdaIsDailySum(firstDate: Date, secondDate: Date, info: ScheduleInfo)
    requires !IsBefore(secondDate, firstDate)
    ensures YearFraction(ActActIsda, firstDate, secondDate, info) == Success(ActActDailySum(firstDate, secondDate))
    ensures YearFraction(ActActIsda, firstDate, secondDate, info).value == 0.0 <==> firstDate == secondDate
  {
    if firstDate.year == secondDate.year {
      assert YearFraction(ActActIsda, firstDate, secondDate, info)
             == Success((DayOfYear(secondDate) - DayOfYear(firstDate)) as real / LengthOfYear(firstDate.year) as real);
      DailySumWithinYear(firstDate, secondDate);
    } else {
      assert YearFraction(ActActIsda, firstDate, secondDate, info)
             == Success((LengthOfYear(firstDate.year) - DayOfYear(firstDate) + 1) as real / LengthOfYear(firstDate.year) as real
                        + (DayOfYear(secondDate) - 1) as real / LengthOfYear(secondDate.year) as real
                        + (secondDate.year - firstDate.year - 1) as real);
      DailySumAcrossYears(firstDate, secondDate);
    }
  }

  /** 'Act/Act ISDA' is additive across any intermediate date. */
  lemma ActActIsdaAdditive(a: Date, b: Date, c: Date, info: ScheduleInfo)
    requires !IsBefore(b, a) && !IsBefore(c, b)
    ensures YearFraction(ActActIsda, a, c, info).value
            == YearFraction(ActActIsda, a, b, info).value + YearFraction(ActActIsda, b, c, info).value
  {
    ActActIsdaIsDailySum(a, c, info);
    ActActIsdaIsDailySum(a, b, info);
    ActActIsdaIsDailySum(b, c, info);
    DailySumAdditive(a, b, c);
  }

  // ---------------------------------------------------------------------
  // Conventions that look for 29 February

  /** 'Act/365 Actual' divides by 366 exactly when a 29 February lies in
      (first, second], and by 365 otherwise. */
  lemma Act365ActualDenominator(firstDate: Date, secondDate: Date, info: ScheduleInfo)
    requires !IsBefore(secondDate, firstDate)
    ensures LeapDaysIn(firstDate, secondDate) == 0
            ==> YearFraction(Act365Actual, firstDate, secondDate, info)
                == Success((EpochDay(secondDate) - EpochDay(firstDate)) as real / 365.0)
    ensures LeapDaysIn(firstDate, secondDate) > 0
            ==> YearFraction(Act365Actual, firstDate, secondDate, info)
                == Success((EpochDay(secondDate) - EpochDay(firstDate)) as real / 366.0)
  {
    var actualDays := EpochDay(secondDate) - EpochDay(firstDate);
    Act365ActualValue(firstDate, secondDate, info, actualDays);
    NextLeapDayWithin(firstDate, secondDate);
    if LeapDaysIn(firstDate, secondDate) > 0 {
      assert !IsAfter(NextLeapDay(firstDate), secondDate);
    } else {
      assert IsAfter(NextLeapDay(firstDate), secondDate);
    }
  }

  /** Two consecutive days are never both 29 February, so a span of two or
      more days has fewer leap days than days. */
  lemma LeapDaysFewerThanDays(a: Date, b: Date)
    requires EpochDay(a) + 2 <= EpochDay(b)
    ensures LeapDaysIn(a, b) < EpochDay(b) - EpochDay(a)
  {
    NextDayIsOneLater(a);
    var next := NextDay(a);
    NextDayIsOneLater(next);
    var after := NextDay(next);
    LeapDaysInStep(a, b);
    LeapDaysInStep(next, b);
    LeapDaysAfterAtMost(after, EpochDay(b) - EpochDay(after));
  }

  /** A whole number of days over 365 is never negative for a non-negative
      count, and zero only for zero days. */
  lemma OverNoLeapYear(n: int)
    ensures n as real / 365.0 >= 0.0 <==> n >= 0
    ensures n as real / 365.0 == 0.0 <==> n == 0
  {
  }

  /** 'NL/365' leaves out each 29 February in (first, second]: the numerator
      is never negative, and the fraction is zero only for equal dates or a
      one-day period ending on 29 February. */
  lemma Nl365OmitsLeapDays(firstDate: Date, secondDate: Date, info: ScheduleInfo)
    requires !IsBefore(secondDate, firstDate)
    ensures YearFraction(Nl365, firstDate, secondDate, info).value >= 0.0
    ensures YearFraction(Nl365, firstDate, secondDate, info).value == 0.0
            <==> firstDate == secondDate
                 || (EpochDay(secondDate) == EpochDay(firstDate) + 1 && IsLeapDay(secondDate))
  {
    var days := EpochDay(secondDate) - EpochDay(firstDate);
    var leapDays := LeapDaysIn(firstDate, secondDate);
    Nl365Value(firstDate, secondDate, info, days, leapDays);
    if days == 0 {
      EpochDayInjective(firstDate, secondDate);
    } else if days == 1 {
      LeapDaysInStep(firstDate, secondDate);
      EpochDayInjective(NextDay(firstDate), secondDate);
    } else {
      LeapDaysFewerThanDays(firstDate, secondDate);
    }
    assert days - leapDays == 0 <==> firstDate == secondDate || (days == 1 && IsLeapDay(secondDate));
    OverNoLeapYear(days - leapDays);
  }

  // ---------------------------------------------------------------------
  // The 30/360 family

  /** Away from the 31st and the end of February every 30/360 variant
      applies the shared formula to the unadjusted dates. */
  lemma ThirtyFamilyAgree(dayCount: DayCount, firstDate: Date, secondDate: Date, info: ScheduleInfo)
    requires dayCount in {Thirty360Isda, ThirtyU360, ThirtyE360Isda, ThirtyE360, ThirtyEPlus360}
    requires !IsBefore(secondDate, firstDate)
    requires firstDate.day != 31 && secondDate.day != 31
    requires !IsLastDayOfFebruary(firstDate) && !IsLastDayOfFebruary(secondDate)
    ensures YearFraction(dayCount, firstDate, secondDate, info)
            == Success(Thirty360(firstDate.year, firstDate.month, firstDate.day,
                                 secondDate.year, secondDate.month, secondDate.day))
  {
  }

  /** Four of the five 30/360 variants never give a negative fraction for
      ordered dates ('30E/360 ISDA' can, see below). */
  lemma ThirtyNonNegative(dayCount: DayCount, firstDate: Date, secondDate: Date, info: ScheduleInfo)
    requires dayCount in {Thirty360Isda, ThirtyU360, ThirtyE360, ThirtyEPlus360}
    requires !IsBefore(secondDate, firstDate)
    ensures YearFraction(dayCount, firstDate, secondDate, info).value >= 0.0
  {
    if dayCount == ThirtyU360 && info.isEndOfMonthConvention && IsLastDayOfFebruary(firstDate)
       && secondDate.year == firstDate.year && secondDate.month == 2 {
      assert IsLastDayOfFebruary(secondDate);
    }
  }

  /** '30E/360' only turns a 31st into the 30th: it is the shared formula on
      both days capped at 30. */
  lemma ThirtyE360CapsDaysAtThirty(firstDate: Date, secondDate: Date, info: ScheduleInfo)
    requires !IsBefore(secondDate, firstDate)
    ensures YearFraction(ThirtyE360, firstDate, secondDate, info)
            == Success(Thirty360(firstDate.year, firstDate.month, Min(firstDate.day, 30),
                                 secondDate.year, secondDate.month, Min(secondDate.day, 30)))
  {
  }

  function Min(a: int, b: int): int {
    if a <= b then a else b
  }

  /** '30/360 ISDA' exceeds '30E/360' by one day exactly when the second
      day is a 31st and the first day is before the 30th: only then does it
      keep the 31st. */
  lemma ThirtyIsdaVersusE(firstDate: Date, secondDate: Date, info: ScheduleInfo)
    requires !IsBefore(secondDate, firstDate)
    ensures YearFraction(Thirty360Isda, firstDate, secondDate, info).value
            == YearFraction(ThirtyE360, firstDate, secondDate, info).value
               + (if secondDate.day == 31 && firstDate.day < 30 then 1.0 else 0.0) / 360.0
  {
  }

  /** '30U/360' is '30/360 ISDA' unless the end-of-month convention applies
      and the first date is the last day of February. */
  lemma ThirtyUAgreesWithIsda(firstDate: Date, secondDate: Date, info: ScheduleInfo)
    requires !IsBefore(secondDate, firstDate)
    requires !info.isEndOfMonthConvention || !IsLastDayOfFebruary(firstDate)
    ensures YearFraction(ThirtyU360, firstDate, secondDate, info)
            == YearFraction(Thirty360Isda, firstDate, secondDate, info)
  {
  }

  /** Under the end-of-month convention, from one last day of February to
      another '30U/360' counts whole years only. */
  lemma ThirtyUEndOfFebruary(firstDate: Date, secondDate: Date, info: ScheduleInfo)
    requires !IsBefore(secondDate, firstDate)
    requires info.isEndOfMonthConvention
    requires IsLastDayOfFebruary(firstDate) && IsLastDayOfFebruary(secondDate)
    ensures YearFraction(ThirtyU360, firstDate, secondDate, info)
            == Success((secondDate.year - firstDate.year) as real)
  {
  }

  /** '30E/360 ISDA' differs from '30E/360' only at the end of February:
      the first date is moved up to the 30th, and the second one too unless
      it is the schedule's end date. */
  lemma ThirtyEIsdaVersusE(firstDate: Date, secondDate: Date, info: ScheduleInfo)
    requires !IsBefore(secondDate, firstDate)
    ensures YearFraction(ThirtyE360Isda, firstDate, secondDate, info).value
            == YearFraction(ThirtyE360, firstDate, secondDate, info).value
               + ((if IsLastDayOfFebruary(secondDate) && !info.isScheduleEndDate(secondDate)
                   then 30 - secondDate.day else 0)
                  - (if IsLastDayOfFebruary(firstDate) then 30 - firstDate.day else 0)) as real / 360.0
  {
  }

  /** '30E/360 ISDA' is negative on a zero-length period ending on the
      schedule's end date when that date is 28 February of a common year. */
  lemma ThirtyEIsdaNegativeAtScheduleEnd(info: ScheduleInfo)
    requires info.isScheduleEndDate(CalendarDate(2021, 2, 28))
    ensures YearFraction(ThirtyE360Isda, CalendarDate(2021, 2, 28), CalendarDate(2021, 2, 28), info)
            == Success(-2.0 / 360.0)
  {
  }

  /** '30E+/360' rolls a second-date 31st to the 1st of the next month
      (month 13 after December), which is one day more than '30E/360'. */
  lemma ThirtyEPlusVersusE(firstDate: Date, secondDate: Date, info: ScheduleInfo)
    requires !IsBefore(secondDate, firstDate)
    ensures YearFraction(ThirtyEPlus360, firstDate, secondDate, info).value
            == YearFraction(ThirtyE360, firstDate, secondDate, info).value
               + (if secondDate.day == 31 then 1.0 else 0.0) / 360.0
  {
  }

  /** '30E+/360' is not zero on equal dates that fall on a 31st. */
  lemma ThirtyEPlusSameThirtyFirst(date: Date, info: ScheduleInfo)
    requires date.day == 31
    ensures YearFraction(ThirtyEPlus360, date, date, info) == Success(1.0 / 360.0)
  {
  }

  // ---------------------------------------------------------------------
  // Names

  /** No two conventions share a name. */
  lemma NamesAreUnique(a: DayCount, b: DayCount)
    requires a.Name() == b.Name()
    ensures a == b
  {
  }

  /** Looking up a convention's name gives that convention back. */
  lemma OfName(dayCount: DayCount)
    ensures Of(dayCount.Name()) == Success(dayCount)
  {
    NamesAreUnique(Of(dayCount.Name()).value, dayCount);
  }

  // ---------------------------------------------------------------------
  // Worked scenarios

  /** 181 days over 360. */
  lemma Act360FirstHalfOf2021(info: ScheduleInfo)
    ensures YearFraction(Act360, CalendarDate(2021, 1, 1), CalendarDate(2021, 7, 1), info)
            == Success(181.0 / 360.0)
  {
  }

  /** The fixed denominator ignores that 2020 is a leap year. */
  lemma Act365OverLeapYear2020(info: ScheduleInfo)
    ensures YearFraction(Act365, CalendarDate(2020, 1, 1), CalendarDate(2021, 1, 1), info)
            == Success(366.0 / 365.0)
  {
  }

  /** The 31st is moved to the 30th; 28 February is left alone. */
  lemma ThirtyE360JanuaryToFebruary(info: ScheduleInfo)
    ensures YearFraction(ThirtyE360, CalendarDate(2021, 1, 31), CalendarDate(2021, 2, 28), info)
            == Success(28.0 / 360.0)
  {
  }

  /** 31 days of 2019 over 365 and 31 days of 2020 over 366. */
  lemma ActActIsdaAcrossNewYear(info: ScheduleInfo)
    ensures YearFraction(ActActIsda, CalendarDate(2019, 12, 1), CalendarDate(2020, 2, 1), info)
            == Success(31.0 / 365.0 + 31.0 / 366.0)
  {
  }

  /** Reversed dates are refused by every convention. */
  lemma ReversedDatesRefused(dayCount: DayCount, info: ScheduleInfo)
    ensures YearFraction(dayCount, CalendarDate(2020, 3, 1), CalendarDate(2020, 1, 1), info)
            == Failure(DatesNotInOrder)
  {
  }

  /** A known name is found and an unknown one is refused. */
  lemma LookupScenarios()
    ensures Of("Act/360") == Success(Act360)
    ensures Of("Nonexistent") == Failure(UnknownName("Nonexistent"))
  {
    OfName(Act360);
    forall c: DayCount ensures c.Name() != "Nonexistent" {
      match c
      case OneOne =>
      case ActActIsda =>
      case Act365Actual =>
      case Act360 =>
      case Act364 =>
      case Act365 =>
      case Act365_25 =>
      case Nl365 =>
      case Thirty360Isda =>
      case ThirtyU360 =>
      case ThirtyE360Isda =>
      case ThirtyE360 =>
      case ThirtyEPlus360 =>
    }
  }
}
