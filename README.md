# Day count conventions, modelled in Dafny

This project models the day count engine of OpenGamma Strata's
`DayCounts` class. A day count convention turns an ordered pair of dates
into the year fraction used to accrue interest. The model covers:

- the thirteen built-in conventions of the `Standard` enum: `1/1`,
  `Act/Act ISDA`, `Act/365 Actual`, `Act/360`, `Act/364`, `Act/365`,
  `Act/365.25`, `NL/365`, `30/360 ISDA`, `30U/360`, `30E/360 ISDA`,
  `30E/360` and `30E+/360`;
- their names and the lookup of a convention by name;
- the input checks (`check`, `checkGetActualDays`);
- the shared 30/360 formula (`thirty360`).

The project has five files:

- `dates.dfy` (module `Dates`) holds a proleptic Gregorian date.
  - It has the leap-year rule, month and year lengths, day-of-year and an
    epoch-day number counting from 1970-01-01.
  - Chronological order is the year-month-day comparison. It is proved to
    agree with the epoch-day order.
  - `NextDay` steps one calendar day, proved to be one epoch day later.
- `leap_days.dfy` (module `LeapDays`) holds the leap-day helpers.
  - `NextLeapDay` gives the first 29 February strictly after a date.
  - `LeapDaysIn` is a reference definition: it counts the 29 Februarys in
    (a, b] one day at a time.
- `day_counts.dfy` (module `DayCounts`) holds the conventions.
  - The conventions form a datatype, and `Name()` gives each one's name.
  - `YearFraction` states each convention's fraction as a function.
  - The conventions the source computes step by step are methods:
    - `NL/365`, whose loop jumps from one leap day to the next;
    - the five 30/360 variants, which reassign their day and month
      variables through `if` statements.
    - Each method is proved equal to `YearFraction`.
- `day_count_properties.dfy` (module `DayCountProperties`) holds what the
  conventions promise, as lemmas over all inputs:
  - `Act/Act ISDA` is proved equal to a reference sum of 1/(year length)
    over the days of the period.
  - `Act/365 Actual` and `NL/365` are proved against the leap-day count.
  - The 30/360 variants are related to each other.
  - Worked scenarios check a few concrete values.
- `findings.dfy` (module `Thirty360Overflow`) models `thirty360` in 32-bit
  arithmetic, as written. It exhibits the overflow listed under Findings.

Year fractions are exact reals. A failure is a `Result` value:

- `DatesNotInOrder` stands for the "Dates must be in order" argument error;
- `UnknownName` stands for a lookup of a name that no convention has.

A schedule is represented by `ScheduleInfo`, which carries two things:

- the end-of-month flag;
- the `isScheduleEndDate` predicate.

A year fraction is commonly expected to be zero for a zero-length period
and never negative. The code does not ensure either, and the model follows
the code:

- `30E/360 ISDA` gives a negative fraction, -2/360, from 28 February 2021
  to itself when that date is the schedule's end date
  (`ThirtyEIsdaNegativeAtScheduleEnd`).
- `30E+/360` gives a non-zero fraction, 1/360, on a zero-length period
  whose date falls on a 31st (`ThirtyEPlusSameThirtyFirst`).
- Non-negativity is proved only where it holds:
  - the fixed-denominator conventions;
  - `NL/365`;
  - the other four 30/360 variants.

## Model

| member | source | states |
|---|---|---|
| `DayCounts.Check` | basics/src/main/java/com/opengamma/basics/date/DayCounts.java:421-426 | succeeds exactly when the second date is not before the first (equal dates pass); otherwise fails with "Dates must be in order" |
| `DayCounts.CheckGetActualDays` | basics/src/main/java/com/opengamma/basics/date/DayCounts.java:411-418 | succeeds exactly when the dates are in order; the value is the non-negative epoch-day difference; otherwise fails with "Dates must be in order" |
| `DayCounts.Lookup` | basics/src/main/java/com/opengamma/basics/date/DayCounts.java:192-195 | a found convention is in the list and has the name asked for; a failure means no convention in the list has that name |
| `DayCounts.Of` | basics/src/main/java/com/opengamma/basics/date/DayCounts.java:192-195 | the convention returned has the unique name asked for; an unknown name fails, and then no convention at all has that name |
| `DayCounts.StandardIsComplete` | basics/src/main/java/com/opengamma/basics/date/DayCounts.java:208-395 | every one of the thirteen conventions is registered for lookup |
| `DayCounts.YearFraction` | basics/src/main/java/com/opengamma/basics/date/DayCounts.java:208-395 | every convention fails, and fails only, when the second date is before the first, with "Dates must be in order"; it never swaps the dates |
| `DayCounts.DayCount.Name` | basics/src/main/java/com/opengamma/basics/date/DayCounts.java:428-436 | each convention's `getName()` and `toString()` is its constructor's name, a day count over a year basis written with a '/' (uniqueness and the lookup round trip are `NamesAreUnique` and `OfName`) |
| `DayCounts.StandardHasThirteenDistinct` | basics/src/main/java/com/opengamma/basics/date/DayCounts.java:208-395 | the registry of built-in conventions holds thirteen conventions, none of them twice |
| `DayCounts.Thirty360` | basics/src/main/java/com/opengamma/basics/date/DayCounts.java:405-408 | the shared formula is the distance between the two dates on a calendar of twelve 30-day months, over 360: a year counts 1, a month 1/12, a day 1/360 |
| `DayCounts.Thirty360Additive` | basics/src/main/java/com/opengamma/basics/date/DayCounts.java:405-408 | the shared formula is additive over any intermediate (adjusted) date |
| `DayCounts.IsLastDayOfFebruary` | basics/src/main/java/com/opengamma/basics/date/DayCounts.java:318-319 | `lastFeb1`/`lastFeb2` hold exactly when the date is in February and the next day is in March; that day is the 29th exactly in a leap year |
| `DayCounts.Nl365Fraction` | basics/src/main/java/com/opengamma/basics/date/DayCounts.java:280-292 | the source's loop stepping from one 29 February to the next terminates, and its count equals the number of 29 Februarys in (first, second]; the result is (actual days - leap days) / 365 |
| `DayCounts.Thirty360IsdaFraction` | basics/src/main/java/com/opengamma/basics/date/DayCounts.java:294-310 | the step-by-step day adjustment (31 to 30 for the first day; 31 to 30 for the second only when the adjusted first day is 30) gives the 30/360 ISDA fraction |
| `DayCounts.ThirtyU360Fraction` | basics/src/main/java/com/opengamma/basics/date/DayCounts.java:312-336 | the step-by-step adjustment, with the end-of-February rule before the 31st rules, gives the 30U/360 fraction |
| `DayCounts.ThirtyE360IsdaFraction` | basics/src/main/java/com/opengamma/basics/date/DayCounts.java:338-356 | the step-by-step adjustment of 31sts and last days of February (the second only when it is not the schedule end) gives the 30E/360 ISDA fraction |
| `DayCounts.ThirtyE360Fraction` | basics/src/main/java/com/opengamma/basics/date/DayCounts.java:358-374 | the step-by-step 31-to-30 adjustment of both days gives the 30E/360 fraction |
| `DayCounts.ThirtyEPlus360Fraction` | basics/src/main/java/com/opengamma/basics/date/DayCounts.java:376-395 | the step-by-step adjustment, which moves a second-date 31st to day 1 of the next month, gives the 30E+/360 fraction |
| `DayCounts.GetDayCountFraction` | basics/src/main/java/com/opengamma/basics/date/DayCounts.java:208-395 | each convention's own computation gives that convention's year fraction, errors included |
| `Dates.DayOfYear` | basics/src/main/java/com/opengamma/basics/date/DayCounts.java:223-235 | the day-of-year lies between 1 and the year length, and equals the year length exactly on 31 December |
| `Dates.IsBefore` | basics/src/main/java/com/opengamma/basics/date/DayCounts.java:421-426 | the year-month-day comparison used by `check` agrees with the epoch-day order used by `checkGetActualDays` |
| `Dates.EpochDayInjective` | basics/src/main/java/com/opengamma/basics/date/DayCounts.java:411-418 | two dates have the same epoch day exactly when they are the same date, so zero actual days means equal dates |
| `Dates.YearStartStep` | basics/src/main/java/com/opengamma/basics/date/DayCounts.java:225-235 | consecutive years lie end to end on the epoch-day line, each as long as its year length |
| `Dates.EpochDayOrder` | basics/src/main/java/com/opengamma/basics/date/DayCounts.java:415-425 | the lexicographic date comparison holds exactly when the first epoch day is smaller |
| `Dates.NextDayIsOneLater` | basics/src/main/java/com/opengamma/basics/date/DayCounts.java:415 | the next calendar day is one epoch day later |
| `LeapDays.LeapYearAtOrAfter` | basics/src/main/java/com/opengamma/basics/date/DayCounts.java:285-288 | the year found is a leap year, at or after the year given |
| `LeapDays.LeapYearAtOrAfterIsFirst` | basics/src/main/java/com/opengamma/basics/date/DayCounts.java:285-288 | no leap year lies between the year given and the one found |
| `LeapDays.NextLeapDay` | basics/src/main/java/com/opengamma/basics/date/DayCounts.java:243 | the date returned is a 29 February strictly after the date given |
| `LeapDays.NextLeapDayIsFirst` | basics/src/main/java/com/opengamma/basics/date/DayCounts.java:243 | no 29 February after the date given comes before the one returned |
| `LeapDays.LeapDaysInStep` | basics/src/main/java/com/opengamma/basics/date/DayCounts.java:97-102 | the count over (a, b] is the count for the day after a plus the count over the rest |
| `LeapDays.LeapDaysAfterAtMost` | basics/src/main/java/com/opengamma/basics/date/DayCounts.java:283-290 | a span holds at most as many leap days as days |
| `LeapDays.LeapDaysInAdditive` | basics/src/main/java/com/opengamma/basics/date/DayCounts.java:97-102 | the leap-day count is additive over any intermediate date |
| `LeapDays.NoLeapDayBeforeNext` | basics/src/main/java/com/opengamma/basics/date/DayCounts.java:243-244 | a span that ends before the next 29 February holds no leap day |
| `LeapDays.LeapDaysToNextLeapDay` | basics/src/main/java/com/opengamma/basics/date/DayCounts.java:285-288 | the span up to the next 29 February holds exactly one leap day |
| `LeapDays.NextLeapDayWithin` | basics/src/main/java/com/opengamma/basics/date/DayCounts.java:243-244 | the next 29 February is on or before the second date exactly when (first, second] holds a leap day |
| `LeapDays.LeapDaysStepToNext` | basics/src/main/java/com/opengamma/basics/date/DayCounts.java:286-288 | one loop step moves strictly forward and adds exactly one leap day to the count |
| `LeapDays.LeapDaysNoneBeyond` | basics/src/main/java/com/opengamma/basics/date/DayCounts.java:286 | once the next 29 February is after the second date, the count is complete |
| `DayCountProperties.OneOneIsOne` | basics/src/main/java/com/opengamma/basics/date/DayCounts.java:211-216 | 1/1 is exactly 1 for every ordered pair, equal dates included |
| `DayCountProperties.ActualOverFixedDenominator` | basics/src/main/java/com/opengamma/basics/date/DayCounts.java:248-278 | Act/360, Act/364, Act/365 and Act/365.25 are the epoch-day difference over 360, 364, 365 and 365.25; never negative, and zero exactly on equal dates |
| `DayCountProperties.ActActDailySum` | basics/src/main/java/com/opengamma/basics/date/DayCounts.java:30-38 | reference definition, the sum of 1/(year length) over each day of [first, second); never negative, and zero exactly on equal dates |
| `DayCountProperties.DailySumAdditive` | basics/src/main/java/com/opengamma/basics/date/DayCounts.java:30-38 | the daily sum is additive over any intermediate date |
| `DayCountProperties.DailySumWithinYear` | basics/src/main/java/com/opengamma/basics/date/DayCounts.java:226-229 | within one year the daily sum is the day-of-year difference over the year length |
| `DayCountProperties.DailySumToYearEnd` | basics/src/main/java/com/opengamma/basics/date/DayCounts.java:230 | from a date to the next 1 January the daily sum is the days left in its year over the year length |
| `DayCountProperties.DailySumWholeYears` | basics/src/main/java/com/opengamma/basics/date/DayCounts.java:235 | whole calendar years count one each |
| `DayCountProperties.DailySumAcrossYears` | basics/src/main/java/com/opengamma/basics/date/DayCounts.java:230-235 | across years the daily sum is the rest of the first year, the whole years between and the start of the last year |
| `DayCountProperties.ActActIsdaIsDailySum` | basics/src/main/java/com/opengamma/basics/date/DayCounts.java:219-237 | Act/Act ISDA equals the daily sum (days of a leap year count 1/366, others 1/365), and it is zero exactly on equal dates |
| `DayCountProperties.ActActIsdaAdditive` | basics/src/main/java/com/opengamma/basics/date/DayCounts.java:30-38 | Act/Act ISDA is additive across any intermediate date |
| `DayCountProperties.Act365ActualDenominator` | basics/src/main/java/com/opengamma/basics/date/DayCounts.java:44-54 | Act/365 Actual divides by 366 exactly when a 29 February lies in (first, second], and by 365 otherwise |
| `DayCountProperties.LeapDaysFewerThanDays` | basics/src/main/java/com/opengamma/basics/date/DayCounts.java:283-290 | a span of two or more days holds fewer leap days than days |
| `DayCountProperties.Nl365OmitsLeapDays` | basics/src/main/java/com/opengamma/basics/date/DayCounts.java:96-105 | NL/365 is never negative, and zero exactly for equal dates or a one-day period ending on 29 February |
| `DayCountProperties.ThirtyFamilyAgree` | basics/src/main/java/com/opengamma/basics/date/DayCounts.java:406-408 | away from 31sts and last days of February all five 30/360 variants are the shared formula on the unadjusted dates |
| `DayCountProperties.ThirtyNonNegative` | basics/src/main/java/com/opengamma/basics/date/DayCounts.java:294-395 | 30/360 ISDA, 30U/360, 30E/360 and 30E+/360 are never negative for ordered dates |
| `DayCountProperties.ThirtyE360CapsDaysAtThirty` | basics/src/main/java/com/opengamma/basics/date/DayCounts.java:362-369 | 30E/360 is the shared formula with both days capped at 30 |
| `DayCountProperties.ThirtyIsdaVersusE` | basics/src/main/java/com/opengamma/basics/date/DayCounts.java:298-305 | 30/360 ISDA exceeds 30E/360 by one day exactly when the second day is a 31st and the first is before the 30th, i.e. it turns the 31st into 30 only when the adjusted first day is 30 |
| `DayCountProperties.ThirtyUAgreesWithIsda` | basics/src/main/java/com/opengamma/basics/date/DayCounts.java:318-331 | 30U/360 equals 30/360 ISDA unless the end-of-month convention applies and the first date is the last day of February |
| `DayCountProperties.ThirtyUEndOfFebruary` | basics/src/main/java/com/opengamma/basics/date/DayCounts.java:124-132 | under the end-of-month convention, from one last day of February to another, both days become 30 and only whole years count |
| `DayCountProperties.ThirtyEIsdaVersusE` | basics/src/main/java/com/opengamma/basics/date/DayCounts.java:344-351 | 30E/360 ISDA differs from 30E/360 only by moving a last day of February to the 30th, the second date only when it is not the schedule end |
| `DayCountProperties.ThirtyEIsdaNegativeAtScheduleEnd` | basics/src/main/java/com/opengamma/basics/date/DayCounts.java:346-350 | 30E/360 ISDA gives -2/360 from 28 February 2021 to itself when that date is the schedule end |
| `DayCountProperties.ThirtyEPlusVersusE` | basics/src/main/java/com/opengamma/basics/date/DayCounts.java:384-390 | 30E+/360 rolls a second-date 31st to day 1 of month m2+1 (month 13 after December), one day more than 30E/360 |
| `DayCountProperties.ThirtyEPlusSameThirtyFirst` | basics/src/main/java/com/opengamma/basics/date/DayCounts.java:384-390 | 30E+/360 gives 1/360 on equal dates that fall on a 31st |
| `DayCountProperties.NamesAreUnique` | basics/src/main/java/com/opengamma/basics/date/DayCounts.java:211-403 | no two conventions share a name |
| `DayCountProperties.OfName` | basics/src/main/java/com/opengamma/basics/date/DayCounts.java:428-436 | looking up a convention's name (its `getName()` and `toString()`) gives that convention back |
| `DayCountProperties.Act360FirstHalfOf2021` | basics/src/main/java/com/opengamma/basics/date/DayCounts.java:248-254 | 2021-01-01 to 2021-07-01 is 181/360 |
| `DayCountProperties.Act365OverLeapYear2020` | basics/src/main/java/com/opengamma/basics/date/DayCounts.java:264-270 | the whole of 2020 is 366/365 under Act/365 |
| `DayCountProperties.ThirtyE360JanuaryToFebruary` | basics/src/main/java/com/opengamma/basics/date/DayCounts.java:358-374 | 2021-01-31 to 2021-02-28 is 28/360 under 30E/360 |
| `DayCountProperties.ActActIsdaAcrossNewYear` | basics/src/main/java/com/opengamma/basics/date/DayCounts.java:219-237 | 2019-12-01 to 2020-02-01 is 31/365 + 31/366 |
| `DayCountProperties.ReversedDatesRefused` | basics/src/main/java/com/opengamma/basics/date/DayCounts.java:421-426 | every convention refuses 2020-03-01 to 2020-01-01 with "Dates must be in order" |
| `DayCountProperties.LookupScenarios` | basics/src/main/java/com/opengamma/basics/date/DayCounts.java:192-195 | "Act/360" finds Act/360 and an unknown name is refused |
| `Thirty360Overflow.WrapInt32` | basics/src/main/java/com/opengamma/basics/date/DayCounts.java:406-408 | 32-bit wrap-around: the result lies in [-2^31, 2^31), is congruent to the exact value modulo 2^32, and equals it when it is in range |
| `Thirty360Overflow.Thirty360AsWritten` | basics/src/main/java/com/opengamma/basics/date/DayCounts.java:406-408 | the 32-bit `int` evaluation of the shared formula; its numerator always lies in the `int` range, so no span longer than about 5.96 million years can be represented |
| `Thirty360Overflow.OverflowAtShortestSpan` | basics/src/main/java/com/opengamma/basics/date/DayCounts.java:406-408 | as written, 0000-01-01 to 5965232-06-01 already gives a negative fraction: 360 * 5,965,232 fits but adding 150 for five months leaves the `int` range |
| `Thirty360Overflow.AsWrittenExactForShortSpans` | basics/src/main/java/com/opengamma/basics/date/DayCounts.java:406-408 | over spans of up to 5,000,000 years the 32-bit formula equals the exact one |
| `Thirty360Overflow.OverflowWitness` | basics/src/main/java/com/opengamma/basics/date/DayCounts.java:406-408 | as written, 0000-01-01 to 6000000-01-01 gives a negative fraction |
| `Thirty360Overflow.ExactOverSixMillionYears` | basics/src/main/java/com/opengamma/basics/date/DayCounts.java:358-374 | the exact model gives that span its intended 30E/360 fraction of 6,000,000 |
| `Thirty360Overflow.ExactWholeYears` | basics/src/main/java/com/opengamma/basics/date/DayCounts.java:405-408 | the exact formula counts equal days of equal months as whole years, for any span |

## Left out

- `java.time.LocalDate` itself is not part of this model. Only the facts the code reads are modelled:
  - year, month, day-of-month;
  - month and year lengths, day-of-year;
  - the epoch day and ordering.
  The epoch day is this model's own closed form, counting days from 1970-01-01 in the proleptic Gregorian calendar. It is not proved equal to `LocalDate.toEpochDay`'s formula.
- The range of `LocalDate` years (±999,999,999) is not imposed. Years are unbounded integers, except in the 32-bit model of `thirty360` under Findings.
- The `double` arithmetic of the returned fractions is left out. Fractions are exact reals, so IEEE-754 rounding is not modelled.
- `ArgChecker.notNull` checks are left out: there are no null values in the model.
- The "Dates must be in order" failure is a `Result` value rather than a thrown `IllegalArgumentException`.
- `DateAdjusters.nextLeapDay` is not part of this model. `NextLeapDay` stands in for it: it is specified by its contract (the first 29 February strictly after the date), and its body is this model's own.
- `ExtendedEnum` is not part of this model. `Of` searches the thirteen built-in conventions in declaration order, so any other convention `ExtendedEnum` might provide is not modelled.
- DayCounts.DayCount.Name: its contract states only the shape of a name (a '/' between day count and basis); the exact strings are its definition, and uniqueness and the lookup round trip are proved separately by `NamesAreUnique` and `OfName`.
- `ScheduleInfo` is left out beyond its two queries that the conventions read (end-of-month convention, schedule end date).
- The `DayCount` interface's other members (its two-argument `getDayCountFraction` and its default `ScheduleInfo`) are not part of this model.
- The enum's Java serialisation and `valueOf` are left out.

## Findings

| source | as written | input that shows it | evidently intended | confidence | as-written member | corrected member |
|---|---|---|---|---|---|---|
| basics/src/main/java/com/opengamma/basics/date/DayCounts.java:406-408 | `thirty360` computes `360 * (y2 - y1) + 30 * (m2 - m1) + (d2 - d1)` in 32-bit `int` arithmetic, which wraps once 360·Δy + 30·Δm + Δd leaves the `int` range (first possible at a year difference of 5,965,232) | 30E/360 from 0000-01-01 to 6000000-01-01 (both valid `LocalDate`s): 360 * 6,000,000 wraps to -2,134,967,296, so the fraction is negative | the exact value, here 6,000,000 years (e.g. computing in `long`) | not executed | `Thirty360Overflow.OverflowWitness` | `Thirty360Overflow.ExactWholeYears` |
