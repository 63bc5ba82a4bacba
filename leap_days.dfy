/** Leap-day navigation: the next 29 February after a date, and a
    day-by-day reference count of the 29 Februarys in a span. */
module LeapDays {
  import opened Dates

  predicate IsLeapDay(d: Date) {
    d.month == 2 && d.day == 29
  }

  /** The first leap year at or after `year`. */
  function LeapYearAtOrAfter(year: int): (r: int)
    ensures year <= r && IsLeapYear(r)
    decreases (-year) % 400
  {
    if IsLeapYear(year) then year
    else
      DivisibilityChain(year);
      DistanceToQuadricentennialShrinks(year);
      LeapYearAtOrAfter(year + 1)
  }

  /** Off a multiple of 400, the distance up to the next one shrinks by a year. */
  lemma DistanceToQuadricentennialShrinks(year: int)
    requires year % 400 != 0
    ensures 0 <= (-(year + 1)) % 400 < (-year) % 400
  {
    var q := year / 400;
    var r := year % 400;
    assert -year == 400 * (-q - 1) + (400 - r);
    assert (-year) % 400 == 400 - r;
    assert -(year + 1) == 400 * (-q - 1) + (399 - r);
    assert (-(year + 1)) % 400 == 399 - r;
  }

  /** No leap year lies between `year` and the one found. */
  lemma {:induction false} LeapYearAtOrAfterIsFirst(year: int, y: int)
    requires year <= y && IsLeapYear(y)
    ensures LeapYearAtOrAfter(year) <= y
    decreases y - year
  {
    if !IsLeapYear(year) {
      LeapYearAtOrAfterIsFirst(year + 1, y);
    }
  }

  /** The first 29 February strictly after `d`. */
  function NextLeapDay(d: Date): (r: Date)
    ensures IsLeapDay(r) && IsBefore(d, r)
  {
    if IsLeapYear(d.year) && (d.month < 2 || (d.month == 2 && d.day < 29)) then
      CalendarDate(d.year, 2, 29)
    else
      CalendarDate(LeapYearAtOrAfter(d.year + 1), 2, 29)
  }

  /** No 29 February after `d` comes before the one found. */
  lemma NextLeapDayIsFirst(d: Date, x: Date)
    requires IsLeapDay(x) && IsBefore(d, x)
    ensures !IsBefore(x, NextLeapDay(d))
  {
    assert IsLeapYear(x.year);
    if !(IsLeapYear(d.year) && (d.month < 2 || (d.month == 2 && d.day < 29))) {
      LeapYearAtOrAfterIsFirst(d.year + 1, x.year);
    }
  }

  /** The number of 29 Februarys among the `n` days that follow `a`,
      counted one day at a time. */
  function LeapDaysAfter(a: Date, n: nat): nat
    decreases n
  {
    if n == 0 then 0
    else
      var next := NextDay(a);
      (if IsLeapDay(next) then 1 else 0) + LeapDaysAfter(next, n - 1)
  }

  /** The number of 29 Februarys in the span (a, b]: `a` excluded, `b`
      included. */
  function LeapDaysIn(a: Date, b: Date): nat
    requires EpochDay(a) <= EpochDay(b)
  {
    LeapDaysAfter(a, EpochDay(b) - EpochDay(a))
  }

  /** Counting (a, b] starts with the day after `a`. */
  lemma LeapDaysInStep(a: Date, b: Date)
    requires EpochDay(a) < EpochDay(b)
    ensures EpochDay(NextDay(a)) <= EpochDay(b)
    ensures LeapDaysIn(a, b) == (if IsLeapDay(NextDay(a)) then 1 else 0) + LeapDaysIn(NextDay(a), b)
  {
    NextDayIsOneLater(a);
  }

  /** A span holds at most as many leap days as days. */
  lemma {:induction false} LeapDaysAfterAtMost(a: Date, n: nat)
    ensures LeapDaysAfter(a, n) <= n
    decreases n
  {
    if n > 0 {
      LeapDaysAfterAtMost(NextDay(a), n - 1);
    }
  }

  /** Counting leap days is additive over any intermediate date. */
  lemma {:induction false} LeapDaysInAdditive(a: Date, b: Date, c: Date)
    requires EpochDay(a) <= EpochDay(b) <= EpochDay(c)
    ensures LeapDaysIn(a, c) == LeapDaysIn(a, b) + LeapDaysIn(b, c)
    decreases EpochDay(b) - EpochDay(a)
  {
    if a != b {
      EpochDayInjective(a, b);
      NextDayIsOneLater(a);
      var next := NextDay(a);
      var here := if IsLeapDay(next) then 1 else 0;
      assert LeapDaysIn(a, b) == here + LeapDaysIn(next, b) by {
        LeapDaysInStep(a, b);
      }
      assert LeapDaysIn(a, c) == here + LeapDaysIn(next, c) by {
        LeapDaysInStep(a, c);
      }
      LeapDaysInAdditive(next, b, c);
    }
  }

  /** A span that every later leap day lies beyond holds no leap day. */
  lemma {:induction false} LeapDaysInZero(a: Date, c: Date)
    requires EpochDay(a) <= EpochDay(c)
    requires forall x: Date :: IsLeapDay(x) && IsBefore(a, x) ==> IsBefore(c, x)
    ensures LeapDaysIn(a, c) == 0
    decreases EpochDay(c) - EpochDay(a)
  {
    if a != c {
      EpochDayInjective(a, c);
      LeapDaysInStep(a, c);
      NextDayIsOneLater(a);
      var next := NextDay(a);
      assert !IsLeapDay(next);
      LeapDaysInZero(next, c);
    }
  }

  /** No leap day lies in (a, c] when c is before the next leap day after a. */
  lemma NoLeapDayBeforeNext(a: Date, c: Date)
    requires EpochDay(a) <= EpochDay(c)
    requires IsBefore(c, NextLeapDay(a))
    ensures LeapDaysIn(a, c) == 0
  {
    forall x: Date | IsLeapDay(x) && IsBefore(a, x)
      ensures IsBefore(c, x)
    {
      NextLeapDayIsFirst(a, x);
    }
    LeapDaysInZero(a, c);
  }

  /** The span up to the next leap day holds exactly that one leap day. */
  lemma {:induction false} LeapDaysToNextLeapDay(a: Date)
    ensures LeapDaysIn(a, NextLeapDay(a)) == 1
    decreases EpochDay(NextLeapDay(a)) - EpochDay(a)
  {
    var leap := NextLeapDay(a);
    NextDayIsOneLater(a);
    var next := NextDay(a);
    assert IsBefore(a, next);
    LeapDaysInStep(a, leap);
    if IsLeapDay(next) {
      NextLeapDayIsFirst(a, next);
      EpochDayInjective(next, leap);
    } else {
      EpochDayInjective(leap, next);
      var later := NextLeapDay(next);
      NextLeapDayIsFirst(next, leap);
      NextLeapDayIsFirst(a, later);
      EpochDayInjective(leap, later);
      LeapDaysToNextLeapDay(next);
    }
  }

  /** The next leap day after `a` is on or before `c` exactly when (a, c]
      holds a leap day. */
  lemma NextLeapDayWithin(a: Date, c: Date)
    requires EpochDay(a) <= EpochDay(c)
    ensures !IsAfter(NextLeapDay(a), c) <==> LeapDaysIn(a, c) > 0
  {
    var leap := NextLeapDay(a);
    if IsAfter(leap, c) {
      NoLeapDayBeforeNext(a, c);
    } else {
      LeapDaysInAdditive(a, leap, c);
      LeapDaysToNextLeapDay(a);
    }
  }

  /** One more step of the count: the next leap day adds exactly one. */
  lemma LeapDaysStepToNext(first: Date, previous: Date)
    requires EpochDay(first) <= EpochDay(previous)
    ensures EpochDay(previous) < EpochDay(NextLeapDay(previous))
    ensures LeapDaysIn(first, NextLeapDay(previous)) == LeapDaysIn(first, previous) + 1
  {
    LeapDaysInAdditive(first, previous, NextLeapDay(previous));
    LeapDaysToNextLeapDay(previous);
  }

  /** The count stops: when the next leap day is past `last`, (first, last]
      holds no more leap days than (first, previous]. */
  lemma LeapDaysNoneBeyond(first: Date, previous: Date, last: Date)
    requires EpochDay(first) <= EpochDay(previous) <= EpochDay(last)
    requires IsAfter(NextLeapDay(previous), last)
    ensures LeapDaysIn(first, last) == LeapDaysIn(first, previous)
  {
    NoLeapDayBeforeNext(previous, last);
    LeapDaysInAdditive(first, previous, last);
  }
}
