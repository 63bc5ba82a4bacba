/** The shared 30/360 formula evaluated in 32-bit two's-complement integer
    arithmetic, as it is written, against the exact formula the rest of the
    model uses. */
module Thirty360Overflow {
  import opened Dates
  import opened DayCounts
  import opened DayCountProperties

  const TwoTo31: int := 0x8000_0000
  const TwoTo32: int := 0x1_0000_0000

  /** A 32-bit `int` result: the exact value wrapped into [-2^31, 2^31). */
  function WrapInt32(x: int): (r: int)
    ensures -TwoTo31 <= r < TwoTo31
    ensures (r - x) % TwoTo32 == 0
    ensures -TwoTo31 <= x < TwoTo31 ==> r == x
  {
    (x + TwoTo31) % TwoTo32 - TwoTo31
  }

  /** The 30/360 formula with every subtraction, product and sum wrapped to
      32 bits before the conversion to a fraction. */
  function Thirty360AsWritten(y1: int, m1: int, d1: int, y2: int, m2: int, d2: int): (r: real)
    ensures -TwoTo31 as real <= r * 360.0 < TwoTo31 as real
  {
    var years := WrapInt32(360 * WrapInt32(y2 - y1));
    var months := WrapInt32(30 * WrapInt32(m2 - m1));
    var days := WrapInt32(d2 - d1);
    WrapInt32(WrapInt32(years + months) + days) as real / 360.0
  }

  /** Over spans shorter than about 5.9 million years the 32-bit formula is
      exact. */
  lemma AsWrittenExactForShortSpans(y1: int, m1: int, d1: int, y2: int, m2: int, d2: int)
    requires -5_000_000 <= y2 - y1 <= 5_000_000
    requires -12 <= m2 - m1 <= 12 && -31 <= d2 - d1 <= 31
    ensures Thirty360AsWritten(y1, m1, d1, y2, m2, d2) == Thirty360(y1, m1, d1, y2, m2, d2)
  {
  }

  /** From 1 January of year 0 to 1 January of year 6,000,000 — both valid
      dates — the product 360 * 6,000,000 exceeds 2^31 - 1 and the 32-bit
      result is negative. */
  lemma OverflowWitness()
    ensures Thirty360AsWritten(0, 1, 1, 6_000_000, 1, 1) < 0.0
  {
    assert WrapInt32(6_000_000 - 0) == 6_000_000;
    assert WrapInt32(360 * 6_000_000) == -2_134_967_296;
    assert WrapInt32(1 - 1) == 0 && WrapInt32(30 * 0) == 0;
    assert WrapInt32(-2_134_967_296 + 0) == -2_134_967_296;
  }

  /** The first year difference at which the sum can leave the 32-bit
      range: 360 * 5,965,232 still fits, but five more months of 30 days
      push it past 2^31 - 1. */
  lemma OverflowAtShortestSpan()
    ensures Thirty360AsWritten(0, 1, 1, 5_965_232, 6, 1) < 0.0
  {
    assert WrapInt32(5_965_232 - 0) == 5_965_232;
    assert WrapInt32(360 * 5_965_232) == 2_147_483_520;
    assert WrapInt32(6 - 1) == 5 && WrapInt32(30 * 5) == 150;
    assert WrapInt32(2_147_483_520 + 150) == -2_147_483_626;
  }

  /** The exact model gives the same span its intended '30E/360' fraction of
      6,000,000 years. */
  lemma ExactOverSixMillionYears(info: ScheduleInfo)
    ensures YearFraction(ThirtyE360, CalendarDate(0, 1, 1), CalendarDate(6_000_000, 1, 1), info)
            == Success(6_000_000.0)
  {
    assert IsBefore(CalendarDate(0, 1, 1), CalendarDate(6_000_000, 1, 1));
  }

  /** The exact formula counts whole years between equal days of equal
      months as that many years, however long the span. */
  lemma ExactWholeYears(y1: int, y2: int, month: int, day: int)
    ensures Thirty360(y1, month, day, y2, month, day) == (y2 - y1) as real
  {
  }
}
