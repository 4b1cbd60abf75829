/**
 * Day numbers and the `doy` offset: dates are whole days counted from
 * 1970-01-01 (day 0) in the proleptic Gregorian calendar, UTC.
 */
module Dates {

  const INT16_MIN: int := -0x8000
  const INT16_MAX: int := 0x7FFF

  /** `toInt16()` of a whole number: values outside the signed 16-bit range saturate. */
  function ToInt16(x: int): (r: int)
    ensures INT16_MIN <= r <= INT16_MAX
    ensures INT16_MIN <= x <= INT16_MAX ==> r == x
    ensures x < INT16_MIN ==> r == INT16_MIN
    ensures INT16_MAX < x ==> r == INT16_MAX
  {
    if x < INT16_MIN then INT16_MIN else if INT16_MAX < x then INT16_MAX else x
  }

  predicate IsLeap(y: int)
  {
    y % 4 == 0 && (y % 100 != 0 || y % 400 == 0)
  }

  /** Leap years strictly before year `y`, counted from year 1 (negative before it). */
  function LeapsBefore(y: int): int
  {
    (y - 1) / 4 - (y - 1) / 100 + (y - 1) / 400
  }

  /** The day number of 1 January of year `y`. */
  function YearStart(y: int): int
  {
    365 * (y - 1970) + LeapsBefore(y) - LeapsBefore(1970)
  }

  /** A year has 366 days when it is a leap year and 365 otherwise. */
  lemma YearLength(y: int)
    ensures YearStart(y + 1) - YearStart(y) == (if IsLeap(y) then 366 else 365)
  {
    assert y / 4 - (y - 1) / 4 == (if y % 4 == 0 then 1 else 0);
    assert y / 100 - (y - 1) / 100 == (if y % 100 == 0 then 1 else 0);
    assert y / 400 - (y - 1) / 400 == (if y % 400 == 0 then 1 else 0);
  }

  /**
   * `currentDate.difference(<1 January of startYear>, 'day').toInt16()`:
   * the whole-day offset of day `t` from the start of `startYear`, cast to Int16.
   */
  function DayOffset(t: int, startYear: int): (d: int)
    ensures INT16_MIN <= d <= INT16_MAX
    ensures INT16_MIN <= t - YearStart(startYear) <= INT16_MAX ==> d == t - YearStart(startYear)
    ensures t - YearStart(startYear) < INT16_MIN ==> d == INT16_MIN
    ensures INT16_MAX < t - YearStart(startYear) ==> d == INT16_MAX
  {
    ToInt16(t - YearStart(startYear))
  }

  /** Within its start year, the offset runs from 0 on 1 January to 364 or 365 on 31 December. */
  lemma DayOffsetWithinYear(t: int, y: int)
    requires YearStart(y) <= t < YearStart(y + 1)
    ensures 0 <= DayOffset(t, y) <= (if IsLeap(y) then 365 else 364)
    ensures DayOffset(t, y) == t - YearStart(y)
  {
    YearLength(y);
  }
}
