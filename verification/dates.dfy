/** Calendar dates as day ordinals, in the convention of Python's `date.toordinal()`. */
module Dates {

  /** Day 1 is 0001-01-01, a Monday. */
  type Day = int

  type Month = m: int | 1 <= m <= 12 witness 1

  /**
   * The parts of the Gregorian calendar the model needs but does not compute:
   * the year and the month a day falls in.
   */
  datatype Calendar = Calendar(yearOf: Day -> int, monthOf: Day -> Month)

  /** `date.weekday()`: Monday is 0, Sunday is 6. */
  function Weekday(d: Day): (w: int)
    ensures 0 <= w < 7
  {
    (d + 6) % 7
  }
}
