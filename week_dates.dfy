/**
 * Calendar days as whole numbers: day 0 is 1970-01-01, a Thursday, and day
 * d + 1 is the day after day d. Weekdays are numbered as JavaScript's
 * `getDay()` numbers them (0 is Sunday, 1 is Monday, ..., 6 is Saturday).
 */
module WeekDates {

  /** The weekday of day 0 (1970-01-01 was a Thursday). */
  const EpochWeekday := 4

  const Sunday := 0
  const Monday := 1

  const DaysPerWeek := 7

  function DayOfWeek(d: int): (w: int)
    ensures 0 <= w < DaysPerWeek
  {
    (d + EpochWeekday) % DaysPerWeek
  }

  predicate IsMonday(d: int) {
    DayOfWeek(d) == Monday
  }

  /**
   * The start of the week holding `d` when weeks start on Monday: go back
   * as many days as the weekday lies past Monday, counting Sunday as the
   * last day of the week. The result is the Monday on or before `d`.
   */
  function StartOfWeek(d: int): (m: int)
    ensures IsMonday(m)
    ensures m <= d < m + DaysPerWeek
  {
    var day := DayOfWeek(d);
    var diff := (if day < Monday then DaysPerWeek else 0) + day - Monday;
    d - diff
  }

  /** Shifting a day by a number of whole weeks keeps its weekday. */
  lemma DayOfWeekShift(d: int, k: int)
    ensures DayOfWeek(d + DaysPerWeek * k) == DayOfWeek(d)
  {
  }

  /** `StartOfWeek(d)` is the only Monday in the week that ends with `d`. */
  lemma StartOfWeekUnique(d: int, m: int)
    requires IsMonday(m) && m <= d < m + DaysPerWeek
    ensures StartOfWeek(d) == m
  {
  }

  /** A Monday is its own week start. */
  lemma StartOfWeekOfMonday(m: int)
    requires IsMonday(m)
    ensures StartOfWeek(m) == m
  {
  }

  /** The week start moves by whole weeks when the day does. */
  lemma StartOfWeekShift(d: int, k: int)
    ensures StartOfWeek(d + DaysPerWeek * k) == StartOfWeek(d) + DaysPerWeek * k
  {
  }
}
