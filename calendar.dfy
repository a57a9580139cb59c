/**
 * Calendar arithmetic on timestamps. A timestamp is a whole number of
 * minutes since 1970-01-01 00:00, which was a Thursday; a date is a whole
 * number of days since that same day.
 */
module Calendar {

  const MinutesPerDay: int := 1440
  const MinutesPerHour: int := 60

  /** The calendar date of a timestamp (pandas `index.date`). */
  function Day(t: int): int
  {
    t / MinutesPerDay
  }

  /** The hour of the day (pandas `index.hour`). */
  function Hour(t: int): (h: int)
    ensures 0 <= h < 24
    ensures MinutesPerDay * Day(t) + MinutesPerHour * h <= t < MinutesPerDay * Day(t) + MinutesPerHour * (h + 1)
  {
    (t % MinutesPerDay) / MinutesPerHour
  }

  /** The day of the week, Monday = 0 ... Sunday = 6 (pandas `index.weekday`). */
  function Weekday(t: int): (w: int)
    ensures 0 <= w < 7
    ensures w == (Day(t) + 3) % 7
  {
    (Day(t) + 3) % 7
  }

  /** A timestamp one week later falls on the same weekday and hour. */
  lemma WeekPeriodic(t: int)
    ensures Weekday(t + 7 * MinutesPerDay) == Weekday(t)
    ensures Hour(t + 7 * MinutesPerDay) == Hour(t)
  {
    assert Day(t + 7 * MinutesPerDay) == Day(t) + 7;
  }
}
