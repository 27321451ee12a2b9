/** Abstract calendar standing in for the date library's naive dates and times.
    A date is a day number: day 0 is 0001-01-01 of the proleptic Gregorian
    calendar, which is a Monday, so the weekday of day `d` is `d % 7` with
    Monday = 0 .. Sunday = 6 (Dafny's `%` never returns a negative value, so
    this holds for days before year 1 too). The representable range is that
    of the date library: -262144-01-01 .. 262143-12-31. */
module Calendar {
  import opened Wrappers

  const MinDay: int := -95746496
  const MaxDay: int := 95745763

  type Day = d: int | MinDay <= d <= MaxDay witness 0

  /** Seconds since midnight; sub-second precision is not modelled. */
  type TimeOfDay = t: int | 0 <= t < 86400

  const Midnight: TimeOfDay := 0

  /** A naive (time-zone free) timestamp. */
  datatype DateTime = DateTime(date: Day, time: TimeOfDay)

  /** Monday = 0 .. Sunday = 6. */
  function Weekday(d: int): (w: nat)
    ensures w < 7
  {
    d % 7
  }

  /** Weekdays repeat every seven days. */
  lemma WeekdayPeriodic(d: int, k: int)
    ensures Weekday(d + 7 * k) == Weekday(d)
  {
  }

  /** `NaiveDate::succ_opt`: the next day, or `None` on the last representable day. */
  function SuccOpt(d: Day): (r: Option<Day>)
    ensures r.Some? <==> d < MaxDay
    ensures r.Some? ==> r.value == d + 1
  {
    if d == MaxDay then None else Some(d + 1)
  }

  /** `NaiveDateTime::new(d, 00:00:00)`, i.e. `and_hms(0, 0, 0)`. */
  function AtMidnight(d: Day): DateTime {
    DateTime(d, Midnight)
  }
}
