/**
 * Time as milliseconds since the Unix epoch, and the calendar arithmetic of JavaScript's `Date`
 * (`setDate`, `setMonth`) and of MongoDB's `$dateToString` formats `%Y-%m-%d` and `%Y-%m`.
 * The server clock is taken to run in UTC, so local and UTC dates coincide.
 */
module Calendar {

  type Time = int

  const DAY_MS: nat := 86_400_000

  /** A proleptic Gregorian date; `month` is 1..12. */
  datatype Date = Date(year: int, month: int, day: int)

  /** The day a time falls on, counted from 1970-01-01: the `%Y-%m-%d` bucket. */
  function DayIndex(t: Time): int {
    t / DAY_MS
  }

  /** `d.setDate(d.getDate() - n)`: the same time of day, `n` days earlier. */
  function DaysBefore(t: Time, n: nat): (r: Time)
    ensures t - r == n * DAY_MS
  {
    t - n * DAY_MS
  }

  /** The civil date of day number `z` (days since 1970-01-01). */
  function CivilFromDays(z: int): Date {
    var z' := z + 719468;
    var era := z' / 146097;
    var doe := z' - era * 146097;
    var yoe := (doe - doe / 1460 + doe / 36524 - doe / 146096) / 365;
    var doy := doe - (365 * yoe + yoe / 4 - yoe / 100);
    var mp := (5 * doy + 2) / 153;
    var d := doy - (153 * mp + 2) / 5 + 1;
    var m := if mp < 10 then mp + 3 else mp - 9;
    Date(yoe + era * 400 + (if m <= 2 then 1 else 0), m, d)
  }

  /**
   * The day number of a civil date. A day beyond the end of its month rolls over into the
   * next one (the day enters the sum linearly), as `Date` normalises out-of-range fields.
   */
  function DaysFromCivil(y: int, m: int, d: int): int
    requires 1 <= m <= 12
  {
    var y' := if m <= 2 then y - 1 else y;
    var era := y' / 400;
    var yoe := y' - era * 400;
    var mp := if m > 2 then m - 3 else m + 9;
    var doy := (153 * mp + 2) / 5 + d - 1;
    var doe := yoe * 365 + yoe / 4 - yoe / 100 + doy;
    era * 146097 + doe - 719468
  }

  /** Months counted from year 0: the `%Y-%m` bucket. */
  function MonthIndex(t: Time): int {
    var date := CivilFromDays(DayIndex(t));
    date.year * 12 + date.month - 1
  }

  /** `d.setMonth(d.getMonth() - n)`: same day of month and time of day, rolling over short months. */
  function MonthsBefore(t: Time, n: nat): Time {
    var date := CivilFromDays(DayIndex(t));
    var months := date.year * 12 + (date.month - 1) - n;
    var y, m := months / 12, months % 12 + 1;
    DaysFromCivil(y, m, date.day) * DAY_MS + t % DAY_MS
  }

  /** 31 February 2023 rolls over to 3 March. */
  lemma RolloverExample()
    ensures DaysFromCivil(2023, 2, 31) == DaysFromCivil(2023, 3, 3)
  {
    assert DaysFromCivil(2023, 2, 31) == 5 * 146097 + (22 * 365 + 5 + 337 + 30) - 719468;
    assert DaysFromCivil(2023, 3, 3) == 5 * 146097 + (23 * 365 + 5 + 0 + 2) - 719468;
  }
}
