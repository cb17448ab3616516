/**
 * Calendar days and clock readings, as the Carbon instances of the
 * application use them.  Only the comparisons the services perform are
 * modelled; time zones are not (the clock is always a parameter).
 */
module Dates {

  /** A calendar day: Carbon's `year`, `month` and `day` fields. */
  datatype Date = Date(year: int, month: int, day: int)

  /** Strict chronological order of days. */
  predicate Before(a: Date, b: Date) {
    a.year < b.year
    || (a.year == b.year && (a.month < b.month || (a.month == b.month && a.day < b.day)))
  }

  predicate IsLeapYear(year: int) {
    (year % 4 == 0 && year % 100 != 0) || year % 400 == 0
  }

  function DaysInMonth(year: int, month: int): nat {
    if month == 2 then (if IsLeapYear(year) then 29 else 28)
    else if month == 4 || month == 6 || month == 9 || month == 11 then 30
    else 31
  }

  /** A day that exists in the Gregorian calendar. */
  predicate ValidDate(d: Date) {
    1 <= d.month <= 12 && 1 <= d.day <= DaysInMonth(d.year, d.month)
  }

  /** A date with a time of day, to the second. */
  datatype DateTime = DateTime(date: Date, hour: nat, minute: nat, second: nat)

  /**
   * A reading of the system clock (`Carbon::now()`): a valid day with a
   * four-digit year and a time of day within that day.
   */
  type Instant = t: DateTime | ValidDate(t.date) && 1000 <= t.date.year <= 9999
                               && t.hour < 24 && t.minute < 60 && t.second < 60
    witness DateTime(Date(2025, 1, 1), 0, 0, 0)

  function SecondOfDay(t: DateTime): nat {
    t.hour * 3600 + t.minute * 60 + t.second
  }

  /** Carbon's `lt`: strict chronological order of clock readings. */
  predicate Earlier(a: DateTime, b: DateTime) {
    Before(a.date, b.date) || (a.date == b.date && SecondOfDay(a) < SecondOfDay(b))
  }

  /** `Carbon::parse('Y-m-d')`: a day read as its first second. */
  function Midnight(d: Date): DateTime {
    DateTime(d, 0, 0, 0)
  }

  /** Carbon's `startOfDay()`: the same day at 00:00:00. */
  function StartOfDay(t: DateTime): DateTime {
    Midnight(t.date)
  }

  /** A day's midnight lies after a clock reading exactly when the day is later than the reading's day. */
  lemma MidnightLaterIff(d: Date, now: DateTime)
    ensures Earlier(now, Midnight(d)) <==> Before(now.date, d)
  {
  }

  /** A day's midnight lies before a clock reading exactly when the day is earlier, or is the same day after 00:00:00. */
  lemma MidnightEarlierIff(d: Date, now: DateTime)
    ensures Earlier(Midnight(d), now) <==> Before(d, now.date) || (d == now.date && SecondOfDay(now) > 0)
  {
  }
}
