/**
 * The part of Python's `datetime` the date fields rely on: the proleptic
 * Gregorian calendar, the range check of the `datetime(year, month, day)`
 * constructor, and the chronological order of two datetimes.
 */
module Calendar {

  datatype Date = Date(year: int, month: int, day: int)

  /** A `datetime`: a calendar date and the time of day in microseconds since midnight. */
  datatype Moment = Moment(date: Date, micros: nat)

  const MIN_YEAR := 1
  const MAX_YEAR := 9999

  predicate IsLeap(y: int)
  {
    y % 4 == 0 && (y % 100 != 0 || y % 400 == 0)
  }

  function DaysInMonth(y: int, m: int): (n: int)
    requires 1 <= m <= 12
    ensures 28 <= n <= 31
    ensures m == 2 ==> (n == 29 <==> IsLeap(y))
  {
    if m == 2 then (if IsLeap(y) then 29 else 28)
    else if m == 4 || m == 6 || m == 9 || m == 11 then 30
    else 31
  }

  /** The dates for which `datetime(year, month, day)` does not raise ValueError. */
  predicate IsRealDate(d: Date)
  {
    MIN_YEAR <= d.year <= MAX_YEAR && 1 <= d.month <= 12 && 1 <= d.day <= DaysInMonth(d.year, d.month)
  }

  predicate DateBefore(a: Date, b: Date)
  {
    a.year < b.year
    || (a.year == b.year && a.month < b.month)
    || (a.year == b.year && a.month == b.month && a.day < b.day)
  }

  /** `a < b` on two datetimes. */
  predicate Before(a: Moment, b: Moment)
  {
    DateBefore(a.date, b.date) || (a.date == b.date && a.micros < b.micros)
  }

  /** The datetime `datetime(year, month, day)` builds: the date at midnight. */
  function Midnight(d: Date): Moment
  {
    Moment(d, 0)
  }

  /** Midnight of a date precedes a moment exactly when the moment lies on a later day,
      or on that same day after midnight. */
  lemma MidnightBefore(d: Date, m: Moment)
    ensures Before(Midnight(d), m) <==> DateBefore(d, m.date) || (d == m.date && m.micros > 0)
  {
  }

  lemma FebruaryTwentyNinth(y: int)
    requires MIN_YEAR <= y <= MAX_YEAR
    ensures IsRealDate(Date(y, 2, 29)) <==> IsLeap(y)
    ensures !IsRealDate(Date(y, 2, 30)) && !IsRealDate(Date(y, 2, 31))
  {
  }
}
