/**
 * Local calendar dates with a time of day, as the expense records and "now" carry them.
 * Days are counted on the proleptic Gregorian calendar; `PrevDay` and `MinusDays` are
 * the calendar arithmetic JavaScript's `date.setDate(date.getDate() - n)` performs.
 */
module Calendar {

  const MillisPerDay := 86_400_000

  /** A year, a month 1-12, a day of the month and the milliseconds since local midnight. */
  datatype DateTime = DateTime(year: int, month: int, day: int, millis: int)

  predicate IsLeapYear(y: int)
  {
    y % 4 == 0 && (y % 100 != 0 || y % 400 == 0)
  }

  function DaysInMonth(y: int, m: int): (n: int)
    requires 1 <= m <= 12
    ensures 28 <= n <= 31
    ensures n == 29 <==> m == 2 && IsLeapYear(y)
  {
    if m == 2 then (if IsLeapYear(y) then 29 else 28)
    else if m == 4 || m == 6 || m == 9 || m == 11 then 30
    else 31
  }

  predicate IsValid(d: DateTime)
  {
    && 1 <= d.month <= 12
    && 1 <= d.day <= DaysInMonth(d.year, d.month)
    && 0 <= d.millis < MillisPerDay
  }

  /** A calendar date that exists, with a time of day inside that day. */
  type Date = d: DateTime | IsValid(d) witness DateTime(1970, 1, 1, 0)

  function YearLength(y: int): int
  {
    if IsLeapYear(y) then 366 else 365
  }

  /** Days from 1 January of year 1 to 1 January of year y. */
  function DaysBeforeYear(y: int): int
  {
    365 * (y - 1) + (y - 1) / 4 - (y - 1) / 100 + (y - 1) / 400
  }

  /** Days from 1 January of year y to the first day of month m. */
  function DaysBeforeMonth(y: int, m: int): int
    requires 1 <= m <= 12
  {
    var common :=
      if m == 1 then 0 else if m == 2 then 31 else if m == 3 then 59
      else if m == 4 then 90 else if m == 5 then 120 else if m == 6 then 151
      else if m == 7 then 181 else if m == 8 then 212 else if m == 9 then 243
      else if m == 10 then 273 else if m == 11 then 304 else 334;
    if m > 2 && IsLeapYear(y) then common + 1 else common
  }

  /** The day ordinal of a date: 0 for 1 January of year 1, one more for each following day. */
  function DayNumber(d: Date): int
  {
    DaysBeforeYear(d.year) + DaysBeforeMonth(d.year, d.month) + d.day - 1
  }

  /** The point in time a date stands for, in milliseconds; the order `$gte` and `.sort` compare by. */
  function Instant(d: Date): int
  {
    DayNumber(d) * MillisPerDay + d.millis
  }

  lemma DivStep4(k: int)
    ensures k / 4 == (k - 1) / 4 + (if k % 4 == 0 then 1 else 0)
  {
  }

  lemma DivStep100(k: int)
    ensures k / 100 == (k - 1) / 100 + (if k % 100 == 0 then 1 else 0)
  {
  }

  lemma DivStep400(k: int)
    ensures k / 400 == (k - 1) / 400 + (if k % 400 == 0 then 1 else 0)
  {
  }

  lemma YearLengthStep(y: int)
    ensures DaysBeforeYear(y + 1) == DaysBeforeYear(y) + YearLength(y)
  {
    DivStep4(y);
    DivStep100(y);
    DivStep400(y);
    if y % 100 == 0 {
      assert y % 4 == 0;
    }
    if y % 400 == 0 {
      assert y % 100 == 0;
    }
  }

  lemma MonthLengthStep(y: int, m: int)
    requires 1 <= m < 12
    ensures DaysBeforeMonth(y, m + 1) == DaysBeforeMonth(y, m) + DaysInMonth(y, m)
  {
  }

  /** The calendar day before d, at the same time of day. */
  function PrevDay(d: Date): (r: Date)
    ensures DayNumber(r) == DayNumber(d) - 1
    ensures r.millis == d.millis
  {
    if d.day > 1 then
      d.(day := d.day - 1)
    else if d.month > 1 then
      MonthLengthStep(d.year, d.month - 1);
      DateTime(d.year, d.month - 1, DaysInMonth(d.year, d.month - 1), d.millis)
    else
      YearLengthStep(d.year - 1);
      DateTime(d.year - 1, 12, 31, d.millis)
  }

  /** The date n calendar days before d, at the same time of day (`d.setDate(d.getDate() - n)`). */
  function MinusDays(d: Date, n: nat): (r: Date)
    ensures DayNumber(r) == DayNumber(d) - n
    ensures r.millis == d.millis
    ensures Instant(r) == Instant(d) - n * MillisPerDay
    decreases n
  {
    if n == 0 then d else MinusDays(PrevDay(d), n - 1)
  }

  /** Local midnight at the start of the first day of d's month (`new Date(y, m, 1)`). */
  function StartOfMonth(d: Date): (r: Date)
    ensures r.year == d.year && r.month == d.month && r.day == 1 && r.millis == 0
    ensures DayNumber(r) == DayNumber(d) - (d.day - 1)
    ensures Instant(r) <= Instant(d)
  {
    DateTime(d.year, d.month, 1, 0)
  }
}
