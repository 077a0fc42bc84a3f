/**
 * Proleptic Gregorian calendar arithmetic behind the naive `datetime`
 * values of the program. A point in time is a whole number of seconds
 * since 0001-01-01 00:00:00, so the representable range is exactly the
 * range of a `datetime` (years 1 to 9999) truncated to seconds.
 */
module Calendar {

  const MinYear: int := 1
  const MaxYear: int := 9999
  const SecondsPerDay: int := 86400

  /** Days from 0001-01-01 to 10000-01-01. */
  const DaysInRange: int := 3652059
  /** The last representable second, 9999-12-31 23:59:59: DaysInRange * SecondsPerDay - 1. */
  const MaxTime: int := 315537897599

  /** A representable instant: what a `datetime` can hold, to the second. */
  type Time = t: int | InRange(t)

  /** Whether an instant lies between 0001-01-01 00:00:00 and 9999-12-31 23:59:59. */
  predicate InRange(t: int) {
    0 <= t <= MaxTime
  }

  /** Broken-down calendar fields, as `datetime` stores them. */
  datatype DateTime = DateTime(year: int, month: int, day: int, hour: int, minute: int, second: int)

  predicate IsLeap(y: int) {
    y % 4 == 0 && (y % 100 != 0 || y % 400 == 0)
  }

  function DaysInYear(y: int): int {
    if IsLeap(y) then 366 else 365
  }

  function DaysInMonth(y: int, m: int): int
    requires 1 <= m <= 12
  {
    if m == 2 then (if IsLeap(y) then 29 else 28)
    else if m == 4 || m == 6 || m == 9 || m == 11 then 30
    else 31
  }

  /** Days of year `y` before the first of month `m` (month 13 stands for the year's end). */
  function DaysBeforeMonth(y: int, m: int): int
    requires 1 <= m <= 13
  {
    (if m == 1 then 0 else if m == 2 then 31 else if m == 3 then 59
     else if m == 4 then 90 else if m == 5 then 120 else if m == 6 then 151
     else if m == 7 then 181 else if m == 8 then 212 else if m == 9 then 243
     else if m == 10 then 273 else if m == 11 then 304 else if m == 12 then 334
     else 365)
    + (if m > 2 && IsLeap(y) then 1 else 0)
  }

  /** Days from 0001-01-01 to the first of January of year `y`. */
  function DaysBeforeYear(y: int): int
    requires y >= MinYear
  {
    var n := y - 1;
    365 * n + n / 4 - n / 100 + n / 400
  }

  predicate Valid(d: DateTime) {
    && MinYear <= d.year <= MaxYear
    && 1 <= d.month <= 12
    && 1 <= d.day <= DaysInMonth(d.year, d.month)
    && 0 <= d.hour < 24
    && 0 <= d.minute < 60
    && 0 <= d.second < 60
  }

  lemma MonthStep(y: int, m: int)
    requires 1 <= m <= 12
    ensures DaysBeforeMonth(y, m + 1) == DaysBeforeMonth(y, m) + DaysInMonth(y, m)
  {
  }

  lemma YearStep(y: int)
    requires y >= MinYear
    ensures DaysBeforeYear(y + 1) == DaysBeforeYear(y) + DaysInYear(y)
  {
    var n := y - 1;
    assert (n + 1) / 4 == n / 4 + (if y % 4 == 0 then 1 else 0);
    assert (n + 1) / 100 == n / 100 + (if y % 100 == 0 then 1 else 0);
    assert (n + 1) / 400 == n / 400 + (if y % 400 == 0 then 1 else 0);
  }

  /** Later years start later, by at least the length of every year in between. */
  lemma {:induction false} YearsIncrease(y1: int, y2: int)
    requires MinYear <= y1 < y2
    ensures DaysBeforeYear(y1) + DaysInYear(y1) <= DaysBeforeYear(y2)
    decreases y2 - y1
  {
    YearStep(y1);
    if y1 + 1 < y2 {
      YearsIncrease(y1 + 1, y2);
    }
  }

  /** Exactly the years 1 to 9999 fall inside the representable range. */
  lemma YearWithinRange(y: int)
    requires y >= MinYear
    ensures y <= MaxYear ==> DaysBeforeYear(y) + DaysInYear(y) <= DaysInRange
    ensures y > MaxYear ==> DaysBeforeYear(y) >= DaysInRange
  {
    YearStep(MaxYear);
    if y < MaxYear {
      YearsIncrease(y, MaxYear);
    } else if y > MaxYear {
      YearsIncrease(MaxYear, y);
    }
  }

  /** A valid date's month ends within its year. */
  lemma MonthWithinYear(y: int, m: int)
    requires 1 <= m <= 12
    ensures DaysBeforeMonth(y, m) + DaysInMonth(y, m) <= DaysInYear(y)
  {
  }

  /** Seconds in whole days plus a second of the day split back into the two. */
  lemma SplitDay(days: int, sod: int)
    requires 0 <= sod < 86400
    ensures (days * 86400 + sod) / 86400 == days
    ensures (days * 86400 + sod) % 86400 == sod
  {
  }

  /** The day number of a valid date, counted from 0001-01-01. */
  function DayNumber(d: DateTime): (n: int)
    requires Valid(d)
    ensures 0 <= n < DaysInRange
  {
    MonthWithinYear(d.year, d.month);
    YearWithinRange(d.year);
    DaysBeforeYear(d.year) + DaysBeforeMonth(d.year, d.month) + d.day - 1
  }

  /** The seconds count of a valid calendar date, as `datetime` orders them. */
  function ToSeconds(d: DateTime): (t: Time)
    requires Valid(d)
    ensures t % SecondsPerDay == d.hour * 3600 + d.minute * 60 + d.second
  {
    var sod := d.hour * 3600 + d.minute * 60 + d.second;
    SplitDay(DayNumber(d), sod);
    DayNumber(d) * 86400 + sod
  }

  /** Splits a day count, starting at year `y`, into a year and a day of that year. */
  function YearOf(days: int, y: int): (r: (int, int))
    requires y >= MinYear && days >= 0
    ensures r.0 >= y && 0 <= r.1 < DaysInYear(r.0)
    ensures DaysBeforeYear(r.0) + r.1 == DaysBeforeYear(y) + days
    decreases days
  {
    YearStep(y);
    if days < DaysInYear(y) then (y, days)
    else YearOf(days - DaysInYear(y), y + 1)
  }

  /** Splits a day of year `y`, starting at month `m`, into a month and a day of that month. */
  function MonthOf(y: int, doy: int, m: int): (r: (int, int))
    requires 1 <= m <= 12 && doy >= 0
    requires DaysBeforeMonth(y, m) + doy < DaysInYear(y)
    ensures m <= r.0 <= 12 && 0 <= r.1 < DaysInMonth(y, r.0)
    ensures DaysBeforeMonth(y, r.0) + r.1 == DaysBeforeMonth(y, m) + doy
    decreases 12 - m
  {
    MonthStep(y, m);
    if doy < DaysInMonth(y, m) then (m, doy)
    else MonthOf(y, doy - DaysInMonth(y, m), m + 1)
  }

  /** The calendar fields of an instant; inverse of ToSeconds. */
  function FromSeconds(t: Time): (d: DateTime)
    ensures Valid(d) && ToSeconds(d) == t
  {
    assert InRange(t);
    var days := t / 86400;
    var sod := t % 86400;
    var (y, doy) := YearOf(days, MinYear);
    YearWithinRange(y);
    var (m, d0) := MonthOf(y, doy, 1);
    DateTime(y, m, d0 + 1, sod / 3600, sod % 3600 / 60, sod % 60)
  }

  /** The order of `datetime` values: year first, then month, day, hour, minute and second. */
  predicate Before(d1: DateTime, d2: DateTime) {
    if d1.year != d2.year then d1.year < d2.year
    else if d1.month != d2.month then d1.month < d2.month
    else if d1.day != d2.day then d1.day < d2.day
    else if d1.hour != d2.hour then d1.hour < d2.hour
    else if d1.minute != d2.minute then d1.minute < d2.minute
    else d1.second < d2.second
  }

  /** Later months of a year start later, by at least the length of every month in between. */
  lemma {:induction false} MonthsIncrease(y: int, m1: int, m2: int)
    requires 1 <= m1 < m2 <= 12
    ensures DaysBeforeMonth(y, m1) + DaysInMonth(y, m1) <= DaysBeforeMonth(y, m2)
    decreases m2 - m1
  {
    MonthStep(y, m1);
    if m1 + 1 < m2 {
      MonthsIncrease(y, m1 + 1, m2);
    }
  }

  /** A later calendar day has a larger day number. */
  lemma DayNumberIncreases(d1: DateTime, d2: DateTime)
    requires Valid(d1) && Valid(d2)
    requires d1.year < d2.year || (d1.year == d2.year && (d1.month < d2.month || (d1.month == d2.month && d1.day < d2.day)))
    ensures DayNumber(d1) < DayNumber(d2)
  {
    MonthWithinYear(d1.year, d1.month);
    if d1.year < d2.year {
      YearsIncrease(d1.year, d2.year);
    } else if d1.month < d2.month {
      MonthsIncrease(d1.year, d1.month, d2.month);
    }
  }

  /** A later date is a later instant. */
  lemma ToSecondsIncreases(d1: DateTime, d2: DateTime)
    requires Valid(d1) && Valid(d2) && Before(d1, d2)
    ensures ToSeconds(d1) < ToSeconds(d2)
  {
    if d1.year != d2.year || d1.month != d2.month || d1.day != d2.day {
      DayNumberIncreases(d1, d2);
    }
  }

  /**
   * The integer order of instants is the order `datetime` compares in, and
   * distinct valid dates are distinct instants.
   */
  lemma ToSecondsOrder(d1: DateTime, d2: DateTime)
    requires Valid(d1) && Valid(d2)
    ensures Before(d1, d2) <==> ToSeconds(d1) < ToSeconds(d2)
    ensures d1 == d2 <==> ToSeconds(d1) == ToSeconds(d2)
  {
    if Before(d1, d2) {
      ToSecondsIncreases(d1, d2);
    } else if d1 != d2 {
      ToSecondsIncreases(d2, d1);
    }
  }

  /** FromSeconds undoes ToSeconds: with FromSeconds' own contract the two are inverse bijections. */
  lemma FromToSeconds(d: DateTime)
    requires Valid(d)
    ensures FromSeconds(ToSeconds(d)) == d
  {
    ToSecondsOrder(d, FromSeconds(ToSeconds(d)));
  }
}
