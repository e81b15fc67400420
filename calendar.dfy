/**
 * Calendar arithmetic for the dashboard's date ranges: days are numbered consecutively in the
 * proleptic Gregorian calendar (day 0 is Monday 1 January of year 1), months are numbered from
 * 0 as in JavaScript, and `new Date(y, m, d)` normalises an out-of-range month or day by
 * carrying into the year or month, as JavaScript does.
 */
module Calendar {

  predicate IsLeap(y: int)
  {
    y % 4 == 0 && (y % 100 != 0 || y % 400 == 0)
  }

  /** Days of month `m` (0 = January) of year `y`. */
  function DaysInMonth(y: int, m: int): (r: int)
    requires 0 <= m < 12
    ensures 28 <= r <= 31
  {
    if m == 1 then (if IsLeap(y) then 29 else 28)
    else if m == 3 || m == 5 || m == 8 || m == 10 then 30
    else 31
  }

  /** Days in year `y` before the first of month `m`. */
  function DaysBeforeMonth(y: int, m: int): int
    requires 0 <= m < 12
  {
    [0, 31, 59, 90, 120, 151, 181, 212, 243, 273, 304, 334][m] + (if m >= 2 && IsLeap(y) then 1 else 0)
  }

  /** Day number of 1 January of year `y`. */
  function DaysBeforeYear(y: int): int
  {
    var p := y - 1;
    365 * p + p / 4 - p / 100 + p / 400
  }

  /** `new Date(y, m, d)` as a day number, with months and days carried as JavaScript does. */
  function MakeDay(y: int, m: int, d: int): int
  {
    var year := y + m / 12;
    var month := m % 12;
    DaysBeforeYear(year) + DaysBeforeMonth(year, month) + d - 1
  }

  /** `getDay()`: 0 for Sunday up to 6 for Saturday. */
  function Weekday(day: int): (r: int)
    ensures 0 <= r < 7
  {
    (day + 1) % 7
  }

  /** A calendar date as `getFullYear()`, `getMonth()` and `getDate()` report it. */
  datatype CivilDate = CivilDate(year: int, month: int, day: int)

  predicate ValidDate(c: CivilDate)
  {
    0 <= c.month < 12 && 1 <= c.day <= DaysInMonth(c.year, c.month)
  }

  function DayOf(c: CivilDate): int
  {
    MakeDay(c.year, c.month, c.day)
  }

  lemma DaysBeforeNextMonth(y: int, m: int)
    requires 0 <= m < 11
    ensures DaysBeforeMonth(y, m + 1) == DaysBeforeMonth(y, m) + DaysInMonth(y, m)
  {
  }

  /** A year has 366 days when it is a leap year and 365 otherwise. */
  lemma YearLength(y: int)
    ensures DaysBeforeYear(y + 1) - DaysBeforeYear(y) == if IsLeap(y) then 366 else 365
  {
    var p := y - 1;
    assert (p + 1) / 4 == p / 4 + (if (p + 1) % 4 == 0 then 1 else 0);
    assert (p + 1) / 100 == p / 100 + (if (p + 1) % 100 == 0 then 1 else 0);
    assert (p + 1) / 400 == p / 400 + (if (p + 1) % 400 == 0 then 1 else 0);
    assert y % 4 == 0 <==> (p + 1) % 4 == 0;
    assert y % 100 == 0 <==> (p + 1) % 100 == 0;
    assert y % 400 == 0 <==> (p + 1) % 400 == 0;
  }

  /** A month within the year needs no carry. */
  lemma MakeDayInYear(y: int, m: int, d: int)
    requires 0 <= m < 12
    ensures MakeDay(y, m, d) == DaysBeforeYear(y) + DaysBeforeMonth(y, m) + d - 1
  {
    assert m / 12 == 0 && m % 12 == m;
  }

  /** Month 12 is January of the next year. */
  lemma MakeDayNextYear(y: int, d: int)
    ensures MakeDay(y, 12, d) == DaysBeforeYear(y + 1) + d - 1
  {
    assert 12 / 12 == 1 && 12 % 12 == 0;
  }

  /** `new Date(y, m + 1, 0)` is the last day of month `m`: the month spans its length in days. */
  lemma MonthSpan(y: int, m: int)
    requires 0 <= m < 12
    ensures MakeDay(y, m + 1, 0) - MakeDay(y, m, 1) + 1 == DaysInMonth(y, m)
  {
    MakeDayInYear(y, m, 1);
    if m < 11 {
      MakeDayInYear(y, m + 1, 0);
      DaysBeforeNextMonth(y, m);
    } else {
      MakeDayNextYear(y, 0);
      YearLength(y);
    }
  }

  /** Month -1 of a year is December of the year before. */
  lemma MonthBeforeJanuary(y: int, d: int)
    ensures MakeDay(y, -1, d) == MakeDay(y - 1, 11, d)
  {
    assert -1 / 12 == -1 && -1 % 12 == 11;
    MakeDayInYear(y - 1, 11, d);
  }

  /** A valid date lies within its month. */
  lemma DateWithinMonth(c: CivilDate)
    requires ValidDate(c)
    ensures MakeDay(c.year, c.month, 1) <= DayOf(c) <= MakeDay(c.year, c.month + 1, 0)
  {
    MonthSpan(c.year, c.month);
  }

  /** Going back `Weekday(d)` days lands on a Sunday. */
  lemma BackToSunday(d: int)
    ensures Weekday(d - Weekday(d)) == 0
  {
    var q := (d + 1) / 7;
    assert d + 1 == q * 7 + Weekday(d);
    assert d - Weekday(d) + 1 == q * 7;
  }

  /** Moving by whole weeks keeps the weekday. */
  lemma WeekdayShift(d: int, weeks: int)
    ensures Weekday(d + 7 * weeks) == Weekday(d)
  {
    var q := (d + 1) / 7;
    assert d + 1 == q * 7 + Weekday(d);
    assert d + 7 * weeks + 1 == (q + weeks) * 7 + Weekday(d);
  }

  /** The numbering agrees with the calendar: 1 January 2024 was a Monday. */
  lemma NewYear2024IsMonday()
    ensures Weekday(MakeDay(2024, 0, 1)) == 1
  {
    assert DaysBeforeYear(2024) == 738885;
  }
}
