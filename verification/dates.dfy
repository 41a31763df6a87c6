/** The part of JavaScript's `Date` that the boleto engine uses, on whole days: a calendar
    date in the proleptic Gregorian calendar (what a `Date` reads back through
    `getFullYear`, `getMonth() + 1` and `getDate` in local time), a day number that
    counts days consecutively, stepping by days, the `new Date(y, monthIndex, day)`
    constructor and `setDate`, both of which roll out-of-range values over into the
    neighbouring months and years. */
module Dates {

  datatype Date = Date(year: int, month: int, day: int)

  predicate IsLeapYear(y: int) {
    y % 4 == 0 && (y % 100 != 0 || y % 400 == 0)
  }

  function DaysInYear(y: int): int {
    if IsLeapYear(y) then 366 else 365
  }

  function DaysInMonth(y: int, m: int): (n: int)
    requires 1 <= m <= 12
    ensures 28 <= n <= 31
  {
    if m == 2 then (if IsLeapYear(y) then 29 else 28)
    else if m == 4 || m == 6 || m == 9 || m == 11 then 30
    else 31
  }

  /** A real calendar date: month 1 to 12, day within that month. */
  predicate Valid(d: Date) {
    1 <= d.month <= 12 && 1 <= d.day <= DaysInMonth(d.year, d.month)
  }

  /** Days in the years before year `y`, counted from 1 January of year 1
      (negative for years before it). */
  function DaysBeforeYear(y: int): int {
    365 * (y - 1) + (y - 1) / 4 - (y - 1) / 100 + (y - 1) / 400
  }

  /** Days before the first of each month in a common year, January first. */
  const CumulativeDays: seq<int> := [0, 31, 59, 90, 120, 151, 181, 212, 243, 273, 304, 334]

  /** Days in the months of year `y` before month `m`. */
  function DaysBeforeMonth(y: int, m: int): int
    requires 1 <= m <= 12
  {
    if m == 1 then 0 else DaysBeforeMonth(y, m - 1) + DaysInMonth(y, m - 1)
  }

  /** The days before a month are those of the common-year table, with one day more from
      March on in a leap year. */
  lemma {:induction false} DaysBeforeMonthTable(y: int, m: int)
    requires 1 <= m <= 12
    ensures DaysBeforeMonth(y, m) == CumulativeDays[m - 1] + (if m > 2 && IsLeapYear(y) then 1 else 0)
  {
    if m > 1 {
      DaysBeforeMonthTable(y, m - 1);
    }
  }

  /** Consecutive numbering of days: 1 January of year 1 is day 1. */
  function DayNumber(d: Date): int
    requires Valid(d)
  {
    DaysBeforeYear(d.year) + DaysBeforeMonth(d.year, d.month) + d.day
  }

  // ---- the calendar's arithmetic ----

  /** Dividing `y` and `y - 1` by a constant gives quotients that differ by one exactly
      when the constant divides `y`. */
  lemma DivSteps(y: int)
    ensures y / 4 - (y - 1) / 4 == if y % 4 == 0 then 1 else 0
    ensures y / 100 - (y - 1) / 100 == if y % 100 == 0 then 1 else 0
    ensures y / 400 - (y - 1) / 400 == if y % 400 == 0 then 1 else 0
    ensures y % 400 == 0 ==> y % 100 == 0
    ensures y % 100 == 0 ==> y % 4 == 0
  {
  }

  /** Moving to the next year adds the length of the current one. */
  lemma YearStep(y: int)
    ensures DaysBeforeYear(y + 1) == DaysBeforeYear(y) + DaysInYear(y)
  {
    DivSteps(y);
  }

  /** The months before December plus December's 31 days make up the year. */
  lemma MonthTable(y: int)
    ensures DaysBeforeMonth(y, 12) + 31 == DaysInYear(y)
  {
    var f := if IsLeapYear(y) then 1 else 0;
    assert DaysBeforeMonth(y, 2) == 31;
    assert DaysBeforeMonth(y, 3) == 59 + f;
    assert DaysBeforeMonth(y, 4) == 90 + f;
    assert DaysBeforeMonth(y, 5) == 120 + f;
    assert DaysBeforeMonth(y, 6) == 151 + f;
    assert DaysBeforeMonth(y, 7) == 181 + f;
    assert DaysBeforeMonth(y, 8) == 212 + f;
    assert DaysBeforeMonth(y, 9) == 243 + f;
    assert DaysBeforeMonth(y, 10) == 273 + f;
    assert DaysBeforeMonth(y, 11) == 304 + f;
    assert DaysBeforeMonth(y, 12) == 334 + f;
  }

  /** A month ends no later than the year does, and later months start later. */
  lemma {:induction false} MonthsIncrease(y: int, m1: int, m2: int)
    requires 1 <= m1 < m2 <= 12
    ensures DaysBeforeMonth(y, m1) + DaysInMonth(y, m1) <= DaysBeforeMonth(y, m2)
  {
    if m2 > m1 + 1 {
      MonthsIncrease(y, m1, m2 - 1);
    }
  }

  lemma {:induction false} YearsIncrease(y1: int, y2: int)
    requires y1 < y2
    ensures DaysBeforeYear(y1) + DaysInYear(y1) <= DaysBeforeYear(y2)
    decreases y2 - y1
  {
    YearStep(y1);
    if y2 > y1 + 1 {
      YearsIncrease(y1 + 1, y2);
    }
  }

  /** Every valid date of year `y` falls after the years before `y` and within year `y`. */
  lemma DayNumberInYear(d: Date)
    requires Valid(d)
    ensures DaysBeforeYear(d.year) < DayNumber(d) <= DaysBeforeYear(d.year) + DaysInYear(d.year)
  {
    MonthTable(d.year);
    DaysBeforeMonthTable(d.year, d.month);
    if d.month < 12 {
      MonthsIncrease(d.year, d.month, 12);
    }
  }

  /** Day numbers follow calendar order: an earlier date has a smaller day number. */
  lemma DayNumberOrdered(a: Date, b: Date)
    requires Valid(a) && Valid(b)
    requires a.year < b.year || (a.year == b.year && (a.month < b.month || (a.month == b.month && a.day < b.day)))
    ensures DayNumber(a) < DayNumber(b)
  {
    DayNumberInYear(a);
    DayNumberInYear(b);
    if a.year < b.year {
      YearsIncrease(a.year, b.year);
    } else if a.month < b.month {
      MonthsIncrease(a.year, a.month, b.month);
    }
  }

  /** Two valid dates with the same day number are the same date. */
  lemma DayNumberInjective(a: Date, b: Date)
    requires Valid(a) && Valid(b) && DayNumber(a) == DayNumber(b)
    ensures a == b
  {
    if a.year < b.year || (a.year == b.year && (a.month < b.month || (a.month == b.month && a.day < b.day))) {
      DayNumberOrdered(a, b);
    } else if b.year < a.year || (b.year == a.year && (b.month < a.month || (b.month == a.month && b.day < a.day))) {
      DayNumberOrdered(b, a);
    }
  }

  // ---- stepping by days ----

  /** The following day. */
  function Next(d: Date): (r: Date)
    requires Valid(d)
    ensures Valid(r) && DayNumber(r) == DayNumber(d) + 1
  {
    if d.day < DaysInMonth(d.year, d.month) then Date(d.year, d.month, d.day + 1)
    else if d.month < 12 then Date(d.year, d.month + 1, 1)
    else
      YearStep(d.year);
      MonthTable(d.year);
      Date(d.year + 1, 1, 1)
  }

  /** The preceding day. */
  function Prev(d: Date): (r: Date)
    requires Valid(d)
    ensures Valid(r) && DayNumber(r) == DayNumber(d) - 1
  {
    if d.day > 1 then Date(d.year, d.month, d.day - 1)
    else if d.month > 1 then Date(d.year, d.month - 1, DaysInMonth(d.year, d.month - 1))
    else
      YearStep(d.year - 1);
      MonthTable(d.year - 1);
      Date(d.year - 1, 12, 31)
  }

  /** The date `n` days later (earlier when `n` is negative), rolling over month and
      year boundaries. */
  function AddDays(d: Date, n: int): (r: Date)
    requires Valid(d)
    ensures Valid(r) && DayNumber(r) == DayNumber(d) + n
    decreases if n >= 0 then n else -n
  {
    if n == 0 then d
    else if n > 0 then AddDays(Next(d), n - 1)
    else AddDays(Prev(d), n + 1)
  }

  /** The year a `Date` constructor makes of its first argument: 0 to 99 mean 1900 to 1999. */
  function FullYear(y: int): int {
    if 0 <= y <= 99 then 1900 + y else y
  }

  /** `new Date(y, monthIndex, day)`: month index 0 is January; a month index outside
      0..11 moves into earlier or later years and a day outside the month moves into
      earlier or later months. */
  function MakeDate(y: int, monthIndex: int, day: int): (r: Date)
    ensures Valid(r)
  {
    AddDays(Date(FullYear(y) + monthIndex / 12, monthIndex % 12 + 1, 1), day - 1)
  }

  /** The constructor counts `day - 1` days on from the first of the month it lands in. */
  lemma MakeDateDayNumber(y: int, monthIndex: int, day: int)
    ensures var first := Date(FullYear(y) + monthIndex / 12, monthIndex % 12 + 1, 1);
      Valid(first) && DayNumber(MakeDate(y, monthIndex, day)) == DayNumber(first) + day - 1
  {
  }

  /** For a year outside 0..99, the constructor builds exactly the date its arguments name. */
  lemma MakeDateExact(d: Date)
    requires Valid(d) && !(0 <= d.year <= 99)
    ensures MakeDate(d.year, d.month - 1, d.day) == d
  {
    assert (d.month - 1) / 12 == 0 && (d.month - 1) % 12 == d.month - 1;
    MakeDateDayNumber(d.year, d.month - 1, d.day);
    DayNumberInjective(MakeDate(d.year, d.month - 1, d.day), d);
  }

  /** `date.setDate(day)`: the same year and month with the given day of the month,
      rolling over into earlier or later months when `day` is out of range. */
  function SetDate(d: Date, day: int): (r: Date)
    requires Valid(d)
    ensures Valid(r) && DayNumber(r) == DayNumber(d) - d.day + day
  {
    AddDays(Date(d.year, d.month, 1), day - 1)
  }

  /** `setDate(getDate() + n)` moves a date by `n` days. */
  lemma SetDateShifts(d: Date, n: int)
    requires Valid(d)
    ensures SetDate(d, d.day + n) == AddDays(d, n)
  {
    DayNumberInjective(SetDate(d, d.day + n), AddDays(d, n));
  }

  /** `setDate(getDate() - n)` moves a date back by `n` days. */
  lemma SetDateBack(d: Date, n: int)
    requires Valid(d)
    ensures SetDate(d, d.day - n) == AddDays(d, -n)
  {
    DayNumberInjective(SetDate(d, d.day - n), AddDays(d, -n));
  }
}
