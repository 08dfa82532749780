/** The proleptic Gregorian calendar on integer day numbers.
    Day 0 is 1 January 1970 (the epoch of JavaScript's Date); negative day
    numbers are the days before it. A `Civil` date has a 1-based month. */
module Dates {

  datatype Civil = Civil(year: int, month: int, day: int)

  predicate IsLeapYear(year: int) {
    year % 4 == 0 && (year % 100 != 0 || year % 400 == 0)
  }

  function YearLength(year: int): int {
    if IsLeapYear(year) then 366 else 365
  }

  /** What `new Date(year, month, 0).getDate()` gives for a 1-based `month`. */
  function DaysInMonth(year: int, month: int): (n: int)
    requires 1 <= month <= 12
    ensures 28 <= n <= 31
    ensures n == 29 <==> month == 2 && IsLeapYear(year)
  {
    if month == 2 then (if IsLeapYear(year) then 29 else 28)
    else if month == 4 || month == 6 || month == 9 || month == 11 then 30
    else 31
  }

  predicate ValidCivil(c: Civil) {
    1 <= c.month <= 12 && 1 <= c.day <= DaysInMonth(c.year, c.month)
  }

  /** Days of `year` before the first of `month`; month 13 stands for the next year. */
  function DaysBeforeMonth(year: int, month: int): (n: int)
    requires 1 <= month <= 13
    ensures 0 <= n <= 31 * (month - 1)
  {
    if month == 1 then 0 else DaysBeforeMonth(year, month - 1) + DaysInMonth(year, month - 1)
  }

  lemma DaysBeforeMonthIsYear(year: int)
    ensures DaysBeforeMonth(year, 13) == YearLength(year)
  {
    assert DaysBeforeMonth(year, 2) == 31;
    assert DaysBeforeMonth(year, 3) == 31 + DaysInMonth(year, 2);
    assert DaysBeforeMonth(year, 4) == DaysBeforeMonth(year, 3) + 31;
    assert DaysBeforeMonth(year, 5) == DaysBeforeMonth(year, 3) + 61;
    assert DaysBeforeMonth(year, 6) == DaysBeforeMonth(year, 3) + 92;
    assert DaysBeforeMonth(year, 7) == DaysBeforeMonth(year, 3) + 122;
    assert DaysBeforeMonth(year, 8) == DaysBeforeMonth(year, 3) + 153;
    assert DaysBeforeMonth(year, 9) == DaysBeforeMonth(year, 3) + 184;
    assert DaysBeforeMonth(year, 10) == DaysBeforeMonth(year, 3) + 214;
    assert DaysBeforeMonth(year, 11) == DaysBeforeMonth(year, 3) + 245;
    assert DaysBeforeMonth(year, 12) == DaysBeforeMonth(year, 3) + 275;
  }

  /** A later month starts no earlier than the end of an earlier one. */
  lemma {:induction false} DaysBeforeMonthMonotone(year: int, m1: int, m2: int)
    requires 1 <= m1 < m2 <= 13
    ensures DaysBeforeMonth(year, m1) + DaysInMonth(year, m1) <= DaysBeforeMonth(year, m2)
    decreases m2 - m1
  {
    if m1 + 1 < m2 {
      DaysBeforeMonthMonotone(year, m1 + 1, m2);
    }
  }

  /** Day number of 1 January of `year`. */
  function YearStart(year: int): int
    decreases if year < 1970 then 1970 - year else year - 1970
  {
    if year == 1970 then 0
    else if year > 1970 then YearStart(year - 1) + YearLength(year - 1)
    else YearStart(year + 1) - YearLength(year)
  }

  lemma YearStartStep(year: int)
    ensures YearStart(year + 1) == YearStart(year) + YearLength(year)
  {
  }

  /** Years are laid out in order: a later year starts after an earlier one ends. */
  lemma {:induction false} YearStartMonotone(y1: int, y2: int)
    requires y1 < y2
    ensures YearStart(y1) + YearLength(y1) <= YearStart(y2)
    decreases y2 - y1
  {
    YearStartStep(y1);
    if y1 + 1 < y2 {
      YearStartMonotone(y1 + 1, y2);
    }
  }

  /** The day number of a date, as `new Date(year, month - 1, day)` counts days. */
  function DayNumber(c: Civil): int
    requires 1 <= c.month <= 12
  {
    YearStart(c.year) + DaysBeforeMonth(c.year, c.month) + c.day - 1
  }

  /** The year holding day `n`, searching upwards from `year`. */
  function YearUp(n: int, year: int): (y: int)
    requires YearStart(year) <= n
    ensures YearStart(y) <= n < YearStart(y) + YearLength(y)
    decreases n - YearStart(year)
  {
    YearStartStep(year);
    if n < YearStart(year + 1) then year else YearUp(n, year + 1)
  }

  /** The year holding day `n`, searching downwards from `year`. */
  function YearDown(n: int, year: int): (y: int)
    requires n < YearStart(year) + YearLength(year)
    ensures YearStart(y) <= n < YearStart(y) + YearLength(y)
    decreases YearStart(year) + YearLength(year) - n
  {
    YearStartStep(year - 1);
    if YearStart(year) <= n then year else YearDown(n, year - 1)
  }

  function YearOf(n: int): (y: int)
    ensures YearStart(y) <= n < YearStart(y) + YearLength(y)
  {
    if n >= 0 then YearUp(n, 1970) else YearDown(n, 1969)
  }

  /** The date `offset` days after the first of `month` in `year`. */
  function MonthFrom(year: int, month: int, offset: int): (c: Civil)
    requires 1 <= month <= 12 && 0 <= offset
    requires DaysBeforeMonth(year, month) + offset < YearLength(year)
    ensures ValidCivil(c) && c.year == year
    ensures DaysBeforeMonth(year, c.month) + c.day - 1 == DaysBeforeMonth(year, month) + offset
    decreases 12 - month
  {
    DaysBeforeMonthIsYear(year);
    if offset < DaysInMonth(year, month) then Civil(year, month, offset + 1)
    else MonthFrom(year, month + 1, offset - DaysInMonth(year, month))
  }

  /** The calendar date of day number `n`. */
  function CivilOf(n: int): (c: Civil)
    ensures ValidCivil(c) && DayNumber(c) == n
  {
    var y := YearOf(n);
    MonthFrom(y, 1, n - YearStart(y))
  }

  /** Valid dates and day numbers are in one-to-one correspondence. */
  lemma DayNumberInjective(a: Civil, b: Civil)
    requires ValidCivil(a) && ValidCivil(b) && DayNumber(a) == DayNumber(b)
    ensures a == b
  {
    DaysBeforeMonthIsYear(a.year);
    DaysBeforeMonthIsYear(b.year);
    DaysBeforeMonthMonotone(a.year, a.month, 13);
    DaysBeforeMonthMonotone(b.year, b.month, 13);
    if a.year < b.year {
      YearStartMonotone(a.year, b.year);
      assert false;
    } else if b.year < a.year {
      YearStartMonotone(b.year, a.year);
      assert false;
    }
    if a.month < b.month {
      DaysBeforeMonthMonotone(a.year, a.month, b.month);
      assert false;
    } else if b.month < a.month {
      DaysBeforeMonthMonotone(a.year, b.month, a.month);
      assert false;
    }
  }

  lemma CivilOfDayNumber(c: Civil)
    requires ValidCivil(c)
    ensures CivilOf(DayNumber(c)) == c
  {
    DayNumberInjective(CivilOf(DayNumber(c)), c);
  }

  /** Day of the week as `Date.getDay()` numbers it: Sunday is 0; 1 January 1970 was a Thursday. */
  function Weekday(n: int): (w: int)
    ensures 0 <= w < 7
  {
    (n + 4) % 7
  }

  /** `k` days later the weekday has moved on by `k`, modulo the week. */
  lemma WeekdayShift(n: int, k: int)
    ensures Weekday(n + k) == (Weekday(n) + k) % 7
  {
    var q := (n + 4) / 7;
    var r := (n + 4) % 7;
    assert n + k + 4 == 7 * q + (r + k);
    var q2 := (r + k) / 7;
    assert n + k + 4 == 7 * (q + q2) + (r + k) % 7;
  }
}
