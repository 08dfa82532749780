/** `HabitCalendar`: the month shown, its grid of day cells, how complete each
    day is, and how a cell is classified and reacts to a click. Dates are the
    local calendar dates `formatDateLocal` writes; "today" is passed in. */
module HabitCalendar {
  import opened Wrappers
  import opened Dates
  import opened DateFormat
  import opened Habits
  import opened Aggregates

  /** The year the `Date` constructor reads from its year argument: 0 to 99
      stand for 1900 to 1999, every other year for itself. */
  function DateYear(year: int): int
  {
    if 0 <= year <= 99 then 1900 + year else year
  }

  /** `new Date(year, month + delta)` for a 0-based `month`: the year is read
      as `DateYear` does, and a month index out of 0..11 carries into it. */
  function ShiftMonth(year: int, month: int, delta: int): (r: (int, int))
    ensures 0 <= r.1 < 12
    ensures 12 * r.0 + r.1 == 12 * DateYear(year) + month + delta
  {
    var m := month + delta;
    (DateYear(year) + m / 12, m % 12)
  }

  /** Going forward a month and back again, or back and forward, returns to the
      same month, as long as neither step passes through a year `Date` reads
      as 19yy. */
  lemma ShiftMonthRoundTrip(year: int, month: int)
    requires 0 <= month < 12
    requires year < -1 || 100 < year
    ensures var n := ShiftMonth(year, month, 1); ShiftMonth(n.0, n.1, -1) == (year, month)
    ensures var p := ShiftMonth(year, month, -1); ShiftMonth(p.0, p.1, 1) == (year, month)
  {
    assert DateYear(year) == year;
    var n := ShiftMonth(year, month, 1);
    assert n == (if month == 11 then (year + 1, 0) else (year, month + 1));
    assert DateYear(n.0) == n.0;
    var b := ShiftMonth(n.0, n.1, -1);
    assert 12 * b.0 + b.1 == 12 * year + month;
    var p := ShiftMonth(year, month, -1);
    assert p == (if month == 0 then (year - 1, 11) else (year, month - 1));
    assert DateYear(p.0) == p.0;
    var f := ShiftMonth(p.0, p.1, 1);
    assert 12 * f.0 + f.1 == 12 * year + month;
  }

  /** December steps forward into January of the next year, and January back
      into December of the year before. */
  lemma ShiftMonthWraps(year: int)
    ensures ShiftMonth(year, 11, 1) == (DateYear(year) + 1, 0)
    ensures ShiftMonth(year, 0, -1) == (DateYear(year) - 1, 11)
  {
  }

  /** Going back from January 100 reaches December 99, and from there either
      button jumps into the twentieth century. */
  lemma ShiftMonthCenturyJump()
    ensures ShiftMonth(100, 0, -1) == (99, 11)
    ensures ShiftMonth(99, 11, 1) == (2000, 0)
    ensures ShiftMonth(99, 11, -1) == (1999, 10)
  {
  }

  /** Weekday of `new Date(year, month, 1)`: the number of empty cells before the first. */
  function StartPadding(year: int, month: int): (p: int)
    requires 0 <= month < 12
    ensures 0 <= p < 7
  {
    Weekday(DayNumber(Civil(DateYear(year), month + 1, 1)))
  }

  /** Every day of a month sits in the column of its weekday (Sunday first). */
  lemma DayColumn(year: int, month: int, d: int)
    requires 0 <= month < 12 && 1 <= d
    ensures Weekday(DayNumber(Civil(DateYear(year), month + 1, d))) == (StartPadding(year, month) + d - 1) % 7
  {
    var first := DayNumber(Civil(DateYear(year), month + 1, 1));
    assert DayNumber(Civil(DateYear(year), month + 1, d)) == first + (d - 1);
    WeekdayShift(first, d - 1);
  }

  /** `formatDateLocal(date) === formatDateLocal(new Date())`: the cell is today
      exactly when its date is today's date. */
  predicate IsToday(date: Civil, today: Civil): (b: bool)
    requires ValidCivil(date) && ValidCivil(today)
    ensures b <==> date == today
  {
    FormatDate(date) == FormatDate(today)
  }

  /** `formatDateLocal(date) === selectedDate`: a selected key reads back as the cell's date. */
  predicate IsSelected(date: Civil, selectedDate: string): (b: bool)
    requires ValidCivil(date)
    ensures b ==> ParseDate(selectedDate) == Some(date)
  {
    FormatDate(date) == selectedDate
  }

  /** At most one date of the calendar is selected. */
  lemma SelectedIsUnique(a: Civil, b: Civil, selectedDate: string)
    requires ValidCivil(a) && ValidCivil(b)
    requires IsSelected(a, selectedDate) && IsSelected(b, selectedDate)
    ensures a == b
  {
    FormatDateInjective(a, b);
  }

  /** Both dates moved to midnight and compared: the date is in the future
      exactly when it comes after today in year, month, day order. */
  predicate IsFuture(date: Civil, today: Civil): (b: bool)
    requires ValidCivil(date) && ValidCivil(today)
    ensures b <==>
      date.year > today.year ||
      (date.year == today.year && (date.month > today.month || (date.month == today.month && date.day > today.day)))
  {
    LaterDayNumber(date, today);
    DayNumber(date) > DayNumber(today)
  }

  /** Day numbers follow calendar order: a later year, a later month of the
      same year, or a later day of the same month. */
  lemma LaterDayNumber(date: Civil, today: Civil)
    requires ValidCivil(date) && ValidCivil(today)
    ensures DayNumber(date) > DayNumber(today) <==>
      date.year > today.year ||
      (date.year == today.year && (date.month > today.month || (date.month == today.month && date.day > today.day)))
  {
    DaysBeforeMonthIsYear(date.year);
    DaysBeforeMonthIsYear(today.year);
    DaysBeforeMonthMonotone(date.year, date.month, 13);
    DaysBeforeMonthMonotone(today.year, today.month, 13);
    if date.year < today.year {
      YearStartMonotone(date.year, today.year);
    } else if today.year < date.year {
      YearStartMonotone(today.year, date.year);
    } else if date.month < today.month {
      DaysBeforeMonthMonotone(date.year, date.month, today.month);
    } else if today.month < date.month {
      DaysBeforeMonthMonotone(date.year, today.month, date.month);
    }
  }

  /** `handleDateClick`: a date that is not in the future is selected by its key. */
  function HandleDateClick(date: Civil, today: Civil): (selected: Option<string>)
    requires ValidCivil(date) && ValidCivil(today)
    ensures selected.Some? <==> !IsFuture(date, today)
    ensures selected.Some? ==> ParseDate(selected.value) == Some(date) && IsSelected(date, selected.value)
  {
    if IsFuture(date, today) then None
    else Some(FormatDate(date))
  }

  /** A share `c / n` of a non-empty whole is between 0 and 1, is 1 only for
      all of it and positive for any of it. */
  lemma Share(c: nat, n: nat)
    requires 0 < n && c <= n
    ensures 0.0 <= c as real / n as real <= 1.0
    ensures c as real / n as real == 1.0 <==> c == n
    ensures c as real / n as real > 0.0 <==> c > 0
  {
    var f := c as real / n as real;
    assert f * n as real == c as real;
    if f == 1.0 {
      assert c as real == n as real;
    }
  }

  /** `getCompletionForDate`: the share of habits checked off on the date, 0 without habits. */
  function CompletionForDate(habits: seq<Habit>, date: Civil): (f: real)
    requires ValidCivil(date)
    ensures 0.0 <= f <= 1.0
    ensures habits == [] ==> f == 0.0
    ensures habits != [] ==> (f == 1.0 <==> forall i :: 0 <= i < |habits| ==> FormatDate(date) in habits[i].completedDates)
    ensures f > 0.0 <==> exists i :: 0 <= i < |habits| && FormatDate(date) in habits[i].completedDates
  {
    var completed := HabitsDoneOn(habits, FormatDate(date));
    if |habits| > 0 then
      Share(completed, |habits|);
      completed as real / |habits| as real
    else 0.0
  }

  /** How complete a day is, as the cell's colours tell it. */
  datatype Fill = Full | Partial | Empty

  function FillOf(f: real): Fill {
    if f == 1.0 then Full else if f > 0.0 then Partial else Empty
  }

  /** The state-dependent classes of a day cell. */
  datatype CellStyle = CellStyle(
    ring: bool,          // today
    selectedBorder: bool,
    disabled: bool,      // future days cannot be clicked
    successTint: bool,   // every habit done
    accentTint: bool,    // some but not all done, unless selected
    dot: Option<Fill>)   // the status dot, shown only when there are habits

  function CellStyleOf(habits: seq<Habit>, date: Civil, today: Civil, selectedDate: string): (c: CellStyle)
    requires ValidCivil(date) && ValidCivil(today)
    ensures c.ring <==> date == today
    ensures c.selectedBorder <==> IsSelected(date, selectedDate)
    ensures c.disabled <==> IsFuture(date, today)
    ensures c.successTint <==> habits != [] && forall i :: 0 <= i < |habits| ==> FormatDate(date) in habits[i].completedDates
    ensures c.accentTint <==>
              (exists i :: 0 <= i < |habits| && FormatDate(date) in habits[i].completedDates) &&
              (exists i :: 0 <= i < |habits| && FormatDate(date) !in habits[i].completedDates) &&
              !IsSelected(date, selectedDate)
    ensures c.dot.None? <==> habits == []
    ensures c.dot == Some(Full) <==> habits != [] && forall i :: 0 <= i < |habits| ==> FormatDate(date) in habits[i].completedDates
    ensures c.dot == Some(Partial) <==>
              (exists i :: 0 <= i < |habits| && FormatDate(date) in habits[i].completedDates) &&
              (exists i :: 0 <= i < |habits| && FormatDate(date) !in habits[i].completedDates)
    ensures c.dot == Some(Empty) <==> habits != [] && forall i :: 0 <= i < |habits| ==> FormatDate(date) !in habits[i].completedDates
  {
    var completion := CompletionForDate(habits, date);
    var selected := IsSelected(date, selectedDate);
    CellStyle(
      IsToday(date, today),
      selected,
      IsFuture(date, today),
      completion == 1.0,
      0.0 < completion < 1.0 && !selected,
      if |habits| > 0 then Some(FillOf(completion)) else None)
  }

  /** The month the calendar shows, as the year and 0-based month of `currentMonth`. */
  class MonthView {
    var year: int
    var month: int

    ghost predicate Valid()
      reads this
    {
      0 <= month < 12
    }

    /** Opens on the month of today. */
    constructor (today: Civil)
      requires ValidCivil(today)
      ensures Valid() && year == today.year && month == today.month - 1
    {
      year := today.year;
      month := today.month - 1;
    }

    method PrevMonth()
      requires Valid()
      modifies this
      ensures Valid() && (year, month) == ShiftMonth(old(year), old(month), -1)
    {
      var m := ShiftMonth(year, month, -1);
      year, month := m.0, m.1;
    }

    method NextMonth()
      requires Valid()
      modifies this
      ensures Valid() && (year, month) == ShiftMonth(old(year), old(month), 1)
    {
      var m := ShiftMonth(year, month, 1);
      year, month := m.0, m.1;
    }

    /** The grid: one empty cell per weekday before the first, then the days
        of the month in order, all in the year `Date` reads `year` as. */
    method Days() returns (days: seq<Option<Civil>>)
      requires Valid()
      ensures |days| == StartPadding(year, month) + DaysInMonth(DateYear(year), month + 1) <= 37
      ensures forall i :: 0 <= i < StartPadding(year, month) ==> days[i] == None
      ensures forall i :: StartPadding(year, month) <= i < |days| ==>
                days[i] == Some(Civil(DateYear(year), month + 1, i - StartPadding(year, month) + 1)) &&
                ValidCivil(days[i].value) &&
                Weekday(DayNumber(days[i].value)) == i % 7
    {
      var startPadding := StartPadding(year, month);
      var shownYear := DateYear(year);
      assert startPadding <= 6 && DaysInMonth(shownYear, month + 1) <= 31;
      var lastDay := DaysInMonth(shownYear, month + 1);
      days := [];
      var i := 0;
      while i < startPadding
        invariant 0 <= i <= startPadding
        invariant |days| == i
        invariant forall k :: 0 <= k < i ==> days[k] == None
      {
        days := days + [None];
        i := i + 1;
      }
      var d := 1;
      while d <= lastDay
        invariant 1 <= d <= lastDay + 1
        invariant |days| == startPadding + d - 1
        invariant forall k :: 0 <= k < startPadding ==> days[k] == None
        invariant forall k :: startPadding <= k < |days| ==>
                    days[k] == Some(Civil(shownYear, month + 1, k - startPadding + 1)) &&
                    ValidCivil(days[k].value) &&
                    Weekday(DayNumber(days[k].value)) == k % 7
      {
        DayColumn(year, month, d);
        assert ValidCivil(Civil(shownYear, month + 1, d));
        days := days + [Some(Civil(shownYear, month + 1, d))];
        d := d + 1;
      }
    }
  }
}
