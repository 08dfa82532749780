/** The totals computed over the whole habit list, in the same way by
    `useAchievements`, `StatsOverview` and the profile page: total check-ins,
    the best current streak, and the number of distinct days with a check-in. */
module Aggregates {
  import opened Habits
  import Metrics

  /** `habits.reduce((sum, h) => sum + h.completedDates.length, 0)`: every
      stored date counts, duplicates included. */
  function TotalCompletions(habits: seq<Habit>): (n: nat)
    ensures n == 0 <==> forall i :: 0 <= i < |habits| ==> habits[i].completedDates == []
    ensures forall i :: 0 <= i < |habits| ==> |habits[i].completedDates| <= n
  {
    if habits == [] then 0 else |habits[0].completedDates| + TotalCompletions(habits[1..])
  }

  /** The total of a concatenation is the sum of the totals. */
  lemma {:induction false} TotalCompletionsAppend(a: seq<Habit>, b: seq<Habit>)
    ensures TotalCompletions(a + b) == TotalCompletions(a) + TotalCompletions(b)
  {
    if a == [] {
      assert a + b == b;
    } else {
      assert (a + b)[1..] == a[1..] + b;
      TotalCompletionsAppend(a[1..], b);
    }
  }

  function Max(a: int, b: int): int {
    if a < b then b else a
  }

  /** The largest `getStreak(h.id)` over the habits `hs`, looked up in `all`, or 0. */
  function MaxStreakOver(key: int -> string, all: seq<Habit>, hs: seq<Habit>, today: int): (r: nat)
    ensures forall i :: 0 <= i < |hs| ==> HabitStreak(key, all, hs[i].id, today) <= r
    ensures r == 0 || exists i :: 0 <= i < |hs| && r == HabitStreak(key, all, hs[i].id, today)
  {
    if hs == [] then 0
    else Max(HabitStreak(key, all, hs[0].id, today), MaxStreakOver(key, all, hs[1..], today))
  }

  /** `Math.max(...habits.map((h) => getStreak(h.id)), 0)`: the best streak of
      any habit, 0 when there are none; like `getStreak`, it looks each id up
      and so sees the first habit with that id. */
  function LongestStreak(key: int -> string, habits: seq<Habit>, today: int): (r: nat)
    ensures forall i :: 0 <= i < |habits| ==> HabitStreak(key, habits, habits[i].id, today) <= r
    ensures r == 0 || exists i :: 0 <= i < |habits| && r == HabitStreak(key, habits, habits[i].id, today)
  {
    MaxStreakOver(key, habits, habits, today)
  }

  /** The longest streak is at least every habit's streak, is one of them
      (or 0), and never exceeds the 365-day window. */
  lemma LongestStreakIsMax(key: int -> string, habits: seq<Habit>, today: int)
    ensures forall i :: 0 <= i < |habits| ==>
              HabitStreak(key, habits, habits[i].id, today) <= LongestStreak(key, habits, today)
    ensures habits == [] ==> LongestStreak(key, habits, today) == 0
    ensures LongestStreak(key, habits, today) <= Metrics.StreakWindow
  {
    var r := LongestStreak(key, habits, today);
    if r != 0 {
      var i :| 0 <= i < |habits| && r == HabitStreak(key, habits, habits[i].id, today);
      HabitStreakBounds(key, habits, habits[i].id, today);
    }
  }

  /** `new Set(habits.flatMap(h => h.completedDates))`. */
  function AllDates(habits: seq<Habit>): (ds: set<string>)
    ensures forall d :: d in ds <==> exists i :: 0 <= i < |habits| && d in habits[i].completedDates
  {
    if habits == [] then {}
    else
      assert forall i :: 0 < i < |habits| ==> habits[i] == habits[1..][i - 1];
      (set d | d in habits[0].completedDates) + AllDates(habits[1..])
  }

  /** The number of distinct days on which some habit was checked off: never
      more than the check-ins, and positive once there is one. */
  function ActiveDays(habits: seq<Habit>): (n: nat)
    ensures n <= TotalCompletions(habits)
    ensures n == 0 <==> TotalCompletions(habits) == 0
  {
    DistinctDatesAtMostTotal(habits);
    SomeDateIsActive(habits);
    |AllDates(habits)|
  }

  /** A habit with a completion puts a date into the set. */
  lemma SomeDateIsActive(habits: seq<Habit>)
    ensures TotalCompletions(habits) != 0 ==> AllDates(habits) != {}
  {
    if TotalCompletions(habits) != 0 {
      var i :| 0 <= i < |habits| && habits[i].completedDates != [];
      assert habits[i].completedDates[0] in AllDates(habits);
    }
  }

  lemma {:induction false} DistinctAtMostLength(s: seq<string>)
    ensures |set d | d in s| <= |s|
  {
    if s != [] {
      assert (set d | d in s) == {s[0]} + (set d | d in s[1..]);
      DistinctAtMostLength(s[1..]);
    }
  }

  /** Distinct active days never outnumber the check-ins. */
  lemma {:induction false} DistinctDatesAtMostTotal(habits: seq<Habit>)
    ensures |AllDates(habits)| <= TotalCompletions(habits)
  {
    if habits != [] {
      DistinctAtMostLength(habits[0].completedDates);
      DistinctDatesAtMostTotal(habits[1..]);
    }
  }

  /** `habits.filter((h) => h.completedDates.includes(dateKey)).length`: the
      habits checked off on the day with this key. */
  function HabitsDoneOn(habits: seq<Habit>, dateKey: string): (n: nat)
    ensures n <= |habits|
    ensures n == 0 <==> forall i :: 0 <= i < |habits| ==> dateKey !in habits[i].completedDates
    ensures n == |habits| <==> forall i :: 0 <= i < |habits| ==> dateKey in habits[i].completedDates
  {
    if habits == [] then 0
    else
      assert forall i :: 0 < i < |habits| ==> habits[i] == habits[1..][i - 1];
      (if dateKey in habits[0].completedDates then 1 else 0) + HabitsDoneOn(habits[1..], dateKey)
  }
}
