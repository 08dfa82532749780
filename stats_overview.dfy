/** The four figures `StatsOverview` shows: today's progress, the best streak,
    the total check-ins and the number of active habits. */
module StatsOverview {
  import opened Habits
  import opened Aggregates
  import Metrics

  datatype Stats = Stats(completedToday: nat, habitCount: nat, longestStreak: nat, totalCompletions: nat, activeHabits: nat)

  /** The figures for `habits` on day `today`, each day written as `key` writes it. */
  function StatsOf(key: int -> string, habits: seq<Habit>, today: int): (s: Stats)
    ensures s.completedToday <= s.habitCount
    ensures s.habitCount == s.activeHabits == |habits|
    ensures forall i :: 0 <= i < |habits| ==> HabitStreak(key, habits, habits[i].id, today) <= s.longestStreak
    ensures s.longestStreak <= Metrics.StreakWindow
    ensures forall i :: 0 <= i < |habits| ==> |habits[i].completedDates| <= s.totalCompletions
    ensures habits == [] ==> s == Stats(0, 0, 0, 0, 0)
  {
    LongestStreakIsMax(key, habits, today);
    Stats(HabitsDoneOn(habits, key(today)), |habits|, LongestStreak(key, habits, today),
      TotalCompletions(habits), |habits|)
  }

  /** Checking a habit off for a day, when it was not yet, raises that day's count by one. */
  lemma {:induction false} DoneOnAfterToggle(habits: seq<Habit>, dateKey: string, i: int)
    requires 0 <= i < |habits| && dateKey !in habits[i].completedDates
    requires forall j :: 0 <= j < |habits| && j != i ==> habits[j].id != habits[i].id
    ensures HabitsDoneOn(ToggleIn(habits, habits[i].id, dateKey), dateKey) == HabitsDoneOn(habits, dateKey) + 1
  {
    var r := ToggleIn(habits, habits[i].id, dateKey);
    if i == 0 {
      assert r[1..] == habits[1..];
    } else {
      assert r[1..] == ToggleIn(habits[1..], habits[i].id, dateKey);
      assert r[0] == habits[0];
      DoneOnAfterToggle(habits[1..], dateKey, i - 1);
    }
  }
}
