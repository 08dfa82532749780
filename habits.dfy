/** The habit store of `useHabits`: an ordered list of habit records, the
    updates `addHabit`, `toggleHabit` and `deleteHabit` make to it, and the
    per-habit queries `isHabitCompleted`, `getCompletionRate` and `getStreak`.
    The clock, `Date.now()` ids and `Math.random()` colours are parameters. */
module Habits {
  import opened Wrappers
  import opened ListToggle
  import opened Metrics
  import DateFormat

  /** One habit record; `completedDates` holds the keys of the days it was done. */
  datatype Habit = Habit(
    id: string,
    name: string,
    emoji: string,
    color: string,
    completedDates: seq<string>,
    createdAt: string)

  /** The colours `addHabit` picks from. */
  const Palette: seq<string> := ["primary", "accent", "success"]

  /** The three habits a first start begins with, all created at `now`. */
  function DefaultHabits(now: string): (hs: seq<Habit>)
    ensures |hs| == 3
    ensures forall i :: 0 <= i < |hs| ==> hs[i].completedDates == [] && hs[i].color == Palette[i] && hs[i].createdAt == now
    ensures hs[0].id == "1" && hs[1].id == "2" && hs[2].id == "3"
  {
    [ Habit("1", "Morning Exercise", "\U{1F3C3}", "primary", [], now),
      Habit("2", "Read 30 minutes", "\U{1F4DA}", "accent", [], now),
      Habit("3", "Drink 8 glasses of water", "\U{1F4A7}", "success", [], now) ]
  }

  /** The day keys of this model, written as `formatDateLocal` writes them,
      tell days apart. (`useHabits` itself stores `toISOString().split('T')[0]`,
      the UTC date with a four-digit zero-padded year; the two agree for years
      1000 to 9999 whenever the local and UTC dates coincide.) */
  lemma KeyIsInjective()
    ensures Injective(DateFormat.Key)
  {
    forall a, b | DateFormat.Key(a) == DateFormat.Key(b) ensures a == b {
      DateFormat.KeyInjective(a, b);
    }
  }

  /** Position `i` holds the first habit with id `habitId`. */
  predicate FirstWithId(habits: seq<Habit>, habitId: string, i: int) {
    0 <= i < |habits| && habits[i].id == habitId && forall j :: 0 <= j < i ==> habits[j].id != habitId
  }

  /** `habits.find((h) => h.id === habitId)`. */
  function Find(habits: seq<Habit>, habitId: string): (r: Option<Habit>)
    ensures r.None? <==> forall i :: 0 <= i < |habits| ==> habits[i].id != habitId
    ensures r.Some? ==> exists i :: FirstWithId(habits, habitId, i) && habits[i] == r.value
  {
    if habits == [] then None
    else if habits[0].id == habitId then
      assert FirstWithId(habits, habitId, 0);
      Some(habits[0])
    else
      FirstWithIdShift(habits, habitId);
      Find(habits[1..], habitId)
  }

  lemma FirstWithIdShift(habits: seq<Habit>, habitId: string)
    requires habits != [] && habits[0].id != habitId
    ensures forall i :: FirstWithId(habits[1..], habitId, i) ==>
              FirstWithId(habits, habitId, i + 1) && habits[i + 1] == habits[1..][i]
  {
  }

  /** The first match is unique. */
  lemma FirstWithIdUnique(habits: seq<Habit>, habitId: string, i: int, j: int)
    requires FirstWithId(habits, habitId, i) && FirstWithId(habits, habitId, j)
    ensures i == j
  {
  }

  /** The record `toggleHabit` makes of habit `h`: `date` checked off, or unchecked. */
  function ToggleDate(h: Habit, date: string): Habit {
    h.(completedDates := Toggle(h.completedDates, date))
  }

  /** `prev.map(...)` in `toggleHabit`: every habit with the id gets `date` toggled. */
  function ToggleIn(habits: seq<Habit>, habitId: string, date: string): (r: seq<Habit>)
    ensures |r| == |habits|
    ensures forall i :: 0 <= i < |habits| && habits[i].id != habitId ==> r[i] == habits[i]
    ensures forall i :: 0 <= i < |habits| && habits[i].id == habitId ==> r[i] == ToggleDate(habits[i], date)
  {
    if habits == [] then []
    else
      [if habits[0].id == habitId then ToggleDate(habits[0], date) else habits[0]]
      + ToggleIn(habits[1..], habitId, date)
  }

  /** An id no habit has leaves the collection as it was. */
  lemma ToggleInUnknownId(habits: seq<Habit>, habitId: string, date: string)
    requires forall i :: 0 <= i < |habits| ==> habits[i].id != habitId
    ensures ToggleIn(habits, habitId, date) == habits
  {
  }

  /** Toggling the same date of the same habit twice restores every record's
      fields and which dates each holds; the order of the dates may change. */
  lemma ToggleInTwice(habits: seq<Habit>, habitId: string, date: string)
    ensures var r := ToggleIn(ToggleIn(habits, habitId, date), habitId, date);
      |r| == |habits| &&
      forall i :: 0 <= i < |habits| ==>
        r[i].(completedDates := []) == habits[i].(completedDates := []) &&
        forall d :: d in r[i].completedDates <==> d in habits[i].completedDates
  {
    var r1 := ToggleIn(habits, habitId, date);
    var r := ToggleIn(r1, habitId, date);
    forall i | 0 <= i < |habits|
      ensures forall d :: d in r[i].completedDates <==> d in habits[i].completedDates
    {
      if habits[i].id == habitId {
        ToggleTwiceMembership(habits[i].completedDates, date);
      }
    }
  }

  /** `toggleHabit` changes whether `date` is done and no other date, and keeps a
      duplicate-free `completedDates` duplicate-free. */
  lemma ToggleInDates(habits: seq<Habit>, habitId: string, date: string, i: int)
    requires 0 <= i < |habits| && habits[i].id == habitId
    ensures var h := ToggleIn(habits, habitId, date)[i];
      (date in h.completedDates <==> date !in habits[i].completedDates) &&
      (forall d :: d != date ==> (d in h.completedDates <==> d in habits[i].completedDates)) &&
      (NoDuplicates(habits[i].completedDates) ==> NoDuplicates(h.completedDates))
  {
    if NoDuplicates(habits[i].completedDates) {
      ToggleNoDuplicates(habits[i].completedDates, date);
    }
  }

  /** `prev.filter((habit) => habit.id !== habitId)`. */
  function DeleteIn(habits: seq<Habit>, habitId: string): (r: seq<Habit>)
    ensures forall h :: h in r <==> h in habits && h.id != habitId
    ensures |r| <= |habits|
  {
    if habits == [] then []
    else (if habits[0].id == habitId then [] else [habits[0]]) + DeleteIn(habits[1..], habitId)
  }

  /** Deleting keeps the survivors in their order: it distributes over concatenation. */
  lemma {:induction false} DeleteInAppend(a: seq<Habit>, b: seq<Habit>, habitId: string)
    ensures DeleteIn(a + b, habitId) == DeleteIn(a, habitId) + DeleteIn(b, habitId)
  {
    if a == [] {
      assert a + b == b;
    } else {
      assert (a + b)[1..] == a[1..] + b;
      DeleteInAppend(a[1..], b, habitId);
    }
  }

  /** Deleting an id no habit has changes nothing. */
  lemma {:induction false} DeleteInUnknownId(habits: seq<Habit>, habitId: string)
    requires forall i :: 0 <= i < |habits| ==> habits[i].id != habitId
    ensures DeleteIn(habits, habitId) == habits
  {
    if habits != [] {
      DeleteInUnknownId(habits[1..], habitId);
    }
  }

  /** The record `addHabit` appends. */
  function NewHabit(id: string, name: string, emoji: string, colorIndex: int, createdAt: string): Habit
    requires 0 <= colorIndex < |Palette|
  {
    Habit(id, name, emoji, Palette[colorIndex], [], createdAt)
  }

  /** Deleting a freshly added habit by its (unused) id gives back the collection before the add. */
  lemma AddThenDelete(habits: seq<Habit>, id: string, name: string, emoji: string, colorIndex: int, createdAt: string)
    requires 0 <= colorIndex < |Palette|
    requires forall i :: 0 <= i < |habits| ==> habits[i].id != id
    ensures DeleteIn(habits + [NewHabit(id, name, emoji, colorIndex, createdAt)], id) == habits
  {
    var h := NewHabit(id, name, emoji, colorIndex, createdAt);
    DeleteInAppend(habits, [h], id);
    DeleteInUnknownId(habits, id);
    assert DeleteIn([h], id) == [];
  }

  /** `getStreak(habitId)` for a collection, with days written by `key`: 0 for
      an unknown id, otherwise the streak of the first habit with the id. */
  function HabitStreak(key: int -> string, habits: seq<Habit>, habitId: string, today: int): (s: nat)
    ensures s <= StreakWindow
    ensures Find(habits, habitId).None? ==> s == 0
    ensures Find(habits, habitId).Some? ==> s == Streak(key, Find(habits, habitId).value.completedDates, today)
  {
    match Find(habits, habitId)
    case None => 0
    case Some(h) => Streak(key, h.completedDates, today)
  }

  /** A streak is never more than 365 days, and a habit never checked off has none. */
  lemma HabitStreakBounds(key: int -> string, habits: seq<Habit>, habitId: string, today: int)
    ensures HabitStreak(key, habits, habitId, today) <= StreakWindow
    ensures Find(habits, habitId).None? ==> HabitStreak(key, habits, habitId, today) == 0
    ensures Find(habits, habitId).Some? && Find(habits, habitId).value.completedDates == [] ==>
              HabitStreak(key, habits, habitId, today) == 0
  {
    if Find(habits, habitId).Some? {
      StreakEmpty(key, today);
    }
  }

  /** `getCompletionRate(habitId, days)` for a collection: 0 for an unknown id,
      `NaN` for an empty window, otherwise a whole percent. */
  function HabitCompletionRate(key: int -> string, habits: seq<Habit>, habitId: string, days: int, today: int): (r: Rate)
    ensures Find(habits, habitId).None? ==> r == Percent(0)
    ensures r.NotANumber? <==> Find(habits, habitId).Some? && days == 0
    ensures r.Percent? ==> 0 <= r.value <= 100
  {
    match Find(habits, habitId)
    case None => Percent(0)
    case Some(h) => CompletionRate(key, h.completedDates, today, days)
  }

  /** The state `useHabits` keeps: the habit list. */
  class HabitStore {
    var habits: seq<Habit>

    /** The stored list when there is one, otherwise the three default habits. */
    constructor (stored: Option<seq<Habit>>, now: string)
      ensures habits == if stored.Some? then stored.value else DefaultHabits(now)
    {
      habits := if stored.Some? then stored.value else DefaultHabits(now);
    }

    /** Appends one habit with no completions; `colorIndex` stands for
        `Math.floor(Math.random() * 3)`. The name is taken as given. */
    method AddHabit(name: string, emoji: string, id: string, colorIndex: int, createdAt: string)
      requires 0 <= colorIndex < |Palette|
      modifies this
      ensures habits == old(habits) + [NewHabit(id, name, emoji, colorIndex, createdAt)]
      ensures habits[|habits| - 1].completedDates == [] && habits[|habits| - 1].color in Palette
    {
      habits := habits + [NewHabit(id, name, emoji, colorIndex, createdAt)];
    }

    method ToggleHabit(habitId: string, date: string)
      modifies this
      ensures habits == ToggleIn(old(habits), habitId, date)
      ensures Find(old(habits), habitId).Some? ==>
                (IsHabitCompleted(habitId, date) <==> !old(IsHabitCompleted(habitId, date)))
      ensures Find(old(habits), habitId).None? ==> habits == old(habits)
    {
      var before := habits;
      habits := ToggleIn(habits, habitId, date);
      if Find(before, habitId).Some? {
        ToggleFindsFirst(before, habitId, date);
      } else {
        ToggleInUnknownId(before, habitId, date);
      }
    }

    method DeleteHabit(habitId: string)
      modifies this
      ensures habits == DeleteIn(old(habits), habitId)
    {
      habits := DeleteIn(habits, habitId);
    }

    /** Whether the first habit with this id has `date` checked off; false when there is none. */
    function IsHabitCompleted(habitId: string, date: string): (b: bool)
      reads this
      ensures b <==> exists i :: FirstWithId(habits, habitId, i) && date in habits[i].completedDates
    {
      match Find(habits, habitId)
      case None => false
      case Some(h) => date in h.completedDates
    }

    /** Counts the checked-off days among the `days` days ending `today`, each
        day written as `key` writes it. */
    method GetCompletionRate(habitId: string, days: int, today: int, key: int -> string) returns (rate: Rate)
      ensures rate == HabitCompletionRate(key, habits, habitId, days, today)
    {
      var found := Find(habits, habitId);
      if found.None? {
        return Percent(0);
      }
      var dates := found.value.completedDates;
      var completed := 0;
      var i := 0;
      while i < days
        invariant i == 0 || 0 < i <= days
        invariant completed == CountDone(key, dates, today, i)
      {
        if key(today - i) in dates {
          completed := completed + 1;
        }
        i := i + 1;
      }
      if days == 0 {
        rate := NotANumber;
      } else if days < 0 {
        rate := Percent(0);
      } else {
        rate := Percent(RoundedPercent(completed, days));
      }
    }

    /** Walks back from today for at most 365 days; a missing today is passed
        over, the first missing earlier day stops the count. */
    method GetStreak(habitId: string, today: int, key: int -> string) returns (streak: nat)
      ensures streak == HabitStreak(key, habits, habitId, today)
    {
      var found := Find(habits, habitId);
      if found.None? {
        return 0;
      }
      var dates := found.value.completedDates;
      streak := 0;
      var i := 0;
      while i < StreakWindow
        invariant 0 <= i <= StreakWindow
        invariant i == 0 ==> streak == 0
        invariant i >= 1 ==> streak + RunFrom(key, dates, today, i) == Streak(key, dates, today)
      {
        if key(today - i) in dates {
          streak := streak + 1;
        } else if i > 0 {
          assert RunFrom(key, dates, today, i) == 0;
          break;
        }
        i := i + 1;
      }
      assert streak == Streak(key, dates, today);
    }
  }

  /** Toggling an existing habit flips whether its first record has `date` done. */
  lemma ToggleFindsFirst(habits: seq<Habit>, habitId: string, date: string)
    requires Find(habits, habitId).Some?
    ensures Find(ToggleIn(habits, habitId, date), habitId).Some?
    ensures date in Find(ToggleIn(habits, habitId, date), habitId).value.completedDates
        <==> date !in Find(habits, habitId).value.completedDates
  {
    var r := ToggleIn(habits, habitId, date);
    var i :| FirstWithId(habits, habitId, i) && habits[i] == Find(habits, habitId).value;
    assert FirstWithId(r, habitId, i);
    var k :| FirstWithId(r, habitId, k) && r[k] == Find(r, habitId).value;
    FirstWithIdUnique(r, habitId, i, k);
  }
}
