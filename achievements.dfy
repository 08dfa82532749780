/** `useAchievements`: a fixed catalogue of twelve badges, each unlocked when
    one of four totals reaches the badge's threshold. */
module Achievements {
  import opened Habits
  import opened Aggregates
  import Metrics

  datatype Category = StreakBadge | Consistency | Milestone

  /** Which total a badge measures. */
  datatype Measure = Completions | BestStreak | HabitCount | DaysActive

  /** The four totals the badges are measured against. */
  datatype Totals = Totals(totalCompletions: nat, longestStreak: nat, habitsCount: nat, activeDays: nat)

  function Value(t: Totals, m: Measure): nat {
    match m
    case Completions => t.totalCompletions
    case BestStreak => t.longestStreak
    case HabitCount => t.habitsCount
    case DaysActive => t.activeDays
  }

  /** A catalogue entry: what a badge shows and what unlocks it. */
  datatype Badge = Badge(
    id: string,
    name: string,
    description: string,
    icon: string,
    measure: Measure,
    maxProgress: nat,
    category: Category)

  /** A badge as evaluated for the current totals. */
  datatype Achievement = Achievement(
    id: string,
    name: string,
    description: string,
    icon: string,
    unlocked: bool,
    progress: nat,
    maxProgress: nat,
    category: Category)

  const Catalog: seq<Badge> := [
    Badge("first-step", "First Step", "Complete your first habit", "\U{1F331}", Completions, 1, Milestone),
    Badge("getting-started", "Getting Started", "Complete 10 habits total", "\U{1F3AF}", Completions, 10, Milestone),
    Badge("habit-hero", "Habit Hero", "Complete 50 habits total", "\U{1F3C6}", Completions, 50, Milestone),
    Badge("centurion", "Centurion", "Complete 100 habits total", "\U{1F4AF}", Completions, 100, Milestone),
    Badge("streak-starter", "Streak Starter", "Reach a 3-day streak", "\U{1F525}", BestStreak, 3, StreakBadge),
    Badge("week-warrior", "Week Warrior", "Reach a 7-day streak", "\U{26A1}", BestStreak, 7, StreakBadge),
    Badge("fortnight-fighter", "Fortnight Fighter", "Reach a 14-day streak", "\U{1F4AA}", BestStreak, 14, StreakBadge),
    Badge("monthly-master", "Monthly Master", "Reach a 30-day streak", "\U{1F451}", BestStreak, 30, StreakBadge),
    Badge("habit-collector", "Habit Collector", "Track 3 different habits", "\U{1F4DA}", HabitCount, 3, Consistency),
    Badge("habit-enthusiast", "Habit Enthusiast", "Track 5 different habits", "\U{1F31F}", HabitCount, 5, Consistency),
    Badge("dedicated", "Dedicated", "Be active for 7 different days", "\U{1F4C5}", DaysActive, 7, Consistency),
    Badge("committed", "Committed", "Be active for 30 different days", "\U{1F396}\U{FE0F}", DaysActive, 30, Consistency)
  ]

  function Min(a: nat, b: nat): nat {
    if a < b then a else b
  }

  /** One catalogue entry against the totals: `unlocked: total >= max`,
      `progress: Math.min(total, max)`. */
  function Evaluate(b: Badge, t: Totals): (a: Achievement)
    ensures a.progress <= a.maxProgress == b.maxProgress
    ensures a.unlocked <==> Value(t, b.measure) >= b.maxProgress
    ensures a.unlocked <==> a.progress == a.maxProgress
    ensures !a.unlocked ==> a.progress == Value(t, b.measure)
  {
    var v := Value(t, b.measure);
    Achievement(b.id, b.name, b.description, b.icon, v >= b.maxProgress, Min(v, b.maxProgress), b.maxProgress, b.category)
  }

  /** The twelve achievements, in catalogue order. */
  function EvaluateAll(t: Totals): (r: seq<Achievement>)
    ensures |r| == |Catalog| == 12
    ensures forall i :: 0 <= i < |r| ==>
              r[i].id == Catalog[i].id && r[i].name == Catalog[i].name &&
              r[i].description == Catalog[i].description && r[i].icon == Catalog[i].icon &&
              r[i].maxProgress == Catalog[i].maxProgress &&
              r[i].category == Catalog[i].category && r[i].progress <= r[i].maxProgress &&
              (r[i].unlocked <==> Value(t, Catalog[i].measure) >= Catalog[i].maxProgress) &&
              (r[i].unlocked <==> r[i].progress == r[i].maxProgress) &&
              (!r[i].unlocked ==> r[i].progress == Value(t, Catalog[i].measure))
  {
    seq(|Catalog|, i requires 0 <= i < |Catalog| => Evaluate(Catalog[i], t))
  }

  /** Badges on the same total unlock in order of threshold: a harder one
      unlocked means every easier one is too. */
  lemma UnlockedInOrder(t: Totals, i: int, j: int)
    requires 0 <= i < 12 && 0 <= j < 12
    requires Catalog[i].measure == Catalog[j].measure && Catalog[i].maxProgress <= Catalog[j].maxProgress
    ensures EvaluateAll(t)[j].unlocked ==> EvaluateAll(t)[i].unlocked
  {
  }

  /** Within each total the thresholds increase along the catalogue, so the
      badges of a category unlock front to back: Centurion implies Habit Hero
      implies Getting Started implies First Step, and so on. */
  lemma CatalogChains(t: Totals)
    ensures forall i, j :: 0 <= i < j < 12 && Catalog[i].measure == Catalog[j].measure ==>
              Catalog[i].maxProgress < Catalog[j].maxProgress &&
              (EvaluateAll(t)[j].unlocked ==> EvaluateAll(t)[i].unlocked)
  {
    var r := EvaluateAll(t);
    forall i, j | 0 <= i < j < 12 && Catalog[i].measure == Catalog[j].measure
      ensures Catalog[i].maxProgress < Catalog[j].maxProgress && (r[j].unlocked ==> r[i].unlocked)
    {
      assert Catalog[i].maxProgress < Catalog[j].maxProgress;
    }
  }

  /** "First Step" is unlocked exactly when something has been checked off. */
  lemma FirstStepUnlocked(t: Totals)
    ensures EvaluateAll(t)[0].id == "first-step"
    ensures EvaluateAll(t)[0].unlocked <==> t.totalCompletions >= 1
  {
  }

  /** The totals `useAchievements` measures, with days written by `key`. */
  function TotalsOf(key: int -> string, habits: seq<Habit>, today: int): (t: Totals)
    ensures t.habitsCount == |habits|
    ensures t.activeDays <= t.totalCompletions
    ensures t.longestStreak <= Metrics.StreakWindow
    ensures habits == [] ==> t == Totals(0, 0, 0, 0)
  {
    LongestStreakIsMax(key, habits, today);
    assert habits == [] ==> AllDates(habits) == {};
    Totals(TotalCompletions(habits), LongestStreak(key, habits, today), |habits|, ActiveDays(habits))
  }

  /** `useAchievements({ habits, getStreak })`: the twelve badges in catalogue
      order, each unlocked exactly when its total over `habits` reaches the
      threshold. */
  function UseAchievements(key: int -> string, habits: seq<Habit>, today: int): (r: seq<Achievement>)
    ensures |r| == 12
    ensures forall i :: 0 <= i < 12 ==>
              r[i].id == Catalog[i].id && r[i].maxProgress == Catalog[i].maxProgress &&
              (r[i].unlocked <==> Value(TotalsOf(key, habits, today), Catalog[i].measure) >= Catalog[i].maxProgress)
  {
    EvaluateAll(TotalsOf(key, habits, today))
  }

  /** "Dedicated" needs seven distinct active days, so it can never be unlocked
      with fewer than seven check-ins. */
  lemma DedicatedNeedsSevenCheckIns(key: int -> string, habits: seq<Habit>, today: int)
    ensures UseAchievements(key, habits, today)[10].id == "dedicated"
    ensures UseAchievements(key, habits, today)[10].unlocked ==> TotalCompletions(habits) >= 7
  {
    var t := TotalsOf(key, habits, today);
    assert Catalog[10].measure == DaysActive && Catalog[10].maxProgress == 7;
    assert EvaluateAll(t)[10].unlocked ==> t.activeDays >= 7;
  }

  /** With no habits nothing is unlocked. */
  lemma NothingUnlockedWithoutHabits(key: int -> string, today: int)
    ensures forall i :: 0 <= i < 12 ==> !UseAchievements(key, [], today)[i].unlocked
  {
    assert AllDates([]) == {};
  }
}
