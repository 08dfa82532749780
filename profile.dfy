/** The profile page: the badges split into unlocked and locked, and a level
    that goes up with every third unlocked badge. */
module Profile {
  import opened Habits
  import opened Aggregates
  import opened Achievements

  /** `achievements.filter(a => a.unlocked)`. */
  function Unlocked(achievements: seq<Achievement>): (r: seq<Achievement>)
    ensures forall a :: a in r <==> a in achievements && a.unlocked
  {
    if achievements == [] then []
    else (if achievements[0].unlocked then [achievements[0]] else []) + Unlocked(achievements[1..])
  }

  /** `achievements.filter(a => !a.unlocked)`. */
  function Locked(achievements: seq<Achievement>): (r: seq<Achievement>)
    ensures forall a :: a in r <==> a in achievements && !a.unlocked
  {
    if achievements == [] then []
    else (if achievements[0].unlocked then [] else [achievements[0]]) + Locked(achievements[1..])
  }

  /** Every badge lands in exactly one of the two lists, so their lengths add up. */
  lemma {:induction false} PartitionSizes(achievements: seq<Achievement>)
    ensures |Unlocked(achievements)| + |Locked(achievements)| == |achievements|
  {
    if achievements != [] {
      PartitionSizes(achievements[1..]);
    }
  }

  /** The unlocked list keeps catalogue order: filtering distributes over concatenation. */
  lemma {:induction false} UnlockedAppend(a: seq<Achievement>, b: seq<Achievement>)
    ensures Unlocked(a + b) == Unlocked(a) + Unlocked(b)
  {
    if a == [] {
      assert a + b == b;
    } else {
      assert (a + b)[1..] == a[1..] + b;
      UnlockedAppend(a[1..], b);
    }
  }

  /** So does the locked list. */
  lemma {:induction false} LockedAppend(a: seq<Achievement>, b: seq<Achievement>)
    ensures Locked(a + b) == Locked(a) + Locked(b)
  {
    if a == [] {
      assert a + b == b;
    } else {
      assert (a + b)[1..] == a[1..] + b;
      LockedAppend(a[1..], b);
    }
  }

  /** `Math.floor(unlocked / 3) + 1`: level `l` covers `3(l-1)` to `3l - 1` badges. */
  function Level(unlocked: nat): (l: nat)
    ensures l >= 1
    ensures 3 * (l - 1) <= unlocked < 3 * l
  {
    unlocked / 3 + 1
  }

  /** More badges never lower the level. */
  lemma LevelMonotone(m: nat, n: nat)
    requires m <= n
    ensures Level(m) <= Level(n)
  {
  }

  /** `((unlocked % 3) / 3) * 100`: the share of the current level already earned. */
  function LevelProgress(unlocked: nat): (p: real)
    ensures 0.0 <= p < 100.0
    ensures 3.0 * p == 100.0 * (unlocked - 3 * (Level(unlocked) - 1)) as real
  {
    ((unlocked % 3) as real / 3.0) * 100.0
  }

  /** `3 - (unlocked % 3)`: the number of further badges that reach the next level. */
  function RemainingToLevelUp(unlocked: nat): (k: nat)
    ensures 1 <= k <= 3
    ensures Level(unlocked + k) == Level(unlocked) + 1
    ensures forall m :: unlocked <= m < unlocked + k ==> Level(m) == Level(unlocked)
  {
    3 - unlocked % 3
  }

  /** What the profile page shows for the current habits. */
  datatype ProfileView = ProfileView(
    unlocked: seq<Achievement>,
    locked: seq<Achievement>,
    totalCompletions: nat,
    longestStreak: nat,
    level: nat,
    levelProgress: real,
    remaining: nat)

  function ProfileOf(key: int -> string, habits: seq<Habit>, today: int): (v: ProfileView)
    ensures |v.unlocked| + |v.locked| == 12
    ensures v.level >= 1 && 1 <= v.remaining <= 3
    ensures 0.0 <= v.levelProgress < 100.0
    ensures forall a :: a in v.unlocked ==> a.unlocked && a.progress == a.maxProgress
    ensures forall a :: a in v.locked ==> !a.unlocked && a.progress < a.maxProgress
  {
    var achievements := UseAchievements(key, habits, today);
    PartitionSizes(achievements);
    var unlocked := Unlocked(achievements);
    ProfileView(unlocked, Locked(achievements), TotalCompletions(habits), LongestStreak(key, habits, today),
      Level(|unlocked|), LevelProgress(|unlocked|), RemainingToLevelUp(|unlocked|))
  }
}
