/** The metrics `useHabits` derives from one habit's `completedDates`: the
    current streak and the completion rate over a trailing window of days.
    "Today" is a day number passed in; day `today - i` is the day `i` days
    before it, and it counts as done when its key is in `completedDates`.
    The metrics are stated for any way `key` of writing a day as a string;
    all they rely on is that different days get different keys. */
module Metrics {

  ghost predicate Injective(key: int -> string) {
    forall a, b :: key(a) == key(b) ==> a == b
  }

  predicate DoneOn(key: int -> string, dates: seq<string>, day: int) {
    key(day) in dates
  }

  /** Whether the day `offset` days before `today` is done. */
  predicate DoneAt(key: int -> string, dates: seq<string>, today: int, offset: int) {
    DoneOn(key, dates, today - offset)
  }

  /** How far back `getStreak` looks: offsets 0 to 364. */
  const StreakWindow: int := 365

  /** The number of consecutive done days starting `offset` days before
      `today` and going back, never looking past offset 364. */
  function RunFrom(key: int -> string, dates: seq<string>, today: int, offset: int): (r: nat)
    requires 1 <= offset <= StreakWindow
    ensures r <= StreakWindow - offset
    decreases StreakWindow - offset
  {
    if offset == StreakWindow || !DoneAt(key, dates, today, offset) then 0
    else 1 + RunFrom(key, dates, today, offset + 1)
  }

  /** The streak `getStreak` reports: today counts when done, but a missing
      today does not end the streak; from yesterday back, the first missing day does. */
  function Streak(key: int -> string, dates: seq<string>, today: int): (r: nat)
    ensures r <= StreakWindow
  {
    (if DoneOn(key, dates, today) then 1 else 0) + RunFrom(key, dates, today, 1)
  }

  /** The run from `offset` covers exactly the done days up to the first gap
      (or up to the window's end). */
  lemma {:induction false} RunFromSpan(key: int -> string, dates: seq<string>, today: int, offset: int)
    requires 1 <= offset <= StreakWindow
    ensures forall j :: offset <= j < offset + RunFrom(key, dates, today, offset) ==> DoneAt(key, dates, today, j)
    ensures offset + RunFrom(key, dates, today, offset) < StreakWindow ==>
              !DoneAt(key, dates, today, offset + RunFrom(key, dates, today, offset))
    decreases StreakWindow - offset
  {
    if offset < StreakWindow && DoneAt(key, dates, today, offset) {
      RunFromSpan(key, dates, today, offset + 1);
    }
  }

  /** Conversely, a run of `k` done days that ends at a gap or at the window's
      end is what `RunFrom` counts. */
  lemma {:induction false} RunFromUnique(key: int -> string, dates: seq<string>, today: int, offset: int, k: nat)
    requires 1 <= offset && offset + k <= StreakWindow
    requires forall j :: offset <= j < offset + k ==> DoneAt(key, dates, today, j)
    requires offset + k < StreakWindow ==> !DoneAt(key, dates, today, offset + k)
    ensures RunFrom(key, dates, today, offset) == k
    decreases k
  {
    if k > 0 {
      RunFromUnique(key, dates, today, offset + 1, k - 1);
    }
  }

  /** The run only looks at the days in its window. */
  lemma {:induction false} RunFromSameDays(key: int -> string, d1: seq<string>, d2: seq<string>, today: int, offset: int)
    requires 1 <= offset <= StreakWindow
    requires forall j :: offset <= j < StreakWindow ==> (DoneAt(key, d1, today, j) <==> DoneAt(key, d2, today, j))
    ensures RunFrom(key, d1, today, offset) == RunFrom(key, d2, today, offset)
    decreases StreakWindow - offset
  {
    if offset < StreakWindow {
      RunFromSameDays(key, d1, d2, today, offset + 1);
    }
  }

  /** A habit with no completions has no streak. */
  lemma StreakEmpty(key: int -> string, today: int)
    ensures Streak(key, [], today) == 0
  {
  }

  /** Today, yesterday and the day before done: a streak of 3. */
  lemma StreakThreeDays(key: int -> string, today: int)
    requires Injective(key)
    ensures Streak(key, [key(today), key(today - 1), key(today - 2)], today) == 3
  {
    var dates := [key(today), key(today - 1), key(today - 2)];
    assert !DoneAt(key, dates, today, 3) by {
      assert key(today - 3) != key(today) && key(today - 3) != key(today - 1) && key(today - 3) != key(today - 2);
    }
    RunFromUnique(key, dates, today, 1, 2);
  }

  /** Yesterday and the day before done but not yet today: the streak is still 2. */
  lemma StreakTodayPending(key: int -> string, today: int)
    requires Injective(key)
    ensures Streak(key, [key(today - 1), key(today - 2)], today) == 2
  {
    var dates := [key(today - 1), key(today - 2)];
    assert !DoneOn(key, dates, today) by {
      assert key(today) != key(today - 1) && key(today) != key(today - 2);
    }
    assert !DoneAt(key, dates, today, 3) by {
      assert key(today - 3) != key(today - 1) && key(today - 3) != key(today - 2);
    }
    RunFromUnique(key, dates, today, 1, 2);
  }

  /** Today done, yesterday missed: the gap at offset 1 ends the streak at 1. */
  lemma StreakGapYesterday(key: int -> string, today: int)
    requires Injective(key)
    ensures Streak(key, [key(today), key(today - 2)], today) == 1
  {
    var dates := [key(today), key(today - 2)];
    assert !DoneAt(key, dates, today, 1) by {
      assert key(today - 1) != key(today) && key(today - 1) != key(today - 2);
    }
  }

  /** Checking off today when it was not done raises the streak by exactly one. */
  lemma StreakCheckToday(key: int -> string, dates: seq<string>, today: int)
    requires Injective(key)
    requires !DoneOn(key, dates, today)
    ensures Streak(key, dates + [key(today)], today) == Streak(key, dates, today) + 1
  {
    var d2 := dates + [key(today)];
    forall j | 1 <= j < StreakWindow
      ensures DoneAt(key, dates, today, j) <==> DoneAt(key, d2, today, j)
    {
      assert key(today - j) != key(today);
    }
    RunFromSameDays(key, dates, d2, today, 1);
  }

  /** The number of done days among the `n` days ending today. */
  function CountDone(key: int -> string, dates: seq<string>, today: int, n: nat): (c: nat)
    ensures c <= n
  {
    if n == 0 then 0
    else CountDone(key, dates, today, n - 1) + (if DoneAt(key, dates, today, n - 1) then 1 else 0)
  }

  lemma {:induction false} CountDoneAll(key: int -> string, dates: seq<string>, today: int, n: nat)
    requires forall i :: 0 <= i < n ==> DoneAt(key, dates, today, i)
    ensures CountDone(key, dates, today, n) == n
  {
    if n > 0 {
      CountDoneAll(key, dates, today, n - 1);
    }
  }

  lemma {:induction false} CountDoneNone(key: int -> string, dates: seq<string>, today: int, n: nat)
    requires forall i :: 0 <= i < n ==> !DoneAt(key, dates, today, i)
    ensures CountDone(key, dates, today, n) == 0
  {
    if n > 0 {
      CountDoneNone(key, dates, today, n - 1);
    }
  }

  /** What `getCompletionRate` returns: a whole percent, or `NaN` for an empty window. */
  datatype Rate = Percent(value: int) | NotANumber

  /** `Math.round(completed / days * 100)`, computed exactly: the nearest
      whole percent, halves rounded up. */
  function RoundedPercent(completed: nat, days: int): (p: int)
    requires days > 0
    ensures 2 * days * p <= 200 * completed + days < 2 * days * (p + 1)
  {
    (200 * completed + days) / (2 * days)
  }

  lemma MulMonotone(k: int, a: int, b: int)
    requires k > 0 && a <= b
    ensures k * a <= k * b
  {
    assert k * b - k * a == k * (b - a);
  }

  /** A rounded share of a window lies between 0 and 100; it reaches 100 from
      99.5% up and stays 0 below 0.5%. */
  lemma RoundedPercentBounds(completed: nat, days: int)
    requires 0 < days && completed <= days
    ensures 0 <= RoundedPercent(completed, days) <= 100
    ensures RoundedPercent(completed, days) == 100 <==> 200 * completed >= 199 * days
    ensures RoundedPercent(completed, days) == 0 <==> 200 * completed < days
  {
    var p := RoundedPercent(completed, days);
    var k := 2 * days;
    assert k * p <= 200 * completed + days < k * (p + 1);
    if p < 0 {
      MulMonotone(k, p + 1, 0);
    }
    if p > 100 {
      MulMonotone(k, 101, p);
      MulMonotone(200, completed, days);
    }
    if 200 * completed >= 199 * days && p < 100 {
      MulMonotone(k, p + 1, 100);
    }
    if p == 0 {
      assert 200 * completed + days < k;
    }
    if 200 * completed < days && p > 0 {
      MulMonotone(k, 1, p);
    }
  }

  /** `getCompletionRate` for a habit with these `dates`, over `days` days ending today. */
  function CompletionRate(key: int -> string, dates: seq<string>, today: int, days: int): (r: Rate)
    ensures r.NotANumber? <==> days == 0
    ensures r.Percent? ==> 0 <= r.value <= 100
  {
    if days == 0 then NotANumber
    else if days < 0 then Percent(0)
    else
      var completed := CountDone(key, dates, today, days);
      RoundedPercentBounds(completed, days);
      Percent(RoundedPercent(completed, days))
  }

  /** For a non-empty window the rate is a percentage; 100 when every day of
      the window is done and 0 when none is. */
  lemma CompletionRateBounds(key: int -> string, dates: seq<string>, today: int, days: int)
    requires days > 0
    ensures CompletionRate(key, dates, today, days).Percent?
    ensures 0 <= CompletionRate(key, dates, today, days).value <= 100
    ensures (forall i :: 0 <= i < days ==> DoneAt(key, dates, today, i)) ==>
              CompletionRate(key, dates, today, days).value == 100
    ensures (forall i :: 0 <= i < days ==> !DoneAt(key, dates, today, i)) ==>
              CompletionRate(key, dates, today, days).value == 0
  {
    RoundedPercentBounds(CountDone(key, dates, today, days), days);
    if forall i :: 0 <= i < days ==> DoneAt(key, dates, today, i) {
      CountDoneAll(key, dates, today, days);
      RoundedPercentBounds(days, days);
    }
    if forall i :: 0 <= i < days ==> !DoneAt(key, dates, today, i) {
      CountDoneNone(key, dates, today, days);
    }
  }

  /** Three of the last seven days done: `Math.round(300 / 7) = 43`. */
  lemma CompletionRateThreeOfSeven(key: int -> string, today: int)
    requires Injective(key)
    ensures CompletionRate(key, [key(today), key(today - 2), key(today - 4)], today, 7) == Percent(43)
  {
    var dates := [key(today), key(today - 2), key(today - 4)];
    forall i | 0 <= i < 7
      ensures DoneAt(key, dates, today, i) <==> i == 0 || i == 2 || i == 4
    {
      if i != 0 { assert key(today - i) != key(today); }
      if i != 2 { assert key(today - i) != key(today - 2); }
      if i != 4 { assert key(today - i) != key(today - 4); }
    }
    assert CountDone(key, dates, today, 1) == 1;
    assert CountDone(key, dates, today, 3) == 2;
    assert CountDone(key, dates, today, 5) == 3;
    assert CountDone(key, dates, today, 7) == 3;
  }
}
