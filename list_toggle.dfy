/** The list update that both `toggleHabit` (on a habit's `completedDates`) and
    `toggleGoal` (on the questionnaire's `selectedGoals`) perform: when the item
    is in the list, filter out every copy of it; otherwise append it at the end. */
module ListToggle {

  /** `s.filter(y => y !== x)`. */
  function RemoveAll<T(==,!new)>(s: seq<T>, x: T): (r: seq<T>)
    ensures forall y :: y in r <==> y in s && y != x
    ensures |r| <= |s|
    ensures x !in s ==> r == s
  {
    if s == [] then [] else (if s[0] == x then [] else [s[0]]) + RemoveAll(s[1..], x)
  }

  /** Filtering keeps the relative order of what it keeps: it distributes over concatenation. */
  lemma {:induction false} RemoveAllAppend<T(!new)>(a: seq<T>, b: seq<T>, x: T)
    ensures RemoveAll(a + b, x) == RemoveAll(a, x) + RemoveAll(b, x)
  {
    if a != [] {
      assert (a + b)[1..] == a[1..] + b;
      RemoveAllAppend(a[1..], b, x);
    } else {
      assert a + b == b;
    }
  }

  predicate NoDuplicates<T(==)>(s: seq<T>) {
    forall i, j :: 0 <= i < j < |s| ==> s[i] != s[j]
  }

  lemma NoDuplicatesCons<T(!new)>(a: T, t: seq<T>)
    ensures NoDuplicates([a] + t) <==> a !in t && NoDuplicates(t)
  {
    var s := [a] + t;
    if a !in t && NoDuplicates(t) {
      forall i, j | 0 <= i < j < |s| ensures s[i] != s[j] {
        assert s[j] == t[j - 1];
        if i > 0 { assert s[i] == t[i - 1]; }
      }
    }
    if NoDuplicates(s) {
      forall i, j | 0 <= i < j < |t| ensures t[i] != t[j] {
        assert t[i] == s[i + 1] && t[j] == s[j + 1];
      }
      forall k | 0 <= k < |t| ensures t[k] != a {
        assert s[k + 1] == t[k] && s[0] == a;
        assert s[0] != s[k + 1];
      }
    }
  }

  lemma {:induction false} RemoveAllNoDuplicates<T(!new)>(s: seq<T>, x: T)
    requires NoDuplicates(s)
    ensures NoDuplicates(RemoveAll(s, x))
  {
    if s != [] {
      assert s == [s[0]] + s[1..];
      NoDuplicatesCons(s[0], s[1..]);
      RemoveAllNoDuplicates(s[1..], x);
      if s[0] != x {
        NoDuplicatesCons(s[0], RemoveAll(s[1..], x));
      } else {
        assert RemoveAll(s, x) == RemoveAll(s[1..], x);
      }
    }
  }

  /** `s.includes(x) ? s.filter(y => y !== x) : [...s, x]`. */
  function Toggle<T(==,!new)>(s: seq<T>, x: T): (r: seq<T>)
    ensures x in r <==> x !in s
    ensures forall y :: y != x ==> (y in r <==> y in s)
  {
    if x in s then RemoveAll(s, x) else s + [x]
  }

  /** Toggling twice restores which items are in the list. */
  lemma ToggleTwiceMembership<T(!new)>(s: seq<T>, x: T)
    ensures forall y :: y in Toggle(Toggle(s, x), x) <==> y in s
  {
  }

  /** An absent item toggled twice leaves the list exactly as it was. */
  lemma ToggleTwiceAbsent<T(!new)>(s: seq<T>, x: T)
    requires x !in s
    ensures Toggle(Toggle(s, x), x) == s
  {
    RemoveAllAppend(s, [x], x);
    assert RemoveAll([x], x) == [];
  }

  /** A present item toggled twice comes back once, at the end of the list: the
      membership is restored but the order need not be. */
  lemma TogglePresentTwice<T(!new)>(s: seq<T>, x: T)
    requires x in s
    ensures Toggle(Toggle(s, x), x) == RemoveAll(s, x) + [x]
  {
  }

  /** Toggling never creates a duplicate. */
  lemma ToggleNoDuplicates<T(!new)>(s: seq<T>, x: T)
    requires NoDuplicates(s)
    ensures NoDuplicates(Toggle(s, x))
  {
    if x in s {
      RemoveAllNoDuplicates(s, x);
    } else {
      var r := s + [x];
      forall i, j | 0 <= i < j < |r| ensures r[i] != r[j] {
        if j == |s| { assert r[i] == s[i]; }
      }
    }
  }
}
