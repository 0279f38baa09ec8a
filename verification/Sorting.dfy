/**
 * Stable sorting by insertion under a strict weak order. The sorted list is determined by the items alone
 * when items that no order tells apart are equal.
 */
module Sorting {
  /** Asymmetric, with a transitive complement. */
  ghost predicate IsOrder<T(!new)>(before: (T, T) -> bool)
  {
    && (forall x, y :: before(x, y) ==> !before(y, x))
    && (forall x, y, z :: before(x, z) ==> before(x, y) || before(y, z))
  }

  predicate Sorted<T>(before: (T, T) -> bool, s: seq<T>)
  {
    forall i :: 0 < i < |s| ==> !before(s[i], s[i - 1])
  }

  function Insert<T>(before: (T, T) -> bool, x: T, s: seq<T>): seq<T>
  {
    if s == [] || !before(x, s[|s| - 1]) then s + [x]
    else Insert(before, x, s[..|s| - 1]) + [s[|s| - 1]]
  }

  function Sort<T>(before: (T, T) -> bool, s: seq<T>): seq<T>
  {
    if s == [] then [] else Insert(before, s[|s| - 1], Sort(before, s[..|s| - 1]))
  }

  /** Sorting a sorted list leaves it alone. */
  lemma {:induction false} SortedStays<T>(before: (T, T) -> bool, s: seq<T>)
    requires Sorted(before, s)
    ensures Sort(before, s) == s
  {
    if s != [] {
      SortedStays(before, s[..|s| - 1]);
      assert s == s[..|s| - 1] + [s[|s| - 1]];
    }
  }

  lemma {:induction false} InsertKeeps<T(!new)>(before: (T, T) -> bool, x: T, s: seq<T>)
    requires IsOrder(before) && Sorted(before, s)
    ensures Sorted(before, Insert(before, x, s))
    ensures Insert(before, x, s) != []
    ensures var last := Insert(before, x, s)[|Insert(before, x, s)| - 1]; last == x || (s != [] && last == s[|s| - 1])
  {
    if s != [] && before(x, s[|s| - 1]) {
      InsertKeeps(before, x, s[..|s| - 1]);
    }
  }

  lemma {:induction false} InsertAdds<T>(before: (T, T) -> bool, x: T, s: seq<T>)
    ensures multiset(Insert(before, x, s)) == multiset(s) + multiset{x}
  {
    if s != [] && before(x, s[|s| - 1]) {
      var rest, last := s[..|s| - 1], s[|s| - 1];
      InsertAdds(before, x, rest);
      assert s == rest + [last];
    }
  }

  /** Sorting permutes and sorts. */
  lemma {:induction false} SortKeeps<T(!new)>(before: (T, T) -> bool, s: seq<T>)
    requires IsOrder(before)
    ensures multiset(Sort(before, s)) == multiset(s)
    ensures Sorted(before, Sort(before, s))
  {
    hide Insert, Sorted, IsOrder;
    if s == [] {
      EmptyIsSorted(before, s);
    } else {
      var rest, last := s[..|s| - 1], s[|s| - 1];
      SortKeeps(before, rest);
      InsertKeeps(before, last, Sort(before, rest));
      InsertAdds(before, last, Sort(before, rest));
      assert multiset(s) == multiset(rest) + multiset{last} by { assert s == rest + [last]; }
    }
  }

  lemma EmptyIsSorted<T>(before: (T, T) -> bool, s: seq<T>)
    requires s == []
    ensures Sorted(before, s)
  {
  }

  /** Items of which neither comes before the other are equal. */
  ghost predicate ToldApart<T(!new)>(before: (T, T) -> bool, items: multiset<T>)
  {
    forall x, y :: x in items && y in items && !before(x, y) && !before(y, x) ==> x == y
  }

  lemma {:induction false} LastIsGreatest<T(!new)>(before: (T, T) -> bool, s: seq<T>, x: T)
    requires IsOrder(before) && Sorted(before, s) && x in s
    ensures !before(s[|s| - 1], x)
  {
    var rest, last := s[..|s| - 1], s[|s| - 1];
    if x in rest {
      LastIsGreatest(before, rest, x);
      assert !before(last, rest[|rest| - 1]);
    } else {
      assert s == rest + [last];
    }
  }

  lemma LastAgrees<T(!new)>(before: (T, T) -> bool, a: seq<T>, b: seq<T>)
    requires IsOrder(before) && Sorted(before, a) && Sorted(before, b)
    requires multiset(a) == multiset(b) && ToldApart(before, multiset(a)) && a != []
    ensures b != [] && a[|a| - 1] == b[|b| - 1]
  {
    hide Sorted, IsOrder;
    assert a[|a| - 1] in multiset(a);
    var x, y := a[|a| - 1], b[|b| - 1];
    assert x in multiset(a) && y in multiset(b);
    LastIsGreatest(before, a, y);
    LastIsGreatest(before, b, x);
  }

  lemma WithoutLast<T(!new)>(before: (T, T) -> bool, s: seq<T>)
    requires s != [] && Sorted(before, s) && ToldApart(before, multiset(s))
    ensures s == s[..|s| - 1] + [s[|s| - 1]]
    ensures multiset(s[..|s| - 1]) == multiset(s) - multiset{s[|s| - 1]}
    ensures Sorted(before, s[..|s| - 1]) && ToldApart(before, multiset(s[..|s| - 1]))
  {
    assert Sorted(before, s[..|s| - 1]);
    hide Sorted, ToldApart;
    assert s == s[..|s| - 1] + [s[|s| - 1]];
    assert multiset(s) == multiset(s[..|s| - 1]) + multiset{s[|s| - 1]};
    FewerToldApart(before, multiset(s[..|s| - 1]), multiset(s));
  }

  lemma FewerToldApart<T(!new)>(before: (T, T) -> bool, fewer: multiset<T>, items: multiset<T>)
    requires fewer <= items && ToldApart(before, items)
    ensures ToldApart(before, fewer)
  {
    assert forall x :: x in fewer ==> x in items;
  }

  /** The items alone determine their sorted list. */
  lemma {:induction false} SortedIsUnique<T(!new)>(before: (T, T) -> bool, a: seq<T>, b: seq<T>)
    requires IsOrder(before) && Sorted(before, a) && Sorted(before, b)
    requires multiset(a) == multiset(b) && ToldApart(before, multiset(a))
    ensures a == b
  {
    hide Sorted, ToldApart, IsOrder;
    if a == [] {
      assert |multiset(b)| == 0;
    } else {
      LastAgrees(before, a, b);
      WithoutLast(before, a);
      WithoutLast(before, b);
      SortedIsUnique(before, a[..|a| - 1], b[..|b| - 1]);
    }
  }
}
