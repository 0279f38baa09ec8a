/** Sequences without repetitions, filtering and flattening, with the algebra the paging proofs rest on. */
module Sequences {
  predicate Distinct<T(==)>(s: seq<T>)
  {
    forall i, j :: 0 <= i < j < |s| ==> s[i] != s[j]
  }

  /** A sequence is free of repetitions exactly when its multiset is a set. */
  lemma {:induction false} DistinctCounts<T(!new)>(s: seq<T>)
    ensures Distinct(s) <==> forall x :: multiset(s)[x] <= 1
  {
    if s != [] {
      var rest, last := s[..|s| - 1], s[|s| - 1];
      DistinctCounts(rest);
      assert s == rest + [last];
      assert forall x :: multiset(s)[x] == multiset(rest)[x] + if x == last then 1 else 0;
      if Distinct(s) {
        assert Distinct(rest) && last !in rest;
        assert multiset(rest)[last] == 0;
      } else if Distinct(rest) {
        assert last in rest;
        assert last in multiset(rest);
        assert multiset(s)[last] > 1;
      } else {
        var x :| multiset(rest)[x] > 1;
        assert multiset(s)[x] > 1;
      }
    }
  }

  lemma DistinctPermutes<T(!new)>(a: seq<T>, b: seq<T>)
    requires multiset(a) == multiset(b) && Distinct(a)
    ensures Distinct(b)
  {
    hide Distinct;
    DistinctCounts(a);
    DistinctCounts(b);
  }

  function Filter<T>(keep: T -> bool, s: seq<T>): (r: seq<T>)
    ensures |r| <= |s|
  {
    if s == [] then []
    else Filter(keep, s[..|s| - 1]) + if keep(s[|s| - 1]) then [s[|s| - 1]] else []
  }

  function Flatten<T>(parts: seq<seq<T>>): seq<T>
  {
    if parts == [] then [] else Flatten(parts[..|parts| - 1]) + parts[|parts| - 1]
  }

  lemma {:induction false} FilterAppend<T>(keep: T -> bool, a: seq<T>, b: seq<T>)
    ensures Filter(keep, a + b) == Filter(keep, a) + Filter(keep, b)
  {
    if b == [] {
      assert a + b == a;
    } else {
      FilterAppend(keep, a, b[..|b| - 1]);
      assert (a + b)[..|a + b| - 1] == a + b[..|b| - 1];
    }
  }

  lemma {:induction false} FlattenAppend<T>(a: seq<seq<T>>, b: seq<seq<T>>)
    ensures Flatten(a + b) == Flatten(a) + Flatten(b)
  {
    if b == [] {
      assert a + b == a;
    } else {
      FlattenAppend(a, b[..|b| - 1]);
      assert (a + b)[..|a + b| - 1] == a + b[..|b| - 1];
    }
  }

  /** Where element `i` of part `p` lands in the flattened sequence. */
  lemma {:induction false} FlattenAt<T>(parts: seq<seq<T>>, p: nat)
    requires p < |parts|
    ensures Flatten(parts[..p + 1]) == Flatten(parts[..p]) + parts[p]
    ensures |Flatten(parts[..p])| + |parts[p]| <= |Flatten(parts)|
    ensures Flatten(parts)[|Flatten(parts[..p])|..|Flatten(parts[..p])| + |parts[p]|] == parts[p]
  {
    assert parts[..p + 1][..p] == parts[..p];
    assert parts == parts[..p + 1] + parts[p + 1..];
    FlattenAppend(parts[..p + 1], parts[p + 1..]);
  }
}
