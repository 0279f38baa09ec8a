/**
 * Lists in canonical order of a two-part identity, the order candidates and decisions are kept in
 * (profiles/apizzamichigan/src/matching-v1.ts:228-292, fsq-preview.ts:358-380, 657-660).
 */
module IdentityOrder {
  import opened JsonGrammar
  import Canonical
  import CanonicalProofs
  import Sorting

  /** Source record key and observation id, as UTF-8 bytes. */
  type Identity = (Text, Text)

  predicate Before(a: Identity, b: Identity)
  {
    Canonical.LexBefore(a.0, b.0) || (a.0 == b.0 && Canonical.LexBefore(a.1, b.1))
  }

  lemma BeforeIsTotal(a: Identity, b: Identity)
    ensures a != b ==> Before(a, b) || Before(b, a)
    ensures !(Before(a, b) && Before(b, a))
  {
    if a.0 != b.0 { CanonicalProofs.LexTotal(a.0, b.0); } else if a.1 != b.1 { CanonicalProofs.LexTotal(a.1, b.1); }
    CanonicalProofs.LexAsymmetric(a.0, b.0);
    CanonicalProofs.LexAsymmetric(a.1, b.1);
    CanonicalProofs.LexAsymmetric(a.0, a.0);
  }

  lemma BeforeIsOrder()
    ensures Sorting.IsOrder(Before)
  {
    forall a, b | Before(a, b) ensures !Before(b, a) {
      BeforeIsTotal(a, b);
    }
    forall a, b, c | Before(a, c) ensures Before(a, b) || Before(b, c) {
      if !Before(a, b) && !Before(b, c) {
        BeforeIsTransitive(a, b, c);
      }
    }
  }

  lemma BeforeIsTransitive(a: Identity, b: Identity, c: Identity)
    requires !Before(a, b) && !Before(b, c)
    ensures !Before(a, c)
  {
    if Before(a, c) {
      BeforeIsTotal(a, b);
      BeforeIsTotal(b, c);
      BeforeIsTotal(a, c);
      if a.0 != b.0 && b.0 != c.0 { CanonicalProofs.LexTransitive(c.0, b.0, a.0); }
      if a.0 == b.0 == c.0 && a.1 != b.1 && b.1 != c.1 { CanonicalProofs.LexTransitive(c.1, b.1, a.1); }
    }
  }

  /** The check the validators run: no step backwards, and a repeated identity repeats its content. */
  predicate CanonicallyOrdered<T(==)>(items: seq<T>, identity: T -> Identity)
  {
    forall i :: 0 < i < |items| ==>
      && !Before(identity(items[i]), identity(items[i - 1]))
      && (identity(items[i]) == identity(items[i - 1]) ==> items[i] == items[i - 1])
  }

  /** The order of items by their identities. */
  function ByIdentity<T>(identity: T -> Identity): (T, T) -> bool
  {
    (x, y) => Before(identity(x), identity(y))
  }

  lemma ByIdentityIsOrder<T(!new)>(identity: T -> Identity)
    ensures Sorting.IsOrder(ByIdentity(identity))
  {
    hide Before;
    BeforeIsOrder();
  }

  function Sort<T>(s: seq<T>, identity: T -> Identity): seq<T>
  {
    Sorting.Sort(ByIdentity(identity), s)
  }

  /** Sorting a list in canonical order leaves it alone. */
  lemma SortedStays<T>(s: seq<T>, identity: T -> Identity)
    requires CanonicallyOrdered(s, identity)
    ensures Sort(s, identity) == s
  {
    hide Before;
    Sorting.SortedStays(ByIdentity(identity), s);
  }

  /** An identity stands for one content among the items. */
  predicate Identified<T(!new)>(items: multiset<T>, identity: T -> Identity)
  {
    forall x, y :: x in items && y in items && identity(x) == identity(y) ==> x == y
  }

  lemma IdentifiedIsToldApart<T(!new)>(items: multiset<T>, identity: T -> Identity)
    requires Identified(items, identity)
    ensures Sorting.ToldApart(ByIdentity(identity), items)
  {
    hide Before;
    forall x, y | x in items && y in items && !Before(identity(x), identity(y)) && !Before(identity(y), identity(x))
      ensures x == y
    {
      BeforeIsTotal(identity(x), identity(y));
    }
  }

  /** Any permutation of the same items sorts to the same list, and it passes the validators' order check. */
  lemma SortForgetsOrder<T(!new)>(a: seq<T>, b: seq<T>, identity: T -> Identity)
    requires multiset(a) == multiset(b) && Identified(multiset(a), identity)
    ensures Sort(a, identity) == Sort(b, identity)
    ensures CanonicallyOrdered(Sort(a, identity), identity)
  {
    hide Before, Identified, ByIdentity, CanonicallyOrdered;
    var before := ByIdentity(identity);
    ByIdentityIsOrder(identity);
    IdentifiedIsToldApart(multiset(a), identity);
    Sorting.SortKeeps(before, a);
    Sorting.SortKeeps(before, b);
    Sorting.SortedIsUnique(before, Sort(a, identity), Sort(b, identity));
    SortedIsCanonical(Sort(a, identity), identity);
  }

  lemma SortedIsCanonical<T(!new)>(s: seq<T>, identity: T -> Identity)
    requires Sorting.Sorted(ByIdentity(identity), s) && Identified(multiset(s), identity)
    ensures CanonicallyOrdered(s, identity)
  {
    hide Before;
    assert forall i :: 0 <= i < |s| ==> s[i] in multiset(s);
  }
}
