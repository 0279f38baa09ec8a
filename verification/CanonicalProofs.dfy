/** Canonical printing is invariant under key order at every depth, injective, and read back exactly. */
module CanonicalProofs {
  import opened Wrappers
  import opened JsonGrammar
  import opened JsonReader
  import opened JsonReaderProofs
  import opened JsonRecogniser
  import opened Canonical

  // Orders

  ghost predicate StrictTotal(before: (Text, Text) -> bool)
  {
    && (forall a, b :: before(a, b) ==> !before(b, a))
    && (forall a, b :: a != b ==> before(a, b) || before(b, a))
    && (forall a, b, c :: before(a, b) && before(b, c) ==> before(a, c))
  }

  lemma {:induction false} LexAsymmetric(a: Text, b: Text)
    ensures !(LexBefore(a, b) && LexBefore(b, a))
    decreases |a|
  {
    if a != [] && b != [] {
      LexAsymmetric(a[1..], b[1..]);
    }
  }

  lemma {:induction false} LexTotal(a: Text, b: Text)
    requires a != b
    ensures LexBefore(a, b) || LexBefore(b, a)
    decreases |a|
  {
    if a != [] && b != [] && a[0] == b[0] {
      assert a == [a[0]] + a[1..] && b == [b[0]] + b[1..];
      LexTotal(a[1..], b[1..]);
    }
  }

  lemma {:induction false} LexTransitive(a: Text, b: Text, c: Text)
    requires LexBefore(a, b) && LexBefore(b, c)
    ensures LexBefore(a, c)
    decreases |a|
  {
    if a != [] && a[0] == b[0] == c[0] {
      LexTransitive(a[1..], b[1..], c[1..]);
    }
  }

  lemma {:induction false} LexIsStrictTotal()
    ensures StrictTotal(LexBefore)
  {
    forall a, b ensures LexBefore(a, b) ==> !LexBefore(b, a) { LexAsymmetric(a, b); }
    forall a, b | a != b ensures LexBefore(a, b) || LexBefore(b, a) { LexTotal(a, b); }
    forall a, b, c | LexBefore(a, b) && LexBefore(b, c) ensures LexBefore(a, c) { LexTransitive(a, b, c); }
  }

  lemma {:induction false} IndexIsStrictTotal()
    ensures StrictTotal(IndexBefore)
  {
    LexIsStrictTotal();
    hide LexBefore;
  }

  lemma {:induction false} JsIsStrictTotal()
    ensures StrictTotal(JsBefore)
  {
    LexIsStrictTotal();
    IndexIsStrictTotal();
    hide LexBefore, IndexBefore, IsIndex;
  }

  function Power10(n: nat): nat
  {
    if n == 0 then 1 else 10 * Power10(n - 1)
  }

  lemma {:induction false} NumeralBounds(t: Text)
    requires Digits(t)
    ensures 0 <= NumeralValue(t) < Power10(|t|)
    ensures t != [] && t[0] != ZERO ==> NumeralValue(t) >= Power10(|t| - 1)
    decreases |t|
  {
    if t != [] {
      NumeralBounds(t[..|t| - 1]);
    }
  }

  lemma {:induction false} PowerGrows(m: nat, n: nat)
    requires m <= n
    ensures 1 <= Power10(m) <= Power10(n)
    decreases n
  {
    if m < n {
      PowerGrows(m, n - 1);
    } else if n > 0 {
      PowerGrows(m - 1, n - 1);
    }
  }

  lemma {:induction false} NumeralHead(t: Text)
    requires t != [] && Digits(t)
    ensures NumeralValue(t) == (t[0] - ZERO) * Power10(|t| - 1) + NumeralValue(t[1..])
    decreases |t|
  {
    if |t| == 1 {
      assert t[..0] == [];
    } else {
      var s := t[..|t| - 1];
      NumeralHead(s);
      assert t[1..][..|t[1..]| - 1] == s[1..];
    }
  }

  lemma {:induction false} LexIsNumeric(a: Text, b: Text)
    requires Digits(a) && Digits(b) && |a| == |b|
    ensures LexBefore(a, b) <==> NumeralValue(a) < NumeralValue(b)
    decreases |a|
  {
    if a != [] {
      NumeralHead(a);
      NumeralHead(b);
      NumeralBounds(a[1..]);
      NumeralBounds(b[1..]);
      LexIsNumeric(a[1..], b[1..]);
      HeadDecides(a[0] - ZERO, b[0] - ZERO, NumeralValue(a[1..]), NumeralValue(b[1..]), Power10(|a| - 1));
    }
  }

  lemma {:induction false} StepUp(x: int, y: int, p: int)
    requires x < y && p >= 0
    ensures y * p >= x * p + p
    decreases y - x
  {
    assert y * p == (y - 1) * p + p;
    if x < y - 1 {
      StepUp(x, y - 1, p);
    }
  }

  lemma {:induction false} HeadDecides(x: int, y: int, u: int, v: int, p: int)
    requires 0 <= u < p && 0 <= v < p
    ensures x < y ==> x * p + u < y * p + v
    ensures y < x ==> x * p + u > y * p + v
    ensures x == y ==> (x * p + u < y * p + v <==> u < v)
  {
    if x < y {
      StepUp(x, y, p);
    } else if y < x {
      StepUp(y, x, p);
    }
  }

  /** The order used for index keys is the numeric one. */
  lemma {:induction false} IndexOrderIsNumeric(a: Text, b: Text)
    requires IsIndex(a) && IsIndex(b)
    ensures IndexBefore(a, b) <==> NumeralValue(a) < NumeralValue(b)
  {
    NumeralBounds(a);
    NumeralBounds(b);
    if |a| == |b| {
      LexIsNumeric(a, b);
    } else if |a| < |b| {
      PowerGrows(|a|, |b| - 1);
      assert b[0] != ZERO;
    } else {
      PowerGrows(|b|, |a| - 1);
      assert a[0] != ZERO;
    }
  }

  // Sorting

  ghost predicate Ordered(before: (Text, Text) -> bool, e: Entries)
  {
    e.Entry? ==> (forall k | k in KeysOf(e.rest) :: before(e.key, k)) && Ordered(before, e.rest)
  }

  /** `b` has the same properties as `a`, possibly in another order. */
  ghost predicate SameProperties(a: Entries, b: Entries)
  {
    && WellFormedEntries(b) && KeysOf(a) == KeysOf(b)
    && DenoteEntries(a) == DenoteEntries(b)
    && (AllFiniteEntries(a) ==> AllFiniteEntries(b))
    && (NormalValues(a) ==> NormalValues(b))
  }

  /** Every object inside is in enumeration order. */
  ghost predicate IsNormal(v: Json)
  {
    match v
    case JArr(elements) => NormalElements(elements)
    case JObj(entries) => Ordered(JsBefore, entries) && NormalValues(entries)
    case _ => true
  }

  ghost predicate NormalElements(e: Elements)
  {
    e.Element? ==> IsNormal(e.head) && NormalElements(e.tail)
  }

  ghost predicate NormalValues(e: Entries)
  {
    e.Entry? ==> IsNormal(e.value) && NormalValues(e.rest)
  }

  lemma {:induction false} SplitHead(e: Entries)
    requires e.Entry?
    ensures AllFiniteEntries(e) == (AllFinite(e.value) && AllFiniteEntries(e.rest))
    ensures NormalValues(e) == (IsNormal(e.value) && NormalValues(e.rest))
  {
  }

  lemma {:induction false} InsertKeeps(before: (Text, Text) -> bool, key: Text, value: Json, e: Entries)
    requires StrictTotal(before) && Ordered(before, e) && WellFormedEntries(Entry(key, value, e))
    ensures Ordered(before, Insert(before, key, value, e))
    ensures SameProperties(Entry(key, value, e), Insert(before, key, value, e))
    decreases e
  {
    hide Denote, WellFormed, AllFinite, IsNormal;
    if e.Entry? && !before(key, e.key) {
      assert before(e.key, key);
      InsertKeeps(before, key, value, e.rest);
      var grown := Insert(before, key, value, e.rest);
      assert SameProperties(Entry(key, value, e.rest), grown);
      var was, now := Entry(key, value, e), Entry(e.key, e.value, grown);
      assert WellFormedEntries(now);
      assert KeysOf(was) == {key} + ({e.key} + KeysOf(e.rest)) == KeysOf(now);
      assert DenoteEntries(was) == DenoteEntries(e.rest)[e.key := Denote(e.value)][key := Denote(value)];
      assert DenoteEntries(was) == DenoteEntries(now);
      SplitHead(e);
      SplitHead(was);
      SplitHead(now);
      SplitHead(Entry(key, value, e.rest));
    }
  }

  lemma {:induction false} SortKeeps(before: (Text, Text) -> bool, e: Entries)
    requires StrictTotal(before) && WellFormedEntries(e)
    ensures Ordered(before, Sort(before, e)) && SameProperties(e, Sort(before, e))
    decreases e
  {
    hide Denote, WellFormed, AllFinite, IsNormal, StrictTotal;
    if e.Entry? {
      SortKeeps(before, e.rest);
      InsertKeeps(before, e.key, e.value, Sort(before, e.rest));
    }
  }

  // Object.fromEntries

  lemma {:induction false} SelectKeeps(index: bool, e: Entries)
    requires WellFormedEntries(e)
    ensures var r := Select(index, e);
            && WellFormedEntries(r)
            && (forall k :: k in KeysOf(r) <==> k in KeysOf(e) && IsIndex(k) == index)
            && (forall k | k in KeysOf(r) :: DenoteEntries(r)[k] == DenoteEntries(e)[k])
            && (AllFiniteEntries(e) ==> AllFiniteEntries(r)) && (NormalValues(e) ==> NormalValues(r))
            && (Ordered(LexBefore, e) ==> Ordered(LexBefore, r))
    decreases e
  {
    hide Denote, WellFormed, AllFinite, IsNormal, IsIndex, LexBefore;
    if e.Entry? {
      SplitHead(e);
      SelectKeeps(index, e.rest);
    }
  }

  lemma {:induction false} AppendKeeps(a: Entries, b: Entries)
    requires WellFormedEntries(a) && WellFormedEntries(b) && KeysOf(a) !! KeysOf(b)
    ensures var r := Append(a, b);
            && WellFormedEntries(r) && KeysOf(r) == KeysOf(a) + KeysOf(b)
            && (forall k | k in KeysOf(a) :: DenoteEntries(r)[k] == DenoteEntries(a)[k])
            && (forall k | k in KeysOf(b) :: DenoteEntries(r)[k] == DenoteEntries(b)[k])
            && (AllFiniteEntries(a) && AllFiniteEntries(b) ==> AllFiniteEntries(r))
            && (NormalValues(a) && NormalValues(b) ==> NormalValues(r))
    decreases a
  {
    hide Denote, WellFormed, AllFinite, IsNormal;
    if a.Entry? {
      SplitHead(a);
      AppendKeeps(a.rest, b);
      SplitHead(Append(a, b));
    }
  }

  lemma {:induction false} LexOrderedIsJsOrdered(b: Entries)
    requires Ordered(LexBefore, b) && forall k | k in KeysOf(b) :: !IsIndex(k)
    ensures Ordered(JsBefore, b)
    decreases b
  {
    hide IsIndex, LexBefore;
    if b.Entry? {
      LexOrderedIsJsOrdered(b.rest);
    }
  }

  lemma {:induction false} AppendOrdered(a: Entries, b: Entries)
    requires Ordered(IndexBefore, a) && (forall k | k in KeysOf(a) :: IsIndex(k))
    requires Ordered(LexBefore, b) && (forall k | k in KeysOf(b) :: !IsIndex(k))
    requires WellFormedEntries(a) && WellFormedEntries(b)
    ensures Ordered(JsBefore, Append(a, b))
    decreases a
  {
    hide IsIndex, LexBefore, IndexBefore, WellFormed;
    if a.NoEntries? {
      LexOrderedIsJsOrdered(b);
    } else {
      AppendOrdered(a.rest, b);
      AppendKeeps(a.rest, b);
    }
  }

  lemma {:induction false} FromEntriesKeeps(e: Entries)
    requires WellFormedEntries(e) && Ordered(LexBefore, e)
    ensures Ordered(JsBefore, FromEntries(e)) && SameProperties(e, FromEntries(e))
  {
    hide WellFormed, IsIndex, LexBefore, IndexBefore, Ordered, Select, Sort, Append, KeysOf, DenoteEntries,
         WellFormedEntries, AllFiniteEntries, NormalValues;
    var first, rest := Select(true, e), Select(false, e);
    SelectKeeps(true, e);
    SelectKeeps(false, e);
    IndexIsStrictTotal();
    SortKeeps(IndexBefore, first);
    AppendKeeps(Sort(IndexBefore, first), rest);
    AppendOrdered(Sort(IndexBefore, first), rest);
    assert KeysOf(FromEntries(e)) == KeysOf(e);
    assert DenoteEntries(FromEntries(e)) == DenoteEntries(e);
  }

  // normalize

  lemma {:induction false} NormalizeKeeps(v: Json)
    requires WellFormed(v)
    ensures var n := Normalize(v);
            WellFormed(n) && IsNormal(n) && Denote(n) == Denote(v) && (AllFinite(v) ==> AllFinite(n))
    decreases v
  {
    hide Ordered;
    match v
    case JArr(elements) => NormalizeElementsKeeps(elements);
    case JObj(entries) =>
      var e := NormalizeEntries(entries);
      NormalizeEntriesKeeps(entries);
      LexIsStrictTotal();
      SortKeeps(LexBefore, e);
      FromEntriesKeeps(Sort(LexBefore, e));
    case _ =>
  }

  lemma {:induction false} NormalizeElementsKeeps(e: Elements)
    requires WellFormedElements(e)
    ensures var n := NormalizeElements(e);
            && WellFormedElements(n) && NormalElements(n) && DenoteElements(n) == DenoteElements(e)
            && (AllFiniteElements(e) ==> AllFiniteElements(n))
    decreases e
  {
    if e.Element? {
      NormalizeKeeps(e.head);
      NormalizeElementsKeeps(e.tail);
    }
  }

  lemma {:induction false} NormalizeEntriesKeeps(e: Entries)
    requires WellFormedEntries(e)
    ensures SameProperties(e, NormalizeEntries(e)) && NormalValues(NormalizeEntries(e))
    decreases e
  {
    if e.Entry? {
      NormalizeKeeps(e.value);
      NormalizeEntriesKeeps(e.rest);
    }
  }

  // A normal value is determined by its meaning

  lemma {:induction false} NormalUnique(a: Json, b: Json)
    requires WellFormed(a) && WellFormed(b) && IsNormal(a) && IsNormal(b) && Denote(a) == Denote(b)
    ensures a == b
    decreases a
  {
    match a
    case JArr(elements) => NormalElementsUnique(elements, b.elements);
    case JObj(entries) => NormalEntriesUnique(entries, b.entries);
    case _ =>
  }

  lemma {:induction false} NormalElementsUnique(a: Elements, b: Elements)
    requires WellFormedElements(a) && WellFormedElements(b) && NormalElements(a) && NormalElements(b)
    requires DenoteElements(a) == DenoteElements(b)
    ensures a == b
    decreases a
  {
    if a.Element? {
      var da, db := DenoteElements(a), DenoteElements(b);
      assert b.Element? && da[0] == Denote(a.head) && db[0] == Denote(b.head);
      assert da[1..] == DenoteElements(a.tail) && db[1..] == DenoteElements(b.tail);
      NormalUnique(a.head, b.head);
      NormalElementsUnique(a.tail, b.tail);
    }
  }

  lemma {:induction false} NormalEntriesUnique(a: Entries, b: Entries)
    requires WellFormedEntries(a) && WellFormedEntries(b) && NormalValues(a) && NormalValues(b)
    requires Ordered(JsBefore, a) && Ordered(JsBefore, b)
    requires DenoteEntries(a) == DenoteEntries(b)
    ensures a == b
    decreases a
  {
    hide JsBefore, KeysOf, DenoteEntries, Denote, IsNormal, WellFormed;
    NoKeys(a);
    NoKeys(b);
    if a.Entry? {
      LeastKey(a, b);
      RestDenotes(a);
      RestDenotes(b);
      NormalUnique(a.value, b.value);
      NormalEntriesUnique(a.rest, b.rest);
    }
  }

  lemma NoKeys(e: Entries)
    ensures e.NoEntries? <==> KeysOf(e) == {}
  {
  }

  /** The first key of an ordered entry list is the least one. */
  lemma {:induction false} LeastKey(a: Entries, b: Entries)
    requires a.Entry? && b.Entry? && KeysOf(a) == KeysOf(b) && Ordered(JsBefore, a) && Ordered(JsBefore, b)
    ensures a.key == b.key
  {
    JsIsStrictTotal();
    hide JsBefore;
    assert a.key in KeysOf(b) && b.key in KeysOf(a);
  }

  lemma {:induction false} RestDenotes(e: Entries)
    requires e.Entry? && WellFormedEntries(e)
    ensures e.key in DenoteEntries(e) && DenoteEntries(e)[e.key] == Denote(e.value)
    ensures DenoteEntries(e.rest) == DenoteEntries(e) - {e.key}
  {
    hide Denote, WellFormed;
  }
}
