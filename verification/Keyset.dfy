/** Keyset pagination over a sorted sequence: each page continues exactly where the previous one ended. */
module Keyset {
  import opened Wrappers
  import opened Sequences
  import opened JsonGrammar
  import Canonical
  import CanonicalProofs

  /** Keys strictly increase in byte order. */
  predicate Increasing<T>(s: seq<T>, key: T -> Text)
  {
    forall i, j :: 0 <= i < j < |s| ==> Canonical.LexBefore(key(s[i]), key(s[j]))
  }

  /** `WHERE key > cursor ORDER BY key` over sorted items. */
  function After<T>(s: seq<T>, key: T -> Text, cursor: Option<Text>): seq<T>
  {
    Filter((x: T) => cursor.None? || Canonical.LexBefore(cursor.value, key(x)), s)
  }

  function Page<T>(s: seq<T>, key: T -> Text, cursor: Option<Text>, limit: nat): seq<T>
  {
    var rest := After(s, key, cursor);
    if |rest| <= limit then rest else rest[..limit]
  }

  lemma {:induction false} AfterNothing<T>(s: seq<T>, key: T -> Text)
    ensures After(s, key, None) == s
  {
    if s != [] {
      AfterNothing(s[..|s| - 1], key);
      assert s == s[..|s| - 1] + [s[|s| - 1]];
    }
  }

  lemma {:induction false} NothingAfter<T>(s: seq<T>, key: T -> Text, cursor: Text)
    requires forall i :: 0 <= i < |s| ==> key(s[i]) == cursor || Canonical.LexBefore(key(s[i]), cursor)
    ensures After(s, key, Some(cursor)) == []
  {
    if s != [] {
      NothingAfter(s[..|s| - 1], key, cursor);
      CanonicalProofs.LexAsymmetric(key(s[|s| - 1]), cursor);
    }
  }

  lemma {:induction false} AfterItem<T>(s: seq<T>, key: T -> Text, k: nat)
    requires Increasing(s, key) && 0 < k <= |s|
    ensures After(s, key, Some(key(s[k - 1]))) == s[k..]
  {
    var cursor, last, rest := key(s[k - 1]), s[|s| - 1], s[..|s| - 1];
    if k == |s| {
      NothingAfter(s, key, cursor);
    } else {
      AfterItem(rest, key, k);
      assert Canonical.LexBefore(cursor, key(last));
      assert s[k..] == rest[k..] + [last];
    }
  }

  lemma PageIsSlice<T>(s: seq<T>, key: T -> Text, k: nat, limit: nat)
    requires Increasing(s, key) && k <= |s|
    ensures Page(s, key, if k == 0 then None else Some(key(s[k - 1])), limit) ==
            s[k..if k + limit < |s| then k + limit else |s|]
  {
    if k == 0 {
      AfterNothing(s, key);
    } else {
      AfterItem(s, key, k);
    }
  }
}
