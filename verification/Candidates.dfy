/**
 * Normalization of source rows into candidates (profiles/apizzamichigan/src/fsq-preview.ts:577-660): the
 * result does not depend on the order of the rows, nor on the order of their keys, and it is in the order
 * the candidate validator and the matcher demand.
 */
module Candidates {
  import opened Wrappers
  import opened JsonGrammar
  import opened Canonical
  import opened Identity
  import IdentityOrder

  /** A candidate: its two identities as text, and the content of its row, which fixes every other field. */
  datatype Normalized = Normalized(key: Text, observation: Text, content: Den)

  /** `keyOf` derives the source record key from a row's content; `render` writes an observation id as text. */
  datatype Context = Context(keyOf: Den -> Text, render: Key -> Text)

  ghost predicate RendersApart(context: Context)
  {
    forall a, b :: context.render(a) == context.render(b) ==> a == b
  }

  function ObservationOf(context: Context, row: Json): Observation
  {
    Observation(context.keyOf(Denote(row)), None, row)
  }

  predicate IsRow(row: Json)
  {
    WellFormed(row) && AllFinite(row)
  }

  function NormalizeRow(context: Context, row: Json): Normalized
    requires IsRow(row)
  {
    var id := ObservationId(ObservationOf(context, row));
    Normalized(context.keyOf(Denote(row)), if id.Some? then context.render(id.value) else [], Denote(row))
  }

  function IdentityOf(n: Normalized): IdentityOrder.Identity
  {
    (n.key, n.observation)
  }

  function NormalizeAll(context: Context, rows: seq<Json>): seq<Normalized>
    requires forall r :: r in rows ==> IsRow(r)
  {
    seq(|rows|, i requires 0 <= i < |rows| => assert rows[i] in rows; NormalizeRow(context, rows[i]))
  }

  /** normalizeFsqRowsV1: map, then sort by the two identities. */
  function NormalizeRows(context: Context, rows: seq<Json>): seq<Normalized>
    requires forall r :: r in rows ==> IsRow(r)
  {
    IdentityOrder.Sort(NormalizeAll(context, rows), IdentityOf)
  }

  /** Candidates share both identities exactly when their rows agree up to key order, and then they are the same. */
  lemma SameIdentitySameRow(context: Context, a: Json, b: Json)
    requires RendersApart(context) && IsRow(a) && IsRow(b)
    ensures IdentityOf(NormalizeRow(context, a)) == IdentityOf(NormalizeRow(context, b)) <==> Denote(a) == Denote(b)
    ensures Denote(a) == Denote(b) ==> NormalizeRow(context, a) == NormalizeRow(context, b)
  {
    hide ObservationId, Denote, WellFormed, AllFinite;
    ObservationIdsDiffer(ObservationOf(context, a), ObservationOf(context, b));
    ObservationIdsDiffer(ObservationOf(context, b), ObservationOf(context, a));
  }

  lemma AllIdentified(context: Context, rows: seq<Json>)
    requires RendersApart(context) && forall r :: r in rows ==> IsRow(r)
    ensures IdentityOrder.Identified(multiset(NormalizeAll(context, rows)), IdentityOf)
  {
    hide IsRow, NormalizeRow, IdentityOf, RendersApart;
    var all := NormalizeAll(context, rows);
    forall x, y | x in multiset(all) && y in multiset(all) && IdentityOf(x) == IdentityOf(y) ensures x == y {
      var i :| 0 <= i < |all| && all[i] == x;
      var j :| 0 <= j < |all| && all[j] == y;
      assert rows[i] in rows && rows[j] in rows;
      SameIdentitySameRow(context, rows[i], rows[j]);
    }
  }

  /** Where a row sits, and what is left without it. */
  lemma TakeOut(rows: seq<Json>, x: Json) returns (k: nat)
    requires x in multiset(rows)
    ensures k < |rows| && rows[k] == x && multiset(rows[..k] + rows[k + 1..]) == multiset(rows) - multiset{x}
  {
    k :| 0 <= k < |rows| && rows[k] == x;
    assert rows == rows[..k] + [x] + rows[k + 1..];
  }

  lemma {:induction false} PermutedRows(context: Context, a: seq<Json>, b: seq<Json>)
    requires (forall r :: r in a ==> IsRow(r)) && (forall r :: r in b ==> IsRow(r))
    requires multiset(a) == multiset(b)
    ensures multiset(NormalizeAll(context, a)) == multiset(NormalizeAll(context, b))
    decreases |a|
  {
    hide IsRow, NormalizeRow, NormalizeAll;
    if a == [] {
      assert |multiset(b)| == 0;
      assert b == a;
    } else {
      var x := a[0];
      assert x in multiset(a);
      var i := TakeOut(a, x);
      var k := TakeOut(b, x);
      NormalizeSplit(context, a, i);
      NormalizeSplit(context, b, k);
      PermutedRows(context, a[..i] + a[i + 1..], b[..k] + b[k + 1..]);
    }
  }

  lemma NormalizeSplit(context: Context, rows: seq<Json>, k: nat)
    requires k < |rows| && forall r :: r in rows ==> IsRow(r)
    ensures forall r :: r in rows[..k] + rows[k + 1..] ==> IsRow(r)
    ensures multiset(NormalizeAll(context, rows)) ==
            multiset(NormalizeAll(context, rows[..k] + rows[k + 1..])) + multiset{NormalizeRow(context, rows[k])}
  {
    hide IsRow, NormalizeRow;
    assert forall r :: r in rows[..k] + rows[k + 1..] ==> r in rows;
    var all, others := NormalizeAll(context, rows), NormalizeAll(context, rows[..k] + rows[k + 1..]);
    assert all == all[..k] + [all[k]] + all[k + 1..];
    assert others == all[..k] + all[k + 1..];
  }

  /** Any permutation of the same rows normalizes to the identical list, in canonical order. */
  lemma NormalizationForgetsOrder(context: Context, a: seq<Json>, b: seq<Json>)
    requires RendersApart(context)
    requires (forall r :: r in a ==> IsRow(r)) && (forall r :: r in b ==> IsRow(r))
    requires multiset(a) == multiset(b)
    ensures NormalizeRows(context, a) == NormalizeRows(context, b)
    ensures IdentityOrder.CanonicallyOrdered(NormalizeRows(context, a), IdentityOf)
  {
    hide IsRow, NormalizeAll, RendersApart;
    PermutedRows(context, a, b);
    AllIdentified(context, a);
    IdentityOrder.SortForgetsOrder(NormalizeAll(context, a), NormalizeAll(context, b), IdentityOf);
  }
}
