/** Checkpoints of the run-state store (packages/state-sqlite/src/index.ts:296-334). */
module Checkpoints {
  import opened Wrappers
  import opened JsonGrammar
  import opened Canonical
  import opened CanonicalProofs
  import opened CanonicalText

  datatype Row = Row(profile: string, mode: string, text: Text, updatedAt: string)

  datatype Put = Put(key: string, profile: string, mode: string, value: Json, updatedAt: string)

  type Table = map<string, Row>

  /** The put succeeds: the value prints, and the key is new or bound to the same profile and mode. */
  predicate Accepted(t: Table, p: Put)
  {
    AllFinite(p.value) && (p.key in t ==> t[p.key].profile == p.profile && t[p.key].mode == p.mode)
  }

  function After(puts: seq<Put>): Table
  {
    if puts == [] then map[]
    else
      var before, p := After(puts[..|puts| - 1]), puts[|puts| - 1];
      if Accepted(before, p) then before[p.key := Row(p.profile, p.mode, Stringify(Normalize(p.value)), p.updatedAt)]
      else before
  }

  /** The last put on `key` that was accepted. */
  function Last(puts: seq<Put>, key: string): Option<Put>
  {
    if puts == [] then None
    else
      var p := puts[|puts| - 1];
      if p.key == key && Accepted(After(puts[..|puts| - 1]), p) then Some(p) else Last(puts[..|puts| - 1], key)
  }

  class CheckpointTable {
    var rows: Table

    constructor ()
      ensures rows == After([])
    {
      rows := map[];
    }

    /** The guarded upsert, then the check of the binding it left. */
    method PutCheckpoint(p: Put) returns (ok: bool)
      modifies this
      ensures ok == Accepted(old(rows), p)
      ensures forall puts: seq<Put> :: old(rows) == After(puts) ==> rows == After(puts + [p])
    {
      ghost var before := rows;
      var text := Canonicalize(p.value);
      if text.None? {
        Rejected(before, p);
        return false;
      }
      var row := Row(p.profile, p.mode, text.value, p.updatedAt);
      if p.key !in rows {
        rows := rows[p.key := row];
      } else if rows[p.key].profile == p.profile && rows[p.key].mode == p.mode {
        rows := rows[p.key := row];
      }
      ok := rows[p.key].profile == p.profile && rows[p.key].mode == p.mode;
      forall puts: seq<Put> | before == After(puts) ensures rows == After(puts + [p]) {
        assert (puts + [p])[..|puts|] == puts;
      }
    }
  }

  lemma Rejected(t: Table, p: Put)
    requires !Accepted(t, p)
    ensures forall puts: seq<Put> :: t == After(puts) ==> t == After(puts + [p])
  {
    forall puts: seq<Put> | t == After(puts) ensures t == After(puts + [p]) {
      assert (puts + [p])[..|puts|] == puts;
    }
  }

  /** A key stays bound to the profile and mode that first wrote it. */
  lemma {:induction false} BindingsNeverChange(puts: seq<Put>, more: seq<Put>, key: string)
    requires key in After(puts)
    ensures key in After(puts + more)
    ensures After(puts + more)[key].profile == After(puts)[key].profile
            && After(puts + more)[key].mode == After(puts)[key].mode
  {
    if more == [] {
      assert puts + more == puts;
    } else {
      assert (puts + more)[..|puts + more| - 1] == puts + more[..|more| - 1];
      BindingsNeverChange(puts, more[..|more| - 1], key);
    }
  }

  /** loadCheckpoint */
  function Load(t: Table, key: string): Option<Json>
  {
    if key in t then ParseJson(t[key].text) else None
  }

  /** Loading a key gives the normalized value of the last accepted put on it, or nothing when there was none. */
  lemma {:induction false} LoadsTheLastAccepted(puts: seq<Put>, key: string)
    requires forall p :: p in puts ==> WellFormed(p.value)
    ensures Load(After(puts), key) == match Last(puts, key) case None => None case Some(p) => Some(Normalize(p.value))
    ensures key in After(puts) <==> Last(puts, key).Some?
  {
    if puts != [] {
      var rest, p := puts[..|puts| - 1], puts[|puts| - 1];
      assert p in puts && forall q :: q in rest ==> q in puts;
      LoadsTheLastAccepted(rest, key);
      if p.key == key && Accepted(After(rest), p) {
        CanonicalTextReadsBack(p.value);
      }
    }
  }
}
