/**
 * The per-stage merge of parent lineage computes the global closure over the whole run
 * (packages/executor/src/index.ts:739-807).
 */
module ExecutorLineage {
  import opened Ancestry
  import opened Wrappers
  import opened Pipelines
  import opened ExecutorModel

  predicate IsSource(d: Dataset)
  {
    d.parents == {}
  }

  /** Every dataset is a source, or inherits exactly the merge of earlier ones. */
  ghost predicate Inherits(ledger: seq<Dataset>, h: nat)
    requires h < |ledger|
  {
    var d := ledger[h];
    && (forall p :: p in d.parents ==> p < h)
    && if IsSource(d) then d.lineage.provenance.FromSource?
       else d.lineage == Merge(Lineages(ledger[..h], d.parents))
  }

  ghost predicate LineageOk(ledger: seq<Dataset>)
  {
    forall h :: 0 <= h < |ledger| ==> Inherits(ledger, h)
  }

  function ParentsOf(ledger: seq<Dataset>): (r: Parents)
    ensures |r| == |ledger|
  {
    seq(|ledger|, i requires 0 <= i < |ledger| => ledger[i].parents)
  }

  /** The lineages of all source datasets `h` was made from. */
  ghost function SourceLineages(ledger: seq<Dataset>, h: nat): set<Lineage>
    requires h < |ledger|
  {
    set s | 0 <= s < |ledger| && IsOrigin(ParentsOf(ledger), h, s) :: ledger[s].lineage
  }

  /** `l` accumulates `sources`: exactly their provenance, forbidden when one of them is, expiring with the first. */
  ghost predicate Accumulates(l: Lineage, sources: set<Lineage>)
  {
    && (forall x :: x in SourcesOf(l.provenance) <==> exists q :: q in sources && x in SourcesOf(q.provenance))
    && (l.forbidden <==> exists q :: q in sources && q.forbidden)
    && IsEarliest(l.expiresAt, sources)
  }

  lemma SourceIsClosed(ledger: seq<Dataset>, h: nat)
    requires h < |ledger| && LineageOk(ledger) && IsSource(ledger[h])
    ensures Accumulates(ledger[h].lineage, SourceLineages(ledger, h))
  {
    assert Inherits(ledger, h);
    forall s: nat ensures IsOrigin(ParentsOf(ledger), h, s) <==> s == h {
      RootIsItsOrigin(ParentsOf(ledger), h, s);
    }
    assert ledger[h].lineage in SourceLineages(ledger, h);
  }

  /** `sources` is everything below the parents, parent by parent. */
  ghost predicate Spread(parents: map<nat, Lineage>, below: map<nat, set<Lineage>>, sources: set<Lineage>)
  {
    && parents.Keys == below.Keys && parents != map[]
    && (forall p :: p in parents ==> Accumulates(parents[p], below[p]))
    && (forall r :: r in sources <==> exists p :: p in parents && r in below[p])
  }

  lemma ValuesFrom(parents: map<nat, Lineage>)
    requires parents != map[]
    ensures parents.Values != {}
    ensures forall q :: q in parents.Values <==> exists p :: p in parents && parents[p] == q
  {
    var p :| p in parents;
    assert parents[p] in parents.Values;
  }

  /** Merging is accumulating, however the sources are spread over the parents. */
  lemma MergeAccumulates(parents: map<nat, Lineage>, below: map<nat, set<Lineage>>, sources: set<Lineage>)
    requires Spread(parents, below, sources)
    ensures parents.Values != {} && Accumulates(Merge(parents.Values), sources)
  {
    ValuesFrom(parents);
    var l := Merge(parents.Values);
    MergeExpires(parents, below, sources);
    MergeForbids(parents, below, sources);
    forall x ensures x in SourcesOf(l.provenance) <==> exists r :: r in sources && x in SourcesOf(r.provenance) {
      if r :| r in sources && x in SourcesOf(r.provenance) {
        var p :| p in parents && r in below[p];
        assert x in SourcesOf(parents[p].provenance);
      }
      if x in SourcesOf(l.provenance) {
        var q :| q in parents.Values && x in SourcesOf(q.provenance);
        var p :| p in parents && parents[p] == q;
        var r :| r in below[p] && x in SourcesOf(r.provenance);
        assert r in sources;
      }
    }
  }

  lemma MergeForbids(parents: map<nat, Lineage>, below: map<nat, set<Lineage>>, sources: set<Lineage>)
    requires Spread(parents, below, sources) && parents.Values != {}
    ensures Merge(parents.Values).forbidden <==> exists r :: r in sources && r.forbidden
  {
    hide IsEarliest, SourcesOf;
    if r :| r in sources && r.forbidden {
      var p :| p in parents && r in below[p];
      assert parents[p].forbidden;
    }
    if q :| q in parents.Values && q.forbidden {
      var p :| p in parents && parents[p] == q;
      var r :| r in below[p] && r.forbidden;
      assert r in sources;
    }
  }

  lemma MergeExpires(parents: map<nat, Lineage>, below: map<nat, set<Lineage>>, sources: set<Lineage>)
    requires Spread(parents, below, sources) && parents.Values != {}
    ensures IsEarliest(Merge(parents.Values).expiresAt, sources)
  {
    hide SourcesOf;
    var t := Merge(parents.Values).expiresAt;
    assert IsEarliest(t, parents.Values);
    forall r | r in sources ensures t <= r.expiresAt {
      var p :| p in parents && r in below[p];
      assert IsEarliest(parents[p].expiresAt, below[p]);
      assert parents[p] in parents.Values;
    }
    var q :| q in parents.Values && q.expiresAt == t;
    var p :| p in parents && parents[p] == q;
    assert IsEarliest(q.expiresAt, below[p]);
    var r :| r in below[p] && r.expiresAt == t;
    assert r in sources;
  }

  lemma DerivedIsClosed(ledger: seq<Dataset>, h: nat)
    requires h < |ledger| && Inherits(ledger, h) && !IsSource(ledger[h])
    requires forall p :: p in ledger[h].parents ==> Accumulates(ledger[p].lineage, SourceLineages(ledger, p))
    ensures Accumulates(ledger[h].lineage, SourceLineages(ledger, h))
  {
    hide Accumulates, SourceLineages, Merge, Lineages;
    var d := ledger[h];
    var lines := ParentLineages(ledger, h);
    var below := map p | p in d.parents :: SourceLineages(ledger, p);
    forall r ensures r in SourceLineages(ledger, h) <==> exists p :: p in lines && r in below[p] {
      SpreadOverParents(ledger, h, r);
      assert forall p :: p in d.parents ==> below[p] == SourceLineages(ledger, p);
    }
    var first :| first in d.parents;
    assert first in lines;
    MergeAccumulates(lines, below, SourceLineages(ledger, h));
    ParentValues(ledger, h);
  }

  ghost function ParentLineages(ledger: seq<Dataset>, h: nat): (r: map<nat, Lineage>)
    requires h < |ledger| && forall p :: p in ledger[h].parents ==> p < h
    ensures r.Keys == ledger[h].parents && forall p :: p in r ==> r[p] == ledger[p].lineage
  {
    map p | p in ledger[h].parents :: ledger[p].lineage
  }

  lemma ParentValues(ledger: seq<Dataset>, h: nat)
    requires h < |ledger| && forall p :: p in ledger[h].parents ==> p < h
    ensures ParentLineages(ledger, h).Values == Lineages(ledger[..h], ledger[h].parents)
  {
    var lines := ParentLineages(ledger, h);
    forall q ensures q in lines.Values <==> q in Lineages(ledger[..h], ledger[h].parents) {
      if q in Lineages(ledger[..h], ledger[h].parents) {
        var p :| p in ledger[h].parents && ledger[..h][p].lineage == q;
        assert lines[p] == q;
      }
    }
  }

  lemma SpreadOverParents(ledger: seq<Dataset>, h: nat, r: Lineage)
    requires h < |ledger| && Inherits(ledger, h) && !IsSource(ledger[h])
    ensures r in SourceLineages(ledger, h) <==> exists p :: p in ledger[h].parents && r in SourceLineages(ledger, p)
  {
    hide IsOrigin;
    var parents := ParentsOf(ledger);
    forall s: nat ensures IsOrigin(parents, h, s) <==> exists p :: p in parents[h] && IsOrigin(parents, p, s) {
      OriginsOfParents(parents, h, s);
    }
  }

  lemma {:induction false} LineageIsClosed(ledger: seq<Dataset>, h: nat)
    requires h < |ledger| && LineageOk(ledger)
    ensures Accumulates(ledger[h].lineage, SourceLineages(ledger, h))
    decreases h
  {
    hide Accumulates;
    assert Inherits(ledger, h);
    if IsSource(ledger[h]) {
      SourceIsClosed(ledger, h);
    } else {
      forall p | p in ledger[h].parents ensures Accumulates(ledger[p].lineage, SourceLineages(ledger, p)) {
        LineageIsClosed(ledger, p);
      }
      DerivedIsClosed(ledger, h);
    }
  }

  // Over runs

  lemma InheritsAppend(ledger: seq<Dataset>, d: Dataset)
    requires LineageOk(ledger)
    requires d.parents == {} ==> d.lineage.provenance.FromSource?
    requires d.parents != {} ==>
               (forall p :: p in d.parents ==> p < |ledger|)
               && d.lineage == Merge(Lineages(ledger, d.parents))
    ensures LineageOk(ledger + [d])
  {
    hide Merge, Lineages;
    var longer := ledger + [d];
    forall h | 0 <= h < |longer| ensures Inherits(longer, h) {
      if h < |ledger| {
        assert Inherits(ledger, h);
        assert longer[..h] == ledger[..h];
      } else {
        assert longer[..h] == ledger;
      }
    }
  }

  lemma {:induction false} ProduceAllInherits(stages: seq<Stage>, id: string, inputs: map<string, nat>, s: Run,
                                              made: seq<Made>)
    requires InLedger(s.ledger, inputs) && LineageOk(s.ledger)
    ensures LineageOk(ProduceAll(stages, id, inputs, s, made).0.ledger)
  {
    hide LineageOk, Merge, Refs;
    if made != [] {
      ProduceAllInherits(stages, id, inputs, s, made[..|made| - 1]);
      var before := ProduceAll(stages, id, inputs, s, made[..|made| - 1]);
      var after := Produce(stages, id, inputs, before.0, before.1, made[|made| - 1]);
      if after.0 != before.0 {
        assert after.0.ledger == before.0.ledger + [after.0.ledger[|before.0.ledger|]];
        InheritsAppend(before.0.ledger, after.0.ledger[|before.0.ledger|]);
      }
    }
  }

  lemma EmptyLedgerInherits()
    ensures LineageOk([])
  {
  }

  lemma {:induction false} BoundaryInherits(stages: seq<Stage>, outcomes: seq<Outcome>, i: nat)
    requires i <= |stages| && i <= |outcomes| && Boundary(stages, outcomes, i).Some?
    ensures LineageOk(Boundary(stages, outcomes, i).value.ledger)
  {
    hide LineageOk, ProduceAll, Resolves, ResolvedInputs, Released, Recorded;
    if i == 0 {
      EmptyLedgerInherits();
    } else {
      BoundaryInherits(stages, outcomes, i - 1);
      var s := Boundary(stages, outcomes, i - 1).value;
      ProduceAllInherits(stages, stages[i - 1].id, ResolvedInputs(stages[i - 1], s.outputs), s, outcomes[i - 1].made);
    }
  }

  /**
   * Every dataset of every run carries the provenance, the redistribution ban and the expiry of exactly
   * the source datasets reachable through stage inputs, though each merge saw its own parents only.
   */
  lemma LineageIsTheGlobalClosure(stages: seq<Stage>, outcomes: seq<Outcome>, i: nat, h: nat)
    requires i <= |stages| && i <= |outcomes| && Boundary(stages, outcomes, i).Some?
    requires h < |Boundary(stages, outcomes, i).value.ledger|
    ensures var ledger := Boundary(stages, outcomes, i).value.ledger;
            Accumulates(ledger[h].lineage, SourceLineages(ledger, h))
  {
    hide Accumulates, SourceLineages, LineageOk;
    BoundaryInherits(stages, outcomes, i);
    LineageIsClosed(Boundary(stages, outcomes, i).value.ledger, h);
  }
}
