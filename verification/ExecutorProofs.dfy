/** Consumer accounting and lineage over every run of a validated definition. */
module ExecutorProofs {
  import opened Wrappers
  import opened Pipelines
  import opened ExecutorModel

  // Facts about references

  lemma {:induction false} RefsSplit(stages: seq<Stage>, i: nat, name: string)
    requires i <= |stages|
    ensures Refs(stages, name) == Refs(stages[..i], name) + Refs(stages[i..], name)
  {
    if i == 0 {
      assert stages[0..] == stages && stages[..0] == [];
    } else {
      RefsSplit(stages[1..], i - 1, name);
      assert stages[..i][1..] == stages[1..][..i - 1];
      assert stages[1..][i - 1..] == stages[i..];
    }
  }

  lemma {:induction false} NoRefs(stages: seq<Stage>, name: string)
    requires forall j, p :: 0 <= j < |stages| && p in stages[j].inputs ==> stages[j].inputs[p] != name
    ensures Refs(stages, name) == 0
  {
    if stages != [] {
      NoRefs(stages[1..], name);
      assert (set p | p in stages[0].inputs && stages[0].inputs[p] == name) == {};
    }
  }

  /** In a validated definition a stage's outputs are referenced by later stages only. */
  lemma OnlyLaterStagesRefer(stages: seq<Stage>, catalog: Catalog, i: nat, port: string)
    requires StagesOk(stages, catalog) && i < |stages|
    ensures Refs(stages[..i + 1], Name(stages[i].id, port)) == 0
    ensures Refs(stages[i + 1..], Name(stages[i].id, port)) == Refs(stages, Name(stages[i].id, port))
  {
    var name := Name(stages[i].id, port);
    forall j, p | 0 <= j < i + 1 && p in stages[j].inputs ensures stages[..i + 1][j].inputs[p] != name {
      if stages[j].inputs[p] == name {
        EarlierReference(stages, catalog, j, p);
        ParseIsExact(name, stages[i].id, port);
        StageIdsDotFree(stages, catalog, i);
        var k :| 0 <= k < j && Parse(name).value.0 == stages[k].id;
        DistinctIds(stages, catalog, k, i);
        assert false;
      }
    }
    NoRefs(stages[..i + 1], name);
    RefsSplit(stages, i + 1, name);
  }

  lemma StageIdsDotFree(stages: seq<Stage>, catalog: Catalog, i: nat)
    requires StagesOk(stages, catalog) && i < |stages|
    ensures DotFree(stages[i].id) && stages[i].id != ""
  {
    assert StageOk(stages[..i], stages[i], catalog);
  }

  lemma DistinctIds(stages: seq<Stage>, catalog: Catalog, i: nat, j: nat)
    requires StagesOk(stages, catalog) && i < j < |stages|
    ensures stages[i].id != stages[j].id
  {
    assert StageOk(stages[..j], stages[j], catalog);
    assert stages[..j][i].id == stages[i].id;
  }

  /** A non-empty reference names an earlier stage. */
  lemma EarlierReference(stages: seq<Stage>, catalog: Catalog, j: nat, p: string)
    requires StagesOk(stages, catalog) && j < |stages| && p in stages[j].inputs && stages[j].inputs[p] != ""
    ensures Parse(stages[j].inputs[p]).Some?
    ensures exists k :: 0 <= k < j && Parse(stages[j].inputs[p]).value.0 == stages[k].id
                        && stages[k].uses in catalog
                        && Parse(stages[j].inputs[p]).value.1 in catalog[stages[k].uses].outputs
  {
    assert StageOk(stages[..j], stages[j], catalog);
    assert p in catalog[stages[j].uses].inputs;
    assert Offered(stages[..j], catalog, stages[j].inputs[p], catalog[stages[j].uses].inputs[p].shape);
  }

  // The accounting invariant

  function NameOf(d: Dataset): string
  {
    Name(d.producer, d.port)
  }

  /** Live ephemeral datasets are those still referenced by `ahead`, each counting exactly those references. */
  ghost predicate Counts(ahead: seq<Stage>, ledger: seq<Dataset>, remaining: map<nat, nat>)
  {
    && (forall h :: h in remaining ==> h < |ledger| && ledger[h].ephemeral)
    && (forall h :: 0 <= h < |ledger| && ledger[h].ephemeral ==>
          (h in remaining <==> Refs(ahead, NameOf(ledger[h])) > 0)
          && (h in remaining ==> remaining[h] == Refs(ahead, NameOf(ledger[h]))))
  }

  ghost predicate OutputsAgree(s: Run)
  {
    forall k :: k in s.outputs ==>
      s.outputs[k] < |s.ledger| && (s.ledger[s.outputs[k]].producer, s.ledger[s.outputs[k]].port) == k
  }

  predicate IsStage(stages: seq<Stage>, id: string)
  {
    exists j :: 0 <= j < |stages| && stages[j].id == id
  }

  /** Datasets come from `done` stages, one a port. */
  predicate Ledgered(done: seq<Stage>, ledger: seq<Dataset>)
  {
    && (forall h :: 0 <= h < |ledger| ==> IsStage(done, ledger[h].producer))
    && (forall g, h :: 0 <= g < h < |ledger| ==>
         ledger[g].producer != ledger[h].producer
         || ledger[g].port != ledger[h].port)
  }

  ghost predicate Inv(stages: seq<Stage>, i: nat, s: Run)
    requires i <= |stages|
  {
    Counts(stages[i..], s.ledger, s.remaining) && OutputsAgree(s) && Ledgered(stages[..i], s.ledger)
  }

  /** While stage `i` runs: its own datasets are those it finalized. */
  ghost predicate MidInv(stages: seq<Stage>, i: nat, s: Run, finalized: map<string, nat>)
    requires i < |stages|
  {
    && Counts(stages[i..], s.ledger, s.remaining) && OutputsAgree(s) && Ledgered(stages[..i + 1], s.ledger)
    && (forall p :: p in finalized ==>
          finalized[p] < |s.ledger| && s.ledger[finalized[p]].producer == stages[i].id
            && s.ledger[finalized[p]].port == p)
    && (forall h :: 0 <= h < |s.ledger| && s.ledger[h].producer == stages[i].id ==> s.ledger[h].port in finalized)
  }

  lemma StageBegins(stages: seq<Stage>, catalog: Catalog, i: nat, s: Run)
    requires StagesOk(stages, catalog) && i < |stages| && Inv(stages, i, s)
    ensures MidInv(stages, i, s, map[])
  {
    assert forall j :: 0 <= j < i ==> stages[..i + 1][j] == stages[..i][j];
    forall h | 0 <= h < |s.ledger|
      ensures s.ledger[h].producer != stages[i].id && IsStage(stages[..i + 1], s.ledger[h].producer)
    {
      var j :| 0 <= j < i && stages[..i][j].id == s.ledger[h].producer;
      assert stages[..i + 1][j].id == s.ledger[h].producer;
      DistinctIds(stages, catalog, j, i);
    }
  }

  lemma CountsAppend(ahead: seq<Stage>, ledger: seq<Dataset>, remaining: map<nat, nat>, d: Dataset)
    requires Counts(ahead, ledger, remaining)
    ensures !d.ephemeral ==> Counts(ahead, ledger + [d], remaining)
    ensures d.ephemeral && Refs(ahead, NameOf(d)) > 0 ==>
              Counts(ahead, ledger + [d], remaining[|ledger| := Refs(ahead, NameOf(d))])
  {
    hide Refs, NameOf;
  }

  lemma LedgeredAppend(done: seq<Stage>, ledger: seq<Dataset>, d: Dataset)
    requires Ledgered(done, ledger) && IsStage(done, d.producer)
    requires forall h :: 0 <= h < |ledger| && ledger[h].producer == d.producer ==> ledger[h].port != d.port
    ensures Ledgered(done, ledger + [d])
  {
  }

  lemma ProduceKeeps(stages: seq<Stage>, catalog: Catalog, i: nat, inputs: map<string, nat>, s: Run,
                     finalized: map<string, nat>, made: Made)
    requires StagesOk(stages, catalog) && i < |stages| && MidInv(stages, i, s, finalized) && InLedger(s.ledger, inputs)
    ensures var r := Produce(stages, stages[i].id, inputs, s, finalized, made);
            MidInv(stages, i, r.0, r.1)
  {
    hide Merge, Lineages, Refs, Counts, Ledgered, StagesOk;
    var r := Produce(stages, stages[i].id, inputs, s, finalized, made);
    if r.0 != s {
      var d := r.0.ledger[|s.ledger|];
      assert r.0.ledger == s.ledger + [d];
      assert d.producer == stages[i].id && d.port == made.port;
      assert stages[..i + 1][i].id == stages[i].id;
      CountsAppend(stages[i..], s.ledger, s.remaining, d);
      LedgeredAppend(stages[..i + 1], s.ledger, d);
      OnlyLaterStagesRefer(stages, catalog, i, made.port);
      RefsSplit(stages, i, Name(stages[i].id, made.port));
      RefsSplit(stages[..i + 1], i, Name(stages[i].id, made.port));
      assert stages[..i + 1][..i] == stages[..i];
    }
  }

  lemma {:induction false} ProduceAllKeeps(stages: seq<Stage>, catalog: Catalog, i: nat, inputs: map<string, nat>,
                                           s: Run, made: seq<Made>)
    requires StagesOk(stages, catalog) && i < |stages| && Inv(stages, i, s) && InLedger(s.ledger, inputs)
    ensures var r := ProduceAll(stages, stages[i].id, inputs, s, made);
            MidInv(stages, i, r.0, r.1)
  {
    hide MidInv, Inv, StagesOk;
    if made == [] {
      StageBegins(stages, catalog, i, s);
    } else {
      ProduceAllKeeps(stages, catalog, i, inputs, s, made[..|made| - 1]);
      var before := ProduceAll(stages, stages[i].id, inputs, s, made[..|made| - 1]);
      ProduceKeeps(stages, catalog, i, inputs, before.0, before.1, made[|made| - 1]);
    }
  }

  /** An input is dataset `h` exactly when its reference names the output `h` is. */
  lemma InputIsReference(stages: seq<Stage>, catalog: Catalog, i: nat, s: Run, h: nat, p: string)
    requires StagesOk(stages, catalog) && i < |stages| && h < |s.ledger|
    requires OutputsAgree(s) && Ledgered(stages[..i + 1], s.ledger) && Resolves(stages[i], s.outputs)
             && p in stages[i].inputs
    ensures ResolvedInputs(stages[i], s.outputs)[p] == h <==> stages[i].inputs[p] == NameOf(s.ledger[h])
  {
    hide StagesOk, Refs, Parse, Name;
    var reference, d := stages[i].inputs[p], s.ledger[h];
    var j :| 0 <= j < i + 1 && stages[..i + 1][j].id == d.producer;
    StageIdsDotFree(stages, catalog, j);
    var parsed := Parse(reference).value;
    ParseIsExact(reference, parsed.0, parsed.1);
    ParseIsExact(reference, d.producer, d.port);
    var g := s.outputs[parsed];
    if reference == NameOf(d) {
      assert parsed == (d.producer, d.port);
      assert s.ledger[g].producer == d.producer && s.ledger[g].port == d.port;
    }
  }

  /** A stage uses a dataset as often as it references the output the dataset is. */
  lemma UsesAreReferences(stages: seq<Stage>, catalog: Catalog, i: nat, s: Run, h: nat)
    requires StagesOk(stages, catalog) && i < |stages| && h < |s.ledger|
    requires OutputsAgree(s) && Ledgered(stages[..i + 1], s.ledger) && Resolves(stages[i], s.outputs)
    ensures Uses(ResolvedInputs(stages[i], s.outputs), h) == RefsIn(stages[i], NameOf(s.ledger[h]))
  {
    hide StagesOk, Ledgered, OutputsAgree, Parse, Name, NameOf;
    var inputs, name := ResolvedInputs(stages[i], s.outputs), NameOf(s.ledger[h]);
    forall p | p in stages[i].inputs ensures inputs[p] == h <==> stages[i].inputs[p] == name {
      InputIsReference(stages, catalog, i, s, h, p);
    }
    assert (set p | p in inputs && inputs[p] == h) == set p | p in stages[i].inputs && stages[i].inputs[p] == name;
  }

  lemma ReleaseCounts(stages: seq<Stage>, catalog: Catalog, i: nat, s: Run)
    requires StagesOk(stages, catalog) && i < |stages| && Counts(stages[i..], s.ledger, s.remaining)
    requires OutputsAgree(s) && Ledgered(stages[..i + 1], s.ledger) && Resolves(stages[i], s.outputs)
    ensures Counts(stages[i + 1..], s.ledger, Released(s.remaining, ResolvedInputs(stages[i], s.outputs)))
  {
    hide Ledgered, StagesOk, OutputsAgree, Resolves, Uses, RefsIn, NameOf;
    forall h | 0 <= h < |s.ledger|
      ensures Refs(stages[i..], NameOf(s.ledger[h])) ==
              Uses(ResolvedInputs(stages[i], s.outputs), h) + Refs(stages[i + 1..], NameOf(s.ledger[h]))
    {
      UsesAreReferences(stages, catalog, i, s, h);
      assert stages[i..][0] == stages[i] && stages[i..][1..] == stages[i + 1..];
    }
  }

  lemma StageStepKeepsInv(stages: seq<Stage>, catalog: Catalog, i: nat, s: Run, outcome: Outcome)
    requires StagesOk(stages, catalog) && i < |stages| && Inv(stages, i, s)
    requires StageStep(stages, stages[i], s, outcome).Some?
    ensures Inv(stages, i + 1, StageStep(stages, stages[i], s, outcome).value)
  {
    hide Counts, Ledgered, StagesOk, Resolves, Refs, Released;
    var inputs := ResolvedInputs(stages[i], s.outputs);
    var produced := ProduceAll(stages, stages[i].id, inputs, s, outcome.made);
    ProduceAllKeeps(stages, catalog, i, inputs, s, outcome.made);
    ReleaseCounts(stages, catalog, i, produced.0);
  }

  lemma NothingYet(stages: seq<Stage>)
    ensures Inv(stages, 0, Run([], map[], map[]))
  {
  }

  lemma {:induction false} BoundaryInv(stages: seq<Stage>, catalog: Catalog, outcomes: seq<Outcome>, i: nat)
    requires StagesOk(stages, catalog) && i <= |stages| && i <= |outcomes|
    requires Boundary(stages, outcomes, i).Some?
    ensures Inv(stages, i, Boundary(stages, outcomes, i).value)
  {
    hide Inv, StageStep, StagesOk;
    if i == 0 {
      NothingYet(stages);
    } else {
      BoundaryInv(stages, catalog, outcomes, i - 1);
      StageStepKeepsInv(stages, catalog, i - 1, Boundary(stages, outcomes, i - 1).value, outcomes[i - 1]);
    }
  }

  // Main results

  /**
   * At every stage boundary of a run of a validated definition an ephemeral dataset is live exactly when a
   * stage that has not finished references it, and then counts those references.
   */
  lemma ConsumersAreExact(d: Definition, catalog: Catalog, outcomes: seq<Outcome>, i: nat, h: nat)
    requires WellFormed(d, catalog) && i <= |d.stages| && i <= |outcomes|
    requires Boundary(d.stages, outcomes, i).Some?
    requires h < |Boundary(d.stages, outcomes, i).value.ledger|
             && Boundary(d.stages, outcomes, i).value.ledger[h].ephemeral
    ensures var s := Boundary(d.stages, outcomes, i).value;
            var pending := Refs(d.stages[i..], Name(s.ledger[h].producer, s.ledger[h].port));
            && (h in s.remaining <==> pending > 0)
            && (h in s.remaining ==> s.remaining[h] == pending)
  {
    BoundaryInv(d.stages, catalog, outcomes, i);
  }

  /** No ephemeral dataset survives a successful run. */
  lemma NoEphemeralSurvives(d: Definition, catalog: Catalog, outcomes: seq<Outcome>)
    requires WellFormed(d, catalog) && |outcomes| == |d.stages|
    requires Boundary(d.stages, outcomes, |d.stages|).Some?
    ensures Boundary(d.stages, outcomes, |d.stages|).value.remaining == map[]
  {
    var s := Boundary(d.stages, outcomes, |d.stages|).value;
    BoundaryInv(d.stages, catalog, outcomes, |d.stages|);
    assert d.stages[|d.stages|..] == [];
  }

  predicate IsLive(s: Run, h: nat)
  {
    h < |s.ledger| && (s.ledger[h].ephemeral ==> h in s.remaining)
  }

  /** A consumer finds every input registered until it ends, whatever it registers meanwhile, and never undercounts. */
  lemma InputsStayReadable(d: Definition, catalog: Catalog, outcomes: seq<Outcome>, i: nat, made: seq<Made>, p: string)
    requires WellFormed(d, catalog) && i < |d.stages| && i <= |outcomes|
    requires Boundary(d.stages, outcomes, i).Some?
    requires var s := Boundary(d.stages, outcomes, i).value;
             Resolves(d.stages[i], s.outputs) && p in d.stages[i].inputs
    ensures var s := Boundary(d.stages, outcomes, i).value;
            var inputs := ResolvedInputs(d.stages[i], s.outputs);
            && InLedger(s.ledger, inputs)
            && var mid := ProduceAll(d.stages, d.stages[i].id, inputs, s, made).0;
            && IsLive(s, inputs[p]) && IsLive(mid, inputs[p])
            && (mid.ledger[inputs[p]].ephemeral ==> Uses(inputs, inputs[p]) <= mid.remaining[inputs[p]])
  {
    hide *;
    StagesAreOk(d, catalog);
    BoundaryInv(d.stages, catalog, outcomes, i);
    InputsAreLive(d.stages, catalog, i, Boundary(d.stages, outcomes, i).value, made, p);
  }

  lemma StagesAreOk(d: Definition, catalog: Catalog)
    requires WellFormed(d, catalog)
    ensures StagesOk(d.stages, catalog)
  {
  }

  lemma InputsAreLive(stages: seq<Stage>, catalog: Catalog, i: nat, s: Run, made: seq<Made>, p: string)
    requires StagesOk(stages, catalog) && i < |stages| && Inv(stages, i, s)
    requires Resolves(stages[i], s.outputs) && p in stages[i].inputs
    ensures var inputs := ResolvedInputs(stages[i], s.outputs);
            && InLedger(s.ledger, inputs)
            && var mid := ProduceAll(stages, stages[i].id, inputs, s, made).0;
            && IsLive(s, inputs[p]) && IsLive(mid, inputs[p])
            && (mid.ledger[inputs[p]].ephemeral ==> Uses(inputs, inputs[p]) <= mid.remaining[inputs[p]])
  {
    hide StagesOk, Counts, Ledgered, ProduceAll, IsLive, Uses, Parse, Refs;
    var inputs := ResolvedInputs(stages[i], s.outputs);
    ProduceAllKeeps(stages, catalog, i, inputs, s, made);
    var mid := ProduceAll(stages, stages[i].id, inputs, s, made).0;
    LedgerGrows(stages[..i], stages[i], s.ledger);
    assert stages[..i] + [stages[i]] == stages[..i + 1];
    InputIsPending(stages, catalog, i, s, inputs[p], p);
    InputIsPending(stages, catalog, i, mid, inputs[p], p);
    LiveInLedger(s, inputs[p]);
    LiveInLedger(mid, inputs[p]);
  }

  lemma LiveInLedger(s: Run, h: nat)
    requires IsLive(s, h)
    ensures h < |s.ledger| && (s.ledger[h].ephemeral ==> h in s.remaining)
  {
  }

  lemma LedgerGrows(done: seq<Stage>, stage: Stage, ledger: seq<Dataset>)
    requires Ledgered(done, ledger)
    ensures Ledgered(done + [stage], ledger)
  {
    assert forall j :: 0 <= j < |done| ==> (done + [stage])[j] == done[j];
  }

  lemma InputIsPending(stages: seq<Stage>, catalog: Catalog, i: nat, s: Run, h: nat, p: string)
    requires StagesOk(stages, catalog) && i < |stages| && OutputsAgree(s) && Resolves(stages[i], s.outputs)
    requires Counts(stages[i..], s.ledger, s.remaining) && Ledgered(stages[..i + 1], s.ledger)
    requires p in stages[i].inputs && h == ResolvedInputs(stages[i], s.outputs)[p] && h < |s.ledger|
    ensures IsLive(s, h) && (s.ledger[h].ephemeral ==> Uses(ResolvedInputs(stages[i], s.outputs), h) <= s.remaining[h])
  {
    hide StagesOk, Ledgered, OutputsAgree, Parse, NameOf, Resolves, RefsIn;
    var inputs := ResolvedInputs(stages[i], s.outputs);
    UsesAreReferences(stages, catalog, i, s, h);
    assert stages[i..][0] == stages[i];
    UsedOnce(inputs, p, h);
  }

  lemma UsedOnce(inputs: map<string, nat>, p: string, h: nat)
    requires p in inputs && inputs[p] == h
    ensures Uses(inputs, h) > 0
  {
    var used := set q | q in inputs && inputs[q] == h;
    assert p in used;
    assert used == (used - {p}) + {p};
  }
}
