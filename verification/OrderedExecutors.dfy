/**
 * The preview run as the executor performs it: a registry and an output table updated stage by stage
 * (packages/executor/src/index.ts:72-181, 707-807, 1371-1599), proved equal to ExecutorModel.Boundary.
 */
module OrderedExecutors {
  import opened Wrappers
  import opened Pipelines
  import opened ExecutorModel

  function AsSet<T>(s: seq<T>): set<T>
  {
    set i | 0 <= i < |s| :: s[i]
  }

  /** The accumulation over the parents of a derived output. */
  method MergeLineage(parents: seq<Lineage>) returns (l: Lineage)
    requires parents != []
    ensures AsSet(parents) != {} && l == Merge(AsSet(parents))
  {
    var policies: set<string>, attributions: set<string>, sources: set<string> := {}, {}, {};
    var forbidden := false;
    var earliest := parents[0].expiresAt;
    for i := 0 to |parents|
      invariant policies == set q, x | q in AsSet(parents[..i]) && x in q.policies :: x
      invariant attributions == set q, x | q in AsSet(parents[..i]) && x in q.attributions :: x
      invariant sources == set q, x | q in AsSet(parents[..i]) && x in SourcesOf(q.provenance) :: x
      invariant forbidden <==> exists q :: q in AsSet(parents[..i]) && q.forbidden
      invariant i == 0 ==> earliest == parents[0].expiresAt
      invariant i > 0 ==> IsEarliest(earliest, AsSet(parents[..i]))
    {
      var parent := parents[i];
      AsSetStep(parents, i);
      policies := policies + parent.policies;
      attributions := attributions + parent.attributions;
      if parent.forbidden { forbidden := true; }
      if parent.expiresAt < earliest { earliest := parent.expiresAt; }
      sources := sources + SourcesOf(parent.provenance);
    }
    assert parents[..|parents|] == parents;
    assert parents[0] in AsSet(parents);
    OneEarliest(earliest, AsSet(parents));
    l := Lineage(earliest, forbidden, policies, attributions, Internal(sources));
  }

  lemma AsSetStep<T>(s: seq<T>, i: nat)
    requires i < |s|
    ensures AsSet(s[..i + 1]) == AsSet(s[..i]) + {s[i]}
  {
    var longer, shorter := s[..i + 1], s[..i];
    assert longer[i] == s[i];
    assert forall j :: 0 <= j < i ==> longer[j] == shorter[j];
  }

  lemma OneEarliest(t: int, parents: set<Lineage>)
    requires parents != {} && IsEarliest(t, parents)
    ensures t == Earliest(parents)
  {
    assert IsEarliest(Earliest(parents), parents);
  }

  /** finalizeSourceEphemeral's count of the references to an output. */
  method CountConsumers(stages: seq<Stage>, name: string) returns (count: nat)
    ensures count == Refs(stages, name)
  {
    count := 0;
    for i := 0 to |stages|
      invariant count + Refs(stages[i..], name) == Refs(stages, name)
    {
      assert stages[i..][0] == stages[i] && stages[i..][1..] == stages[i + 1..];
      count := count + |set p | p in stages[i].inputs && stages[i].inputs[p] == name|;
    }
  }

  class PreviewRun {
    var ledger: seq<Dataset>
    var remaining: map<nat, nat>
    var outputsByStage: map<(string, string), nat>

    ghost function View(): Run
      reads this
    {
      Run(ledger, remaining, outputsByStage)
    }

    ghost predicate Valid()
      reads this
    {
      Accounted(View()) && forall h :: h in remaining ==> remaining[h] > 0
    }

    constructor ()
      ensures View() == Run([], map[], map[]) && Valid()
    {
      ledger, remaining, outputsByStage := [], map[], map[];
    }

    method ResolveInputs(stage: Stage) returns (inputs: Option<map<string, nat>>)
      ensures inputs.Some? <==> Resolves(stage, outputsByStage)
      ensures inputs.Some? ==> inputs.value == ResolvedInputs(stage, outputsByStage)
    {
      hide Parse;
      var todo := stage.inputs.Keys;
      var found: map<string, nat> := map[];
      while todo != {}
        invariant todo <= stage.inputs.Keys
        invariant found.Keys == stage.inputs.Keys - todo
        invariant forall p :: p in found ==>
                    Parse(stage.inputs[p]).Some? && Parse(stage.inputs[p]).value in outputsByStage
                    && found[p] == outputsByStage[Parse(stage.inputs[p]).value]
      {
        var port :| port in todo;
        todo := todo - {port};
        var reference := Parse(stage.inputs[port]);
        if reference.None? || reference.value !in outputsByStage { return None; }
        found := found[port := outputsByStage[reference.value]];
      }
      inputs := Some(found);
    }

    /** One finalization by the stage's broker. */
    method Finalize(stages: seq<Stage>, id: string, inputs: map<string, nat>, finalized: map<string, nat>, made: Made)
      returns (finalized': map<string, nat>)
      requires Valid() && InLedger(ledger, inputs)
      modifies this`ledger, this`remaining
      ensures Valid() && InLedger(ledger, inputs) && |ledger| >= old(|ledger|)
      ensures (View(), finalized') == Produce(stages, id, inputs, old(View()), finalized, made)
      ensures forall p :: p in finalized' ==>
                finalized'[p] < |ledger|
                || (p in finalized && finalized'[p] == finalized[p])
    {
      finalized' := finalized;
      if made.port in finalized { return; }
      var h := |ledger|;
      match made
      case Source(port, ephemeral, expiresAt, forbidden, source) =>
        var consumers := CountConsumers(stages, Name(id, port));
        if ephemeral && consumers == 0 { return; }
        ledger := ledger + [Dataset(id, port, ephemeral, Lineage(expiresAt, forbidden, {}, {}, FromSource(source)),
                                    {})];
        if ephemeral { remaining := remaining[h := consumers]; }
        finalized' := finalized[port := h];
      case Derived(port) =>
        if inputs == map[] { return; }
        SomeValue(inputs);
        var parents := ParentLineages(inputs);
        var lineage := MergeLineage(parents);
        ledger := ledger + [Dataset(id, port, false, lineage, inputs.Values)];
        finalized' := finalized[port := h];
    }

    /** The lineages of all inputs, in some order. */
    method ParentLineages(inputs: map<string, nat>) returns (parents: seq<Lineage>)
      requires InLedger(ledger, inputs)
      ensures AsSet(parents) == Lineages(ledger, inputs.Values)
      ensures inputs != map[] ==> parents != []
    {
      parents := [];
      var todo := inputs.Values;
      while todo != {}
        invariant todo <= inputs.Values
        invariant AsSet(parents) == Lineages(ledger, inputs.Values - todo)
      {
        var h :| h in todo;
        LineagesStep(ledger, inputs.Values - todo, h);
        assert inputs.Values - (todo - {h}) == inputs.Values - todo + {h};
        todo := todo - {h};
        AsSetStep(parents + [ledger[h].lineage], |parents|);
        assert (parents + [ledger[h].lineage])[..|parents| + 1] == parents + [ledger[h].lineage];
        assert (parents + [ledger[h].lineage])[..|parents|] == parents;
        parents := parents + [ledger[h].lineage];
      }
      assert inputs.Values - todo == inputs.Values;
      if inputs != map[] {
        SomeValue(inputs);
        var h :| h in inputs.Values;
        assert ledger[h].lineage in AsSet(parents);
      }
    }

    /** releaseConsumed; `ok` is false when the consumer accounting underflows. */
    method ReleaseConsumed(inputs: map<string, nat>) returns (ok: bool)
      requires Valid()
      modifies this`remaining
      ensures ok && Valid()
      ensures remaining == Released(old(remaining), inputs)
    {
      hide Uses, Released, Without;
      ok := true;
      var todo := inputs.Keys;
      ghost var before := remaining;
      NothingReleased(before, inputs);
      while todo != {}
        invariant ok && todo <= inputs.Keys && Valid()
        invariant remaining == Released(before, Without(inputs, todo))
      {
        var port :| port in todo;
        var h := inputs[port];
        WithoutStep(inputs, todo, port);
        ReleaseStep(before, Without(inputs, todo), port, h);
        todo := todo - {port};
        if h !in remaining { continue; }
        remaining := remaining[h := remaining[h] - 1];
        if remaining[h] < 0 { ok := false; return; }
        if remaining[h] == 0 { remaining := remaining - {h}; }
      }
      WithoutNone(inputs);
    }

    /** The stage loop of `run`; a stage that fails ends the run, and ephemeral data never outlives it. */
    method RunStages(stages: seq<Stage>, outcomes: seq<Outcome>) returns (ok: bool)
      requires View() == Run([], map[], map[]) && |outcomes| == |stages|
      modifies this
      ensures ok <==> Boundary(stages, outcomes, |stages|).Some?
      ensures ok ==> ledger == Boundary(stages, outcomes, |stages|).value.ledger
                     && outputsByStage == Boundary(stages, outcomes, |stages|).value.outputs
      ensures remaining == map[]
    {
      ok := true;
      var i := 0;
      while i < |stages| && ok
        invariant i <= |stages| && Valid()
        invariant if ok then Boundary(stages, outcomes, i) == Some(View())
                  else i > 0 && Boundary(stages, outcomes, i).None?
      {
        ok := RunStage(stages, stages[i], outcomes[i]);
        i := i + 1;
      }
      NoneStaysNone(stages, outcomes, i);
      remaining := map[];
    }

    method RunStage(stages: seq<Stage>, stage: Stage, outcome: Outcome) returns (ok: bool)
      requires Valid()
      modifies this
      ensures Valid()
      ensures var next := StageStep(stages, stage, old(View()), outcome);
              ok == next.Some? && (ok ==> View() == next.value)
    {
      hide ProduceAll, Released, Resolves;
      var resolved := ResolveInputs(stage);
      if resolved.None? { return false; }
      var inputs := resolved.value;
      InputsAreRecorded(stage);
      var finalized := Invoke(stages, stage.id, inputs, outcome.made);
      if outcome.ok {
        outputsByStage := Recorded(outputsByStage, stage.id, finalized);
      }
      var released := ReleaseConsumed(inputs);
      ok := outcome.ok && released;
    }

    /** What a reference resolves to is in the ledger. */
    lemma InputsAreRecorded(stage: Stage)
      requires Valid() && Resolves(stage, outputsByStage)
      ensures InLedger(ledger, ResolvedInputs(stage, outputsByStage))
    {
      hide Parse;
    }

    /** The plugin runs, and its broker finalizes what it makes, in order. */
    method Invoke(stages: seq<Stage>, id: string, inputs: map<string, nat>, made: seq<Made>)
      returns (finalized: map<string, nat>)
      requires Valid() && InLedger(ledger, inputs)
      modifies this`ledger, this`remaining
      ensures Valid() && forall p :: p in finalized ==> finalized[p] < |ledger|
      ensures (View(), finalized) == ProduceAll(stages, id, inputs, old(View()), made)
    {
      hide Produce;
      finalized := map[];
      for i := 0 to |made|
        invariant Valid() && InLedger(ledger, inputs)
        invariant forall p :: p in finalized ==> finalized[p] < |ledger|
        invariant (View(), finalized) == ProduceAll(stages, id, inputs, old(View()), made[..i])
      {
        assert made[..i + 1][..i] == made[..i];
        finalized := Finalize(stages, id, inputs, finalized, made[i]);
      }
      assert made[..|made|] == made;
    }
  }

  function Without(inputs: map<string, nat>, todo: set<string>): map<string, nat>
  {
    inputs - todo
  }

  lemma WithoutStep(inputs: map<string, nat>, todo: set<string>, port: string)
    requires port in todo && port in inputs
    ensures port !in Without(inputs, todo)
    ensures Without(inputs, todo - {port}) == Without(inputs, todo)[port := inputs[port]]
  {
  }

  lemma WithoutNone(inputs: map<string, nat>)
    ensures Without(inputs, {}) == inputs
  {
  }

  lemma LineagesStep(ledger: seq<Dataset>, handles: set<nat>, h: nat)
    requires h < |ledger| && forall g :: g in handles ==> g < |ledger|
    ensures Lineages(ledger, handles + {h}) == Lineages(ledger, handles) + {ledger[h].lineage}
  {
  }

  lemma NothingReleased(remaining: map<nat, nat>, inputs: map<string, nat>)
    requires forall h :: h in remaining ==> remaining[h] > 0
    ensures remaining == Released(remaining, Without(inputs, inputs.Keys))
  {
    var none := Without(inputs, inputs.Keys);
    forall h ensures Uses(none, h) == 0 {
      assert (set p | p in none && none[p] == h) == {};
    }
  }

  lemma UsesStep(inputs: map<string, nat>, port: string, h: nat, g: nat)
    requires port !in inputs
    ensures Uses(inputs[port := h], g) == Uses(inputs, g) + if g == h then 1 else 0
  {
    var longer := inputs[port := h];
    var used := set p | p in inputs && inputs[p] == g;
    var more := set p | p in longer && longer[p] == g;
    assert more == if g == h then used + {port} else used;
  }

  /** One more use of `h` takes one consumer off it, and drops it at zero. */
  lemma ReleaseStep(remaining: map<nat, nat>, inputs: map<string, nat>, port: string, h: nat)
    requires port !in inputs
    ensures var before, after := Released(remaining, inputs), Released(remaining, inputs[port := h]);
            if h !in before then after == before
            else if before[h] == 1 then after == before - {h}
            else before[h] > 1 && after == before[h := before[h] - 1]
  {
    hide Uses;
    forall g ensures Uses(inputs[port := h], g) == Uses(inputs, g) + if g == h then 1 else 0 {
      UsesStep(inputs, port, h, g);
    }
  }

  lemma {:induction false} NoneStaysNone(stages: seq<Stage>, outcomes: seq<Outcome>, i: nat)
    requires i <= |stages| == |outcomes|
    ensures Boundary(stages, outcomes, i).None? ==> Boundary(stages, outcomes, |stages|).None?
    decreases |stages| - i
  {
    hide StageStep;
    if i < |stages| {
      NoneStaysNone(stages, outcomes, i + 1);
    }
  }
}
