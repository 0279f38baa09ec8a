/**
 * Which validated definitions run to their end (packages/core/src/validation.ts:203-224,
 * packages/executor/src/index.ts:1426-1438, 1788-1792). Validation checks a reference against declared
 * ports; at run time it resolves against delivered ones. Two cases pass validation and never resolve: an
 * empty reference on an optional port, and a reference to an output its stage declares optional and omits.
 */
module ExecutorCompletion {
  import opened Wrappers
  import opened Pipelines
  import opened ExecutorModel
  import opened ExecutorProofs

  // What a stage delivers

  /** The broker accepts the finalization, if the port is still free. */
  predicate IsAccepted(stages: seq<Stage>, stage: Stage, made: Made)
  {
    match made
    case Source(port, ephemeral, _, _, _) => !ephemeral || Refs(stages, Name(stage.id, port)) > 0
    case Derived(_) => stage.inputs != map[]
  }

  function Delivered(stages: seq<Stage>, stage: Stage, made: seq<Made>): set<string>
  {
    set i | 0 <= i < |made| && IsAccepted(stages, stage, made[i]) :: made[i].port
  }

  /** A stage before the `i`-th delivered the output. */
  predicate IsDelivered(stages: seq<Stage>, outcomes: seq<Outcome>, i: nat, key: (string, string))
    requires i <= |stages| && i <= |outcomes|
  {
    exists k :: 0 <= k < i && stages[k].id == key.0 && key.1 in Delivered(stages, stages[k], outcomes[k].made)
  }

  lemma {:induction false} ProducedPorts(stages: seq<Stage>, stage: Stage, inputs: map<string, nat>, s: Run,
                                         made: seq<Made>)
    requires InLedger(s.ledger, inputs) && (inputs == map[] <==> stage.inputs == map[])
    ensures ProduceAll(stages, stage.id, inputs, s, made).1.Keys == Delivered(stages, stage, made)
  {
    if made == [] {
      NothingDelivered(stages, stage);
    } else {
      var rest, last := made[..|made| - 1], made[|made| - 1];
      hide Produce, Delivered, IsAccepted;
      ProducedPorts(stages, stage, inputs, s, rest);
      DeliveredStep(stages, stage, made);
      var before := ProduceAll(stages, stage.id, inputs, s, rest);
      ProducedPort(stages, stage, inputs, before.0, before.1, last);
    }
  }

  lemma NothingDelivered(stages: seq<Stage>, stage: Stage)
    ensures Delivered(stages, stage, []) == {}
  {
  }

  lemma DeliveredStep(stages: seq<Stage>, stage: Stage, made: seq<Made>)
    requires made != []
    ensures var last := made[|made| - 1];
            Delivered(stages, stage, made) ==
            Delivered(stages, stage, made[..|made| - 1]) + if IsAccepted(stages, stage, last) then {last.port} else {}
  {
    hide IsAccepted;
    var rest := made[..|made| - 1];
    assert forall i :: 0 <= i < |rest| ==> rest[i] == made[i];
  }

  lemma ProducedPort(stages: seq<Stage>, stage: Stage, inputs: map<string, nat>, s: Run, finalized: map<string, nat>,
                     made: Made)
    requires InLedger(s.ledger, inputs) && (inputs == map[] <==> stage.inputs == map[])
    ensures Produce(stages, stage.id, inputs, s, finalized, made).1.Keys ==
            finalized.Keys + if IsAccepted(stages, stage, made) then {made.port} else {}
  {
    hide Merge, Lineages, Refs;
  }

  lemma {:induction false} OutputsAreDelivered(stages: seq<Stage>, outcomes: seq<Outcome>, i: nat)
    requires i <= |stages| && i <= |outcomes| && Boundary(stages, outcomes, i).Some?
    ensures forall key :: key in Boundary(stages, outcomes, i).value.outputs <==> IsDelivered(stages, outcomes, i, key)
  {
    hide StageStep, Delivered;
    if i > 0 {
      OutputsAreDelivered(stages, outcomes, i - 1);
      StageDelivers(stages, stages[i - 1], Boundary(stages, outcomes, i - 1).value, outcomes[i - 1]);
      forall key ensures IsDelivered(stages, outcomes, i, key) <==>
                           IsDelivered(stages, outcomes, i - 1, key)
                           || (key.0 == stages[i - 1].id
                               && key.1 in Delivered(stages, stages[i - 1], outcomes[i - 1].made))
      {
        if key.0 == stages[i - 1].id && key.1 in Delivered(stages, stages[i - 1], outcomes[i - 1].made) {
          assert stages[i - 1].id == key.0;
        }
      }
    }
  }

  lemma {:induction false} StageDelivers(stages: seq<Stage>, stage: Stage, s: Run, outcome: Outcome)
    requires StageStep(stages, stage, s, outcome).Some?
    ensures forall key :: key in StageStep(stages, stage, s, outcome).value.outputs <==>
                            key in s.outputs || (key.0 == stage.id && key.1 in Delivered(stages, stage, outcome.made))
  {
    hide ProduceAll, Released, Delivered, Recorded, Resolves;
    var inputs := ResolvedInputs(stage, s.outputs);
    SameEmptiness(stage, s.outputs);
    ProducedPorts(stages, stage, inputs, s, outcome.made);
    RecordedKeys(s.outputs, stage.id, ProduceAll(stages, stage.id, inputs, s, outcome.made).1);
  }

  lemma {:induction false} SameEmptiness(stage: Stage, outputs: map<(string, string), nat>)
    requires Resolves(stage, outputs)
    ensures ResolvedInputs(stage, outputs) == map[] <==> stage.inputs == map[]
  {
    assert ResolvedInputs(stage, outputs).Keys == stage.inputs.Keys;
  }

  lemma {:induction false} RecordedKeys(outputs: map<(string, string), nat>, id: string, finalized: map<string, nat>)
    ensures forall key :: key in Recorded(outputs, id, finalized) <==>
              key in outputs || (key.0 == id && key.1 in finalized)
  {
    forall key
      ensures key in Recorded(outputs, id, finalized) <==> key in outputs || (key.0 == id && key.1 in finalized)
    {
      assert key == (key.0, key.1);
    }
  }

  // Exactly which runs reach their end

  /** Every reference of stage `j` names an output delivered before. */
  predicate InputsDelivered(stages: seq<Stage>, outcomes: seq<Outcome>, j: nat)
    requires j < |stages| && j <= |outcomes|
  {
    forall p :: p in stages[j].inputs ==>
      Parse(stages[j].inputs[p]).Some? && IsDelivered(stages, outcomes, j, Parse(stages[j].inputs[p]).value)
  }

  lemma {:induction false} CompletesTo(stages: seq<Stage>, catalog: Catalog, outcomes: seq<Outcome>, i: nat)
    requires StagesOk(stages, catalog) && i <= |stages| == |outcomes|
    ensures Boundary(stages, outcomes, i).Some? <==>
              forall j :: 0 <= j < i ==> outcomes[j].ok && InputsDelivered(stages, outcomes, j)
  {
    hide StagesOk, ProduceAll, Released, Recorded, IsDelivered, Parse;
    if i > 0 {
      CompletesTo(stages, catalog, outcomes, i - 1);
      if Boundary(stages, outcomes, i - 1).Some? {
        OutputsAreDelivered(stages, outcomes, i - 1);
        BoundaryInv(stages, catalog, outcomes, i - 1);
        var s := Boundary(stages, outcomes, i - 1).value;
        assert Resolves(stages[i - 1], s.outputs) <==> InputsDelivered(stages, outcomes, i - 1);
        if Resolves(stages[i - 1], s.outputs) {
          InputsInLedger(stages, i - 1, s);
        }
      }
    }
  }

  lemma {:induction false} InputsInLedger(stages: seq<Stage>, i: nat, s: Run)
    requires i < |stages| && Inv(stages, i, s) && Resolves(stages[i], s.outputs)
    ensures InLedger(s.ledger, ResolvedInputs(stages[i], s.outputs))
  {
  }

  /** The whole run succeeds exactly when every plugin does and every reference names an output delivered before. */
  lemma {:induction false} RunsCompleteExactly(stages: seq<Stage>, catalog: Catalog, outcomes: seq<Outcome>)
    requires StagesOk(stages, catalog) && |outcomes| == |stages|
    ensures Boundary(stages, outcomes, |stages|).Some? <==>
              forall j :: 0 <= j < |stages| ==> outcomes[j].ok && InputsDelivered(stages, outcomes, j)
  {
    CompletesTo(stages, catalog, outcomes, |stages|);
  }

  predicate HasEmptyReference(stage: Stage)
  {
    exists p :: p in stage.inputs && stage.inputs[p] == ""
  }

  /** The result check of a stage: no required output is omitted. */
  predicate Fulfils(stages: seq<Stage>, catalog: Catalog, stage: Stage, outcome: Outcome)
  {
    stage.uses in catalog ==>
      forall port :: port in catalog[stage.uses].outputs && catalog[stage.uses].outputs[port].required ==>
        port in Delivered(stages, stage, outcome.made)
  }

  /** Stage `k` declares the port optional and does not deliver it. */
  predicate Omits(stages: seq<Stage>, catalog: Catalog, outcomes: seq<Outcome>, k: nat, port: string)
    requires k < |stages| && k < |outcomes|
  {
    && stages[k].uses in catalog && port in catalog[stages[k].uses].outputs
    && !catalog[stages[k].uses].outputs[port].required
    && port !in Delivered(stages, stages[k], outcomes[k].made)
  }

  predicate RefersToOmitted(stages: seq<Stage>, catalog: Catalog, outcomes: seq<Outcome>, j: nat)
    requires j < |stages| && j <= |outcomes|
  {
    exists k, p :: 0 <= k < j && p in stages[j].inputs && Parse(stages[j].inputs[p]).Some?
                   && Parse(stages[j].inputs[p]).value.0 == stages[k].id
                   && Omits(stages, catalog, outcomes, k, Parse(stages[j].inputs[p]).value.1)
  }

  lemma {:induction false} OneReference(stages: seq<Stage>, catalog: Catalog, outcomes: seq<Outcome>, j: nat, p: string)
    requires StagesOk(stages, catalog) && j < |stages| == |outcomes| && p in stages[j].inputs
             && stages[j].inputs[p] != ""
    requires forall k :: 0 <= k < |stages| ==> Fulfils(stages, catalog, stages[k], outcomes[k])
    ensures Parse(stages[j].inputs[p]).Some?
    ensures IsDelivered(stages, outcomes, j, Parse(stages[j].inputs[p]).value) <==>
              !exists k :: 0 <= k < j && Parse(stages[j].inputs[p]).value.0 == stages[k].id
                           && Omits(stages, catalog, outcomes, k, Parse(stages[j].inputs[p]).value.1)
  {
    hide Parse, StagesOk, Delivered;
    EarlierReference(stages, catalog, j, p);
    var key := Parse(stages[j].inputs[p]).value;
    var k :| 0 <= k < j && key.0 == stages[k].id && stages[k].uses in catalog
      && key.1 in catalog[stages[k].uses].outputs;
    forall m | 0 <= m < j && stages[m].id == key.0 ensures m == k {
      if m < k { DistinctIds(stages, catalog, m, k); } else if k < m { DistinctIds(stages, catalog, k, m); }
    }
    assert Fulfils(stages, catalog, stages[k], outcomes[k]);
  }

  /**
   * When every plugin succeeds and delivers its required outputs, a validated definition runs to its end if
   * and only if no stage has an empty reference or refers to an optional output that was omitted.
   */
  lemma {:induction false} ValidatedRunsComplete(d: Definition, catalog: Catalog, outcomes: seq<Outcome>)
    requires WellFormed(d, catalog) && |outcomes| == |d.stages|
    requires forall j :: 0 <= j < |d.stages| ==> outcomes[j].ok && Fulfils(d.stages, catalog, d.stages[j], outcomes[j])
    ensures Boundary(d.stages, outcomes, |d.stages|).Some? <==>
              forall j :: 0 <= j < |d.stages| ==>
                !HasEmptyReference(d.stages[j])
                && !RefersToOmitted(d.stages, catalog, outcomes, j)
  {
    hide Boundary, StagesOk, SinksOk, Fulfils, Parse, Omits, IsDelivered;
    RunsCompleteExactly(d.stages, catalog, outcomes);
    forall j | 0 <= j < |d.stages|
      ensures InputsDelivered(d.stages, outcomes, j) <==>
                !HasEmptyReference(d.stages[j]) && !RefersToOmitted(d.stages, catalog, outcomes, j)
    {
      NoEmptyReference();
      forall p | p in d.stages[j].inputs && d.stages[j].inputs[p] != ""
        ensures Parse(d.stages[j].inputs[p]).Some?
        ensures IsDelivered(d.stages, outcomes, j, Parse(d.stages[j].inputs[p]).value) <==>
                  !exists k :: 0 <= k < j && Parse(d.stages[j].inputs[p]).value.0 == d.stages[k].id
                               && Omits(d.stages, catalog, outcomes, k, Parse(d.stages[j].inputs[p]).value.1)
      {
        OneReference(d.stages, catalog, outcomes, j, p);
      }
    }
  }

  // The same before the run

  /** A reference names an output its stage declares optional. */
  predicate RefersToOptional(stages: seq<Stage>, catalog: Catalog, j: nat)
    requires j < |stages|
  {
    exists k, p :: 0 <= k < j && p in stages[j].inputs && Parse(stages[j].inputs[p]).Some?
                   && Parse(stages[j].inputs[p]).value.0 == stages[k].id
                   && IsOptional(catalog, stages[k], Parse(stages[j].inputs[p]).value.1)
  }

  predicate IsOptional(catalog: Catalog, stage: Stage, port: string)
  {
    stage.uses in catalog && port in catalog[stage.uses].outputs && !catalog[stage.uses].outputs[port].required
  }

  /** Every plugin succeeds and delivers what it must. */
  predicate AllDeliver(stages: seq<Stage>, catalog: Catalog, outcomes: seq<Outcome>)
  {
    |outcomes| == |stages| && forall j :: 0 <= j < |stages| ==>
        outcomes[j].ok && Fulfils(stages, catalog, stages[j], outcomes[j])
  }

  function RequiredPorts(catalog: Catalog, stage: Stage): set<string>
  {
    if stage.uses !in catalog then {}
    else set port | port in catalog[stage.uses].outputs && catalog[stage.uses].outputs[port].required
  }

  /** A plugin can deliver any set of ports: derived datasets where it has inputs, stored source datasets where not. */
  lemma {:induction false} CanDeliver(stages: seq<Stage>, stage: Stage, ports: set<string>) returns (made: seq<Made>)
    ensures Delivered(stages, stage, made) == ports
    decreases ports
  {
    made := [];
    if ports != {} {
      var port :| port in ports;
      var rest := CanDeliver(stages, stage, ports - {port});
      var last := if stage.inputs != map[] then Derived(port) else Source(port, false, 0, false, "");
      made := rest + [last];
      assert made[|rest|] == last && IsAccepted(stages, stage, last);
      assert forall i :: 0 <= i < |rest| ==> made[i] == rest[i];
      assert Delivered(stages, stage, made) == Delivered(stages, stage, rest) + {port};
    }
  }

  /** The run in which the first `n` plugins deliver what they must and nothing more. */
  lemma {:induction false} BareRun(stages: seq<Stage>, catalog: Catalog, n: nat) returns (outcomes: seq<Outcome>)
    requires n <= |stages|
    ensures |outcomes| == n
    ensures forall j :: 0 <= j < n ==>
              outcomes[j].ok && Delivered(stages, stages[j], outcomes[j].made) == RequiredPorts(catalog, stages[j])
  {
    outcomes := [];
    if n > 0 {
      outcomes := BareRun(stages, catalog, n - 1);
      var made := CanDeliver(stages, stages[n - 1], RequiredPorts(catalog, stages[n - 1]));
      outcomes := outcomes + [Outcome(made, true)];
    }
  }

  /** In that run an optional output is always omitted. */
  lemma {:induction false} BareRunStops(d: Definition, catalog: Catalog, j: nat)
    requires WellFormed(d, catalog) && j < |d.stages|
    requires HasEmptyReference(d.stages[j]) || RefersToOptional(d.stages, catalog, j)
    ensures exists outcomes :: AllDeliver(d.stages, catalog, outcomes) && Boundary(d.stages, outcomes, |d.stages|).None?
  {
    hide Boundary, StagesOk, SinksOk, Parse, Delivered, HasEmptyReference;
    var outcomes := BareRun(d.stages, catalog, |d.stages|);
    assert AllDeliver(d.stages, catalog, outcomes);
    ValidatedRunsComplete(d, catalog, outcomes);
    if RefersToOptional(d.stages, catalog, j) {
      assert RefersToOmitted(d.stages, catalog, outcomes, j);
    }
  }

  /**
   * What can be checked before any run: a validated definition runs to its end whatever its plugins deliver,
   * as long as they succeed and deliver their required outputs, if and only if no reference is empty and none
   * names an optional output.
   */
  lemma {:induction false} ValidatedDefinitionsComplete(d: Definition, catalog: Catalog)
    requires WellFormed(d, catalog)
    ensures (forall outcomes :: AllDeliver(d.stages, catalog, outcomes) ==>
             Boundary(d.stages, outcomes, |d.stages|).Some?) <==>
              forall j :: 0 <= j < |d.stages| ==>
                !HasEmptyReference(d.stages[j])
                && !RefersToOptional(d.stages, catalog, j)
  {
    hide Boundary, WellFormed, HasEmptyReference, RefersToOptional, RefersToOmitted, Fulfils;
    forall j | 0 <= j < |d.stages| && (HasEmptyReference(d.stages[j]) || RefersToOptional(d.stages, catalog, j))
      ensures exists outcomes ::
                AllDeliver(d.stages, catalog, outcomes)
                && Boundary(d.stages, outcomes, |d.stages|).None?
    {
      BareRunStops(d, catalog, j);
    }
    forall outcomes | AllDeliver(d.stages, catalog, outcomes)
      ensures (forall j :: 0 <= j < |d.stages| ==>
               !HasEmptyReference(d.stages[j]) && !RefersToOptional(d.stages, catalog, j)) ==>
                Boundary(d.stages, outcomes, |d.stages|).Some?
    {
      ValidatedRunsComplete(d, catalog, outcomes);
      forall j | 0 <= j < |d.stages| && RefersToOmitted(d.stages, catalog, outcomes, j)
        ensures RefersToOptional(d.stages, catalog, j)
      {
        OmittedIsOptional(d.stages, catalog, outcomes, j);
      }
    }
  }

  lemma OmittedIsOptional(stages: seq<Stage>, catalog: Catalog, outcomes: seq<Outcome>, j: nat)
    requires j < |stages| && j <= |outcomes| && RefersToOmitted(stages, catalog, outcomes, j)
    ensures RefersToOptional(stages, catalog, j)
  {
    hide Parse, Delivered;
  }

  /** Whatever the plugins do, a definition with an empty reference never runs to its end. */
  lemma {:induction false} EmptyReferenceStops(stages: seq<Stage>, catalog: Catalog, outcomes: seq<Outcome>, j: nat)
    requires StagesOk(stages, catalog) && j < |stages| == |outcomes| && HasEmptyReference(stages[j])
    ensures Boundary(stages, outcomes, |stages|).None?
  {
    hide Boundary, StagesOk, Parse, IsDelivered;
    NoEmptyReference();
    RunsCompleteExactly(stages, catalog, outcomes);
    assert !InputsDelivered(stages, outcomes, j);
  }

  /** The first case exists: one sink stage whose optional input is the empty string has no issue and never runs. */
  lemma {:induction false} EmptyReferenceValidates() returns (d: Definition, catalog: Catalog)
    ensures WellFormed(d, catalog)
    ensures forall outcomes: seq<Outcome> :: |outcomes| == |d.stages| ==> Boundary(d.stages, outcomes, |d.stages|).None?
  {
    hide Boundary, StagesOk, SinksOk, HasEmptyReference;
    var stage := Stage("a", "p", map["in" := ""], true);
    catalog := map["p" := Plugin(map["in" := Input(false, "x")], map[], true, true)];
    d := Definition([stage], ["a"], [], true);
    OneStageIsOk(stage, catalog);
    OneSinkIsOk(d, catalog, stage);
    EmptyInput(stage);
    forall outcomes: seq<Outcome> | |outcomes| == |d.stages| ensures Boundary(d.stages, outcomes, |d.stages|).None? {
      EmptyReferenceStops(d.stages, catalog, outcomes, 0);
    }
  }

  lemma EmptyInput(stage: Stage)
    requires stage == Stage("a", "p", map["in" := ""], true)
    ensures HasEmptyReference(stage)
  {
    assert stage.inputs["in"] == "";
  }

  lemma OneStageIsOk(stage: Stage, catalog: Catalog)
    requires stage == Stage("a", "p", map["in" := ""], true)
    requires catalog == map["p" := Plugin(map["in" := Input(false, "x")], map[], true, true)]
    ensures StagesOk([stage], catalog)
  {
    assert [stage][..0] == [];
    assert StageOk([], stage, catalog);
  }

  lemma OneSinkIsOk(d: Definition, catalog: Catalog, stage: Stage)
    requires stage == Stage("a", "p", map["in" := ""], true)
    requires catalog == map["p" := Plugin(map["in" := Input(false, "x")], map[], true, true)]
    requires d == Definition([stage], ["a"], [], true) && StagesOk(d.stages, catalog)
    ensures SinksOk(d, catalog)
  {
    hide StagesOk, Parse;
    NoEmptyReference();
    assert d.stages[0] == stage;
    assert IsTerminal(d.stages, "a");
  }

  /**
   * The second case exists: a sink reads an output its producer declares optional. The definition has no
   * issue, and when the producer succeeds without delivering it, as it may, the run fails.
   */
  lemma {:induction false} OmittedOutputStops() returns (d: Definition, catalog: Catalog, outcomes: seq<Outcome>)
    ensures WellFormed(d, catalog) && |outcomes| == |d.stages|
    ensures forall j :: 0 <= j < |d.stages| ==> outcomes[j].ok && Fulfils(d.stages, catalog, d.stages[j], outcomes[j])
    ensures Boundary(d.stages, outcomes, |d.stages|).None?
  {
    catalog := map["p" := Plugin(map[], map["out" := Output(false, "x")], true, false),
                   "q" := Plugin(map["in" := Input(true, "x")], map[], true, true)];
    var first, second := Stage("a", "p", map[], true), Stage("b", "q", map["in" := "a.out"], true);
    d := Definition([first, second], ["b"], [], true);
    outcomes := [Outcome([], true), Outcome([], true)];
    ParseIsExact("a.out", "a", "out");
    SmallDefinition(d, catalog, first, second);
    OptionalOmitted(d.stages, catalog, outcomes);
    RunsCompleteExactly(d.stages, catalog, outcomes);
    hide Boundary, WellFormed;
  }

  lemma {:induction false} OptionalOmitted(stages: seq<Stage>, catalog: Catalog, outcomes: seq<Outcome>)
    requires outcomes == [Outcome([], true), Outcome([], true)] && |stages| == 2 && "in" in stages[1].inputs
    requires forall plugin, port :: plugin in catalog && port in catalog[plugin].outputs ==>
               !catalog[plugin].outputs[port].required
    ensures !InputsDelivered(stages, outcomes, 1)
    ensures forall j :: 0 <= j < 2 ==> outcomes[j].ok && Fulfils(stages, catalog, stages[j], outcomes[j])
  {
    hide Parse;
    assert forall stage, made: seq<Made> :: made == [] ==> Delivered(stages, stage, made) == {};
  }

  lemma {:induction false} SmallDefinition(d: Definition, catalog: Catalog, first: Stage, second: Stage)
    requires catalog == map["p" := Plugin(map[], map["out" := Output(false, "x")], true, false),
                            "q" := Plugin(map["in" := Input(true, "x")], map[], true, true)]
    requires first == Stage("a", "p", map[], true) && second == Stage("b", "q", map["in" := "a.out"], true)
    requires d == Definition([first, second], ["b"], [], true) && Parse("a.out") == Some(("a", "out"))
    ensures WellFormed(d, catalog)
  {
    hide Parse;
    var stages := d.stages;
    assert stages[..0] == [] && stages[..1] == [first] && stages[0] == first && stages[1] == second;
    assert StageOk([], first, catalog);
    assert Offered([first], catalog, "a.out", "x") by { assert [first][0] == first; }
    assert StageOk([first], second, catalog);
    assert !IsConsumed(stages, "b");
    assert IsConsumed(stages, "a") by { assert "in" in stages[1].inputs; }
    assert IsTerminal(stages, "b");
  }
}
