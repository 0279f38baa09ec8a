/**
 * Pipeline definitions and their validation (packages/core/src/validation.ts:168-523): the rules the
 * ordered executor relies on. Stages run in list order; a reference `stage.port` must name an
 * output port of an earlier stage.
 */
module Pipelines {
  import opened Wrappers
  import opened Sequences

  // References

  predicate DotFree(s: string)
  {
    forall i :: 0 <= i < |s| ==> s[i] != '.'
  }

  function FirstDot(s: string, from: nat): (k: nat)
    requires from <= |s|
    ensures from <= k <= |s|
    ensures DotFree(s[from..k])
    ensures k < |s| ==> s[k] == '.'
    decreases |s| - from
  {
    if from == |s| || s[from] == '.' then from else FirstDot(s, from + 1)
  }

  lemma {:induction false} FirstDotIs(s: string, from: nat, k: nat)
    requires from <= k <= |s| && DotFree(s[from..k]) && (k < |s| ==> s[k] == '.')
    ensures FirstDot(s, from) == k
    decreases k - from
  {
    if from < k {
      assert s[from] == s[from..k][0];
      assert s[from + 1..k] == s[from..k][1..];
      FirstDotIs(s, from + 1, k);
    }
  }

  /** `reference.split(".")` with exactly two non-empty parts. */
  function Parse(reference: string): Option<(string, string)>
  {
    var k := FirstDot(reference, 0);
    if k == 0 || k >= |reference| - 1 then None
    else if FirstDot(reference, k + 1) < |reference| then None
    else Some((reference[..k], reference[k + 1..]))
  }

  function Name(stage: string, port: string): string
  {
    stage + "." + port
  }

  /** Parsing is exact: the parts are the only way to write the reference as `stage.port` with a dotless stage. */
  lemma ParseIsExact(reference: string, stage: string, port: string)
    ensures Parse(reference) == Some((stage, port)) <==>
              reference == Name(stage, port) && stage != "" && port != "" && DotFree(stage) && DotFree(port)
    ensures Parse(reference).Some? && reference == Name(stage, port) && DotFree(stage) ==>
              Parse(reference) == Some((stage, port))
  {
    if reference == Name(stage, port) && DotFree(stage) {
      assert reference[0..|stage|] == stage && reference[..|stage|] == stage && reference[|stage| + 1..] == port;
      FirstDotIs(reference, 0, |stage|);
      if DotFree(port) {
        assert reference[|stage| + 1..|reference|] == port;
        FirstDotIs(reference, |stage| + 1, |reference|);
      }
    }
    var k := FirstDot(reference, 0);
    if Parse(reference) == Some((stage, port)) {
      assert reference == stage + [reference[k]] + port;
      assert reference[0..k] == stage;
      assert reference[k + 1..|reference|] == port;
    }
  }

  // Definitions

  /** `shape` stands for schema, cardinality, partitioning, ordering and artifact policy of a port. */
  datatype Input = Input(required: bool, shape: string)

  datatype Output = Output(required: bool, shape: string)

  datatype Plugin = Plugin(
    inputs: map<string, Input>,
    outputs: map<string, Output>,
    verifiedReceipts: bool,
    writes: bool)                        // declares an evidence, review, canonical or public write

  /** `sound` is the outcome of the stage's remaining field checks (effects, source bindings, resources). */
  datatype Stage = Stage(id: string, uses: string, inputs: map<string, string>, sound: bool)

  /** `sound` is the outcome of the field checks on the definition itself and on the catalog. */
  datatype Definition = Definition(stages: seq<Stage>, requiredSinks: seq<string>, optionalSinks: seq<string>,
                                   sound: bool)

  type Catalog = map<string, Plugin>

  predicate IsStageId(s: string)
  {
    && s != "" && 'a' <= s[0] <= 'z'
    && forall i :: 0 <= i < |s| ==> 'a' <= s[i] <= 'z' || '0' <= s[i] <= '9' || s[i] == '-'
  }

  // What a definition without issues looks like

  /** Some stage of `stages` offers the output `reference` names, in the wanted shape. */
  ghost predicate Offered(stages: seq<Stage>, catalog: Catalog, reference: string, shape: string)
  {
    Parse(reference).Some? &&
    exists j ::
      && 0 <= j < |stages| && stages[j].id == Parse(reference).value.0
      && stages[j].uses in catalog
      && Parse(reference).value.1 in catalog[stages[j].uses].outputs
      && catalog[stages[j].uses].outputs[Parse(reference).value.1].shape == shape
  }

  ghost predicate StageOk(before: seq<Stage>, stage: Stage, catalog: Catalog)
  {
    && IsStageId(stage.id)
    && (forall j :: 0 <= j < |before| ==> before[j].id != stage.id)
    && stage.uses in catalog
    && stage.sound
    && stage.inputs.Keys <= catalog[stage.uses].inputs.Keys
    && (forall p :: p in catalog[stage.uses].inputs ==>
          if p in stage.inputs && stage.inputs[p] != "" then
            Offered(before, catalog, stage.inputs[p], catalog[stage.uses].inputs[p].shape)
          else !catalog[stage.uses].inputs[p].required)
  }

  ghost predicate StagesOk(stages: seq<Stage>, catalog: Catalog)
  {
    forall i :: 0 <= i < |stages| ==> StageOk(stages[..i], stages[i], catalog)
  }

  /** Another stage takes an input from `id`. */
  ghost predicate IsConsumed(stages: seq<Stage>, id: string)
  {
    exists i, p :: 0 <= i < |stages| && p in stages[i].inputs
                   && Parse(stages[i].inputs[p]).Some? && Parse(stages[i].inputs[p]).value.0 == id
  }

  ghost predicate IsTerminal(stages: seq<Stage>, id: string)
  {
    (exists i :: 0 <= i < |stages| && stages[i].id == id) && !IsConsumed(stages, id)
  }

  ghost predicate SinksOk(d: Definition, catalog: Catalog)
    requires StagesOk(d.stages, catalog)
  {
    && Distinct(d.requiredSinks) && Distinct(d.optionalSinks) && d.requiredSinks != []
    && (forall s :: s in d.requiredSinks || s in d.optionalSinks ==> IsTerminal(d.stages, s))
    && (forall i :: 0 <= i < |d.stages| && d.stages[i].id in d.requiredSinks ==>
        catalog[d.stages[i].uses].verifiedReceipts)
    && (forall s :: s in d.requiredSinks ==> s !in d.optionalSinks)
    && (forall i :: 0 <= i < |d.stages| && catalog[d.stages[i].uses].writes && !IsConsumed(d.stages, d.stages[i].id) ==>
          d.stages[i].id in d.requiredSinks || d.stages[i].id in d.optionalSinks)
  }

  ghost predicate WellFormed(d: Definition, catalog: Catalog)
  {
    d.sound && d.stages != [] && StagesOk(d.stages, catalog) && SinksOk(d, catalog)
  }

  // The validator

  datatype Issue = Issue(path: string, message: string)

  /** The reference check against the plugins of the stages already seen. */
  predicate InputOk(seen: map<string, Plugin>, stage: Stage, plugin: Plugin, port: string)
    requires port in plugin.inputs
  {
    if port in stage.inputs && stage.inputs[port] != "" then
      var reference := Parse(stage.inputs[port]);
      && reference.Some? && reference.value.0 in seen
      && reference.value.1 in seen[reference.value.0].outputs
      && seen[reference.value.0].outputs[reference.value.1].shape == plugin.inputs[port].shape
    else !plugin.inputs[port].required
  }

  /** The producers the declared inputs of a stage name. */
  function Producers(seen: map<string, Plugin>, stage: Stage, ports: set<string>): set<string>
  {
    set p | p in ports && p in stage.inputs && Parse(stage.inputs[p]).Some? && Parse(stage.inputs[p]).value.0 in seen
      :: Parse(stage.inputs[p]).value.0
  }

  method CheckInputs(path: string, stage: Stage, plugin: Plugin, seen: map<string, Plugin>, consumed: set<string>)
    returns (issues: seq<Issue>, consumed': set<string>)
    ensures issues == [] <==>
              stage.inputs.Keys <= plugin.inputs.Keys && forall p :: p in plugin.inputs ==>
                  InputOk(seen, stage, plugin, p)
    ensures consumed' == consumed + Producers(seen, stage, plugin.inputs.Keys)
  {
    hide Parse, Producers;
    issues, consumed' := [], consumed;
    var todo := plugin.inputs.Keys;
    NoProducers(seen, stage);
    assert plugin.inputs.Keys - todo == {};
    while todo != {}
      invariant todo <= plugin.inputs.Keys
      invariant issues == [] <==> forall p :: p in plugin.inputs.Keys - todo ==> InputOk(seen, stage, plugin, p)
      invariant consumed' == consumed + Producers(seen, stage, plugin.inputs.Keys - todo)
    {
      var port :| port in todo;
      ghost var before := plugin.inputs.Keys - todo;
      todo := todo - {port};
      assert plugin.inputs.Keys - todo == before + {port};
      ProducersStep(seen, stage, before, port);
      if port !in stage.inputs || stage.inputs[port] == "" {
        if plugin.inputs[port].required { issues := issues + [Issue(path + ".inputs." + port, "is required")]; }
        continue;
      }
      var reference := Parse(stage.inputs[port]);
      if reference.None? || reference.value.0 !in seen {
        issues := issues + [Issue(path + ".inputs." + port, "must reference an earlier stage output")];
        continue;
      }
      consumed' := consumed' + {reference.value.0};
      var producer := seen[reference.value.0];
      if reference.value.1 !in producer.outputs {
        issues := issues + [Issue(path + ".inputs." + port, "references an unknown output port")];
      } else if plugin.inputs[port].shape != producer.outputs[reference.value.1].shape {
        issues := issues + [Issue(path + ".inputs." + port,
                                  "is not schema/cardinality/partition/order/artifact compatible")];
      }
    }
    assert plugin.inputs.Keys - todo == plugin.inputs.Keys;
    if !(stage.inputs.Keys <= plugin.inputs.Keys) {
      issues := issues + [Issue(path + ".inputs", "is not declared by the plugin")];
    }
  }

  lemma NoProducers(seen: map<string, Plugin>, stage: Stage)
    ensures Producers(seen, stage, {}) == {}
  {
  }

  /** One more port adds the producer it names, unless it is absent, empty or names no stage seen before. */
  lemma ProducersStep(seen: map<string, Plugin>, stage: Stage, ports: set<string>, port: string)
    ensures Producers(seen, stage, ports + {port}) == Producers(seen, stage, ports) +
              if port in stage.inputs && stage.inputs[port] != "" && Parse(stage.inputs[port]).Some?
                 && Parse(stage.inputs[port]).value.0 in seen
              then {Parse(stage.inputs[port]).value.0} else {}
  {
    NoEmptyReference();
    hide Parse;
  }

  lemma NoEmptyReference()
    ensures Parse("").None?
  {
  }

  /** `seen` holds exactly the plugins of `stages`, under their ids. */
  ghost predicate Sees(seen: map<string, Plugin>, stages: seq<Stage>, catalog: Catalog)
  {
    && (forall j :: 0 <= j < |stages| ==>
          stages[j].uses in catalog && stages[j].id in seen && seen[stages[j].id] == catalog[stages[j].uses])
    && (forall id :: id in seen ==> exists j :: 0 <= j < |stages| && stages[j].id == id)
  }

  lemma InputsOffered(seen: map<string, Plugin>, stages: seq<Stage>, catalog: Catalog, stage: Stage, plugin: Plugin,
                      port: string)
    requires Sees(seen, stages, catalog) && port in plugin.inputs
    ensures InputOk(seen, stage, plugin, port) <==>
              if port in stage.inputs && stage.inputs[port] != "" then
                Offered(stages, catalog, stage.inputs[port], plugin.inputs[port].shape)
              else !plugin.inputs[port].required
  {
  }

  lemma ConsumedBefore(stages: seq<Stage>, stage: Stage, id: string)
    ensures IsConsumed(stages + [stage], id) <==>
              IsConsumed(stages, id) || exists p ::
                p in stage.inputs && Parse(stage.inputs[p]).Some?
                && Parse(stage.inputs[p]).value.0 == id
  {
    var all := stages + [stage];
    if p :| p in stage.inputs && Parse(stage.inputs[p]).Some? && Parse(stage.inputs[p]).value.0 == id {
      assert all[|stages|] == stage && p in all[|stages|].inputs;
    }
    if IsConsumed(stages, id) {
      var i, p :| 0 <= i < |stages| && p in stages[i].inputs && Parse(stages[i].inputs[p]).Some?
        && Parse(stages[i].inputs[p]).value.0 == id;
      assert all[i] == stages[i];
    }
  }

  /** The stage loop. */
  method CheckStages(d: Definition, catalog: Catalog)
    returns (issues: seq<Issue>, seen: map<string, Plugin>, consumed: set<string>)
    ensures issues == [] <==> StagesOk(d.stages, catalog)
    ensures issues == [] ==> Sees(seen, d.stages, catalog) && forall id :: id in consumed <==> IsConsumed(d.stages, id)
  {
    hide StagesOk, StageOk, Sees, IsConsumed, Producers, InputOk;
    issues, seen, consumed := [], map[], {};
    NothingSeen(d.stages[..0], catalog);
    for i := 0 to |d.stages|
      invariant issues == [] <==> StagesOk(d.stages[..i], catalog)
      invariant issues == [] ==> Sees(seen, d.stages[..i], catalog)
      invariant issues == [] ==> forall id :: id in consumed <==> IsConsumed(d.stages[..i], id)
    {
      var stage := d.stages[i];
      ghost var before := d.stages[..i];
      ghost var ok, seen0, consumed0 := issues == [], seen, consumed;
      assert d.stages[..i + 1] == before + [stage];
      StagesOkStep(before, stage, catalog);
      if !IsStageId(stage.id) { issues := issues + [Issue("id", "has an invalid stage ID")]; }
      if stage.id in seen { issues := issues + [Issue("id", "must be unique")]; }
      if stage.uses !in catalog {
        NotLocked(before, stage, catalog);
        issues := issues + [Issue("uses", "is not in the plugin lock")];
        continue;
      }
      var plugin := catalog[stage.uses];
      var more;
      more, consumed := CheckInputs("stages", stage, plugin, seen, consumed);
      issues := issues + more;
      if !stage.sound { issues := issues + [Issue("stage", "has another issue")]; }
      seen := seen[stage.id := plugin];
      if ok {
        StageAgrees(seen0, before, stage, catalog);
        if issues == [] {
          SeesStep(seen0, before, stage, catalog);
          ConsumedStep(seen0, before, stage, catalog, consumed0);
        }
      }
    }
    assert d.stages[..|d.stages|] == d.stages;
  }

  lemma NothingSeen(none: seq<Stage>, catalog: Catalog)
    requires none == []
    ensures StagesOk(none, catalog) && Sees(map[], none, catalog) && forall id :: !IsConsumed(none, id)
  {
  }

  lemma NotLocked(before: seq<Stage>, stage: Stage, catalog: Catalog)
    requires stage.uses !in catalog
    ensures !StageOk(before, stage, catalog)
  {
  }

  /** What the loop checks of one stage is what the stages before it demand. */
  lemma StageAgrees(seen: map<string, Plugin>, before: seq<Stage>, stage: Stage, catalog: Catalog)
    requires Sees(seen, before, catalog) && stage.uses in catalog
    ensures StageOk(before, stage, catalog) <==>
              && IsStageId(stage.id) && stage.id !in seen && stage.sound
              && stage.inputs.Keys <= catalog[stage.uses].inputs.Keys
              && forall p :: p in catalog[stage.uses].inputs ==> InputOk(seen, stage, catalog[stage.uses], p)
  {
    hide IsStageId, InputOk, Offered;
    forall p | p in catalog[stage.uses].inputs {
      InputsOffered(seen, before, catalog, stage, catalog[stage.uses], p);
    }
  }

  lemma StagesOkStep(before: seq<Stage>, stage: Stage, catalog: Catalog)
    ensures StagesOk(before + [stage], catalog) <==> StagesOk(before, catalog) && StageOk(before, stage, catalog)
  {
    var all := before + [stage];
    assert forall i :: 0 <= i < |before| ==> all[..i] == before[..i] && all[i] == before[i];
    assert all[..|before|] == before && all[|before|] == stage;
  }

  lemma SeesStep(seen: map<string, Plugin>, before: seq<Stage>, stage: Stage, catalog: Catalog)
    requires Sees(seen, before, catalog) && StageOk(before, stage, catalog)
    ensures Sees(seen[stage.id := catalog[stage.uses]], before + [stage], catalog)
  {
    var all := before + [stage];
    assert all[|before|] == stage;
    assert forall j :: 0 <= j < |before| ==> all[j] == before[j];
  }

  lemma ProducersAreConsumed(seen: map<string, Plugin>, before: seq<Stage>, stage: Stage, catalog: Catalog, id: string)
    requires Sees(seen, before, catalog) && StageOk(before, stage, catalog)
    ensures id in Producers(seen, stage, catalog[stage.uses].inputs.Keys) <==>
              exists p :: p in stage.inputs && Parse(stage.inputs[p]).Some? && Parse(stage.inputs[p]).value.0 == id
  {
    NoEmptyReference();
    hide Parse;
  }

  lemma ConsumedStep(seen: map<string, Plugin>, before: seq<Stage>, stage: Stage, catalog: Catalog,
                     consumed: set<string>)
    requires Sees(seen, before, catalog) && StageOk(before, stage, catalog)
    requires forall id :: id in consumed <==> IsConsumed(before, id)
    ensures forall id :: id in consumed + Producers(seen, stage, catalog[stage.uses].inputs.Keys) <==>
                           IsConsumed(before + [stage], id)
  {
    hide Sees, IsConsumed, Producers, Parse;
    forall id
      ensures id in consumed + Producers(seen, stage, catalog[stage.uses].inputs.Keys) <==>
                IsConsumed(before + [stage], id)
    {
      ConsumedBefore(before, stage, id);
      ProducersAreConsumed(seen, before, stage, catalog, id);
    }
  }

  method HasDuplicates(list: seq<string>) returns (duplicates: bool)
    ensures duplicates <==> !Distinct(list)
  {
    var found: set<string> := {};
    duplicates := false;
    for i := 0 to |list|
      invariant found == set j | 0 <= j < i :: list[j]
      invariant duplicates <==> !Distinct(list[..i])
    {
      assert list[..i + 1] == list[..i] + [list[i]];
      if list[i] in found {
        var j :| 0 <= j < i && list[j] == list[i];
        assert list[..i + 1][j] == list[..i + 1][i];
        duplicates := true;
      } else {
        DistinctStep(list, i);
      }
      found := found + {list[i]};
    }
    assert list[..|list|] == list;
  }

  lemma DistinctStep(list: seq<string>, i: nat)
    requires i < |list| && forall j :: 0 <= j < i ==> list[j] != list[i]
    ensures Distinct(list[..i + 1]) <==> Distinct(list[..i])
  {
    var longer, shorter := list[..i + 1], list[..i];
    assert forall j :: 0 <= j < i ==> longer[j] == list[j] == shorter[j];
    assert longer[i] == list[i];
  }

  /** What the sink loop checks for one list. */
  predicate SinkOk(seen: map<string, Plugin>, consumed: set<string>, sink: string, isRequired: bool)
  {
    sink in seen && sink !in consumed && (isRequired ==> seen[sink].verifiedReceipts)
  }

  method CheckSinks(path: string, sinks: seq<string>, isRequired: bool, seen: map<string, Plugin>,
                    consumed: set<string>)
    returns (issues: seq<Issue>)
    ensures issues == [] <==> forall s :: s in sinks ==> SinkOk(seen, consumed, s, isRequired)
  {
    issues := [];
    for i := 0 to |sinks|
      invariant issues == [] <==> forall j :: 0 <= j < i ==> SinkOk(seen, consumed, sinks[j], isRequired)
    {
      if sinks[i] !in seen {
        issues := issues + [Issue(path, "must name a stage")];
        continue;
      }
      if sinks[i] in consumed { issues := issues + [Issue(path, "must name a terminal stage")]; }
      if isRequired && !seen[sinks[i]].verifiedReceipts {
        issues := issues + [Issue(path, "required sinks must declare verified receipts")];
      }
    }
  }

  method CheckWriters(seen: map<string, Plugin>, consumed: set<string>, required: seq<string>, optional: seq<string>)
    returns (issues: seq<Issue>)
    ensures issues == [] <==>
              forall id :: id in seen && id !in consumed && seen[id].writes ==> id in required || id in optional
  {
    issues := [];
    var todo := seen.Keys;
    while todo != {}
      invariant todo <= seen.Keys
      invariant issues == [] <==>
                  forall id :: id in seen.Keys - todo && id !in consumed && seen[id].writes ==>
                      id in required || id in optional
    {
      var id :| id in todo;
      todo := todo - {id};
      if id !in consumed && seen[id].writes && id !in required && id !in optional {
        issues := issues + [Issue("requiredSinks", "terminal write stage must be required or optional")];
      }
    }
  }

  /** A definition has no issues exactly when its stages form a well-typed order and its sinks close it. */
  method ValidateDefinition(d: Definition, catalog: Catalog) returns (issues: seq<Issue>)
    ensures issues == [] <==> WellFormed(d, catalog)
  {
    hide StagesOk, Sees, SinkOk, SinksOk, Distinct, IsConsumed;
    issues := if d.sound then [] else [Issue("definition", "has another issue")];
    if d.stages == [] { issues := issues + [Issue("stages", "must not be empty")]; }
    var more, seen, consumed := CheckStages(d, catalog);
    ghost var stagesOk := more == [];
    issues := issues + more;
    var duplicates := HasDuplicates(d.requiredSinks);
    if duplicates { issues := issues + [Issue("requiredSinks", "must not contain duplicates")]; }
    duplicates := HasDuplicates(d.optionalSinks);
    if duplicates { issues := issues + [Issue("optionalSinks", "must not contain duplicates")]; }
    if d.requiredSinks == [] { issues := issues + [Issue("requiredSinks", "must not be empty")]; }
    var required := CheckSinks("requiredSinks", d.requiredSinks, true, seen, consumed);
    var optional := CheckSinks("optionalSinks", d.optionalSinks, false, seen, consumed);
    issues := issues + required + optional;
    if exists s :: s in d.requiredSinks && s in d.optionalSinks {
      issues := issues + [Issue("optionalSinks", "cannot be both required and optional")];
    }
    var writers := CheckWriters(seen, consumed, d.requiredSinks, d.optionalSinks);
    issues := issues + writers;
    if stagesOk {
      SinksAgree(d, catalog, seen, consumed);
    }
  }

  lemma SinksAgree(d: Definition, catalog: Catalog, seen: map<string, Plugin>, consumed: set<string>)
    requires StagesOk(d.stages, catalog) && Sees(seen, d.stages, catalog)
    requires forall id :: id in consumed <==> IsConsumed(d.stages, id)
    ensures SinksOk(d, catalog) <==>
              && Distinct(d.requiredSinks) && Distinct(d.optionalSinks) && d.requiredSinks != []
              && (forall s :: s in d.requiredSinks ==> SinkOk(seen, consumed, s, true))
              && (forall s :: s in d.optionalSinks ==> SinkOk(seen, consumed, s, false))
              && (forall s :: s in d.requiredSinks ==> s !in d.optionalSinks)
              && (forall id :: id in seen && id !in consumed && seen[id].writes ==>
                    id in d.requiredSinks || id in d.optionalSinks)
  {
    hide IsConsumed, StageOk, Distinct;
    forall i | 0 <= i < |d.stages| ensures d.stages[i].uses in catalog {
      assert StageOk(d.stages[..i], d.stages[i], catalog);
      UsesCatalog(d.stages[..i], d.stages[i], catalog);
    }
  }

  lemma UsesCatalog(before: seq<Stage>, stage: Stage, catalog: Catalog)
    requires StageOk(before, stage, catalog)
    ensures stage.uses in catalog
  {
  }
}
