/**
 * The dataset registry of a preview run and the ordered stage loop
 * (packages/executor/src/index.ts:72-181, 707-807, 1371-1599). A dataset is named by its place in the
 * ledger of everything the run registered: handles are never reused.
 */
module ExecutorModel {
  import opened Wrappers
  import opened Pipelines

  datatype Provenance = FromSource(id: string) | Internal(sources: set<string>)

  datatype Lineage = Lineage(expiresAt: int, forbidden: bool, policies: set<string>, attributions: set<string>,
                             provenance: Provenance)

  datatype Dataset = Dataset(producer: string, port: string, ephemeral: bool, lineage: Lineage, parents: set<nat>)

  /** `remaining` counts the consumers each live ephemeral dataset still waits for; artifacts stay for good. */
  datatype Run = Run(ledger: seq<Dataset>, remaining: map<nat, nat>, outputs: map<(string, string), nat>)

  // References to an output

  function RefsIn(stage: Stage, name: string): nat
  {
    |set p | p in stage.inputs && stage.inputs[p] == name|
  }

  function Refs(stages: seq<Stage>, name: string): nat
  {
    if stages == [] then 0 else RefsIn(stages[0], name) + Refs(stages[1..], name)
  }

  // Inputs

  predicate Resolves(stage: Stage, outputs: map<(string, string), nat>)
  {
    forall p :: p in stage.inputs ==> Parse(stage.inputs[p]).Some? && Parse(stage.inputs[p]).value in outputs
  }

  function ResolvedInputs(stage: Stage, outputs: map<(string, string), nat>): map<string, nat>
    requires Resolves(stage, outputs)
  {
    map p | p in stage.inputs :: outputs[Parse(stage.inputs[p]).value]
  }

  // Lineage

  function SourcesOf(provenance: Provenance): set<string>
  {
    match provenance
    case FromSource(id) => {id}
    case Internal(sources) => sources
  }

  ghost predicate IsEarliest(t: int, parents: set<Lineage>)
  {
    (forall q :: q in parents ==> t <= q.expiresAt) && exists q :: q in parents && q.expiresAt == t
  }

  lemma {:induction false} EarliestExists(parents: set<Lineage>)
    requires parents != {}
    ensures exists t :: IsEarliest(t, parents)
    decreases |parents|
  {
    var q :| q in parents;
    if parents == {q} {
      assert IsEarliest(q.expiresAt, parents);
    } else {
      var rest := parents - {q};
      assert parents == rest + {q};
      EarliestExists(rest);
      var t :| IsEarliest(t, rest);
      assert IsEarliest(if q.expiresAt < t then q.expiresAt else t, parents);
    }
  }

  ghost function Earliest(parents: set<Lineage>): (t: int)
    requires parents != {}
    ensures IsEarliest(t, parents)
  {
    EarliestExists(parents);
    var t :| IsEarliest(t, parents);
    t
  }

  /** What a derived dataset inherits from its parents. */
  ghost function Merge(parents: set<Lineage>): Lineage
    requires parents != {}
  {
    Lineage(
      Earliest(parents),
      exists q :: q in parents && q.forbidden,
      set q, x | q in parents && x in q.policies :: x,
      set q, x | q in parents && x in q.attributions :: x,
      Internal(set q, x | q in parents && x in SourcesOf(q.provenance) :: x))
  }

  // One stage

  /** What a plugin has its broker finalize: a source dataset, or a dataset derived from all stage inputs. */
  datatype Made =
    | Source(port: string, ephemeral: bool, expiresAt: int, forbidden: bool, id: string)
    | Derived(port: string)

  /** A stage's finalizations in order, and whether it then completed. */
  datatype Outcome = Outcome(made: seq<Made>, ok: bool)

  ghost function Lineages(ledger: seq<Dataset>, handles: set<nat>): (r: set<Lineage>)
    requires forall h :: h in handles ==> h < |ledger|
    ensures forall h :: h in handles ==> ledger[h].lineage in r
  {
    set h | h in handles :: ledger[h].lineage
  }

  ghost predicate InLedger(ledger: seq<Dataset>, inputs: map<string, nat>)
  {
    forall p :: p in inputs ==> inputs[p] < |ledger|
  }

  /** A finalization of the stage; the broker refuses a second one on a port and an ephemeral one nobody consumes. */
  ghost function Produce(stages: seq<Stage>, id: string, inputs: map<string, nat>, s: Run, finalized: map<string, nat>,
                         made: Made)
    : (r: (Run, map<string, nat>))
    requires InLedger(s.ledger, inputs)
    ensures s.ledger <= r.0.ledger && r.0.outputs == s.outputs
  {
    var h := |s.ledger|;
    if made.port in finalized then (s, finalized)
    else
      match made
      case Source(port, ephemeral, expiresAt, forbidden, source) =>
        var consumers := Refs(stages, Name(id, port));
        if ephemeral && consumers == 0 then (s, finalized)
        else
          var dataset := Dataset(id, port, ephemeral, Lineage(expiresAt, forbidden, {}, {}, FromSource(source)), {});
          (s.(ledger := s.ledger + [dataset], remaining := if ephemeral then s.remaining[h := consumers]
              else s.remaining),
           finalized[port := h])
      case Derived(port) =>
        if inputs == map[] then (s, finalized)
        else
          var parents := inputs.Values;
          SomeValue(inputs);
          var dataset := Dataset(id, port, false, Merge(Lineages(s.ledger, parents)), parents);
          (s.(ledger := s.ledger + [dataset]), finalized[port := h])
  }

  lemma SomeValue(inputs: map<string, nat>)
    requires inputs != map[]
    ensures exists h :: h in inputs.Values
  {
    var p :| p in inputs;
    assert inputs[p] in inputs.Values;
  }

  ghost function ProduceAll(stages: seq<Stage>, id: string, inputs: map<string, nat>, s: Run,
                            made: seq<Made>): (r: (Run, map<string, nat>))
    requires InLedger(s.ledger, inputs)
    ensures s.ledger <= r.0.ledger && r.0.outputs == s.outputs
  {
    if made == [] then (s, map[])
    else
      var before := ProduceAll(stages, id, inputs, s, made[..|made| - 1]);
      Produce(stages, id, inputs, before.0, before.1, made[|made| - 1])
  }

  function Uses(inputs: map<string, nat>, h: nat): nat
  {
    |set p | p in inputs && inputs[p] == h|
  }

  /** releaseConsumed: every use of an ephemeral input counts one consumer off; the last one drops it. */
  function Released(remaining: map<nat, nat>, inputs: map<string, nat>): map<nat, nat>
  {
    map h | h in remaining && remaining[h] > Uses(inputs, h) :: remaining[h] - Uses(inputs, h)
  }

  function Recorded(outputs: map<(string, string), nat>, id: string,
                    finalized: map<string, nat>): map<(string, string), nat>
  {
    outputs + map p | p in finalized :: (id, p) := finalized[p]
  }

  ghost predicate Accounted(s: Run)
  {
    forall k :: k in s.outputs ==> s.outputs[k] < |s.ledger|
  }

  /**
   * The run after one successful stage, or `None` when it fails: inputs missing, or the plugin, broker or result check.
   */
  ghost function StageStep(stages: seq<Stage>, stage: Stage, s: Run, outcome: Outcome): Option<Run>
  {
    if !Resolves(stage, s.outputs) || !InLedger(s.ledger, ResolvedInputs(stage, s.outputs)) || !outcome.ok then None
    else
      var inputs := ResolvedInputs(stage, s.outputs);
      var produced := ProduceAll(stages, stage.id, inputs, s, outcome.made);
      Some(Run(produced.0.ledger, Released(produced.0.remaining, inputs), Recorded(s.outputs, stage.id, produced.1)))
  }

  /** The run when its first `i` stages have succeeded; `outcomes` are what their plugins did. */
  ghost function Boundary(stages: seq<Stage>, outcomes: seq<Outcome>, i: nat): Option<Run>
    requires i <= |stages| && i <= |outcomes|
  {
    if i == 0 then Some(Run([], map[], map[]))
    else
      var before := Boundary(stages, outcomes, i - 1);
      if before.None? then None else StageStep(stages, stages[i - 1], before.value, outcomes[i - 1])
  }
}
