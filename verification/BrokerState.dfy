/**
 * The stage broker of the preview executor as a state machine
 * (packages/executor/src/index.ts, PreviewStageBroker).
 *
 * Every operation is cut at its awaits: a call runs to its first await, the store or reader answers
 * later, and a settled operation is resumed later still, with other operations in between. Answers of
 * the store, the reader and the host validators are parameters of the steps.
 */
module BrokerState {
  import opened Wrappers
  import opened Sequences

  type Port = string

  datatype EffectKey = EffectKey(effectClass: string, resourceUri: string, operation: string)

  datatype Effect = Effect(effectClass: string, resourceUri: string, operations: set<string>, maxRecords: nat)

  /** The stage and its plugin manifest, frozen when the broker is built. */
  datatype Config = Config(
    forbidden: map<Port, bool>,          // declared output ports; true when persistence is forbidden
    effects: seq<Effect>,                // requestedEffects, which are also the grants
    maxArtifactBytes: nat,
    isSource: bool,
    hasInputs: bool,
    consumers: Port -> nat,              // declared references to an output port
    permits: EffectKey -> bool)          // the remaining preview authorization checks

  datatype Status = Open | Finalizing | Finalized | Failed

  datatype Acquisition = Acquisition(key: EffectKey, recordCount: nat, status: Status)

  datatype Staged = Staged(storeId: nat, port: Port, bytes: nat, records: nat, source: Option<nat>, status: Status)

  /** Where an unfinished operation waits; `Settled` ones have yet to leave `#track`. */
  datatype Op =
    | Reading(key: EffectKey, maxRecords: nat)
    | Staging(port: Port, source: Option<nat>, maxBytes: nat)
    | Dropping(storeId: nat)
    | Committing(handle: nat)
    | Using
    | Settled(ok: bool)

  datatype Closing = NotClosing | Draining | Discarding(todo: set<nat>) | Closed

  datatype State = State(
    closed: bool, aborted: bool, staging: bool,
    artifactBytes: nat,
    claimed: set<Port>,
    finalized: map<Port, string>,
    counts: map<EffectKey, nat>,
    acquisitions: map<nat, Acquisition>,
    staged: map<nat, Staged>,
    ops: map<nat, Op>,                   // activeOperations is its size
    closing: Closing,
    unawaited: bool,                     // operations were still active when close was called
    nextId: nat,                         // source of fresh handles
    registry: set<string>,               // dataset handles of the run
    store: set<nat>,                     // staged artifacts of this broker that the store still holds
    refused: set<nat>)                   // staged artifacts the store failed to discard

  function Initial(registry: set<string>): State
  {
    State(false, false, false, 0, {}, map[], map[], map[], map[], map[], NotClosing, false, 0, registry, {}, {})
  }

  predicate IsOpen(s: State)
  {
    !s.closed && !s.aborted
  }

  // #authorize

  function FindGrant(effects: seq<Effect>, key: EffectKey): Option<Effect>
  {
    if effects == [] then None
    else if effects[0].effectClass == key.effectClass && effects[0].resourceUri == key.resourceUri
            && key.operation in effects[0].operations then Some(effects[0])
    else FindGrant(effects[1..], key)
  }

  function Count(s: State, key: EffectKey): nat
  {
    if key in s.counts then s.counts[key] else 0
  }

  predicate Authorizes(c: Config, s: State, key: EffectKey, records: nat)
  {
    && IsOpen(s)
    && FindGrant(c.effects, key).Some?
    && Count(s, key) + records <= FindGrant(c.effects, key).value.maxRecords
    && c.permits(key)
  }

  function Charge(s: State, key: EffectKey, records: nat): (r: State)
    ensures r == s.(counts := r.counts)
  {
    s.(counts := s.counts[key := Count(s, key) + records])
  }

  /** requestEffect and commitState: an authorization and nothing else. */
  function RequestEffect(c: Config, s: State, key: EffectKey, records: nat): (r: (State, bool))
    ensures !IsOpen(s) ==> r == (s, false)
    ensures r.0 == s.(counts := r.0.counts)
  {
    if Authorizes(c, s, key, records) then (Charge(s, key, records), true) else (s, false)
  }

  // #track

  function Begin(s: State, op: Op): State
  {
    s.(ops := s.ops[s.nextId := op], nextId := s.nextId + 1)
  }

  predicate Begins(s: State, t: State, op: Op)
  {
    t.ops == s.ops[s.nextId := op]
  }

  function Settle(s: State, id: nat, ok: bool): State
  {
    s.(ops := s.ops[id := Settled(ok)])
  }

  /** The operation leaves `#track`; its caller sees success only when the broker is still open. */
  function Resume(s: State, id: nat): (r: (State, bool))
    requires id in s.ops && s.ops[id].Settled?
    ensures r.0 == s.(ops := r.0.ops) && r.0.ops.Keys <= s.ops.Keys
  {
    (s.(ops := s.ops - {id}), s.ops[id].ok && IsOpen(s))
  }

  // acquire

  function AcquireCall(c: Config, s: State, key: EffectKey, hasReader: bool): (r: (State, bool))
    ensures !IsOpen(s) ==> r == (s, false)
    ensures r.0 == s.(counts := r.0.counts, ops := r.0.ops, nextId := r.0.nextId)
    ensures || r.0.ops == s.ops || Begins(s, r.0, Settled(false))
            || (&& FindGrant(c.effects, key).Some?
                && Begins(s, r.0, Reading(key, FindGrant(c.effects, key).value.maxRecords))
                && Count(r.0, key) == Count(s, key) + FindGrant(c.effects, key).value.maxRecords)
    ensures s.nextId <= r.0.nextId
  {
    if !IsOpen(s) then (s, false)
    else
      var declaration := FindGrant(c.effects, key);
      if declaration.None? || !Authorizes(c, s, key, declaration.value.maxRecords) then (Begin(s, Settled(false)), true)
      else
        var charged := Charge(s, key, declaration.value.maxRecords);
        if !c.isSource || !hasReader then (Begin(charged, Settled(false)), true)
        else (Begin(charged, Reading(key, declaration.value.maxRecords)), true)
  }

  /** `records` is `None` when the reader rejects; `attested` covers the snapshot checks. */
  function ReaderAnswers(s: State, id: nat, records: Option<nat>, attested: bool): (r: State)
    requires id in s.ops && s.ops[id].Reading?
    ensures r == s.(acquisitions := r.acquisitions, ops := r.ops, nextId := r.nextId)
    ensures r.ops.Keys == s.ops.Keys
    ensures s.nextId <= r.nextId
  {
    if records.None? || !IsOpen(s) || records.value > s.ops[id].maxRecords || !attested then Settle(s, id, false)
    else
      var entry := Acquisition(s.ops[id].key, records.value, Open);
      Settle(s.(acquisitions := s.acquisitions[s.nextId := entry], nextId := s.nextId + 1), id, true)
  }

  // Reading datasets

  function UseCall(s: State): (r: (State, bool))
    ensures !IsOpen(s) ==> r == (s, false)
    ensures r.0 == s.(ops := r.0.ops, nextId := r.0.nextId)
    ensures r.0.ops == s.ops || Begins(s, r.0, Using)
    ensures s.nextId <= r.0.nextId
  {
    if !IsOpen(s) then (s, false) else (Begin(s, Using), true)
  }

  function UseAnswers(s: State, id: nat, ok: bool): (r: State)
    requires id in s.ops && s.ops[id].Using?
    ensures r == s.(ops := r.ops)
    ensures r.ops.Keys == s.ops.Keys
  {
    Settle(s, id, ok)
  }

  // Staging

  predicate Claimable(c: Config, s: State, port: Port)
  {
    port in c.forbidden && port !in s.claimed
  }

  function Claim(s: State, port: Port): State
  {
    s.(claimed := s.claimed + {port})
  }

  /** What is left of the stage's byte reservation. */
  function Remaining(c: Config, s: State): nat
  {
    if c.maxArtifactBytes >= s.artifactBytes then c.maxArtifactBytes - s.artifactBytes else 0
  }

  /** stageSourceArtifact (`source` is an acquisition) and stageDerivedJson (`None`). */
  function StageCall(c: Config, s: State, port: Port, source: Option<nat>, bound: bool, valid: bool): (r: (State, bool))
    ensures !IsOpen(s) ==> r == (s, false)
    ensures r.0 == s.(claimed := r.0.claimed, staging := r.0.staging, ops := r.0.ops, nextId := r.0.nextId)
    ensures s.claimed <= r.0.claimed
    ensures || r.0.ops == s.ops
            || (Begins(s, r.0, Staging(port, source, Remaining(c, s))) && port !in s.claimed && port in r.0.claimed)
    ensures s.nextId <= r.0.nextId
  {
    if !IsOpen(s) then (s, false)
    else if source.Some? && (source.value !in s.acquisitions || s.acquisitions[source.value].status != Open
                             || !bound) then (s, false)
    else if source.None? && (c.isSource || !c.hasInputs) then (s, false)
    else if s.staging || !Claimable(c, s, port) then (s, false)
    else if !valid then (Claim(s, port), false)
    else
      (Begin(Claim(s, port).(staging := true), Staging(port, source, Remaining(c, s))), true)
  }

  datatype StoredArtifact = StoredArtifact(storeId: nat, bytes: nat, records: nat)

  /** The store never stages more bytes than it was allowed, and names artifacts freshly. */
  predicate StoreMayStage(s: State, id: nat, answer: Option<StoredArtifact>)
    requires id in s.ops && s.ops[id].Staging?
  {
    answer.Some? ==> answer.value.bytes <= s.ops[id].maxBytes && answer.value.storeId == s.nextId
  }

  function StageAnswers(s: State, id: nat, answer: Option<StoredArtifact>): (r: State)
    requires id in s.ops && s.ops[id].Staging?
    ensures r == s.(staging := r.staging, artifactBytes := r.artifactBytes, staged := r.staged,
                   ops := r.ops, store := r.store, nextId := r.nextId)
    ensures r.ops.Keys == s.ops.Keys
    ensures s.nextId <= r.nextId
  {
    if answer.None? then s.(staging := false, ops := s.ops[id := Settled(false)])
    else
      var held := s.store + {answer.value.storeId};
      if !IsOpen(s) then
        s.(store := held, nextId := s.nextId + 1, ops := s.ops[id := Dropping(answer.value.storeId)])
      else
        var entry := Staged(answer.value.storeId, s.ops[id].port, answer.value.bytes, answer.value.records,
                            s.ops[id].source, Open);
        s.(store := held, staging := false, artifactBytes := s.artifactBytes + answer.value.bytes,
           staged := s.staged[s.nextId + 1 := entry], nextId := s.nextId + 2, ops := s.ops[id := Settled(true)])
  }

  /** The discard of an artifact that came back after the broker closed or aborted. */
  function DropAnswers(s: State, id: nat, ok: bool): (r: State)
    requires id in s.ops && s.ops[id].Dropping?
    ensures r == s.(staging := r.staging, ops := r.ops, store := r.store, refused := r.refused)
    ensures r.ops.Keys == s.ops.Keys
  {
    var storeId := s.ops[id].storeId;
    s.(staging := false, store := if ok then s.store - {storeId} else s.store,
       refused := if ok then s.refused else s.refused + {storeId}, ops := s.ops[id := Settled(false)])
  }

  // Finalization

  predicate IsPreviewWrite(e: Effect)
  {
    e.effectClass == "artifact.write" && "preview://" <= e.resourceUri && "create" in e.operations
  }

  /** The authorization key of the one declared preview write, if there is exactly one. */
  function WriteKey(c: Config): Option<EffectKey>
  {
    var writes := Filter(IsPreviewWrite, c.effects);
    if |writes| == 1 then Some(EffectKey("artifact.write", writes[0].resourceUri, "create")) else None
  }

  function SetStaged(s: State, handle: nat, status: Status): State
    requires handle in s.staged
  {
    s.(staged := s.staged[handle := s.staged[handle].(status := status)])
  }

  function Marked(acquisitions: map<nat, Acquisition>, source: Option<nat>, status: Status): map<nat, Acquisition>
  {
    if source.Some? && source.value in acquisitions then
      acquisitions[source.value := acquisitions[source.value].(status := status)]
    else acquisitions
  }

  function SetAcquisition(s: State, source: Option<nat>, status: Status): State
  {
    s.(acquisitions := Marked(s.acquisitions, source, status))
  }

  /** finalizeSourceArtifactAndCommitAcquisition and finalizeDerivedArtifact, up to the store. */
  function CommitCall(c: Config, s: State, handle: nat, port: Port, source: Option<nat>,
                      bound: bool): (r: (State, bool))
    ensures !IsOpen(s) ==> r == (s, false)
    ensures r.0 == s.(counts := r.0.counts, acquisitions := r.0.acquisitions,
                   staged := r.0.staged, ops := r.0.ops, nextId := r.0.nextId)
    ensures r.0.ops == s.ops || Begins(s, r.0, Settled(false)) || Begins(s, r.0, Committing(handle))
    ensures || r.0.counts == s.counts
            || (handle in s.staged && WriteKey(c).Some?
                && r.0.counts == Charge(s, WriteKey(c).value, s.staged[handle].records).counts)
    ensures s.nextId <= r.0.nextId
  {
    if !IsOpen(s) then (s, false)
    else if handle !in s.staged || s.staged[handle].status != Open || s.staged[handle].port != port
            || s.staged[handle].source != source || !bound then (Begin(s, Settled(false)), true)
    else if source.Some? && (source.value !in s.acquisitions || s.acquisitions[source.value].status != Open) then
      (Begin(s, Settled(false)), true)
    else
      var records := s.staged[handle].records;
      if port !in c.forbidden || c.forbidden[port] then
        (Begin(SetAcquisition(s, source, Finalizing), Settled(false)), true)
      else if WriteKey(c).None? || !Authorizes(c, s, WriteKey(c).value, records) then
        (Begin(SetAcquisition(s, source, Failed), Settled(false)), true)
      else
        (Begin(SetStaged(SetAcquisition(Charge(s, WriteKey(c).value, records), source, Finalizing), handle, Finalizing),
               Committing(handle)), true)
  }

  /** `dataset` is the handle of the committed artifact; after a failed commit the staged copy may remain. */
  function CommitAnswers(s: State, id: nat, dataset: Option<string>, remains: bool): (r: State)
    requires id in s.ops && s.ops[id].Committing? && s.ops[id].handle in s.staged
    ensures r == s.(registry := r.registry, finalized := r.finalized, acquisitions := r.acquisitions,
                   staged := r.staged, ops := r.ops, store := r.store)
    ensures r.ops.Keys == s.ops.Keys
  {
    var entry := s.staged[s.ops[id].handle];
    var failed := dataset.None? || !IsOpen(s) || dataset.value in s.registry;
    var status := if failed then Failed else Finalized;
    var t := s.(store := if dataset.None? && remains then s.store else s.store - {entry.storeId},
                acquisitions := Marked(s.acquisitions, entry.source, status),
                staged := s.staged[s.ops[id].handle := entry.(status := status)],
                ops := s.ops[id := Settled(!failed)]);
    if failed then t
    else t.(registry := s.registry + {dataset.value}, finalized := s.finalized[entry.port := dataset.value])
  }

  /** finalizeSourceEphemeral runs without an await; `handle` is its fresh dataset handle. */
  function EphemeralCall(c: Config, s: State, source: nat, port: Port, bound: bool, valid: bool,
                         handle: string): (r: (State, bool))
    ensures !IsOpen(s) ==> r == (s, false)
    ensures r.0 == s.(registry := r.0.registry, claimed := r.0.claimed, finalized := r.0.finalized,
                   acquisitions := r.0.acquisitions, ops := r.0.ops, nextId := r.0.nextId)
    ensures s.claimed <= r.0.claimed
    ensures r.0.ops == s.ops || Begins(s, r.0, Settled(r.0.registry != s.registry))
    ensures r.0.registry != s.registry ==> port !in s.claimed && port in r.0.claimed
    ensures s.nextId <= r.0.nextId
  {
    if !IsOpen(s) then (s, false)
    else if source !in s.acquisitions || s.acquisitions[source].status != Open
            || port !in c.forbidden || !c.forbidden[port] || !bound || c.consumers(port) == 0
            || !Claimable(c, s, port) then (Begin(s, Settled(false)), true)
    else if !valid then (Begin(Claim(s, port), Settled(false)), true)
    else if handle in s.registry then
      (Begin(SetAcquisition(Claim(s, port), Some(source), Failed), Settled(false)), true)
    else
      (Begin(Claim(s, port).(registry := s.registry + {handle}, finalized := s.finalized[port := handle],
                             acquisitions := s.acquisitions - {source}), Settled(true)), true)
  }

  // close

  function CloseCall(s: State): (r: State)
    ensures r == s.(closed := r.closed, unawaited := r.unawaited, closing := r.closing)
  {
    if s.closing != NotClosing then s
    else s.(closed := true, unawaited := s.ops != map[], closing := Draining)
  }

  /** Once no operation is active, everything staged and not finalized is handed back to the store. */
  function Drained(s: State): (r: State)
    requires s.closing == Draining && s.ops == map[]
    ensures r == s.(closing := r.closing)
  {
    s.(closing := Discarding(Unfinalized(s.staged)))
  }

  /** What a closing broker hands back to the store. */
  function Unfinalized(staged: map<nat, Staged>): set<nat>
  {
    set h | h in staged && staged[h].status != Finalized :: staged[h].storeId
  }

  /** One discard is confirmed; a refused one makes close reject and is not modelled further. */
  function DiscardAnswers(s: State, storeId: nat): (r: State)
    requires s.closing.Discarding? && storeId in s.closing.todo
    ensures r == s.(closing := r.closing, store := r.store)
  {
    s.(closing := Discarding(s.closing.todo - {storeId}), store := s.store - {storeId})
  }

  function CloseResolves(s: State): (r: State)
    requires s.closing == Discarding({})
    ensures r == s.(closing := r.closing, acquisitions := r.acquisitions, staged := r.staged)
  {
    s.(closing := Closed, acquisitions := map[], staged := map[])
  }

  function Abort(s: State): (r: State)
    ensures r == s.(aborted := r.aborted)
  {
    s.(aborted := true)
  }
}
