/**
 * The stage broker as the object the executor holds (packages/executor/src/index.ts, PreviewStageBroker):
 * maps and counters updated between awaits, each public method one such segment. Ghost fields hold the trace
 * of events so far and the state of the run it leads to, with what the object itself does not keep: the
 * operations waiting in `#track`, of which it has the number only, and the artifact store. A valid broker's
 * fields are those of that state, so what is proved of runs holds of the object; the contracts state the
 * part a caller needs.
 */
module StageBrokers {
  import opened Wrappers
  import opened BrokerState
  import opened BrokerRuns
  import opened BrokerSafety
  import opened BrokerClosing

  class StageBroker {
    const config: Config
    var closed: bool
    var aborted: bool
    var stagingInProgress: bool
    var artifactBytes: nat
    var claimedOutputPorts: set<Port>
    var finalizedOutputs: map<Port, string>
    var effectRecordCounts: map<EffectKey, nat>
    var acquisitions: map<nat, Acquisition>
    var staged: map<nat, Staged>
    var activeOperations: nat
    var closing: Closing
    var unawaited: bool
    var nextId: nat
    var registry: set<string>

    ghost const initial: set<string>
    ghost var events: seq<Event>
    ghost var state: State

    /** The trace leads from the initial state to the present one. */
    ghost predicate Traced()
      reads this`events, this`state
    {
      After(config, Initial(initial), events) == Some(state)
    }

    ghost predicate Valid()
      reads this
    {
      && Traced()
      && closed == state.closed && aborted == state.aborted && stagingInProgress == state.staging
      && artifactBytes == state.artifactBytes && claimedOutputPorts == state.claimed
      && finalizedOutputs == state.finalized
      && effectRecordCounts == state.counts && acquisitions == state.acquisitions && staged == state.staged
      && activeOperations == |state.ops| && closing == state.closing && unawaited == state.unawaited
      && nextId == state.nextId && registry == state.registry
    }

    /** From state `before`, `e` was the next step of the trace, and into a closed or aborted broker nothing came. */
    ghost predicate Took(before: State, trace: seq<Event>, e: Event)
      reads this`events, this`state
    {
      && Traced() && events == trace + [e]
      && Enabled(before, e) && state == Step(config, before, e)
      && (!IsOpen(before) ==> Untouched(before, state))
    }

    constructor (config: Config, registry: set<string>)
      ensures Valid() && this.config == config && initial == registry && events == [] && state == Initial(registry)
    {
      this.config := config;
      closed, aborted, stagingInProgress, artifactBytes := false, false, false, 0;
      claimedOutputPorts, finalizedOutputs, effectRecordCounts := {}, map[], map[];
      acquisitions, staged, activeOperations := map[], map[], 0;
      closing, unawaited, nextId := NotClosing, false, 0;
      this.registry := registry;
      initial, events, state := registry, [], Initial(registry);
    }

    predicate Opened()
      reads this`closed, this`aborted
    {
      !closed && !aborted
    }

    // What every broker keeps

    /**
     * The bytes staged stay within the reservation, the registry gains finalized outputs only, and a declared read
     * happens once.
     */
    lemma AlwaysHolds()
      requires Valid()
      ensures artifactBytes == AcceptedBytes(config, Initial(initial), events) <= config.maxArtifactBytes
      ensures Accounts(initial, Registrations(config, Initial(initial), events), finalizedOutputs, registry)
      ensures forall key ::
                FindGrant(config.effects, key).Some? && FindGrant(config.effects, key).value.maxRecords > 0 ==>
                Reads(config, Initial(initial), events, key) <= 1
    {
      hide After, AcceptedBytes, Accounts, Registrations, Reads, FindGrant;
      BytesAreConserved(config, initial, events);
      EachPortIsFinalizedOnce(config, initial, events);
      forall key | FindGrant(config.effects, key).Some? && FindGrant(config.effects, key).value.maxRecords > 0
        ensures Reads(config, Initial(initial), events, key) <= 1
      {
        EachReadHappensOnce(config, initial, events, key);
      }
    }

    /** Since the moment the broker was closed or aborted, when its trace was `events[..n]`, nothing came in. */
    lemma NothingSinceClosed(n: nat)
      requires Valid() && n <= |events|
      requires After(config, Initial(initial), events[..n]).Some?
               && !IsOpen(After(config, Initial(initial), events[..n]).value)
      ensures !Opened() && Untouched(After(config, Initial(initial), events[..n]).value, state)
    {
      hide After;
      assert events == events[..n] + events[n..];
      NothingHappensAfterClose(config, initial, events[..n], events[n..]);
    }

    lemma WithinReservation()
      requires Traced()
      ensures state.artifactBytes <= config.maxArtifactBytes
    {
      hide After;
      BytesAreConserved(config, initial, events);
    }

    /** Once closing is over nothing is active or staged, and the store keeps only what it refused to discard. */
    lemma ClosedHoldsNothing()
      requires Valid() && closing == Closed
      ensures activeOperations == 0 && staged == map[] && state.store <= state.refused
    {
      hide After;
      ClosedBrokersHoldNothing(config, initial, events);
    }

    /** Handles are fresh, and a broker is closed once its close has begun. */
    lemma HandlesAreFresh()
      requires Traced()
      ensures state.nextId !in state.ops && (state.closed <==> state.closing != NotClosing)
    {
      RunKeepsInv(config, initial, events);
      hide After, OpsInv, PortsInv, BytesInv, GrantsInv, StoreInv, RegistryInv;
    }

    /** A commit the store works on has its staged entry, whose port is not finalized yet. */
    lemma CommittingEntry(id: nat)
      requires Traced() && id in state.ops && state.ops[id].Committing?
      ensures state.ops[id].handle in state.staged && state.staged[state.ops[id].handle].port !in state.finalized
    {
      RunKeepsInv(config, initial, events);
      hide After, IdsInv, OpsInv, PortsInv, BytesInv, GrantsInv, StoreInv, RegistryInv, ClosingInv;
      CommittingPort(config, state, id);
    }

    /** The trace takes a step, which the fields follow. */
    ghost method Take(e: Event)
      requires Traced() && Enabled(state, e)
      modifies this`events, this`state
      ensures state == Step(config, old(state), e)
      ensures Traced() && Took(old(state), old(events), e)
    {
      hide Step, Enabled, Untouched;
      if !IsOpen(state) {
        ClosedStep(config, state, e);
      }
      Extended(config, Initial(initial), events, state, e);
      state, events := Step(config, state, e), events + [e];
    }

    // #authorize and #track

    /** #authorize */
    method Authorize(key: EffectKey, records: nat) returns (ok: bool)
      modifies this`effectRecordCounts
      ensures ok <==> Opened() && MayCharge(config, old(effectRecordCounts), key, records)
      ensures effectRecordCounts == if ok then Charged(old(effectRecordCounts), key, records)
              else old(effectRecordCounts)
    {
      ok := false;
      if !Opened() { return; }
      var declaration := FindGrant(config.effects, key);
      var previous := CountOf(effectRecordCounts, key);
      if declaration.None? || previous + records > declaration.value.maxRecords { return; }
      if !config.permits(key) { return; }
      effectRecordCounts := effectRecordCounts[key := previous + records];
      ok := true;
    }

    /** requestEffect and commitState */
    method RequestEffect(key: EffectKey, records: nat) returns (ok: bool)
      requires Valid()
      modifies this
      ensures Valid() && Took(old(state), old(events), RequestEffectEvent(key, records))
      ensures ok == Authorizes(config, old(state), key, records)
    {
      hide Traced, Took, FindGrant;
      Take(RequestEffectEvent(key, records));
      ok := Authorize(key, records);
    }

    /** The end of #track, once the operation itself has settled. */
    method Leave(ghost id: nat, settled: bool) returns (ok: bool)
      requires Valid() && id in state.ops && state.ops[id] == Settled(settled)
      modifies this
      ensures Valid() && Took(old(state), old(events), ResumeEvent(id))
      ensures ok == (settled && Opened()) && activeOperations == old(activeOperations) - 1
    {
      hide Traced, Took, Step, Enabled;
      ResumeStep(config, state, id);
      Take(ResumeEvent(id));
      ok := settled && Opened();
      activeOperations := activeOperations - 1;
    }

    // Acquisition and reading

    /** `asks` tells whether the reader is asked for the declared number of records. */
    method Acquire(key: EffectKey, hasReader: bool) returns (accepted: bool, asks: bool)
      requires Valid()
      modifies this
      ensures Valid() && Took(old(state), old(events), AcquireEvent(key, hasReader)) && accepted == Opened()
      ensures accepted ==> old(nextId) in state.ops && asks == state.ops[old(nextId)].Reading?
      ensures asks ==> accepted && config.isSource && hasReader && FindGrant(config.effects, key).Some?
    {
      hide Traced, Took, FindGrant, Step, Enabled, MayCharge, Charged;
      HandlesAreFresh();
      AcquireStep(config, state, key, hasReader);
      Take(AcquireEvent(key, hasReader));
      accepted, asks := Opened(), false;
      if accepted {
        var declaration := FindGrant(config.effects, key);
        if declaration.Some? {
          var authorized := Authorize(key, declaration.value.maxRecords);
          asks := authorized && config.isSource && hasReader;
        }
        activeOperations, nextId := activeOperations + 1, nextId + 1;
      }
    }

    method ReaderReturns(ghost id: nat, key: EffectKey, maxRecords: nat, records: Option<nat>, attested: bool)
      returns (ok: bool)
      requires Valid() && id in state.ops && state.ops[id] == Reading(key, maxRecords)
      modifies this
      ensures Valid() && Took(old(state), old(events), ReaderAnswer(id, records, attested))
      ensures state.ops == old(state.ops)[id := Settled(ok)]
      ensures ok <==> records.Some? && Opened() && records.value <= maxRecords && attested
    {
      hide Traced, Took, Step, Enabled;
      ReaderStep(config, state, id, key, maxRecords, records, attested);
      Take(ReaderAnswer(id, records, attested));
      ok := records.Some? && Opened() && records.value <= maxRecords && attested;
      if ok {
        acquisitions := acquisitions[nextId := Acquisition(key, records.value, Open)];
        nextId := nextId + 1;
      }
    }

    /** readDatasetJson */
    method Use() returns (accepted: bool)
      requires Valid()
      modifies this
      ensures Valid() && Took(old(state), old(events), UseEvent) && accepted == Opened()
    {
      hide Traced, Took;
      HandlesAreFresh();
      Take(UseEvent);
      accepted := Opened();
      if accepted {
        Entered(old(state.ops), old(nextId), state.ops);
        activeOperations, nextId := activeOperations + 1, nextId + 1;
      }
    }

    // Staging

    /** #claimOutputPort */
    method ClaimOutputPort(port: Port) returns (ok: bool)
      modifies this`claimedOutputPorts
      ensures ok == (port in config.forbidden && port !in old(claimedOutputPorts))
      ensures claimedOutputPorts == if ok then old(claimedOutputPorts) + {port} else old(claimedOutputPorts)
    {
      if port !in config.forbidden || port in claimedOutputPorts { return false; }
      claimedOutputPorts := claimedOutputPorts + {port};
      ok := true;
    }

    /** stageSourceArtifact and stageDerivedJson, each ending in #stageJson. */
    method Stage(port: Port, source: Option<nat>, bound: bool, valid: bool) returns (accepted: bool)
      requires Valid()
      modifies this
      ensures Valid() && Took(old(state), old(events), StageEvent(port, source, bound, valid))
      ensures accepted <==> stagingInProgress && !old(stagingInProgress)
      ensures accepted ==> port !in old(claimedOutputPorts) && port in claimedOutputPorts
    {
      hide Traced, Took, Step, Enabled, MayStage;
      HandlesAreFresh();
      StageStep(config, state, port, source, bound, valid);
      Take(StageEvent(port, source, bound, valid));
      accepted := StartStaging(port, source, bound, valid);
      if accepted {
        activeOperations, nextId := activeOperations + 1, nextId + 1;
      }
    }

    /** The checks and the claim of a staging call, up to the staging slot. */
    method StartStaging(port: Port, source: Option<nat>, bound: bool, valid: bool) returns (ok: bool)
      modifies this`claimedOutputPorts, this`stagingInProgress
      ensures var may := Opened() && MayStage(config, acquisitions, source, bound) && !old(stagingInProgress);
              var claims := may && port in config.forbidden && port !in old(claimedOutputPorts);
              && ok == (claims && valid)
              && claimedOutputPorts == (if claims then old(claimedOutputPorts) + {port} else old(claimedOutputPorts))
              && stagingInProgress == (old(stagingInProgress) || ok)
    {
      ok := false;
      if Opened() && MayStage(config, acquisitions, source, bound) && !stagingInProgress {
        var claimed := ClaimOutputPort(port);
        if claimed && valid {
          stagingInProgress, ok := true, true;
        }
      }
    }

    /**
     * The store answers a staging operation. Its answer respects the bytes it was promised and names the
     * artifact freshly; then the bytes staged so far stay within the stage's reservation.
     */
    method StoreStaged(ghost id: nat, port: Port, source: Option<nat>, ghost maxBytes: nat,
                       answer: Option<StoredArtifact>)
      requires Valid() && id in state.ops && state.ops[id] == Staging(port, source, maxBytes)
      requires answer.Some? ==> answer.value.bytes <= maxBytes && answer.value.storeId == nextId
      modifies this
      ensures Valid() && Took(old(state), old(events), StageAnswer(id, answer))
              && artifactBytes <= config.maxArtifactBytes
    {
      hide Traced, Took, Step, Enabled;
      StagedStep(config, state, id, port, source, maxBytes, answer);
      Take(StageAnswer(id, answer));
      WithinReservation();
      if answer.None? {
        stagingInProgress := false;
      } else if !Opened() {
        nextId := nextId + 1;
      } else {
        KeepStaged(port, source, answer.value);
      }
    }

    /** The staging operation got its artifact while the broker is open. */
    method KeepStaged(port: Port, source: Option<nat>, artifact: StoredArtifact)
      modifies this`nextId, this`artifactBytes, this`staged, this`stagingInProgress
      ensures nextId == old(nextId) + 2 && !stagingInProgress && artifactBytes == old(artifactBytes) + artifact.bytes
      ensures staged == old(staged)[old(nextId) + 1 := Staged(artifact.storeId, port, artifact.bytes, artifact.records,
                                                              source, Open)]
    {
      artifactBytes := artifactBytes + artifact.bytes;
      staged := staged[nextId + 1 := Staged(artifact.storeId, port, artifact.bytes, artifact.records, source, Open)];
      nextId := nextId + 2;
      stagingInProgress := false;
    }

    /** The discard of an artifact that arrived too late; `ok` is false when the store refuses it. */
    method StoreDropped(ghost id: nat, ghost storeId: nat, ok: bool)
      requires Valid() && id in state.ops && state.ops[id] == Dropping(storeId)
      modifies this
      ensures Valid() && Took(old(state), old(events), DropAnswer(id, ok)) && !stagingInProgress
      ensures storeId in state.store ==> !ok && storeId in state.refused
    {
      hide Traced, Took;
      Take(DropAnswer(id, ok));
      MovedOn(old(state.ops), state.ops);
      stagingInProgress := false;
    }

    // Finalization

    method MarkAcquisition(source: Option<nat>, status: Status)
      modifies this`acquisitions
      ensures acquisitions == Marked(old(acquisitions), source, status)
    {
      if source.Some? && source.value in acquisitions {
        acquisitions := acquisitions[source.value := acquisitions[source.value].(status := status)];
      }
    }

    /** The finalizations up to the store's commit: #stagedEntry, then #commitStaged. */
    method Commit(handle: nat, port: Port, source: Option<nat>, bound: bool) returns (accepted: bool, commits: bool)
      requires Valid()
      modifies this
      ensures Valid() && Took(old(state), old(events), CommitEvent(handle, port, source, bound)) && accepted == Opened()
      ensures accepted ==>
                old(nextId) in state.ops
                && state.ops[old(nextId)] == if commits then Committing(handle) else Settled(false)
    {
      hide Traced, Took, Step, Enabled, Commits;
      HandlesAreFresh();
      CommitStep(config, state, handle, port, source, bound);
      Take(CommitEvent(handle, port, source, bound));
      accepted, commits := Opened(), false;
      if accepted {
        commits := TryCommit(handle, port, source, bound);
        activeOperations, nextId := activeOperations + 1, nextId + 1;
      }
    }

    /** #stagedEntry, #artifactPolicy and the authorization of the one preview write, with the statuses kept in step. */
    method TryCommit(handle: nat, port: Port, source: Option<nat>, bound: bool) returns (ok: bool)
      requires Opened()
      modifies this`acquisitions, this`effectRecordCounts, this`staged
      ensures (Books(effectRecordCounts, acquisitions, staged), ok) ==
                Commits(config, old(Books(effectRecordCounts, acquisitions, staged)), handle, port, source, bound)
    {
      hide MayCharge, Charged, WriteKey;
      ok := false;
      if handle !in staged || staged[handle].status != Open || staged[handle].port != port
        || staged[handle].source != source || !bound {
        return;
      }
      if source.Some? && (source.value !in acquisitions || acquisitions[source.value].status != Open) { return; }
      MarkAcquisition(source, Finalizing);
      if port !in config.forbidden || config.forbidden[port] { return; }
      var write := WriteKey(config);
      if write.Some? { ok := Authorize(write.value, staged[handle].records); }
      if ok {
        staged := staged[handle := staged[handle].(status := Finalizing)];
      } else {
        MarkAcquisition(source, Failed);
        assert acquisitions == Marked(old(acquisitions), source, Failed);
      }
    }

    /**
     * The store answers a commit. A dataset is registered only while the broker is open, under a handle that is
     * new, for the port of the staged entry, which it then finalizes.
     */
    method StoreCommitted(ghost id: nat, handle: nat, dataset: Option<string>, ghost remains: bool) returns (ok: bool)
      requires Valid() && id in state.ops && state.ops[id] == Committing(handle)
      modifies this
      ensures Valid() && Took(old(state), old(events), CommitAnswer(id, dataset, remains))
      ensures state.ops == old(state.ops)[id := Settled(ok)]
      ensures ok <==> dataset.Some? && Opened() && dataset.value !in old(registry)
      ensures handle in old(staged) && old(staged)[handle].port !in old(finalizedOutputs)
      ensures registry == if ok then old(registry) + {dataset.value} else old(registry)
      ensures finalizedOutputs == if ok then old(finalizedOutputs)[old(staged)[handle].port := dataset.value]
              else old(finalizedOutputs)
    {
      hide Traced, Took, Marked, Step, Enabled;
      CommittingEntry(id);
      CommittedStep(config, state, id, dataset, remains);
      Take(CommitAnswer(id, dataset, remains));
      ok := Register(handle, dataset);
    }

    /** The committed dataset enters the registry, or its entry and acquisition fail. */
    method Register(handle: nat, dataset: Option<string>) returns (ok: bool)
      requires handle in staged
      modifies this`registry, this`finalizedOutputs, this`acquisitions, this`staged
      ensures ok == (dataset.Some? && Opened() && dataset.value !in old(registry))
      ensures registry == if ok then old(registry) + {dataset.value} else old(registry)
      ensures finalizedOutputs == if ok then old(finalizedOutputs)[old(staged)[handle].port := dataset.value]
              else old(finalizedOutputs)
      ensures acquisitions == Marked(old(acquisitions), old(staged)[handle].source, if ok then Finalized else Failed)
      ensures staged == old(staged)[handle := old(staged)[handle].(status := if ok then Finalized else Failed)]
    {
      var entry := staged[handle];
      ok := dataset.Some? && Opened() && dataset.value !in registry;
      if ok {
        registry := registry + {dataset.value};
        finalizedOutputs := finalizedOutputs[entry.port := dataset.value];
      }
      MarkAcquisition(entry.source, if ok then Finalized else Failed);
      staged := staged[handle := entry.(status := if ok then Finalized else Failed)];
    }

    /** finalizeSourceEphemeral */
    method FinalizeEphemeral(source: nat, port: Port, bound: bool, valid: bool, handle: string) returns (accepted: bool)
      requires Valid()
      modifies this
      ensures Valid() && Took(old(state), old(events), EphemeralEvent(source, port, bound, valid, handle))
              && accepted == Opened()
    {
      hide Traced, Took, Step, Enabled, Forgone;
      HandlesAreFresh();
      EphemeralStep(config, state, source, port, bound, valid, handle);
      Take(EphemeralEvent(source, port, bound, valid, handle));
      accepted := Opened();
      if accepted {
        Forgo(source, port, bound, valid, handle);
        activeOperations, nextId := activeOperations + 1, nextId + 1;
      }
    }

    /**
     * An output that may not be persisted: its port is claimed, and the registry takes a handle it does not know yet.
     */
    method Forgo(source: nat, port: Port, bound: bool, valid: bool, handle: string)
      modifies this`claimedOutputPorts, this`registry, this`finalizedOutputs, this`acquisitions
      ensures Outputs(claimedOutputPorts, registry, finalizedOutputs, acquisitions) ==
                Forgone(config, old(Outputs(claimedOutputPorts, registry, finalizedOutputs, acquisitions)), source,
                        port, bound, valid, handle)
    {
      if source !in acquisitions || acquisitions[source].status != Open || port !in config.forbidden
        || !config.forbidden[port]
        || !bound || config.consumers(port) == 0 {
        return;
      }
      var claimed := ClaimOutputPort(port);
      if !claimed || !valid { return; }
      if handle in registry {
        MarkAcquisition(Some(source), Failed);
        return;
      }
      registry := registry + {handle};
      finalizedOutputs := finalizedOutputs[port := handle];
      acquisitions := acquisitions - {source};
    }

    // Closing

    /** From here on the broker takes in nothing, whatever answers arrive. */
    method Close()
      requires Valid()
      modifies this
      ensures Valid() && Took(old(state), old(events), CloseEvent) && !Opened()
      ensures old(closing) == NotClosing ==> closing == Draining && unawaited == (activeOperations > 0)
      ensures old(closing) != NotClosing ==> state == old(state)
    {
      hide Traced, Took;
      HandlesAreFresh();
      Take(CloseEvent);
      if closing == NotClosing {
        unawaited := activeOperations > 0;
        closed := true;
        closing := Draining;
      }
    }

    /** #drain has resolved: ask the store to discard whatever is not finalized. */
    method DiscardUnfinalized()
      requires Valid() && closing == Draining && activeOperations == 0
      modifies this
      ensures Valid() && Took(old(state), old(events), DrainedEvent)
      ensures closing == Discarding(Unfinalized(staged))
    {
      hide Traced, Took;
      Take(DrainedEvent);
      closing := Discarding(Unfinalized(staged));
    }

    method StoreDiscarded(storeId: nat)
      requires Valid() && closing.Discarding? && storeId in closing.todo
      modifies this
      ensures Valid() && Took(old(state), old(events), DiscardAnswer(storeId)) && storeId !in state.store
    {
      hide Traced, Took;
      Take(DiscardAnswer(storeId));
      closing := Discarding(closing.todo - {storeId});
    }

    method FinishClose()
      requires Valid() && closing == Discarding({})
      modifies this
      ensures Valid() && Took(old(state), old(events), CloseResolvedEvent)
      ensures activeOperations == 0 && acquisitions == map[] && staged == map[] && state.store <= state.refused
    {
      hide Traced, Took;
      Take(CloseResolvedEvent);
      acquisitions, staged, closing := map[], map[], Closed;
      ClosedHoldsNothing();
    }

    /** The abort signal of the run fires. */
    method Abort()
      requires Valid()
      modifies this
      ensures Valid() && Took(old(state), old(events), AbortEvent) && !Opened()
    {
      hide Traced, Took;
      Take(AbortEvent);
      aborted := true;
    }
  }

  function CountOf(counts: map<EffectKey, nat>, key: EffectKey): nat
  {
    if key in counts then counts[key] else 0
  }

  // Facts about runs the methods rest on

  lemma Extended(c: Config, s: State, events: seq<Event>, before: State, e: Event)
    requires After(c, s, events) == Some(before) && Enabled(before, e)
    ensures After(c, s, events + [e]) == Some(Step(c, before, e))
  {
    hide Step, Enabled;
    assert (events + [e])[..|events + [e]| - 1] == events;
  }

  // What the larger steps do to the fields

  predicate MayCharge(c: Config, counts: map<EffectKey, nat>, key: EffectKey, records: nat)
  {
    && FindGrant(c.effects, key).Some? && CountOf(counts, key) + records <= FindGrant(c.effects, key).value.maxRecords
    && c.permits(key)
  }

  function Charged(counts: map<EffectKey, nat>, key: EffectKey, records: nat): map<EffectKey, nat>
  {
    counts[key := CountOf(counts, key) + records]
  }

  /** An open broker tracks one more operation. */
  predicate Tracks(s: State, t: State)
  {
    if IsOpen(s) then |t.ops| == |s.ops| + 1 && t.nextId == s.nextId + 1 else t == s
  }

  predicate Grows(s: State, t: State)
  {
    if IsOpen(s) then s.nextId in t.ops && Begins(s, t, t.ops[s.nextId]) && t.nextId == s.nextId + 1 else t == s
  }

  lemma GrowsTracks(s: State, t: State)
    requires Grows(s, t) && s.nextId !in s.ops
    ensures Tracks(s, t)
  {
    if IsOpen(s) {
      Entered(s.ops, s.nextId, t.ops);
    }
  }

  lemma AcquireStep(c: Config, s: State, key: EffectKey, hasReader: bool)
    requires s.nextId !in s.ops
    ensures Enabled(s, AcquireEvent(key, hasReader))
    ensures var t, grant := Step(c, s, AcquireEvent(key, hasReader)), FindGrant(c.effects, key);
            var ok := IsOpen(s) && grant.Some? && MayCharge(c, s.counts, key, grant.value.maxRecords);
            && Tracks(s, t) && t == s.(counts := t.counts, ops := t.ops, nextId := t.nextId)
            && t.counts == (if ok then Charged(s.counts, key, grant.value.maxRecords) else s.counts)
            && (IsOpen(s) ==> s.nextId in t.ops && (t.ops[s.nextId].Reading? <==> ok && c.isSource && hasReader))
  {
    hide AcquireCall, FindGrant, Tracks, Grows, MayCharge, Charged;
    AcquireFields(c, s, key, hasReader);
    GrowsTracks(s, AcquireCall(c, s, key, hasReader).0);
  }

  lemma AcquireFields(c: Config, s: State, key: EffectKey, hasReader: bool)
    ensures var t, grant := AcquireCall(c, s, key, hasReader).0, FindGrant(c.effects, key);
            var ok := IsOpen(s) && grant.Some? && MayCharge(c, s.counts, key, grant.value.maxRecords);
            && Grows(s, t)
            && t.counts == (if ok then Charged(s.counts, key, grant.value.maxRecords) else s.counts)
            && (IsOpen(s) ==> s.nextId in t.ops && (t.ops[s.nextId].Reading? <==> ok && c.isSource && hasReader))
  {
    hide FindGrant, MayCharge, Charged, Charge, Authorizes;
    var grant := FindGrant(c.effects, key);
    if grant.Some? {
      AuthorizesIsMayCharge(c, s, key, grant.value.maxRecords);
      ChargesCounts(s, key, grant.value.maxRecords);
    }
  }

  lemma AuthorizesIsMayCharge(c: Config, s: State, key: EffectKey, records: nat)
    ensures Authorizes(c, s, key, records) <==> IsOpen(s) && MayCharge(c, s.counts, key, records)
  {
    hide FindGrant;
  }

  lemma ChargesCounts(s: State, key: EffectKey, records: nat)
    ensures Charge(s, key, records) == s.(counts := Charged(s.counts, key, records))
  {
  }

  lemma StageStep(c: Config, s: State, port: Port, source: Option<nat>, bound: bool, valid: bool)
    requires s.nextId !in s.ops
    ensures Enabled(s, StageEvent(port, source, bound, valid))
    ensures var t := Step(c, s, StageEvent(port, source, bound, valid));
            var claims := IsOpen(s) && MayStage(c, s.acquisitions, source, bound) && !s.staging
              && Claimable(c, s, port);
            && t == s.(claimed := t.claimed, staging := t.staging, ops := t.ops, nextId := t.nextId)
            && t.claimed == (if claims then s.claimed + {port} else s.claimed)
            && t.staging == (s.staging || (claims && valid))
            && (if claims && valid then |t.ops| == |s.ops| + 1 && t.nextId == s.nextId + 1
                else t.ops == s.ops && t.nextId == s.nextId)
  {
    hide Remaining;
    var t := Step(c, s, StageEvent(port, source, bound, valid));
    if s.nextId in t.ops {
      Entered(s.ops, s.nextId, t.ops);
    }
  }

  lemma ResumeStep(c: Config, s: State, id: nat)
    requires id in s.ops && s.ops[id].Settled?
    ensures Enabled(s, ResumeEvent(id))
    ensures var t := Step(c, s, ResumeEvent(id));
            t == s.(ops := t.ops) && |t.ops| == |s.ops| - 1
  {
    Removed(s.ops, id);
  }

  lemma ReaderStep(c: Config, s: State, id: nat, key: EffectKey, maxRecords: nat, records: Option<nat>, attested: bool)
    requires id in s.ops && s.ops[id] == Reading(key, maxRecords)
    ensures Enabled(s, ReaderAnswer(id, records, attested))
    ensures var t := Step(c, s, ReaderAnswer(id, records, attested));
            var ok := records.Some? && IsOpen(s) && records.value <= maxRecords && attested;
            && t == s.(acquisitions := t.acquisitions, ops := t.ops, nextId := t.nextId)
            && t.ops == s.ops[id := Settled(ok)] && |t.ops| == |s.ops|
            && t.nextId == s.nextId + (if ok then 1 else 0)
            && t.acquisitions == if ok then s.acquisitions[s.nextId := Acquisition(key, records.value, Open)]
               else s.acquisitions
  {
    MovedOn(s.ops, Step(c, s, ReaderAnswer(id, records, attested)).ops);
  }

  predicate MayStage(c: Config, acquisitions: map<nat, Acquisition>, source: Option<nat>, bound: bool)
  {
    if source.Some? then source.value in acquisitions && acquisitions[source.value].status == Open && bound
    else !c.isSource && c.hasInputs
  }

  lemma StagedStep(c: Config, s: State, id: nat, port: Port, source: Option<nat>, maxBytes: nat,
                   answer: Option<StoredArtifact>)
    requires id in s.ops && s.ops[id] == Staging(port, source, maxBytes)
    requires answer.Some? ==> answer.value.bytes <= maxBytes && answer.value.storeId == s.nextId
    ensures Enabled(s, StageAnswer(id, answer))
    ensures var t, kept := Step(c, s, StageAnswer(id, answer)), answer.Some? && IsOpen(s);
            && t == s.(staging := t.staging, artifactBytes := t.artifactBytes, staged := t.staged, ops := t.ops,
                       store := t.store, nextId := t.nextId)
            && |t.ops| == |s.ops| && t.staging == (s.staging && answer.Some? && !kept)
            && t.artifactBytes == s.artifactBytes + (if kept then answer.value.bytes else 0)
            && t.nextId == s.nextId + (if answer.None? then 0 else if kept then 2 else 1)
            && t.staged == if !kept then s.staged else
                 s.staged[s.nextId + 1 :=
                   Staged(answer.value.storeId, port, answer.value.bytes, answer.value.records, source, Open)]
  {
    MovedOn(s.ops, Step(c, s, StageAnswer(id, answer)).ops);
  }

  /** What a commit changes before the store is asked. */
  datatype Books = Books(counts: map<EffectKey, nat>, acquisitions: map<nat, Acquisition>, staged: map<nat, Staged>)

  function Commits(c: Config, b: Books, handle: nat, port: Port, source: Option<nat>, bound: bool): (Books, bool)
  {
    if !bound || !IsStagedEntry(b.staged, b.acquisitions, handle, port, source) then (b, false)
    else if port !in c.forbidden || c.forbidden[port] then
      (b.(acquisitions := Marked(b.acquisitions, source, Finalizing)), false)
    else if WriteKey(c).None? || !MayCharge(c, b.counts, WriteKey(c).value, b.staged[handle].records) then
      (b.(acquisitions := Marked(b.acquisitions, source, Failed)), false)
    else
      (Books(Charged(b.counts, WriteKey(c).value, b.staged[handle].records), Marked(b.acquisitions, source, Finalizing),
             b.staged[handle := b.staged[handle].(status := Finalizing)]), true)
  }

  function BooksOf(s: State): Books
  {
    Books(s.counts, s.acquisitions, s.staged)
  }

  lemma CommitStep(c: Config, s: State, handle: nat, port: Port, source: Option<nat>, bound: bool)
    requires s.nextId !in s.ops
    ensures Enabled(s, CommitEvent(handle, port, source, bound))
    ensures var t, r := Step(c, s, CommitEvent(handle, port, source, bound)),
            Commits(c, BooksOf(s), handle, port, source, bound);
            && Tracks(s, t) && BooksOf(t) == (if IsOpen(s) then r.0 else BooksOf(s))
            && (IsOpen(s) ==> s.nextId in t.ops && t.ops[s.nextId] == if r.1 then Committing(handle)
                else Settled(false))
            && t == s.(counts := t.counts, acquisitions := t.acquisitions, staged := t.staged, ops := t.ops,
                       nextId := t.nextId)
  {
    hide CommitCall, Tracks, Grows, Commits, BooksOf;
    CommitBooks(c, s, handle, port, source, bound);
    GrowsTracks(s, CommitCall(c, s, handle, port, source, bound).0);
  }

  predicate MayCommit(s: State, handle: nat, port: Port, source: Option<nat>, bound: bool)
  {
    IsOpen(s) && IsStagedEntry(s.staged, s.acquisitions, handle, port, source) && bound
  }

  lemma CommitRefused(c: Config, s: State, handle: nat, port: Port, source: Option<nat>, bound: bool)
    requires !MayCommit(s, handle, port, source, bound)
    ensures CommitCall(c, s, handle, port, source, bound).0 == if IsOpen(s) then Begin(s, Settled(false)) else s
  {
    hide WriteKey, Marked, Charge, Authorizes, SetStaged, SetAcquisition, Begin, Begins;
  }

  /** The state an open entry's commit leads to. */
  function Proceeded(s: State, r: (Books, bool), handle: nat): State
  {
    Begin(s.(counts := r.0.counts, acquisitions := r.0.acquisitions, staged := r.0.staged), if r.1 then
          Committing(handle) else Settled(false))
  }

  lemma CommitProceeds(c: Config, s: State, handle: nat, port: Port, source: Option<nat>)
    requires MayCommit(s, handle, port, source, true) && handle in s.staged
    ensures CommitCall(c, s, handle, port, source, true).0 ==
            Proceeded(s, Commits(c, BooksOf(s), handle, port, source, true), handle)
  {
    hide WriteKey, Marked, Authorizes, Charge, Begin, Begins, Count, MayCharge, Charged;
    if WriteKey(c).Some? {
      AuthorizesIsMayCharge(c, s, WriteKey(c).value, s.staged[handle].records);
      ChargesCounts(s, WriteKey(c).value, s.staged[handle].records);
    }
  }

  lemma CommitBooks(c: Config, s: State, handle: nat, port: Port, source: Option<nat>, bound: bool)
    ensures var t, r := CommitCall(c, s, handle, port, source, bound).0,
            Commits(c, BooksOf(s), handle, port, source, bound);
            && Grows(s, t) && BooksOf(t) == (if IsOpen(s) then r.0 else BooksOf(s))
            && (IsOpen(s) ==> s.nextId in t.ops && t.ops[s.nextId] == if r.1 then Committing(handle)
                else Settled(false))
  {
    hide CommitCall, IsStagedEntry;
    if MayCommit(s, handle, port, source, bound) {
      hide Commits;
      EntryIsStaged(s.staged, s.acquisitions, handle, port, source);
      CommitProceeds(c, s, handle, port, source);
    } else {
      hide MayCharge, Charged, WriteKey, Marked;
      CommitRefused(c, s, handle, port, source, bound);
    }
  }

  /** #stagedEntry: an open entry for the port, resting on an acquisition that is still open. */
  predicate IsStagedEntry(staged: map<nat, Staged>, acquisitions: map<nat, Acquisition>, handle: nat, port: Port,
                          source: Option<nat>)
  {
    && handle in staged && staged[handle].status == Open && staged[handle].port == port
    && staged[handle].source == source
    && (source.Some? ==> source.value in acquisitions && acquisitions[source.value].status == Open)
  }

  lemma EntryIsStaged(staged: map<nat, Staged>, acquisitions: map<nat, Acquisition>, handle: nat, port: Port,
                      source: Option<nat>)
    requires IsStagedEntry(staged, acquisitions, handle, port, source)
    ensures handle in staged
  {
  }

  lemma CommittedStep(c: Config, s: State, id: nat, dataset: Option<string>, remains: bool)
    requires id in s.ops && s.ops[id].Committing? && s.ops[id].handle in s.staged
    ensures Enabled(s, CommitAnswer(id, dataset, remains))
    ensures var t, handle := Step(c, s, CommitAnswer(id, dataset, remains)), s.ops[id].handle;
            var ok, entry := dataset.Some? && IsOpen(s) && dataset.value !in s.registry, s.staged[handle];
            && t == s.(registry := t.registry, finalized := t.finalized, acquisitions := t.acquisitions,
                       staged := t.staged, ops := t.ops, store := t.store)
            && t.ops == s.ops[id := Settled(ok)] && |t.ops| == |s.ops|
            && t.registry == (if ok then s.registry + {dataset.value} else s.registry)
            && t.finalized == (if ok then s.finalized[entry.port := dataset.value] else s.finalized)
            && t.acquisitions == Marked(s.acquisitions, entry.source, if ok then Finalized else Failed)
            && t.staged == s.staged[handle := entry.(status := if ok then Finalized else Failed)]
  {
    hide Marked;
    MovedOn(s.ops, Step(c, s, CommitAnswer(id, dataset, remains)).ops);
  }

  /** What registering an output changes. */
  datatype Outputs = Outputs(claimed: set<Port>, registry: set<string>, finalized: map<Port, string>,
                             acquisitions: map<nat, Acquisition>)

  function Forgone(c: Config, o: Outputs, source: nat, port: Port, bound: bool, valid: bool, handle: string): Outputs
  {
    if source !in o.acquisitions || o.acquisitions[source].status != Open || port !in c.forbidden || !c.forbidden[port]
       || !bound || c.consumers(port) == 0 || port in o.claimed then o
    else if !valid then o.(claimed := o.claimed + {port})
    else if handle in o.registry then o.(claimed := o.claimed + {port},
                                         acquisitions := Marked(o.acquisitions, Some(source), Failed))
    else Outputs(o.claimed + {port}, o.registry + {handle}, o.finalized[port := handle], o.acquisitions - {source})
  }

  lemma EphemeralStep(c: Config, s: State, source: nat, port: Port, bound: bool, valid: bool, handle: string)
    requires s.nextId !in s.ops
    ensures Enabled(s, EphemeralEvent(source, port, bound, valid, handle))
    ensures var t := Step(c, s, EphemeralEvent(source, port, bound, valid, handle));
            && Tracks(s, t)
            && OutputsOf(t) == (if IsOpen(s) then Forgone(c, OutputsOf(s), source, port, bound, valid, handle)
                                else OutputsOf(s))
            && t == s.(registry := t.registry, claimed := t.claimed, finalized := t.finalized,
                       acquisitions := t.acquisitions, ops := t.ops, nextId := t.nextId)
  {
    hide EphemeralCall, Tracks, Grows, Forgone, OutputsOf;
    EphemeralGrows(c, s, source, port, bound, valid, handle);
    GrowsTracks(s, EphemeralCall(c, s, source, port, bound, valid, handle).0);
    EphemeralOutputs(c, s, source, port, bound, valid, handle);
  }

  function OutputsOf(s: State): Outputs
  {
    Outputs(s.claimed, s.registry, s.finalized, s.acquisitions)
  }

  lemma EphemeralGrows(c: Config, s: State, source: nat, port: Port, bound: bool, valid: bool, handle: string)
    ensures Grows(s, EphemeralCall(c, s, source, port, bound, valid, handle).0)
  {
    hide Marked;
  }

  lemma EphemeralOutputs(c: Config, s: State, source: nat, port: Port, bound: bool, valid: bool, handle: string)
    ensures OutputsOf(EphemeralCall(c, s, source, port, bound, valid, handle).0) ==
              if IsOpen(s) then Forgone(c, OutputsOf(s), source, port, bound, valid, handle) else OutputsOf(s)
  {
    hide EphemeralCall, Forgone, OutputsOf;
    if MayForgo(c, s, source, port, bound) {
      ForgoneOutputs(c, s, source, port, valid, handle);
    } else {
      NothingForgone(c, s, source, port, bound, valid, handle);
    }
  }

  /** An open acquisition is about to fill a declared, referenced and still unclaimed port that forbids persistence. */
  predicate MayForgo(c: Config, s: State, source: nat, port: Port, bound: bool)
  {
    && IsOpen(s) && source in s.acquisitions && s.acquisitions[source].status == Open && port in c.forbidden
    && c.forbidden[port] && bound && c.consumers(port) != 0 && port !in s.claimed
  }

  lemma NothingForgone(c: Config, s: State, source: nat, port: Port, bound: bool, valid: bool, handle: string)
    requires !MayForgo(c, s, source, port, bound)
    ensures OutputsOf(EphemeralCall(c, s, source, port, bound, valid, handle).0) == OutputsOf(s)
    ensures IsOpen(s) ==> Forgone(c, OutputsOf(s), source, port, bound, valid, handle) == OutputsOf(s)
  {
    hide Marked, Begins;
  }

  lemma ForgoneOutputs(c: Config, s: State, source: nat, port: Port, valid: bool, handle: string)
    requires MayForgo(c, s, source, port, true)
    ensures IsOpen(s)
    ensures OutputsOf(EphemeralCall(c, s, source, port, true, valid, handle).0) ==
            Forgone(c, OutputsOf(s), source, port, true, valid, handle)
  {
    hide Marked, Begins;
    if valid && handle !in s.registry {
      assert Forgone(c, OutputsOf(s), source, port, true, valid, handle) ==
             Outputs(s.claimed + {port}, s.registry + {handle}, s.finalized[port := handle], s.acquisitions - {source});
    }
  }

  lemma Entered(m: map<nat, Op>, id: nat, more: map<nat, Op>)
    requires id !in m && id in more && more == m[id := more[id]]
    ensures |more| == |m| + 1
  {
    assert more.Keys == m.Keys + {id};
  }

  lemma MovedOn(m: map<nat, Op>, next: map<nat, Op>)
    requires next.Keys == m.Keys
    ensures |next| == |m|
  {
  }

  lemma Removed(m: map<nat, Op>, id: nat)
    requires id in m
    ensures |m - {id}| == |m| - 1
  {
    assert (m - {id}).Keys == m.Keys - {id};
  }
}
