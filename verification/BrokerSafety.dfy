/**
 * What the stage broker guarantees over every run from a fresh broker, whatever its callers, the
 * store and the readers do (packages/executor/src/index.ts:365-507, 889-1072).
 */
module BrokerSafety {
  import opened Wrappers
  import opened Sequences
  import opened BrokerState
  import opened BrokerRuns

  /** The run without its last event. */
  function Before(events: seq<Event>): seq<Event>
    requires events != []
  {
    events[..|events| - 1]
  }

  lemma RunBefore(c: Config, s: State, events: seq<Event>)
    requires After(c, s, events).Some? && events != []
    ensures After(c, s, Before(events)).Some?
    ensures Enabled(After(c, s, Before(events)).value, events[|events| - 1])
    ensures After(c, s, events).value == Step(c, After(c, s, Before(events)).value, events[|events| - 1])
  {
  }

  // Output ports

  /** The operation an event starts, if it starts one. */
  function Begun(c: Config, s: State, e: Event): Option<Op>
    requires Enabled(s, e)
  {
    var t := Step(c, s, e);
    if s.nextId !in s.ops && s.nextId in t.ops then Some(t.ops[s.nextId]) else None
  }

  /** The port an event starts to produce: a staging begins or an ephemeral dataset is registered. */
  function Produces(c: Config, s: State, e: Event): seq<Port>
    requires Enabled(s, e)
  {
    if Begun(c, s, e).Some? && Begun(c, s, e).value.Staging? then [Begun(c, s, e).value.port]
    else if e.EphemeralEvent? && Step(c, s, e).registry != s.registry then [e.port]
    else []
  }

  function Produced(c: Config, s: State, events: seq<Event>): seq<Port>
    requires After(c, s, events).Some?
  {
    if events == [] then []
    else
      RunBefore(c, s, events);
      Produced(c, s, Before(events)) + Produces(c, After(c, s, Before(events)).value, events[|events| - 1])
  }

  lemma DistinctAppend<T>(s: seq<T>, t: seq<T>)
    requires Distinct(s) && |t| <= 1 && forall x :: x in t ==> x !in s
    ensures Distinct(s + t)
  {
    assert |t| == 1 ==> t[0] in t;
  }

  /** A port is staged or registered at most once in the life of a broker. */
  lemma {:induction false} EachPortIsProducedOnce(c: Config, initial: set<string>, events: seq<Event>)
    requires After(c, Initial(initial), events).Some?
    ensures Distinct(Produced(c, Initial(initial), events))
    ensures forall p :: p in Produced(c, Initial(initial), events) ==>
              p in After(c, Initial(initial), events).value.claimed
  {
    hide Step, Enabled, Produces;
    if events != [] {
      var s, e := Initial(initial), events[|events| - 1];
      EachPortIsProducedOnce(c, initial, Before(events));
      RunBefore(c, s, events);
      ProducesUnclaimed(c, After(c, s, Before(events)).value, e);
      DistinctAppend(Produced(c, s, Before(events)), Produces(c, After(c, s, Before(events)).value, e));
    }
  }

  lemma ProducesUnclaimed(c: Config, s: State, e: Event)
    requires Enabled(s, e)
    ensures |Produces(c, s, e)| <= 1
    ensures s.claimed <= Step(c, s, e).claimed
    ensures forall p :: p in Produces(c, s, e) ==> p !in s.claimed && p in Step(c, s, e).claimed
  {
    hide StageCall, EphemeralCall;
    if !e.StageEvent? && !e.EphemeralEvent? {
      hide Step;
      ClaimsStay(c, s, e);
    }
    if Begun(c, s, e).Some? {
      BegunShape(c, s, e);
    }
  }

  lemma BegunShape(c: Config, s: State, e: Event)
    requires Enabled(s, e) && Begun(c, s, e).Some?
    ensures Begun(c, s, e).value.Staging? ==> e.StageEvent?
    ensures Begun(c, s, e).value.Reading? ==> e.AcquireEvent? && e.key == Begun(c, s, e).value.key
  {
    hide RequestEffect, AcquireCall, ReaderAnswers, UseCall, UseAnswers, StageCall, StageAnswers, DropAnswers,
         CommitCall, CommitAnswers, EphemeralCall, Resume, StoreMayStage;
  }

  lemma ClaimsStay(c: Config, s: State, e: Event)
    requires Enabled(s, e) && !e.StageEvent? && !e.EphemeralEvent?
    ensures Step(c, s, e).claimed == s.claimed
  {
    hide Step, Enabled;
    if IsCall(e) {
      CallsKeepClaims(c, s, e);
    } else if IsClosing(e) {
      ClosingKeepsClaims(c, s, e);
    } else {
      AnswersKeepClaims(c, s, e);
    }
  }

  lemma CallsKeepClaims(c: Config, s: State, e: Event)
    requires Enabled(s, e) && IsCall(e) && !e.StageEvent? && !e.EphemeralEvent?
    ensures Step(c, s, e).claimed == s.claimed
  {
    hide RequestEffect, AcquireCall, UseCall, CommitCall;
  }

  lemma AnswersKeepClaims(c: Config, s: State, e: Event)
    requires Enabled(s, e) && !IsCall(e) && !IsClosing(e)
    ensures Step(c, s, e).claimed == s.claimed
  {
    hide ReaderAnswers, UseAnswers, StageAnswers, DropAnswers, CommitAnswers, Resume, StoreMayStage;
  }

  lemma ClosingKeepsClaims(c: Config, s: State, e: Event)
    requires Enabled(s, e) && IsClosing(e)
    ensures Step(c, s, e).claimed == s.claimed
  {
    hide CloseCall, Drained, DiscardAnswers, CloseResolves, Abort, StoreMayStage;
  }

  // Registration

  /** The port and dataset an event registers. */
  function Registers(c: Config, s: State, e: Event): seq<(Port, string)>
    requires Enabled(s, e)
  {
    if Step(c, s, e).registry == s.registry then []
    else if e.CommitAnswer? && e.dataset.Some? then [(s.staged[s.ops[e.id].handle].port, e.dataset.value)]
    else if e.EphemeralEvent? then [(e.port, e.handle)]
    else []
  }

  function Registrations(c: Config, s: State, events: seq<Event>): seq<(Port, string)>
    requires After(c, s, events).Some?
  {
    if events == [] then []
    else
      RunBefore(c, s, events);
      Registrations(c, s, Before(events)) + Registers(c, After(c, s, Before(events)).value, events[|events| - 1])
  }

  function Ports(log: seq<(Port, string)>): seq<Port>
  {
    seq(|log|, i requires 0 <= i < |log| => log[i].0)
  }

  function Datasets(log: seq<(Port, string)>): seq<string>
  {
    seq(|log|, i requires 0 <= i < |log| => log[i].1)
  }

  /** `finalized` is the log read as a map, and the registry is the log's datasets and nothing more. */
  predicate Accounts(initial: set<string>, log: seq<(Port, string)>, finalized: map<Port, string>,
                     registry: set<string>)
  {
    && Distinct(Ports(log)) && Distinct(Datasets(log))
    && (forall i :: 0 <= i < |log| ==> log[i].0 in finalized && finalized[log[i].0] == log[i].1)
    && (forall p :: p in finalized ==> (p, finalized[p]) in log)
    && registry == initial + set i | 0 <= i < |log| :: log[i].1
  }

  /** Every port is finalized at most once, for good, with the one dataset registered for it. */
  lemma {:induction false} EachPortIsFinalizedOnce(c: Config, initial: set<string>, events: seq<Event>)
    requires After(c, Initial(initial), events).Some?
    ensures var t := After(c, Initial(initial), events).value;
            Accounts(initial, Registrations(c, Initial(initial), events), t.finalized, t.registry)
  {
    hide Step, Enabled, Registers, Inv, Accounts;
    if events == [] {
      NothingAccounted(initial);
    } else {
      var s, e := Initial(initial), events[|events| - 1];
      EachPortIsFinalizedOnce(c, initial, Before(events));
      RunBefore(c, s, events);
      RunKeepsInv(c, initial, Before(events));
      var before := After(c, s, Before(events)).value;
      RegistersUnfinalized(c, initial, before, e);
      var log, more := Registrations(c, s, Before(events)), Registers(c, before, e);
      if more == [] {
        assert log + more == log;
      } else {
        assert more == [(more[0].0, more[0].1)];
        AccountsGrow(initial, log, before.finalized, before.registry, more[0].0, more[0].1);
      }
    }
  }

  lemma NothingAccounted(initial: set<string>)
    ensures Accounts(initial, [], map[], initial)
  {
  }

  lemma AccountsGrow(initial: set<string>, log: seq<(Port, string)>, finalized: map<Port, string>,
                     registry: set<string>,
                     port: Port, dataset: string)
    requires Accounts(initial, log, finalized, registry) && port !in finalized && dataset !in registry
    ensures Accounts(initial, log + [(port, dataset)], finalized[port := dataset], registry + {dataset})
  {
    var log', finalized' := log + [(port, dataset)], finalized[port := dataset];
    assert Ports(log') == Ports(log) + [port];
    assert Datasets(log') == Datasets(log) + [dataset];
    forall p | p in finalized' ensures (p, finalized'[p]) in log' {
      if p == port {
        assert log'[|log|] == (port, dataset);
      } else {
        assert (p, finalized[p]) in log;
      }
    }
    forall i | 0 <= i < |log'| ensures log'[i].0 in finalized' && finalized'[log'[i].0] == log'[i].1 {
      assert i < |log| ==> log[i] == log'[i] && log[i].0 in finalized;
    }
    assert (set i | 0 <= i < |log'| :: log'[i].1) == (set i | 0 <= i < |log| :: log[i].1) + {dataset} by {
      assert log'[|log|].1 == dataset;
      assert forall i :: 0 <= i < |log| ==> log'[i] == log[i];
    }
  }

  /** `t` is `s` with the one registration of `log`, if it has one, and that port was not final yet. */
  predicate RegistryStep(s: State, t: State, log: seq<(Port, string)>)
  {
    if log == [] then t.registry == s.registry && t.finalized == s.finalized
    else
      && |log| == 1 && log[0].0 !in s.finalized && log[0].1 !in s.registry
      && t.finalized == s.finalized[log[0].0 := log[0].1] && t.registry == s.registry + {log[0].1}
  }

  lemma RegistersUnfinalized(c: Config, initial: set<string>, s: State, e: Event)
    requires Inv(c, initial, s) && Enabled(s, e)
    ensures RegistryStep(s, Step(c, s, e), Registers(c, s, e))
  {
    hide Step, Enabled, Inv, Registers;
    PortsHold(c, initial, s);
    if e.CommitAnswer? {
      AnswerRegisters(c, s, e);
    } else if e.EphemeralEvent? {
      EphemeralRegistersPort(c, s, e);
    } else {
      RegistryStays(c, s, e);
      NothingRegistered(c, s, e);
    }
  }

  lemma PortsHold(c: Config, initial: set<string>, s: State)
    requires Inv(c, initial, s)
    ensures OpsInv(Busy(s.ops), s.staging, s.staged)
    ensures PortsInv(c.forbidden.Keys, s.claimed, s.finalized.Keys, s.staged, Busy(s.ops))
  {
  }

  lemma NothingRegistered(c: Config, s: State, e: Event)
    requires Enabled(s, e) && Step(c, s, e).registry == s.registry
    ensures Registers(c, s, e) == []
  {
    hide Step;
  }

  lemma AnswerRegisters(c: Config, s: State, e: Event)
    requires Enabled(s, e) && e.CommitAnswer?
    requires OpsInv(Busy(s.ops), s.staging, s.staged)
    requires PortsInv(c.forbidden.Keys, s.claimed, s.finalized.Keys, s.staged, Busy(s.ops))
    ensures RegistryStep(s, Step(c, s, e), Registers(c, s, e))
  {
    hide Busy, OpsInv, PortsInv, Marked;
    CommittingPort(c, s, e.id);
  }

  lemma EphemeralRegistersPort(c: Config, s: State, e: Event)
    requires Enabled(s, e) && e.EphemeralEvent?
    requires PortsInv(c.forbidden.Keys, s.claimed, s.finalized.Keys, s.staged, Busy(s.ops))
    ensures RegistryStep(s, Step(c, s, e), Registers(c, s, e))
  {
    hide Busy, PortsInv, Marked;
    ClaimedPort(c, s);
  }

  lemma ClaimedPort(c: Config, s: State)
    requires PortsInv(c.forbidden.Keys, s.claimed, s.finalized.Keys, s.staged, Busy(s.ops))
    ensures s.finalized.Keys <= s.claimed
  {
  }

  lemma CommittingPort(c: Config, s: State, id: nat)
    requires OpsInv(Busy(s.ops), s.staging, s.staged)
    requires PortsInv(c.forbidden.Keys, s.claimed, s.finalized.Keys, s.staged, Busy(s.ops))
    requires id in s.ops && s.ops[id].Committing?
    ensures s.ops[id].handle in s.staged && s.staged[s.ops[id].handle].port !in s.finalized
  {
    hide Busy;
    BusyAt(s.ops, id);
    CommittingIsFinalizing(Busy(s.ops), s.staging, s.staged, id);
  }

  lemma RegistryStays(c: Config, s: State, e: Event)
    requires Enabled(s, e) && !e.CommitAnswer? && !e.EphemeralEvent?
    ensures Step(c, s, e).registry == s.registry && Step(c, s, e).finalized == s.finalized
  {
    hide Step, Enabled;
    if IsCall(e) {
      CallsKeepRegistry(c, s, e);
    } else if IsClosing(e) {
      ClosingKeepsRegistry(c, s, e);
    } else {
      AnswersKeepRegistry(c, s, e);
    }
  }

  lemma CallsKeepRegistry(c: Config, s: State, e: Event)
    requires Enabled(s, e) && IsCall(e) && !e.EphemeralEvent?
    ensures Step(c, s, e).registry == s.registry && Step(c, s, e).finalized == s.finalized
  {
    hide RequestEffect, AcquireCall, UseCall, StageCall, CommitCall;
  }

  lemma AnswersKeepRegistry(c: Config, s: State, e: Event)
    requires Enabled(s, e) && !IsCall(e) && !IsClosing(e) && !e.CommitAnswer?
    ensures Step(c, s, e).registry == s.registry && Step(c, s, e).finalized == s.finalized
  {
    hide ReaderAnswers, UseAnswers, StageAnswers, DropAnswers, Resume, StoreMayStage;
  }

  lemma ClosingKeepsRegistry(c: Config, s: State, e: Event)
    requires Enabled(s, e) && IsClosing(e)
    ensures Step(c, s, e).registry == s.registry && Step(c, s, e).finalized == s.finalized
  {
    hide CloseCall, Drained, DiscardAnswers, CloseResolves, Abort, StoreMayStage;
  }

  /** Once the broker is closed or aborted, no event registers, finalizes, claims or accepts bytes. */
  lemma {:induction false} NothingHappensAfterClose(c: Config, initial: set<string>, events: seq<Event>,
                                                    more: seq<Event>)
    requires After(c, Initial(initial), events).Some? && !IsOpen(After(c, Initial(initial), events).value)
    requires After(c, Initial(initial), events + more).Some?
    ensures var s, t := After(c, Initial(initial), events).value, After(c, Initial(initial), events + more).value;
            && !IsOpen(t) && t.registry == s.registry && t.finalized == s.finalized
            && t.claimed == s.claimed && t.artifactBytes == s.artifactBytes && t.counts == s.counts
  {
    hide Step, Enabled;
    if more == [] {
      assert events + more == events;
    } else {
      assert Before(events + more) == events + Before(more);
      RunBefore(c, Initial(initial), events + more);
      NothingHappensAfterClose(c, initial, events, Before(more));
      ClosedStep(c, After(c, Initial(initial), events + Before(more)).value, more[|more| - 1]);
    }
  }

  predicate Untouched(s: State, t: State)
  {
    && !IsOpen(t) && t.registry == s.registry && t.finalized == s.finalized
    && t.claimed == s.claimed && t.artifactBytes == s.artifactBytes && t.counts == s.counts
  }

  lemma ClosedStep(c: Config, s: State, e: Event)
    requires Enabled(s, e) && !IsOpen(s)
    ensures Untouched(s, Step(c, s, e))
  {
    hide Step, Enabled;
    if IsCall(e) {
      LateCall(c, s, e);
    } else {
      LateAnswer(c, s, e);
    }
  }

  lemma LateAnswer(c: Config, s: State, e: Event)
    requires Enabled(s, e) && !IsOpen(s) && !IsCall(e)
    ensures Untouched(s, Step(c, s, e))
  {
    hide ReaderAnswers, UseAnswers, StageAnswers, DropAnswers, CommitAnswers, Resume, StoreMayStage;
    if e.StageAnswer? {
      LateStage(s, e.id, e.answer);
    } else if e.CommitAnswer? {
      LateCommit(s, e.id, e.dataset, e.remains);
    } else if IsClosing(e) {
      LateClose(c, s, e);
    }
  }

  predicate IsClosing(e: Event)
  {
    e.CloseEvent? || e.DrainedEvent? || e.DiscardAnswer? || e.CloseResolvedEvent? || e.AbortEvent?
  }

  lemma LateClose(c: Config, s: State, e: Event)
    requires Enabled(s, e) && !IsOpen(s) && IsClosing(e)
    ensures Untouched(s, Step(c, s, e))
  {
    hide CloseCall, Drained, DiscardAnswers, CloseResolves, Untouched, StoreMayStage;
    match e
    case CloseEvent => LateCloseCall(s);
    case DrainedEvent => LateDrain(s);
    case DiscardAnswer(storeId) => LateDiscard(s, storeId);
    case CloseResolvedEvent => LateResolve(s);
    case AbortEvent => LateAbort(s);
  }

  lemma LateCloseCall(s: State)
    requires !IsOpen(s)
    ensures Untouched(s, CloseCall(s))
  {
  }

  lemma LateDrain(s: State)
    requires !IsOpen(s) && s.closing == Draining && s.ops == map[]
    ensures Untouched(s, Drained(s))
  {
  }

  lemma LateDiscard(s: State, storeId: nat)
    requires !IsOpen(s) && s.closing.Discarding? && storeId in s.closing.todo
    ensures Untouched(s, DiscardAnswers(s, storeId))
  {
  }

  lemma LateResolve(s: State)
    requires !IsOpen(s) && s.closing == Discarding({})
    ensures Untouched(s, CloseResolves(s))
  {
  }

  lemma LateAbort(s: State)
    requires !IsOpen(s)
    ensures Untouched(s, Abort(s))
  {
  }

  /** The events the stage's plugin starts. */
  predicate IsCall(e: Event)
  {
    e.RequestEffectEvent? || e.AcquireEvent? || e.UseEvent? || e.StageEvent? || e.CommitEvent? || e.EphemeralEvent?
  }

  lemma LateCall(c: Config, s: State, e: Event)
    requires Enabled(s, e) && !IsOpen(s) && IsCall(e)
    ensures Step(c, s, e) == s
  {
    hide RequestEffect, AcquireCall, UseCall, StageCall, CommitCall, EphemeralCall;
  }

  lemma LateStage(s: State, id: nat, answer: Option<StoredArtifact>)
    requires id in s.ops && s.ops[id].Staging? && !IsOpen(s)
    ensures Untouched(s, StageAnswers(s, id, answer))
  {
  }

  lemma LateCommit(s: State, id: nat, dataset: Option<string>, remains: bool)
    requires id in s.ops && s.ops[id].Committing? && s.ops[id].handle in s.staged && !IsOpen(s)
    ensures Untouched(s, CommitAnswers(s, id, dataset, remains))
  {
  }

  // Bytes

  /** The bytes an event adds to the stage: those of an artifact the store staged while the broker was open. */
  function Accepted(s: State, e: Event): nat
  {
    if e.StageAnswer? && e.answer.Some? && IsOpen(s) then e.answer.value.bytes else 0
  }

  function AcceptedBytes(c: Config, s: State, events: seq<Event>): nat
    requires After(c, s, events).Some?
  {
    if events == [] then 0
    else
      RunBefore(c, s, events);
      AcceptedBytes(c, s, Before(events)) + Accepted(After(c, s, Before(events)).value, events[|events| - 1])
  }

  /** All bytes ever staged fit the stage's reservation, and until close they are the staged entries' sizes. */
  lemma {:induction false} BytesAreConserved(c: Config, initial: set<string>, events: seq<Event>)
    requires After(c, Initial(initial), events).Some?
    ensures var t := After(c, Initial(initial), events).value;
            && AcceptedBytes(c, Initial(initial), events) == t.artifactBytes <= c.maxArtifactBytes
            && (t.closing != Closed ==> t.artifactBytes == Bytes(t.staged, t.nextId))
  {
    hide Step, Enabled, OpsInv, PortsInv, StoreInv, RegistryInv, GrantsInv;
    RunKeepsInv(c, initial, events);
    if events != [] {
      BytesAreConserved(c, initial, Before(events));
      RunBefore(c, Initial(initial), events);
      AcceptedStep(c, After(c, Initial(initial), Before(events)).value, events[|events| - 1]);
    }
  }

  lemma AcceptedStep(c: Config, s: State, e: Event)
    requires Enabled(s, e)
    ensures Step(c, s, e).artifactBytes == s.artifactBytes + Accepted(s, e)
  {
    hide RequestEffect, AcquireCall, ReaderAnswers, UseCall, UseAnswers, StageCall, StageAnswers, DropAnswers,
         CommitCall, CommitAnswers, EphemeralCall, Resume, StoreMayStage;
    match e
    case StageAnswer(id, answer) => StagedBytes(s, id, answer);
    case _ =>
  }

  lemma StagedBytes(s: State, id: nat, answer: Option<StoredArtifact>)
    requires id in s.ops && s.ops[id].Staging?
    ensures StageAnswers(s, id, answer).artifactBytes == s.artifactBytes + Accepted(s, StageAnswer(id, answer))
  {
  }

  // Reads

  predicate CallsReader(c: Config, s: State, e: Event, key: EffectKey)
    requires Enabled(s, e)
  {
    Begun(c, s, e).Some? && Begun(c, s, e).value.Reading? && Begun(c, s, e).value.key == key
  }

  /** How often readers are asked for `key`. */
  function Reads(c: Config, s: State, events: seq<Event>, key: EffectKey): nat
    requires After(c, s, events).Some?
  {
    if events == [] then 0
    else
      RunBefore(c, s, events);
      Reads(c, s, Before(events), key) + if CallsReader(c, After(c, s, Before(events)).value, events[|events| - 1],
                                                        key) then 1 else 0
  }

  /**
   * The reader of an undeclared operation is never asked, that of a declared one with a positive limit at most once.
   */
  lemma EachReadHappensOnce(c: Config, initial: set<string>, events: seq<Event>, key: EffectKey)
    requires After(c, Initial(initial), events).Some?
    ensures FindGrant(c.effects, key).None? ==> Reads(c, Initial(initial), events, key) == 0
    ensures FindGrant(c.effects, key).Some? && FindGrant(c.effects, key).value.maxRecords > 0 ==>
              Reads(c, Initial(initial), events, key) <= 1
  {
    hide Step, Enabled, OpsInv, PortsInv, StoreInv, RegistryInv, BytesInv, FindGrant, CallsReader;
    ReadsAreCharged(c, initial, events, key);
    RunKeepsInv(c, initial, events);
    var n := Reads(c, Initial(initial), events, key);
    if FindGrant(c.effects, key).Some? && n > 1 {
      var most := FindGrant(c.effects, key).value.maxRecords;
      assert n * most >= 2 * most by { Times(n, 2, most); }
    }
  }

  lemma Times(n: nat, m: nat, k: nat)
    requires n >= m
    ensures n * k >= m * k
  {
  }

  lemma {:induction false} ReadsAreCharged(c: Config, initial: set<string>, events: seq<Event>, key: EffectKey)
    requires After(c, Initial(initial), events).Some?
    ensures FindGrant(c.effects, key).None? ==> Reads(c, Initial(initial), events, key) == 0
    ensures FindGrant(c.effects, key).Some? ==>
              Reads(c, Initial(initial), events, key) * FindGrant(c.effects, key).value.maxRecords
              <= Count(After(c, Initial(initial), events).value, key)
  {
    hide Step, Enabled, FindGrant, Authorizes;
    if events != [] {
      ReadsAreCharged(c, initial, Before(events), key);
      RunBefore(c, Initial(initial), events);
      ReadCharge(c, After(c, Initial(initial), Before(events)).value, events[|events| - 1], key);
    }
  }

  lemma ReadCharge(c: Config, s: State, e: Event, key: EffectKey)
    requires Enabled(s, e)
    ensures Count(Step(c, s, e), key) >= Count(s, key)
    ensures CallsReader(c, s, e, key) ==>
              FindGrant(c.effects, key).Some?
              && Count(Step(c, s, e), key) == Count(s, key) + FindGrant(c.effects, key).value.maxRecords
  {
    hide Step, FindGrant, Count, Enabled;
    CountNeverFalls(c, s, e, key);
    if CallsReader(c, s, e, key) {
      BegunShape(c, s, e);
      ReaderIsCharged(c, s, e, key);
    }
  }

  lemma ReaderIsCharged(c: Config, s: State, e: Event, key: EffectKey)
    requires Enabled(s, e) && CallsReader(c, s, e, key) && e.AcquireEvent? && e.key == key
    ensures FindGrant(c.effects, key).Some?
    ensures Count(Step(c, s, e), key) == Count(s, key) + FindGrant(c.effects, key).value.maxRecords
  {
    hide FindGrant, AcquireCall, Authorizes, Count;
  }

  lemma CountNeverFalls(c: Config, s: State, e: Event, key: EffectKey)
    requires Enabled(s, e)
    ensures Count(Step(c, s, e), key) >= Count(s, key)
  {
    if e.CommitEvent? {
      CommitCharges(c, s, e.staged, e.port, e.source, e.bound, key);
    } else if e.AcquireEvent? {
      AcquireCharges(c, s, e.key, e.hasReader, key);
    } else if e.RequestEffectEvent? {
      ChargeRaises(s, e.key, e.records, key);
    } else {
      CountsStay(c, s, e);
    }
    hide FindGrant, CommitCall, AcquireCall, Authorizes, StoreMayStage, Charge;
  }

  lemma AcquireCharges(c: Config, s: State, asked: EffectKey, hasReader: bool, key: EffectKey)
    ensures Count(AcquireCall(c, s, asked, hasReader).0, key) >= Count(s, key)
  {
    hide FindGrant, Authorizes, Begins;
    if FindGrant(c.effects, asked).Some? {
      ChargeRaises(s, asked, FindGrant(c.effects, asked).value.maxRecords, key);
    }
    hide Charge, Count;
  }

  lemma ChargeRaises(s: State, asked: EffectKey, records: nat, key: EffectKey)
    ensures Count(Charge(s, asked, records), key) >= Count(s, key)
  {
  }

  lemma CountsStay(c: Config, s: State, e: Event)
    requires Enabled(s, e) && !e.AcquireEvent? && !e.RequestEffectEvent? && !e.CommitEvent?
    ensures Step(c, s, e).counts == s.counts
  {
    hide Step, Enabled;
    if IsCall(e) {
      CallsKeepCounts(c, s, e);
    } else if IsClosing(e) {
      ClosingKeepsCounts(c, s, e);
    } else {
      AnswersKeepCounts(c, s, e);
    }
  }

  lemma CallsKeepCounts(c: Config, s: State, e: Event)
    requires Enabled(s, e) && (e.UseEvent? || e.StageEvent? || e.EphemeralEvent?)
    ensures Step(c, s, e).counts == s.counts
  {
    hide UseCall, StageCall, EphemeralCall;
  }

  lemma AnswersKeepCounts(c: Config, s: State, e: Event)
    requires Enabled(s, e) && !IsCall(e) && !IsClosing(e)
    ensures Step(c, s, e).counts == s.counts
  {
    hide ReaderAnswers, UseAnswers, StageAnswers, DropAnswers, CommitAnswers, Resume, StoreMayStage;
  }

  lemma ClosingKeepsCounts(c: Config, s: State, e: Event)
    requires Enabled(s, e) && IsClosing(e)
    ensures Step(c, s, e).counts == s.counts
  {
    hide CloseCall, Drained, DiscardAnswers, CloseResolves, Abort, StoreMayStage;
  }

  lemma CommitCharges(c: Config, s: State, h: nat, port: Port, source: Option<nat>, bound: bool, key: EffectKey)
    ensures Count(CommitCall(c, s, h, port, source, bound).0, key) >= Count(s, key)
  {
    hide CommitCall, WriteKey;
  }

  // Acquisitions

  /** The acquisition exists no more for the stage's plugin: it was committed, registered or failed. */
  predicate IsSpent(s: State, a: nat)
  {
    a < s.nextId && (a in s.acquisitions ==> s.acquisitions[a].status != Open)
  }

  /** The event starts the commit of an artifact of the acquisition, or registers it as an ephemeral dataset. */
  predicate SpendsAcquisition(c: Config, s: State, e: Event, a: nat)
    requires Enabled(s, e)
  {
    || (e.CommitEvent? && e.source == Some(a) && Begun(c, s, e).Some? && Begun(c, s, e).value.Committing?)
    || (e.EphemeralEvent? && e.acquisition == a && Step(c, s, e).registry != s.registry)
  }

  function Finalizations(c: Config, s: State, events: seq<Event>, a: nat): nat
    requires After(c, s, events).Some?
  {
    if events == [] then 0
    else
      RunBefore(c, s, events);
      Finalizations(c, s, Before(events), a)
      + if SpendsAcquisition(c, After(c, s, Before(events)).value, events[|events| - 1], a) then 1 else 0
  }

  /** The state in which the store is asked for the commit. */
  function Asked(s: State, h: nat, source: Option<nat>, counts: map<EffectKey, nat>): State
    requires h in s.staged
  {
    Begin(SetStaged(SetAcquisition(s.(counts := counts), source, Finalizing), h, Finalizing), Committing(h))
  }

  predicate IsAcquired(s: State, source: Option<nat>)
  {
    source.Some? ==> source.value in s.acquisitions && s.acquisitions[source.value].status == Open
  }

  lemma CommitOutcomes(c: Config, s: State, h: nat, port: Port, source: Option<nat>, bound: bool)
    ensures var t := CommitCall(c, s, h, port, source, bound).0;
            || t == s || t == Begin(s, Settled(false))
            || t == Begin(SetAcquisition(s, source, Finalizing), Settled(false))
            || t == Begin(SetAcquisition(s, source, Failed), Settled(false))
            || (h in s.staged && IsAcquired(s, source) && exists counts :: t == Asked(s, h, source, counts))
  {
    hide WriteKey, Authorizes, SetStaged, SetAcquisition, Begin, Begins, Charge, Asked;
    if h in s.staged && WriteKey(c).Some? {
      AskedAfterCharge(s, h, source, WriteKey(c).value);
    }
  }

  lemma AskedAfterCharge(s: State, h: nat, source: Option<nat>, key: EffectKey)
    requires h in s.staged
    ensures var charged := Charge(s, key, s.staged[h].records);
            Asked(s, h, source, charged.counts) ==
              Begin(SetStaged(SetAcquisition(charged, source, Finalizing), h, Finalizing), Committing(h))
  {
  }

  /** What a commit call does to the acquisition it rests on. */
  lemma CommitMarks(c: Config, s: State, h: nat, port: Port, source: Option<nat>, bound: bool)
    requires s.nextId !in s.ops
    ensures var t := CommitCall(c, s, h, port, source, bound).0;
            && (t.acquisitions == s.acquisitions || t.acquisitions == Marked(s.acquisitions, source, Failed)
                || t.acquisitions == Marked(s.acquisitions, source, Finalizing))
            && (s.nextId in t.ops && t.ops[s.nextId] == Committing(h) ==>
                  t.acquisitions == Marked(s.acquisitions, source, Finalizing) && IsAcquired(s, source))
  {
    hide CommitCall, Marked, Begins;
    CommitOutcomes(c, s, h, port, source, bound);
  }

  lemma CommitSpends(c: Config, s: State, h: nat, port: Port, source: Option<nat>, bound: bool, a: nat)
    requires IdsInv(s.ops, s.acquisitions, s.staged, s.nextId)
    ensures IsSpent(s, a) ==> IsSpent(CommitCall(c, s, h, port, source, bound).0, a)
    ensures var t := CommitCall(c, s, h, port, source, bound).0;
            s.nextId in t.ops && t.ops[s.nextId] == Committing(h) && source == Some(a) ==>
              !IsSpent(s, a) && IsSpent(CommitCall(c, s, h, port, source, bound).0, a)
  {
    hide CommitCall, Begins;
    assert s.nextId !in s.ops;
    CommitMarks(c, s, h, port, source, bound);
  }

  lemma EphemeralSpends(c: Config, s: State, source: nat, port: Port, bound: bool, valid: bool, handle: string, a: nat)
    requires IdsInv(s.ops, s.acquisitions, s.staged, s.nextId)
    ensures var t := EphemeralCall(c, s, source, port, bound, valid, handle).0;
            && (IsSpent(s, a) ==> IsSpent(t, a))
            && (t.registry != s.registry && a == source ==> !IsSpent(s, a) && IsSpent(t, a))
  {
  }

  lemma AnswerKeepsSpent(s: State, e: Event, a: nat)
    requires Enabled(s, e) && (e.ReaderAnswer? || e.CommitAnswer?) && IsSpent(s, a)
    ensures e.ReaderAnswer? ==> IsSpent(ReaderAnswers(s, e.id, e.recordCount, e.attested), a)
    ensures e.CommitAnswer? ==> IsSpent(CommitAnswers(s, e.id, e.dataset, e.remains), a)
  {
  }

  lemma OthersKeepSpent(c: Config, s: State, e: Event, a: nat)
    requires Enabled(s, e) && IsSpent(s, a)
    requires !e.ReaderAnswer? && !e.CommitAnswer? && !e.CommitEvent? && !e.EphemeralEvent?
    ensures IsSpent(Step(c, s, e), a)
  {
    hide RequestEffect, AcquireCall, UseCall, UseAnswers, StageCall, StageAnswers, DropAnswers, Resume, StoreMayStage;
  }

  lemma SpendingStep(c: Config, initial: set<string>, s: State, e: Event, a: nat)
    requires Inv(c, initial, s) && Enabled(s, e)
    ensures IsSpent(s, a) ==> IsSpent(Step(c, s, e), a) && !SpendsAcquisition(c, s, e, a)
    ensures SpendsAcquisition(c, s, e, a) ==> IsSpent(Step(c, s, e), a)
  {
    hide CommitCall, EphemeralCall, ReaderAnswers, CommitAnswers, IsSpent, OpsInv, PortsInv, BytesInv, GrantsInv,
         StoreInv, RegistryInv;
    if e.CommitEvent? {
      CommitSpends(c, s, e.staged, e.port, e.source, e.bound, a);
    } else if e.EphemeralEvent? {
      EphemeralSpends(c, s, e.acquisition, e.port, e.bound, e.valid, e.handle, a);
    } else if IsSpent(s, a) {
      if e.ReaderAnswer? || e.CommitAnswer? {
        AnswerKeepsSpent(s, e, a);
      } else {
        OthersKeepSpent(c, s, e, a);
      }
    }
  }

  /** An acquisition is committed or registered at most once, however its artifacts are staged and finalized. */
  lemma {:induction false} EachAcquisitionIsFinalizedOnce(c: Config, initial: set<string>, events: seq<Event>, a: nat)
    requires After(c, Initial(initial), events).Some?
    ensures Finalizations(c, Initial(initial), events, a) <= 1
    ensures Finalizations(c, Initial(initial), events, a) == 1 ==> IsSpent(After(c, Initial(initial), events).value, a)
  {
    hide Step, Enabled, Inv, SpendsAcquisition, IsSpent;
    if events != [] {
      EachAcquisitionIsFinalizedOnce(c, initial, Before(events), a);
      RunBefore(c, Initial(initial), events);
      RunKeepsInv(c, initial, Before(events));
      SpendingStep(c, initial, After(c, Initial(initial), Before(events)).value, events[|events| - 1], a);
    }
  }
}
