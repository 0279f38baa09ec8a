/**
 * Runs of the stage broker: every interleaving of calls, answers, resumptions, abort and close,
 * and the invariant all reachable states share.
 */
module BrokerRuns {
  import opened Wrappers
  import opened BrokerState

  datatype Event =
    | RequestEffectEvent(key: EffectKey, records: nat)
    | AcquireEvent(key: EffectKey, hasReader: bool)
    | ReaderAnswer(id: nat, recordCount: Option<nat>, attested: bool)
    | UseEvent
    | UseAnswer(id: nat, ok: bool)
    | StageEvent(port: Port, source: Option<nat>, bound: bool, valid: bool)
    | StageAnswer(id: nat, answer: Option<StoredArtifact>)
    | DropAnswer(id: nat, ok: bool)
    | CommitEvent(staged: nat, port: Port, source: Option<nat>, bound: bool)
    | CommitAnswer(id: nat, dataset: Option<string>, remains: bool)
    | EphemeralEvent(acquisition: nat, port: Port, bound: bool, valid: bool, handle: string)
    | ResumeEvent(id: nat)
    | CloseEvent
    | DrainedEvent
    | DiscardAnswer(storeId: nat)
    | CloseResolvedEvent
    | AbortEvent

  /** Calls may come at any time; answers only to operations that wait for them. */
  predicate Enabled(s: State, e: Event)
  {
    match e
    case ReaderAnswer(id, _, _) => id in s.ops && s.ops[id].Reading?
    case UseAnswer(id, _) => id in s.ops && s.ops[id].Using?
    case StageAnswer(id, answer) => id in s.ops && s.ops[id].Staging? && StoreMayStage(s, id, answer)
    case DropAnswer(id, _) => id in s.ops && s.ops[id].Dropping?
    case CommitAnswer(id, _, _) => id in s.ops && s.ops[id].Committing? && s.ops[id].handle in s.staged
    case ResumeEvent(id) => id in s.ops && s.ops[id].Settled?
    case DrainedEvent => s.closing == Draining && s.ops == map[]
    case DiscardAnswer(storeId) => s.closing.Discarding? && storeId in s.closing.todo
    case CloseResolvedEvent => s.closing == Discarding({})
    case _ => true
  }

  function Step(c: Config, s: State, e: Event): State
    requires Enabled(s, e)
  {
    match e
    case RequestEffectEvent(key, records) => RequestEffect(c, s, key, records).0
    case AcquireEvent(key, hasReader) => AcquireCall(c, s, key, hasReader).0
    case ReaderAnswer(id, records, attested) => ReaderAnswers(s, id, records, attested)
    case UseEvent => UseCall(s).0
    case UseAnswer(id, ok) => UseAnswers(s, id, ok)
    case StageEvent(port, source, bound, valid) => StageCall(c, s, port, source, bound, valid).0
    case StageAnswer(id, answer) => StageAnswers(s, id, answer)
    case DropAnswer(id, ok) => DropAnswers(s, id, ok)
    case CommitEvent(handle, port, source, bound) => CommitCall(c, s, handle, port, source, bound).0
    case CommitAnswer(id, dataset, remains) => CommitAnswers(s, id, dataset, remains)
    case EphemeralEvent(source, port, bound, valid, handle) => EphemeralCall(c, s, source, port, bound, valid, handle).0
    case ResumeEvent(id) => Resume(s, id).0
    case CloseEvent => CloseCall(s)
    case DrainedEvent => Drained(s)
    case DiscardAnswer(storeId) => DiscardAnswers(s, storeId)
    case CloseResolvedEvent => CloseResolves(s)
    case AbortEvent => Abort(s)
  }

  /** The states `events` leads through from `s`, or `None` once one of them could not happen. */
  function After(c: Config, s: State, events: seq<Event>): Option<State>
  {
    if events == [] then Some(s)
    else
      var before := After(c, s, events[..|events| - 1]);
      if before.Some? && Enabled(before.value, events[|events| - 1]) then
        Some(Step(c, before.value, events[|events| - 1]))
      else None
  }

  // The invariant

  predicate IsPlain(op: Op)
  {
    op.Reading? || op.Using? || op.Settled?
  }

  /** The operations that hold a resource: the staging slot, a store artifact or a staged entry. */
  function Busy(ops: map<nat, Op>): map<nat, Op>
  {
    map i | i in ops && !IsPlain(ops[i]) :: ops[i]
  }

  predicate IdsInv(ops: map<nat, Op>, acquisitions: map<nat, Acquisition>, staged: map<nat, Staged>, nextId: nat)
  {
    && (forall id :: id in ops ==> id < nextId)
    && (forall a :: a in acquisitions ==> a < nextId)
    && (forall h :: h in staged ==> h < nextId)
  }

  /** One operation at most holds the staging slot, and exactly one commits each finalizing entry. */
  predicate OpsInv(busy: map<nat, Op>, staging: bool, staged: map<nat, Staged>)
  {
    && (forall i, j :: i in busy && j in busy && !busy[i].Committing? && !busy[j].Committing? ==> i == j)
    && (staging <==> exists i :: i in busy && !busy[i].Committing?)
    && (forall i :: i in busy && busy[i].Committing? ==>
          busy[i].handle in staged && staged[busy[i].handle].status == Finalizing)
    && (forall i, j :: i in busy && j in busy && busy[i] == busy[j] ==> i == j)
    && (forall h :: h in staged && staged[h].status == Finalizing ==> exists i :: i in busy && busy[i] == Committing(h))
  }

  /** A port has at most one staging operation or staged entry, and is finalized when that entry is. */
  predicate PortsInv(declared: set<Port>, claimed: set<Port>, finalized: set<Port>, staged: map<nat, Staged>,
                     busy: map<nat, Op>)
  {
    && finalized <= claimed <= declared
    && (forall h :: h in staged ==> staged[h].port in claimed)
    && (forall g, h :: g in staged && h in staged && staged[g].port == staged[h].port ==> g == h)
    && (forall i :: i in busy && busy[i].Staging? ==> busy[i].port in claimed && busy[i].port !in finalized)
    && (forall i, h :: i in busy && busy[i].Staging? && h in staged ==> staged[h].port != busy[i].port)
    && (forall h :: h in staged ==> (staged[h].status == Finalized <==> staged[h].port in finalized))
  }

  function Bytes(staged: map<nat, Staged>, n: nat): nat
  {
    if n == 0 then 0 else Bytes(staged, n - 1) + if n - 1 in staged then staged[n - 1].bytes else 0
  }

  /** Whoever stages was promised exactly the bytes that are left. */
  predicate BytesInv(limit: nat, artifactBytes: nat, busy: map<nat, Op>)
  {
    && artifactBytes <= limit
    && (forall i :: i in busy && busy[i].Staging? ==> busy[i].maxBytes + artifactBytes == limit)
  }

  predicate GrantsInv(effects: seq<Effect>, counts: map<EffectKey, nat>, ops: map<nat, Op>)
  {
    && (forall key :: key in counts ==>
          FindGrant(effects, key).Some? && counts[key] <= FindGrant(effects, key).value.maxRecords)
    && (forall i :: i in ops && ops[i].Reading? ==>
          FindGrant(effects, ops[i].key).Some? && ops[i].maxRecords == FindGrant(effects, ops[i].key).value.maxRecords)
  }

  /** Store copy `a` still has an owner that will finalize or discard it. */
  predicate IsOwned(a: nat, staged: map<nat, Staged>, busy: map<nat, Op>)
  {
    || (exists h :: h in staged && staged[h].storeId == a && staged[h].status != Finalized)
    || (exists i :: i in busy && busy[i] == Dropping(a))
  }

  predicate StoreInv(store: set<nat>, refused: set<nat>, staged: map<nat, Staged>, busy: map<nat, Op>, closing: Closing)
  {
    forall a :: a in store && a !in refused ==>
      if closing.Discarding? then a in closing.todo else !closing.Closed? && IsOwned(a, staged, busy)
  }

  predicate ClosingInv(closed: bool, closing: Closing, noOps: bool, noneStaged: bool)
  {
    && (closed <==> closing != NotClosing)
    && (closing.Discarding? || closing.Closed? ==> noOps)
    && (closing.Closed? ==> noneStaged)
  }

  /** What the run's registry gained, it gained through a finalized port, one dataset a port. */
  predicate RegistryInv(initial: set<string>, registry: set<string>, finalized: map<Port, string>)
  {
    && registry == initial + finalized.Values
    && finalized.Values !! initial
    && (forall p, q :: p in finalized && q in finalized && finalized[p] == finalized[q] ==> p == q)
  }

  predicate Inv(c: Config, initial: set<string>, s: State)
  {
    && IdsInv(s.ops, s.acquisitions, s.staged, s.nextId)
    && OpsInv(Busy(s.ops), s.staging, s.staged)
    && PortsInv(c.forbidden.Keys, s.claimed, s.finalized.Keys, s.staged, Busy(s.ops))
    && BytesInv(c.maxArtifactBytes, s.artifactBytes, Busy(s.ops))
    && (s.closing != Closed ==> s.artifactBytes == Bytes(s.staged, s.nextId))
    && GrantsInv(c.effects, s.counts, s.ops)
    && StoreInv(s.store, s.refused, s.staged, Busy(s.ops), s.closing)
    && ClosingInv(s.closed, s.closing, s.ops == map[], s.staged == map[])
    && RegistryInv(initial, s.registry, s.finalized)
  }

  lemma {:induction false} BytesFrame(a: map<nat, Staged>, b: map<nat, Staged>, n: nat)
    requires forall h :: h < n ==> (h in a <==> h in b)
    requires forall h :: h < n && h in a ==> a[h].bytes == b[h].bytes
    ensures Bytes(a, n) == Bytes(b, n)
  {
    if n > 0 {
      BytesFrame(a, b, n - 1);
    }
  }

  lemma {:induction false} BytesBeyond(a: map<nat, Staged>, n: nat, m: nat)
    requires n <= m
    requires forall h :: h in a ==> h < n
    ensures Bytes(a, m) == Bytes(a, n)
  {
    if n < m {
      BytesBeyond(a, n, m - 1);
    }
  }

  // How the small state changes keep the invariant

  lemma BusyUpdate(ops: map<nat, Op>, id: nat, op: Op)
    ensures Busy(ops[id := op]) == if IsPlain(op) then Busy(ops) - {id} else Busy(ops)[id := op]
    ensures Busy(ops - {id}) == Busy(ops) - {id}
    ensures id in ops ==> (id in Busy(ops) <==> !IsPlain(ops[id]))
    ensures id !in Busy(ops) ==> Busy(ops) - {id} == Busy(ops)
  {
  }

  lemma BeginKeeps(c: Config, initial: set<string>, s: State, op: Op)
    requires Inv(c, initial, s) && !s.closed
    requires op.Settled? || op.Using? || (op.Reading? && FindGrant(c.effects, op.key).Some?
                                          && op.maxRecords == FindGrant(c.effects, op.key).value.maxRecords)
    ensures Inv(c, initial, Begin(s, op))
  {
    hide Bytes, FindGrant, Busy, OpsInv, PortsInv, BytesInv, StoreInv, RegistryInv;
    BytesBeyond(s.staged, s.nextId, s.nextId + 1);
    BusyUpdate(s.ops, s.nextId, op);
    BusyBelow(s.ops);
  }

  lemma BusyBelow(ops: map<nat, Op>)
    ensures Busy(ops).Keys <= ops.Keys
  {
  }

  lemma SettleKeeps(c: Config, initial: set<string>, s: State, id: nat, ok: bool)
    requires Inv(c, initial, s) && id in s.ops && IsPlain(s.ops[id])
    ensures Inv(c, initial, Settle(s, id, ok))
  {
    hide Bytes, FindGrant, Busy, OpsInv, PortsInv, BytesInv, StoreInv, RegistryInv;
    BusyUpdate(s.ops, id, Settled(ok));
  }

  lemma ResumeKeeps(c: Config, initial: set<string>, s: State, id: nat)
    requires Inv(c, initial, s) && id in s.ops && s.ops[id].Settled?
    ensures Inv(c, initial, Resume(s, id).0)
  {
    hide Bytes, FindGrant, Busy, OpsInv, PortsInv, BytesInv, StoreInv, RegistryInv;
    BusyUpdate(s.ops, id, Settled(true));
  }

  lemma ChargeKeeps(c: Config, initial: set<string>, s: State, key: EffectKey, records: nat)
    requires Inv(c, initial, s) && Authorizes(c, s, key, records)
    ensures Inv(c, initial, Charge(s, key, records))
  {
    hide Bytes, FindGrant, Busy, IdsInv, OpsInv, PortsInv, BytesInv, StoreInv, RegistryInv, ClosingInv;
  }

  lemma ClaimKeeps(c: Config, initial: set<string>, s: State, port: Port)
    requires Inv(c, initial, s) && Claimable(c, s, port)
    ensures Inv(c, initial, Claim(s, port))
    ensures port !in s.finalized && forall h :: h in s.staged ==> s.staged[h].port != port
  {
    hide Bytes, FindGrant, Busy, IdsInv, OpsInv, BytesInv, StoreInv, RegistryInv, ClosingInv, GrantsInv;
  }

  lemma SetAcquisitionKeeps(c: Config, initial: set<string>, s: State, source: Option<nat>, status: Status)
    requires Inv(c, initial, s)
    ensures Inv(c, initial, SetAcquisition(s, source, status))
  {
    hide Bytes, FindGrant, Busy, OpsInv, PortsInv, BytesInv, StoreInv, RegistryInv, ClosingInv, GrantsInv;
  }

  // The steps

  lemma AcquireKeeps(c: Config, initial: set<string>, s: State, key: EffectKey, hasReader: bool)
    requires Inv(c, initial, s)
    ensures Inv(c, initial, AcquireCall(c, s, key, hasReader).0)
  {
    hide Inv, Authorizes, FindGrant;
    if IsOpen(s) {
      var declaration := FindGrant(c.effects, key);
      if declaration.Some? && Authorizes(c, s, key, declaration.value.maxRecords) {
        var charged := Charge(s, key, declaration.value.maxRecords);
        ChargeKeeps(c, initial, s, key, declaration.value.maxRecords);
        var asks := c.isSource && hasReader;
        BeginKeeps(c, initial, charged, if asks then Reading(key, declaration.value.maxRecords) else Settled(false));
      } else {
        BeginKeeps(c, initial, s, Settled(false));
      }
    }
  }

  lemma ReaderAnswersKeep(c: Config, initial: set<string>, s: State, id: nat, records: Option<nat>, attested: bool)
    requires Inv(c, initial, s) && id in s.ops && s.ops[id].Reading?
    ensures Inv(c, initial, ReaderAnswers(s, id, records, attested))
  {
    hide Inv, Busy;
    if records.None? || !IsOpen(s) || records.value > s.ops[id].maxRecords || !attested {
      SettleKeeps(c, initial, s, id, false);
    } else {
      var t := s.(acquisitions := s.acquisitions[s.nextId := Acquisition(s.ops[id].key, records.value, Open)],
                  nextId := s.nextId + 1);
      assert Inv(c, initial, t) by { AcquisitionAdded(c, initial, s, Acquisition(s.ops[id].key, records.value, Open)); }
      SettleKeeps(c, initial, t, id, true);
    }
  }

  lemma AcquisitionAdded(c: Config, initial: set<string>, s: State, entry: Acquisition)
    requires Inv(c, initial, s)
    ensures Inv(c, initial, s.(acquisitions := s.acquisitions[s.nextId := entry], nextId := s.nextId + 1))
  {
    hide Bytes, FindGrant, Busy, OpsInv, PortsInv, BytesInv, StoreInv, RegistryInv, ClosingInv, GrantsInv;
    BytesBeyond(s.staged, s.nextId, s.nextId + 1);
  }

  lemma OpsWithStager(busy: map<nat, Op>, staged: map<nat, Staged>, id: nat, op: Op)
    requires OpsInv(busy, false, staged) && id !in busy && !op.Committing?
    ensures OpsInv(busy[id := op], true, staged)
  {
    var busy' := busy[id := op];
    assert busy'[id] == op;
    assert forall i :: i in busy ==> i in busy' && busy'[i] == busy[i];
  }

  lemma OpsWithoutStager(busy: map<nat, Op>, staged: map<nat, Staged>, id: nat)
    requires OpsInv(busy, true, staged) && id in busy && !busy[id].Committing?
    ensures OpsInv(busy - {id}, false, staged)
  {
    var busy' := busy - {id};
    assert forall i :: i in busy && i != id ==> i in busy' && busy'[i] == busy[i];
  }

  lemma PortsWithStager(declared: set<Port>, claimed: set<Port>, finalized: set<Port>, staged: map<nat, Staged>,
                        busy: map<nat, Op>, id: nat, op: Op)
    requires PortsInv(declared, claimed, finalized, staged, busy)
    requires op.Staging? && op.port in declared && op.port !in claimed
    ensures PortsInv(declared, claimed + {op.port}, finalized, staged, busy[id := op])
  {
  }

  lemma StageKeeps(c: Config, initial: set<string>, s: State, port: Port, source: Option<nat>)
    requires Inv(c, initial, s) && IsOpen(s) && !s.staging && Claimable(c, s, port)
    ensures Inv(c, initial, Begin(Claim(s, port).(staging := true), Staging(port, source, Remaining(c, s))))
  {
    hide Bytes, FindGrant, Busy, OpsInv, PortsInv, StoreInv, RegistryInv, GrantsInv;
    var op := Staging(port, source, Remaining(c, s));
    BytesBeyond(s.staged, s.nextId, s.nextId + 1);
    BusyUpdate(s.ops, s.nextId, op);
    BusyBelow(s.ops);
    OpsWithStager(Busy(s.ops), s.staged, s.nextId, op);
    PortsWithStager(c.forbidden.Keys, s.claimed, s.finalized.Keys, s.staged, Busy(s.ops), s.nextId, op);
    StoreAfterBusy(s.store, s.refused, s.staged, Busy(s.ops), Busy(s.ops)[s.nextId := op], s.closing);
    GrantsAfterOp(c.effects, s.counts, s.ops, s.nextId, op);
  }

  lemma GrantsAfterOp(effects: seq<Effect>, counts: map<EffectKey, nat>, ops: map<nat, Op>, id: nat, op: Op)
    requires GrantsInv(effects, counts, ops) && !op.Reading?
    ensures GrantsInv(effects, counts, ops[id := op])
  {
    hide FindGrant;
  }

  lemma StoreAfterBusy(store: set<nat>, refused: set<nat>, staged: map<nat, Staged>, busy: map<nat, Op>,
                       busy': map<nat, Op>, closing: Closing)
    requires StoreInv(store, refused, staged, busy, closing)
    requires forall i :: i in busy && busy[i].Dropping? ==> i in busy' && busy'[i] == busy[i]
    ensures StoreInv(store, refused, staged, busy', closing)
  {
    forall a | a in store && a !in refused && IsOwned(a, staged, busy) ensures IsOwned(a, staged, busy') {
      if i :| i in busy && busy[i] == Dropping(a) {
        assert busy'[i] == Dropping(a);
      }
    }
  }

  lemma OpsWithEntry(busy: map<nat, Op>, staging: bool, staged: map<nat, Staged>, h: nat, entry: Staged)
    requires OpsInv(busy, staging, staged) && h !in staged && entry.status == Open
    ensures OpsInv(busy, staging, staged[h := entry])
  {
    var staged' := staged[h := entry];
    assert forall g :: g in staged ==> staged'[g] == staged[g];
  }

  lemma PortsWithEntry(declared: set<Port>, claimed: set<Port>, finalized: set<Port>, staged: map<nat, Staged>,
                       busy: map<nat, Op>, id: nat, h: nat, entry: Staged)
    requires PortsInv(declared, claimed, finalized, staged, busy)
    requires id in busy && busy[id].Staging? && h !in staged && entry.status == Open && entry.port == busy[id].port
    requires forall i :: i in busy && busy[i].Staging? ==> i == id
    ensures PortsInv(declared, claimed, finalized, staged[h := entry], busy - {id})
  {
    var staged' := staged[h := entry];
    assert forall g :: g in staged ==> staged'[g] == staged[g];
  }

  lemma PortsWithoutOp(declared: set<Port>, claimed: set<Port>, finalized: set<Port>, staged: map<nat, Staged>,
                       busy: map<nat, Op>, busy': map<nat, Op>)
    requires PortsInv(declared, claimed, finalized, staged, busy)
    requires forall i :: i in busy' && busy'[i].Staging? ==> i in busy && busy[i] == busy'[i]
    ensures PortsInv(declared, claimed, finalized, staged, busy')
  {
  }

  lemma BytesWithEntry(staged: map<nat, Staged>, n: nat, entry: Staged)
    requires forall g :: g in staged ==> g < n
    ensures Bytes(staged[n + 1 := entry], n + 2) == Bytes(staged, n) + entry.bytes
  {
    BytesFrame(staged, staged[n + 1 := entry], n);
    assert n !in staged[n + 1 := entry];
    assert Bytes(staged[n + 1 := entry], n + 1) == Bytes(staged[n + 1 := entry], n);
  }

  lemma OneStager(busy: map<nat, Op>, staging: bool, staged: map<nat, Staged>, id: nat)
    requires OpsInv(busy, staging, staged) && id in busy && !busy[id].Committing?
    ensures staging
    ensures forall i :: i in busy && !busy[i].Committing? ==> i == id
  {
  }

  lemma StoreWithEntry(s: State, id: nat, h: nat, entry: Staged)
    requires StoreInv(s.store, s.refused, s.staged, Busy(s.ops), s.closing)
    requires s.closing == NotClosing && id in Busy(s.ops) && Busy(s.ops)[id].Staging?
    requires h !in s.staged && entry.status == Open
    ensures StoreInv(s.store + {entry.storeId}, s.refused, s.staged[h := entry], Busy(s.ops) - {id}, s.closing)
  {
    hide Busy;
    var busy, busy', staged' := Busy(s.ops), Busy(s.ops) - {id}, s.staged[h := entry];
    forall a | a in s.store && a !in s.refused ensures IsOwned(a, staged', busy') {
      OwnedFrame(a, s.staged, busy, staged', busy');
    }
    assert staged'[h] == entry;
  }

  lemma OwnedFrame(a: nat, staged: map<nat, Staged>, busy: map<nat, Op>, staged': map<nat, Staged>, busy': map<nat, Op>)
    requires IsOwned(a, staged, busy)
    requires forall h :: h in staged && staged[h].storeId == a && staged[h].status != Finalized ==>
               h in staged' && staged'[h].storeId == a && staged'[h].status != Finalized
    requires forall i :: i in busy && busy[i] == Dropping(a) ==> i in busy' && busy'[i] == busy[i]
    ensures IsOwned(a, staged', busy')
  {
    if h :| h in staged && staged[h].storeId == a && staged[h].status != Finalized {
      assert staged'[h].storeId == a;
    } else {
      var i :| i in busy && busy[i] == Dropping(a);
      assert busy'[i] == Dropping(a);
    }
  }

  lemma StagingFails(c: Config, initial: set<string>, s: State, id: nat)
    requires Inv(c, initial, s) && id in s.ops && s.ops[id].Staging?
    ensures Inv(c, initial, Settle(s.(staging := false), id, false))
  {
    hide Bytes, FindGrant, Busy, OpsInv, PortsInv, StoreInv, RegistryInv, GrantsInv;
    var busy := Busy(s.ops);
    BusyUpdate(s.ops, id, Settled(false));
    assert busy[id] == s.ops[id] by { BusyAt(s.ops, id); }
    OneStager(busy, s.staging, s.staged, id);
    OpsWithoutStager(busy, s.staged, id);
    PortsWithoutOp(c.forbidden.Keys, s.claimed, s.finalized.Keys, s.staged, busy, busy - {id});
    StoreAfterBusy(s.store, s.refused, s.staged, busy, busy - {id}, s.closing);
    GrantsAfterOp(c.effects, s.counts, s.ops, id, Settled(false));
  }

  lemma BusyAt(ops: map<nat, Op>, id: nat)
    requires id in ops && !IsPlain(ops[id])
    ensures id in Busy(ops) && Busy(ops)[id] == ops[id]
  {
  }

  lemma StagingSucceeds(c: Config, initial: set<string>, s: State, id: nat, answer: StoredArtifact)
    requires Inv(c, initial, s) && id in s.ops && s.ops[id].Staging? && StoreMayStage(s, id, Some(answer)) && IsOpen(s)
    ensures Inv(c, initial, StageAnswers(s, id, Some(answer)))
  {
    hide Bytes, FindGrant, Busy, OpsInv, PortsInv, StoreInv, RegistryInv, GrantsInv;
    var busy := Busy(s.ops);
    var entry := Staged(answer.storeId, s.ops[id].port, answer.bytes, answer.records, s.ops[id].source, Open);
    BusyUpdate(s.ops, id, Settled(true));
    BusyAt(s.ops, id);
    OneStager(busy, s.staging, s.staged, id);
    OpsWithoutStager(busy, s.staged, id);
    OpsWithEntry(busy - {id}, false, s.staged, s.nextId + 1, entry);
    PortsWithEntry(c.forbidden.Keys, s.claimed, s.finalized.Keys, s.staged, busy, id, s.nextId + 1, entry);
    BytesWithEntry(s.staged, s.nextId, entry);
    StoreWithEntry(s, id, s.nextId + 1, entry);
    GrantsAfterOp(c.effects, s.counts, s.ops, id, Settled(true));
  }

  lemma StagerReplaced(busy: map<nat, Op>, staging: bool, staged: map<nat, Staged>, id: nat, op: Op)
    requires OpsInv(busy, staging, staged) && id in busy && !busy[id].Committing? && !op.Committing?
    ensures OpsInv(busy[id := op], staging, staged)
  {
    hide OpsInv;
    OneStager(busy, staging, staged, id);
    OpsWithoutStager(busy, staged, id);
    OpsWithStager(busy - {id}, staged, id, op);
    assert (busy - {id})[id := op] == busy[id := op];
  }

  lemma StagingDropped(c: Config, initial: set<string>, s: State, id: nat, answer: StoredArtifact)
    requires Inv(c, initial, s) && id in s.ops && s.ops[id].Staging? && StoreMayStage(s, id, Some(answer)) && !IsOpen(s)
    ensures Inv(c, initial, StageAnswers(s, id, Some(answer)))
  {
    hide Bytes, FindGrant, Busy, OpsInv, PortsInv, StoreInv, RegistryInv, GrantsInv, ClosingInv;
    var busy, op := Busy(s.ops), Dropping(answer.storeId);
    BusyUpdate(s.ops, id, op);
    BusyAt(s.ops, id);
    ClosingWithOps(s.closed, s.closing, s.staged == map[]);
    StagerReplaced(busy, s.staging, s.staged, id, op);
    PortsWithoutOp(c.forbidden.Keys, s.claimed, s.finalized.Keys, s.staged, busy, busy[id := op]);
    StoreWithDrop(s, id, answer.storeId);
    BytesBeyond(s.staged, s.nextId, s.nextId + 1);
    GrantsAfterOp(c.effects, s.counts, s.ops, id, op);
  }

  lemma StoreWithDrop(s: State, id: nat, a: nat)
    requires StoreInv(s.store, s.refused, s.staged, Busy(s.ops), s.closing) && !s.closing.Discarding?
             && !s.closing.Closed?
    requires id in Busy(s.ops) && Busy(s.ops)[id].Staging?
    ensures StoreInv(s.store + {a}, s.refused, s.staged, Busy(s.ops)[id := Dropping(a)], s.closing)
  {
    hide Busy;
    var busy, busy' := Busy(s.ops), Busy(s.ops)[id := Dropping(a)];
    forall b | b in s.store && b !in s.refused ensures IsOwned(b, s.staged, busy') {
      OwnedFrame(b, s.staged, busy, s.staged, busy');
    }
    assert busy'[id] == Dropping(a);
  }

  lemma DropKeeps(c: Config, initial: set<string>, s: State, id: nat, ok: bool)
    requires Inv(c, initial, s) && id in s.ops && s.ops[id].Dropping?
    ensures Inv(c, initial, DropAnswers(s, id, ok))
  {
    hide Bytes, FindGrant, Busy, OpsInv, PortsInv, StoreInv, RegistryInv, GrantsInv;
    var busy := Busy(s.ops);
    BusyUpdate(s.ops, id, Settled(false));
    BusyAt(s.ops, id);
    OneStager(busy, s.staging, s.staged, id);
    OpsWithoutStager(busy, s.staged, id);
    PortsWithoutOp(c.forbidden.Keys, s.claimed, s.finalized.Keys, s.staged, busy, busy - {id});
    StoreWithoutDrop(s, id, ok);
    GrantsAfterOp(c.effects, s.counts, s.ops, id, Settled(false));
  }

  lemma StoreWithoutDrop(s: State, id: nat, ok: bool)
    requires StoreInv(s.store, s.refused, s.staged, Busy(s.ops), s.closing) && !s.closing.Discarding?
             && !s.closing.Closed?
    requires id in s.ops && s.ops[id].Dropping?
    ensures StoreInv(DropAnswers(s, id, ok).store, DropAnswers(s, id, ok).refused, s.staged, Busy(s.ops) - {id},
                     s.closing)
  {
    hide Busy;
    var busy, busy', t := Busy(s.ops), Busy(s.ops) - {id}, DropAnswers(s, id, ok);
    BusyAt(s.ops, id);
    forall b | b in t.store && b !in t.refused ensures IsOwned(b, s.staged, busy') {
      OwnedFrame(b, s.staged, busy, s.staged, busy');
    }
  }

  function WithStatus(staged: map<nat, Staged>, h: nat, status: Status): map<nat, Staged>
    requires h in staged
  {
    staged[h := staged[h].(status := status)]
  }

  lemma OpsCommitBegins(busy: map<nat, Op>, staging: bool, staged: map<nat, Staged>, id: nat, h: nat)
    requires OpsInv(busy, staging, staged) && id !in busy && h in staged && staged[h].status == Open
    ensures OpsInv(busy[id := Committing(h)], staging, WithStatus(staged, h, Finalizing))
  {
    var busy' := busy[id := Committing(h)];
    assert busy'[id] == Committing(h);
    assert forall i :: i in busy ==> i in busy' && busy'[i] == busy[i];
  }

  lemma OpsCommitEnds(busy: map<nat, Op>, staging: bool, staged: map<nat, Staged>, id: nat, status: Status)
    requires OpsInv(busy, staging, staged) && id in busy && busy[id].Committing? && status != Finalizing
    ensures busy[id].handle in staged
    ensures OpsInv(busy - {id}, staging, WithStatus(staged, busy[id].handle, status))
  {
    var busy' := busy - {id};
    assert forall i :: i in busy && i != id ==> i in busy' && busy'[i] == busy[i];
  }

  lemma PortsWithStatus(declared: set<Port>, claimed: set<Port>, finalized: set<Port>, staged: map<nat, Staged>,
                        busy: map<nat, Op>, h: nat, status: Status)
    requires PortsInv(declared, claimed, finalized, staged, busy) && h in staged && staged[h].status != Finalized
    ensures staged[h].port !in finalized
    ensures PortsInv(declared, claimed, if status == Finalized then finalized + {staged[h].port} else finalized,
                     WithStatus(staged, h, status), busy)
  {
    var staged' := WithStatus(staged, h, status);
    assert forall g :: g in staged ==> staged'[g].port == staged[g].port;
  }

  lemma StoreWithStatus(s: State, h: nat, status: Status, store: set<nat>, busy: map<nat, Op>)
    requires StoreInv(s.store, s.refused, s.staged, Busy(s.ops), s.closing) && !s.closing.Discarding?
             && !s.closing.Closed?
    requires h in s.staged && store <= s.store && (status == Finalized ==> s.staged[h].storeId !in store)
    requires forall i :: i in Busy(s.ops) && Busy(s.ops)[i].Dropping? ==> i in busy && busy[i] == Busy(s.ops)[i]
    ensures StoreInv(store, s.refused, WithStatus(s.staged, h, status), busy, s.closing)
  {
    hide Busy;
    forall b | b in store && b !in s.refused ensures IsOwned(b, WithStatus(s.staged, h, status), busy) {
      OwnedFrame(b, s.staged, Busy(s.ops), WithStatus(s.staged, h, status), busy);
    }
  }

  lemma RegistryGrows(initial: set<string>, registry: set<string>, finalized: map<Port, string>, port: Port,
                      dataset: string)
    requires RegistryInv(initial, registry, finalized) && port !in finalized && dataset !in registry
    ensures RegistryInv(initial, registry + {dataset}, finalized[port := dataset])
  {
    var finalized' := finalized[port := dataset];
    assert finalized'.Values == finalized.Values + {dataset} by {
      assert finalized'[port] == dataset;
      assert forall p :: p in finalized ==> finalized'[p] == finalized[p];
    }
  }

  lemma CommitBegins(c: Config, initial: set<string>, s: State, h: nat)
    requires Inv(c, initial, s) && !s.closed && h in s.staged && s.staged[h].status == Open
    ensures Inv(c, initial, Begin(SetStaged(s, h, Finalizing), Committing(h)))
  {
    hide Bytes, FindGrant, Busy, IdsInv, OpsInv, PortsInv, BytesInv, StoreInv, RegistryInv, GrantsInv;
    var busy, staged' := Busy(s.ops), WithStatus(s.staged, h, Finalizing);
    BusyUpdate(s.ops, s.nextId, Committing(h));
    FreshId(s.ops, s.acquisitions, s.staged, s.nextId);
    OpsCommitBegins(busy, s.staging, s.staged, s.nextId, h);
    PortsWithStatus(c.forbidden.Keys, s.claimed, s.finalized.Keys, s.staged, busy, h, Finalizing);
    PortsWithoutOp(c.forbidden.Keys, s.claimed, s.finalized.Keys, staged', busy, busy[s.nextId := Committing(h)]);
    StoreWithStatus(s, h, Finalizing, s.store, busy[s.nextId := Committing(h)]);
    IdsWithCommit(s.ops, s.acquisitions, s.staged, s.nextId, h);
    BytesWithCommit(c.maxArtifactBytes, s.artifactBytes, busy, s.nextId, h);
    GrantsAfterOp(c.effects, s.counts, s.ops, s.nextId, Committing(h));
  }

  lemma FreshId(ops: map<nat, Op>, acquisitions: map<nat, Acquisition>, staged: map<nat, Staged>, nextId: nat)
    requires IdsInv(ops, acquisitions, staged, nextId)
    ensures nextId !in ops && nextId !in Busy(ops)
  {
  }

  lemma IdsWithCommit(ops: map<nat, Op>, acquisitions: map<nat, Acquisition>, staged: map<nat, Staged>, nextId: nat,
                      h: nat)
    requires IdsInv(ops, acquisitions, staged, nextId) && h in staged
    ensures IdsInv(ops[nextId := Committing(h)], acquisitions, WithStatus(staged, h, Finalizing), nextId + 1)
    ensures Bytes(WithStatus(staged, h, Finalizing), nextId + 1) == Bytes(staged, nextId)
  {
    hide Bytes;
    BytesFrame(staged, WithStatus(staged, h, Finalizing), nextId);
    BytesBeyond(WithStatus(staged, h, Finalizing), nextId, nextId + 1);
  }

  lemma BytesWithCommit(limit: nat, artifactBytes: nat, busy: map<nat, Op>, id: nat, h: nat)
    requires BytesInv(limit, artifactBytes, busy)
    ensures BytesInv(limit, artifactBytes, busy[id := Committing(h)])
  {
  }

  lemma CommitKeeps(c: Config, initial: set<string>, s: State, h: nat, port: Port, source: Option<nat>, bound: bool)
    requires Inv(c, initial, s)
    ensures Inv(c, initial, CommitCall(c, s, h, port, source, bound).0)
  {
    hide Inv, Authorizes, WriteKey, Charge, Begin, Begins, SetAcquisition, SetStaged;
    if !IsOpen(s) {
    } else if h !in s.staged || s.staged[h].status != Open || s.staged[h].port != port || s.staged[h].source != source
      || !bound
      || (source.Some? && (source.value !in s.acquisitions || s.acquisitions[source.value].status != Open)) {
      BeginKeeps(c, initial, s, Settled(false));
    } else if port !in c.forbidden || c.forbidden[port] {
      MarkingKeeps(c, initial, s, source, Finalizing);
    } else if WriteKey(c).None? || !Authorizes(c, s, WriteKey(c).value, s.staged[h].records) {
      MarkingKeeps(c, initial, s, source, Failed);
    } else {
      AskingKeeps(c, initial, s, WriteKey(c).value, h, source);
    }
  }

  lemma MarkingKeeps(c: Config, initial: set<string>, s: State, source: Option<nat>, status: Status)
    requires Inv(c, initial, s) && IsOpen(s)
    ensures Inv(c, initial, Begin(SetAcquisition(s, source, status), Settled(false)))
  {
    hide Inv, Marked;
    SetAcquisitionKeeps(c, initial, s, source, status);
    BeginKeeps(c, initial, SetAcquisition(s, source, status), Settled(false));
  }

  lemma AskingKeeps(c: Config, initial: set<string>, s: State, key: EffectKey, h: nat, source: Option<nat>)
    requires Inv(c, initial, s) && h in s.staged && s.staged[h].status == Open
             && Authorizes(c, s, key, s.staged[h].records)
    ensures var charged := SetAcquisition(Charge(s, key, s.staged[h].records), source, Finalizing);
            Inv(c, initial, Begin(SetStaged(charged, h, Finalizing), Committing(h)))
  {
    hide Inv, Marked, Authorizes;
    var charged := Charge(s, key, s.staged[h].records);
    StillOpen(c, s, key, s.staged[h].records);
    ChargeKeeps(c, initial, s, key, s.staged[h].records);
    SetAcquisitionKeeps(c, initial, charged, source, Finalizing);
    CommitBegins(c, initial, SetAcquisition(charged, source, Finalizing), h);
  }

  lemma StillOpen(c: Config, s: State, key: EffectKey, records: nat)
    requires Authorizes(c, s, key, records)
    ensures !s.closed
  {
  }

  lemma CommitFails(c: Config, initial: set<string>, s: State, id: nat, store: set<nat>)
    requires Inv(c, initial, s) && id in s.ops && s.ops[id].Committing? && s.ops[id].handle in s.staged
             && store <= s.store
    ensures Inv(c, initial, Settle(SetStaged(s.(store := store), s.ops[id].handle, Failed), id, false))
  {
    hide Bytes, FindGrant, Busy, OpsInv, PortsInv, BytesInv, IdsInv, ClosingInv, StoreInv, RegistryInv, GrantsInv;
    var busy, h := Busy(s.ops), s.ops[id].handle;
    var staged' := WithStatus(s.staged, h, Failed);
    BusyUpdate(s.ops, id, Settled(false));
    BusyAt(s.ops, id);
    ClosingWithOps(s.closed, s.closing, s.staged == map[]);
    CommittingIsFinalizing(busy, s.staging, s.staged, id);
    OpsCommitEnds(busy, s.staging, s.staged, id, Failed);
    PortsWithStatus(c.forbidden.Keys, s.claimed, s.finalized.Keys, s.staged, busy, h, Failed);
    PortsWithoutOp(c.forbidden.Keys, s.claimed, s.finalized.Keys, staged', busy, busy - {id});
    StoreWithStatus(s, h, Failed, store, busy - {id});
    IdsWithStatus(s.ops, s.acquisitions, s.staged, s.nextId, id, Settled(false), h, Failed);
    BytesWithoutOp(c.maxArtifactBytes, s.artifactBytes, busy, id);
    GrantsAfterOp(c.effects, s.counts, s.ops, id, Settled(false));
  }

  function Registered(s: State, id: nat, dataset: string): State
    requires id in s.ops && s.ops[id].Committing? && s.ops[id].handle in s.staged
  {
    var h := s.ops[id].handle;
    Settle(SetStaged(s.(store := s.store - {s.staged[h].storeId}), h, Finalized).(
             registry := s.registry + {dataset}, finalized := s.finalized[s.staged[h].port := dataset]), id, true)
  }

  lemma CommitRegisters(c: Config, initial: set<string>, s: State, id: nat, dataset: string)
    requires Inv(c, initial, s) && id in s.ops && s.ops[id].Committing? && s.ops[id].handle in s.staged
    requires dataset !in s.registry
    ensures Inv(c, initial, Registered(s, id, dataset))
  {
    hide Bytes, FindGrant, Busy, OpsInv, PortsInv, BytesInv, IdsInv, ClosingInv, StoreInv, RegistryInv, GrantsInv;
    var busy, h := Busy(s.ops), s.ops[id].handle;
    var staged', port := WithStatus(s.staged, h, Finalized), s.staged[h].port;
    BusyUpdate(s.ops, id, Settled(true));
    BusyAt(s.ops, id);
    ClosingWithOps(s.closed, s.closing, s.staged == map[]);
    CommittingIsFinalizing(busy, s.staging, s.staged, id);
    OpsCommitEnds(busy, s.staging, s.staged, id, Finalized);
    PortsWithStatus(c.forbidden.Keys, s.claimed, s.finalized.Keys, s.staged, busy, h, Finalized);
    assert s.finalized[port := dataset].Keys == s.finalized.Keys + {port};
    PortsWithoutOp(c.forbidden.Keys, s.claimed, s.finalized.Keys + {port}, staged', busy, busy - {id});
    StoreWithStatus(s, h, Finalized, s.store - {s.staged[h].storeId}, busy - {id});
    IdsWithStatus(s.ops, s.acquisitions, s.staged, s.nextId, id, Settled(true), h, Finalized);
    BytesWithoutOp(c.maxArtifactBytes, s.artifactBytes, busy, id);
    GrantsAfterOp(c.effects, s.counts, s.ops, id, Settled(true));
    RegistryGrows(initial, s.registry, s.finalized, port, dataset);
  }

  lemma BytesWithoutOp(limit: nat, artifactBytes: nat, busy: map<nat, Op>, id: nat)
    requires BytesInv(limit, artifactBytes, busy)
    ensures BytesInv(limit, artifactBytes, busy - {id})
  {
  }

  lemma ClosingWithOps(closed: bool, closing: Closing, noneStaged: bool)
    requires ClosingInv(closed, closing, false, noneStaged)
    ensures !closing.Discarding? && !closing.Closed?
    ensures forall noOps, noneStaged' :: ClosingInv(closed, closing, noOps, noneStaged')
  {
  }

  lemma IdsWithStatus(ops: map<nat, Op>, acquisitions: map<nat, Acquisition>, staged: map<nat, Staged>, nextId: nat,
                      id: nat, op: Op, h: nat, status: Status)
    requires IdsInv(ops, acquisitions, staged, nextId) && id in ops && h in staged
    ensures IdsInv(ops[id := op], acquisitions, WithStatus(staged, h, status), nextId)
    ensures Bytes(WithStatus(staged, h, status), nextId) == Bytes(staged, nextId)
  {
    hide Bytes;
    BytesFrame(staged, WithStatus(staged, h, status), nextId);
  }

  lemma CommittingIsFinalizing(busy: map<nat, Op>, staging: bool, staged: map<nat, Staged>, id: nat)
    requires OpsInv(busy, staging, staged) && id in busy && busy[id].Committing?
    ensures busy[id].handle in staged && staged[busy[id].handle].status == Finalizing
  {
  }

  lemma CommitAnswersKeep(c: Config, initial: set<string>, s: State, id: nat, dataset: Option<string>, remains: bool)
    requires Inv(c, initial, s) && id in s.ops && s.ops[id].Committing? && s.ops[id].handle in s.staged
    ensures Inv(c, initial, CommitAnswers(s, id, dataset, remains))
  {
    hide Inv, Marked;
    var entry := s.staged[s.ops[id].handle];
    if dataset.None? || !IsOpen(s) || dataset.value in s.registry {
      SetAcquisitionKeeps(c, initial, s, entry.source, Failed);
      CommitFails(c, initial, SetAcquisition(s, entry.source, Failed), id,
                  if dataset.None? && remains then s.store else s.store - {entry.storeId});
    } else {
      SetAcquisitionKeeps(c, initial, s, entry.source, Finalized);
      CommitRegisters(c, initial, SetAcquisition(s, entry.source, Finalized), id, dataset.value);
    }
  }

  lemma EphemeralRegisters(c: Config, initial: set<string>, s: State, source: nat, port: Port, handle: string)
    requires Inv(c, initial, s) && Claimable(c, s, port) && handle !in s.registry
    ensures Inv(c, initial, Claim(s, port).(registry := s.registry + {handle}, finalized := s.finalized[port := handle],
                                            acquisitions := s.acquisitions - {source}))
  {
    hide Bytes, FindGrant, Busy, OpsInv, PortsInv, StoreInv, RegistryInv, GrantsInv;
    PortsClaimed(c, s, port);
    assert s.finalized[port := handle].Keys == s.finalized.Keys + {port};
    RegistryGrows(initial, s.registry, s.finalized, port, handle);
  }

  lemma PortsClaimed(c: Config, s: State, port: Port)
    requires PortsInv(c.forbidden.Keys, s.claimed, s.finalized.Keys, s.staged, Busy(s.ops)) && Claimable(c, s, port)
    ensures port !in s.finalized
    ensures PortsInv(c.forbidden.Keys, s.claimed + {port}, s.finalized.Keys + {port}, s.staged, Busy(s.ops))
  {
  }

  lemma EphemeralKeeps(c: Config, initial: set<string>, s: State, source: nat, port: Port, bound: bool, valid: bool,
                       handle: string)
    requires Inv(c, initial, s)
    ensures Inv(c, initial, EphemeralCall(c, s, source, port, bound, valid, handle).0)
  {
    hide Inv;
    if !IsOpen(s) {
    } else if source !in s.acquisitions || s.acquisitions[source].status != Open || port !in c.forbidden
      || !c.forbidden[port] || !bound || c.consumers(port) == 0 || !Claimable(c, s, port) {
      BeginKeeps(c, initial, s, Settled(false));
    } else {
      ClaimKeeps(c, initial, s, port);
      if !valid {
        BeginKeeps(c, initial, Claim(s, port), Settled(false));
      } else if handle in s.registry {
        SetAcquisitionKeeps(c, initial, Claim(s, port), Some(source), Failed);
        BeginKeeps(c, initial, SetAcquisition(Claim(s, port), Some(source), Failed), Settled(false));
      } else {
        EphemeralRegisters(c, initial, s, source, port, handle);
        BeginKeeps(c, initial, Claim(s, port).(registry := s.registry + {handle},
                                               finalized := s.finalized[port := handle],
                                               acquisitions := s.acquisitions - {source}), Settled(true));
      }
    }
  }

  lemma CloseCallKeeps(c: Config, initial: set<string>, s: State)
    requires Inv(c, initial, s)
    ensures Inv(c, initial, CloseCall(s))
  {
    hide Bytes, FindGrant, Busy, IdsInv, OpsInv, PortsInv, BytesInv, RegistryInv, GrantsInv, IsOwned;
  }

  /** What was owned when the last operation left is what close hands back. */
  lemma DrainKeeps(c: Config, initial: set<string>, s: State)
    requires Inv(c, initial, s) && s.closing == Draining && s.ops == map[]
    ensures Inv(c, initial, Drained(s))
  {
    hide Bytes, FindGrant, IdsInv, OpsInv, PortsInv, BytesInv, RegistryInv, GrantsInv;
    assert Busy(map[]) == map[];
  }

  lemma DiscardKeeps(c: Config, initial: set<string>, s: State, storeId: nat)
    requires Inv(c, initial, s) && s.closing.Discarding? && storeId in s.closing.todo
    ensures Inv(c, initial, DiscardAnswers(s, storeId))
  {
    hide Bytes, FindGrant, Busy, IdsInv, OpsInv, PortsInv, BytesInv, RegistryInv, GrantsInv, IsOwned;
  }

  lemma ResolveKeeps(c: Config, initial: set<string>, s: State)
    requires Inv(c, initial, s) && s.closing == Discarding({})
    ensures Inv(c, initial, CloseResolves(s))
  {
    hide Bytes, FindGrant, OpsInv, PortsInv, BytesInv, RegistryInv, GrantsInv, IsOwned;
    assert Busy(map[]) == map[];
    NoneStaged(c.forbidden.Keys, s.claimed, s.finalized.Keys, s.staging, s.staged);
  }

  lemma AbortKeeps(c: Config, initial: set<string>, s: State)
    requires Inv(c, initial, s)
    ensures Inv(c, initial, Abort(s))
  {
    hide Bytes, FindGrant, Busy, IdsInv, OpsInv, PortsInv, BytesInv, RegistryInv, GrantsInv, IsOwned;
  }

  lemma ClosingKeeps(c: Config, initial: set<string>, s: State, e: Event)
    requires Inv(c, initial, s) && Enabled(s, e)
    requires e.CloseEvent? || e.DrainedEvent? || e.DiscardAnswer? || e.CloseResolvedEvent? || e.AbortEvent?
    ensures Inv(c, initial, Step(c, s, e))
  {
    hide Inv, StoreMayStage, CloseCall, Drained, DiscardAnswers, CloseResolves, Abort;
    match e
    case CloseEvent => CloseCallKeeps(c, initial, s);
    case DrainedEvent => DrainKeeps(c, initial, s);
    case DiscardAnswer(storeId) => DiscardKeeps(c, initial, s, storeId);
    case CloseResolvedEvent => ResolveKeeps(c, initial, s);
    case AbortEvent => AbortKeeps(c, initial, s);
  }

  lemma NoneStaged(declared: set<Port>, claimed: set<Port>, finalized: set<Port>, staging: bool,
                   staged: map<nat, Staged>)
    requires OpsInv(map[], staging, staged) && PortsInv(declared, claimed, finalized, staged, map[])
    ensures OpsInv(map[], staging, map[]) && PortsInv(declared, claimed, finalized, map[], map[])
  {
  }

  lemma StepKeepsInv(c: Config, initial: set<string>, s: State, e: Event)
    requires Inv(c, initial, s) && Enabled(s, e)
    ensures Inv(c, initial, Step(c, s, e))
  {
    hide Inv, Authorizes, FindGrant, StoreMayStage;
    match e
    case RequestEffectEvent(key, records) =>
      if Authorizes(c, s, key, records) { ChargeKeeps(c, initial, s, key, records); }
    case AcquireEvent(key, hasReader) => AcquireKeeps(c, initial, s, key, hasReader);
    case ReaderAnswer(id, records, attested) => ReaderAnswersKeep(c, initial, s, id, records, attested);
    case UseEvent =>
      if IsOpen(s) { BeginKeeps(c, initial, s, Using); }
    case UseAnswer(id, ok) => SettleKeeps(c, initial, s, id, ok);
    case StageEvent(port, source, bound, valid) => StageCallKeeps(c, initial, s, port, source, bound, valid);
    case StageAnswer(id, answer) =>
      if answer.None? { StagingFails(c, initial, s, id); }
      else if IsOpen(s) { StagingSucceeds(c, initial, s, id, answer.value); }
      else { StagingDropped(c, initial, s, id, answer.value); }
    case DropAnswer(id, ok) => DropKeeps(c, initial, s, id, ok);
    case CommitEvent(h, port, source, bound) => CommitKeeps(c, initial, s, h, port, source, bound);
    case CommitAnswer(id, dataset, remains) => CommitAnswersKeep(c, initial, s, id, dataset, remains);
    case EphemeralEvent(source, port, bound, valid, handle) =>
      EphemeralKeeps(c, initial, s, source, port, bound, valid, handle);
    case ResumeEvent(id) => ResumeKeeps(c, initial, s, id);
    case _ => ClosingKeeps(c, initial, s, e);
  }

  lemma StageCallKeeps(c: Config, initial: set<string>, s: State, port: Port, source: Option<nat>, bound: bool,
                       valid: bool)
    requires Inv(c, initial, s)
    ensures Inv(c, initial, StageCall(c, s, port, source, bound, valid).0)
  {
    hide Inv, Claim, Claimable, Begin, Remaining, Begins;
    if IsOpen(s) && !s.staging && Claimable(c, s, port) {
      ClaimKeeps(c, initial, s, port);
      StageKeeps(c, initial, s, port, source);
    }
  }

  lemma InitialInv(c: Config, initial: set<string>)
    ensures Inv(c, initial, Initial(initial))
  {
    assert Busy(map[]) == map[];
    assert Initial(initial).finalized.Values == {};
  }

  lemma {:induction false} RunKeepsInv(c: Config, initial: set<string>, events: seq<Event>)
    requires After(c, Initial(initial), events).Some?
    ensures Inv(c, initial, After(c, Initial(initial), events).value)
  {
    if events == [] {
      InitialInv(c, initial);
    } else {
      RunKeepsInv(c, initial, events[..|events| - 1]);
      StepKeepsInv(c, initial, After(c, Initial(initial), events[..|events| - 1]).value, events[|events| - 1]);
    }
  }
}
