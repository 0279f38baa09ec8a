/** What closing a stage broker achieves, and that it always gets there (packages/executor/src/index.ts:889-910). */
module BrokerClosing {
  import opened Wrappers
  import opened BrokerState
  import opened BrokerRuns
  import opened BrokerSafety

  predicate IsRefusal(e: Event)
  {
    e.DropAnswer? && !e.ok
  }

  lemma {:induction false} OnlyRefusalsRefuse(c: Config, initial: set<string>, events: seq<Event>)
    requires After(c, Initial(initial), events).Some?
    requires forall e :: e in events ==> !IsRefusal(e)
    ensures After(c, Initial(initial), events).value.refused == {}
  {
    hide Step, Enabled;
    if events != [] {
      OnlyRefusalsRefuse(c, initial, Before(events));
      RunBefore(c, Initial(initial), events);
      RefusedStays(c, After(c, Initial(initial), Before(events)).value, events[|events| - 1]);
    }
  }

  lemma RefusedStays(c: Config, s: State, e: Event)
    requires Enabled(s, e) && !IsRefusal(e)
    ensures Step(c, s, e).refused == s.refused
  {
    hide Step, Enabled;
    if IsCall(e) {
      CallsRefuseNothing(c, s, e);
    } else if IsClosing(e) {
      ClosingRefusesNothing(c, s, e);
    } else {
      AnswersRefuseNothing(c, s, e);
    }
  }

  lemma CallsRefuseNothing(c: Config, s: State, e: Event)
    requires Enabled(s, e) && IsCall(e)
    ensures Step(c, s, e).refused == s.refused
  {
    hide RequestEffect, AcquireCall, UseCall, StageCall, CommitCall, EphemeralCall;
  }

  lemma AnswersRefuseNothing(c: Config, s: State, e: Event)
    requires Enabled(s, e) && !IsCall(e) && !IsClosing(e) && !IsRefusal(e)
    ensures Step(c, s, e).refused == s.refused
  {
    hide ReaderAnswers, UseAnswers, StageAnswers, CommitAnswers, Resume, StoreMayStage;
  }

  lemma ClosingRefusesNothing(c: Config, s: State, e: Event)
    requires Enabled(s, e) && IsClosing(e)
    ensures Step(c, s, e).refused == s.refused
  {
    hide CloseCall, Drained, DiscardAnswers, CloseResolves, Abort, StoreMayStage;
  }

  /**
   * Once close has resolved no operation is active and the store holds nothing of this broker: every
   * artifact was committed or discarded, save those whose discard the store itself refused.
   */
  lemma ClosedBrokersHoldNothing(c: Config, initial: set<string>, events: seq<Event>)
    requires After(c, Initial(initial), events).Some?
    requires After(c, Initial(initial), events).value.closing == Closed
    ensures var t := After(c, Initial(initial), events).value;
            && t.ops == map[] && t.staged == map[] && t.store <= t.refused
            && ((forall e :: e in events ==> !IsRefusal(e)) ==> t.store == {})
  {
    hide Step, Enabled, OpsInv, PortsInv, RegistryInv, BytesInv, GrantsInv;
    RunKeepsInv(c, initial, events);
    if forall e :: e in events ==> !IsRefusal(e) {
      OnlyRefusalsRefuse(c, initial, events);
    }
  }

  // Progress

  function Weight(op: Op): nat
  {
    match op
    case Settled(_) => 1
    case Staging(_, _, _) => 3
    case _ => 2
  }

  /** The answers and resumptions the operations below `n` still need, at most. */
  function Pending(ops: map<nat, Op>, n: nat): nat
  {
    if n == 0 then 0 else Pending(ops, n - 1) + if n - 1 in ops then Weight(ops[n - 1]) else 0
  }

  lemma {:induction false} PendingUpdate(ops: map<nat, Op>, id: nat, op: Op, n: nat)
    requires id in ops && id < n
    ensures Pending(ops[id := op], n) == Pending(ops, n) - Weight(ops[id]) + Weight(op)
    ensures Pending(ops - {id}, n) == Pending(ops, n) - Weight(ops[id])
  {
    if id < n - 1 {
      PendingUpdate(ops, id, op, n - 1);
    } else {
      PendingSame(ops, ops[id := op], n - 1);
      PendingSame(ops, ops - {id}, n - 1);
    }
  }

  lemma {:induction false} PendingSame(ops: map<nat, Op>, ops': map<nat, Op>, n: nat)
    requires forall i :: i < n ==> (i in ops <==> i in ops') && (i in ops ==> ops[i] == ops'[i])
    ensures Pending(ops, n) == Pending(ops', n)
  {
    if n > 0 {
      PendingSame(ops, ops', n - 1);
    }
  }

  lemma {:induction false} PendingBeyond(ops: map<nat, Op>, n: nat, m: nat)
    requires n <= m && forall i :: i in ops ==> i < n
    ensures Pending(ops, m) == Pending(ops, n)
  {
    if n < m {
      PendingBeyond(ops, n, m - 1);
    }
  }

  function Phase(s: State): nat
  {
    match s.closing
    case NotClosing => 3
    case Draining => 2
    case Discarding(_) => 1
    case Closed => 0
  }

  function Left(s: State): nat
  {
    match s.closing
    case Draining => Pending(s.ops, s.nextId)
    case Discarding(todo) => |todo|
    case _ => 0
  }

  predicate Closer(t: State, s: State)
  {
    Phase(t) < Phase(s) || (Phase(t) == Phase(s) && Left(t) < Left(s))
  }

  /** The events close waits for: everything but fresh calls, repeated closes and aborts. */
  predicate IsAwaited(e: Event)
  {
    !IsCall(e) && !e.CloseEvent? && !e.AbortEvent?
  }

  /**
   * While a broker closes there is always an event it waits for, each such event brings the end
   * strictly closer, and nothing else moves it back: close never deadlocks and never runs forever.
   */
  lemma ClosingAdvances(c: Config, initial: set<string>, events: seq<Event>)
    requires After(c, Initial(initial), events).Some?
    requires After(c, Initial(initial), events).value.closing.Draining?
             || After(c, Initial(initial), events).value.closing.Discarding?
    ensures var s := After(c, Initial(initial), events).value;
            && (exists e :: Enabled(s, e) && IsAwaited(e))
            && (forall e :: Enabled(s, e) && IsAwaited(e) ==> Closer(Step(c, s, e), s))
            && (forall e :: Enabled(s, e) && !IsAwaited(e) ==>
                  Phase(Step(c, s, e)) == Phase(s) && Left(Step(c, s, e)) == Left(s))
  {
    hide Step, Enabled, Inv, Closer, Left, Phase, IsAwaited;
    RunKeepsInv(c, initial, events);
    var s := After(c, Initial(initial), events).value;
    var e := SomethingAwaited(c, initial, s);
    forall e | Enabled(s, e) && IsAwaited(e) ensures Closer(Step(c, s, e), s) {
      AwaitedAdvances(c, initial, s, e);
    }
    forall e | Enabled(s, e) && !IsAwaited(e)
      ensures Phase(Step(c, s, e)) == Phase(s) && Left(Step(c, s, e)) == Left(s)
    {
      UnawaitedStays(c, initial, s, e);
    }
  }

  lemma SomethingAwaited(c: Config, initial: set<string>, s: State) returns (e: Event)
    requires Inv(c, initial, s) && (s.closing.Draining? || s.closing.Discarding?)
    ensures Enabled(s, e) && IsAwaited(e)
  {
    hide OpsInv, PortsInv, BytesInv, GrantsInv, StoreInv, RegistryInv, Bytes;
    if s.ops != map[] {
      var id :| id in s.ops;
      match s.ops[id]
      case Reading(_, _) => e := ReaderAnswer(id, None, false);
      case Staging(_, _, _) => e := StageAnswer(id, None);
      case Dropping(_) => e := DropAnswer(id, true);
      case Committing(_) =>
        e := CommitAnswer(id, None, false);
        BusyAt(s.ops, id);
        CommittingIsFinalizing(Busy(s.ops), s.staging, s.staged, id);
      case Using => e := UseAnswer(id, true);
      case Settled(_) => e := ResumeEvent(id);
    } else if s.closing.Draining? {
      e := DrainedEvent;
    } else if s.closing.todo != {} {
      var storeId :| storeId in s.closing.todo;
      e := DiscardAnswer(storeId);
    } else {
      e := CloseResolvedEvent;
    }
  }

  lemma UnawaitedStays(c: Config, initial: set<string>, s: State, e: Event)
    requires Inv(c, initial, s) && (s.closing.Draining? || s.closing.Discarding?) && Enabled(s, e) && !IsAwaited(e)
    ensures Phase(Step(c, s, e)) == Phase(s) && Left(Step(c, s, e)) == Left(s)
  {
    hide OpsInv, PortsInv, BytesInv, GrantsInv, StoreInv, RegistryInv, Bytes, Pending;
    if IsCall(e) {
      hide Step;
      LateCall(c, s, e);
    }
  }

  /** The operation an answer or a resumption belongs to. */
  function Answered(e: Event): Option<nat>
  {
    if e.ReaderAnswer? || e.UseAnswer? || e.StageAnswer? || e.DropAnswer? || e.CommitAnswer?
      || e.ResumeEvent? then Some(e.id) else None
  }

  lemma AwaitedAdvances(c: Config, initial: set<string>, s: State, e: Event)
    requires Inv(c, initial, s) && (s.closing.Draining? || s.closing.Discarding?) && Enabled(s, e) && IsAwaited(e)
    ensures Closer(Step(c, s, e), s)
  {
    hide OpsInv, PortsInv, BytesInv, GrantsInv, StoreInv, RegistryInv, Bytes, Pending;
    if Answered(e).Some? {
      AnswerSettles(c, s, e);
      hide Step;
      var t := Step(c, s, e);
      PendingBeyond(s.ops, s.nextId, t.nextId);
      if e.id in t.ops {
        PendingUpdate(s.ops, e.id, t.ops[e.id], t.nextId);
      } else {
        PendingUpdate(s.ops, e.id, Settled(true), t.nextId);
      }
    }
  }

  predicate Settles(s: State, t: State, id: nat)
    requires id in s.ops
  {
    && t.closing == s.closing && s.nextId <= t.nextId
    && if id in t.ops then t.ops == s.ops[id := t.ops[id]] && Weight(t.ops[id]) < Weight(s.ops[id])
       else t.ops == s.ops - {id}
  }

  lemma AnswerSettles(c: Config, s: State, e: Event)
    requires Enabled(s, e) && Answered(e).Some? && s.closed
    ensures e.id in s.ops && Settles(s, Step(c, s, e), e.id)
  {
    hide StoreMayStage;
    match e
    case ReaderAnswer(id, _, _) => assert Step(c, s, e).ops == Settle(s, id, false).ops;
    case UseAnswer(_, _) =>
    case StageAnswer(id, answer) => StageSettles(s, id, answer);
    case DropAnswer(_, _) =>
    case CommitAnswer(id, dataset, remains) => CommitSettles(s, id, dataset, remains);
    case ResumeEvent(_) =>
  }

  lemma StageSettles(s: State, id: nat, answer: Option<StoredArtifact>)
    requires id in s.ops && s.ops[id].Staging? && s.closed
    ensures Settles(s, StageAnswers(s, id, answer), id)
  {
  }

  lemma CommitSettles(s: State, id: nat, dataset: Option<string>, remains: bool)
    requires id in s.ops && s.ops[id].Committing? && s.ops[id].handle in s.staged && s.closed
    ensures Settles(s, CommitAnswers(s, id, dataset, remains), id)
  {
    hide Marked;
  }
}
