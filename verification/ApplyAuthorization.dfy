/**
 * One-shot capabilities of apply runs (packages/core/src/readiness.ts:263-400, 647-1126). Handles are object
 * identities held in module-wide tables, so a handle is a number that only its creation hands out; any
 * number of authorization contexts share the tables. Each context has its profile and the ledger of datasets
 * its run registered, which are the outputs that passed the check on stage outputs.
 */
module ApplyAuthorization {
  import opened Wrappers
  import opened Ancestry
  import opened ApplyAncestry

  type Handle = nat
  type Context = Handle

  /** `inputs` are places in the context's ledger; `source` tells whether the plugin has a source adapter. */
  datatype Invocation = Invocation(owner: Context, stageRunId: string, stageId: string, source: bool,
                                   outputs: set<string>, inputs: set<nat>)

  datatype Session = Session(profile: Profile, ledger: Ledger)

  datatype Detail = OutputMutation(port: string, staged: string) | StateMutation(proposal: string)

  datatype Subject = Subject(owner: Context, invocation: Handle, records: int, consumed: bool, detail: Detail)

  datatype Tables = Tables(
    sessions: map<Context, Session>,
    invocations: map<Handle, Invocation>,
    subjects: map<Handle, Subject>,
    used: set<(Context, string)>,          // #usedStageRunIds of every context
    next: Handle)

  /** The subject part of an attempt; consumer writes, public ones among them, name a dataset of the ledger. */
  datatype Claim =
    | Read(records: int)
    | Consumer(dataset: nat, isPublic: bool)
    | OutputWrite(subject: Handle, port: string)
    | StateWrite(subject: Handle, proposal: string)

  /** `granted` decides the deployment's effect authorization for the record count the claim resolves to. */
  datatype Attempt = Attempt(invocation: Handle, stageId: string, claim: Claim, granted: int -> bool)

  /** `declared` and `shaped` are the outcomes of the checks on ports, references, schemas and provenance. */
  datatype Call =
    | Create(profile: Profile)
    | Begin(context: Context, run: string, begun: Invocation, declared: bool, now: int)
    | Return(context: Context, invocation: Handle, outputs: seq<Dataset>, shaped: bool)
    | Close(context: Context, invocation: Handle)
    | Bind(context: Context, invocation: Handle, records: int, detail: Detail)
    | Authorize(context: Context, attempt: Attempt, now: int)

  const MAX_SAFE := 0x1F_FFFF_FFFF_FFFF

  predicate Owned(t: Tables, context: Context, invocation: Handle)
  {
    invocation in t.invocations && t.invocations[invocation].owner == context
  }

  /** What an invocation asks of each input: registered, unexpired, with stamps of this profile. */
  predicate InputOk(session: Session, input: nat, now: int)
  {
    && input < |session.ledger|
    && session.ledger[input].startedAt <= session.ledger[input].expiresAt && session.ledger[input].expiresAt > now
    && session.ledger[input].stamps != {} && session.ledger[input].stamps <= session.profile.Keys
  }

  /** The check on one output of an invocation: a source dataset within its policy, or one derived from all inputs. */
  ghost predicate OutputOk(session: Session, invocation: Invocation, d: Dataset)
  {
    if invocation.source then d.parents == {} && SourceAccepted(session.profile, d)
    else d.parents == invocation.inputs && DerivedAccepted(session.ledger, d)
  }

  predicate DetailOk(t: Tables, invocation: Handle, detail: Detail)
    requires invocation in t.invocations
  {
    match detail
    case OutputMutation(port, staged) => port in t.invocations[invocation].outputs && staged != ""
    case StateMutation(proposal) => proposal != ""
  }

  /** The subject a write claim consumes, if it is valid and unspent. */
  predicate SubjectOk(t: Tables, context: Context, invocation: Handle, claim: Claim, now: int)
  {
    match claim
    case OutputWrite(subject, port) =>
      && subject in t.subjects && t.subjects[subject].owner == context && t.subjects[subject].invocation == invocation
      && t.subjects[subject].detail.OutputMutation? && t.subjects[subject].detail.port == port
      && !t.subjects[subject].consumed
    case StateWrite(subject, proposal) =>
      && subject in t.subjects && t.subjects[subject].owner == context && t.subjects[subject].invocation == invocation
      && t.subjects[subject].detail == StateMutation(proposal) && !t.subjects[subject].consumed
    case Consumer(dataset, isPublic) =>
      && context in t.sessions && dataset < |t.sessions[context].ledger|
      && invocation in t.invocations && dataset in t.invocations[invocation].inputs
      && t.sessions[context].ledger[dataset].expiresAt > now
      && (isPublic ==> PublicWriteAllowed(t.sessions[context].profile, t.sessions[context].ledger[dataset], now))
    case Read(_) => true
  }

  function Spends(claim: Claim): Option<Handle>
  {
    match claim
    case OutputWrite(subject, _) => Some(subject)
    case StateWrite(subject, _) => Some(subject)
    case _ => None
  }

  function RecordsOf(t: Tables, context: Context, claim: Claim): int
    requires Spends(claim).Some? ==> Spends(claim).value in t.subjects
    requires claim.Consumer? ==> context in t.sessions && claim.dataset < |t.sessions[context].ledger|
  {
    match claim
    case Read(records) => records
    case Consumer(dataset, _) => t.sessions[context].ledger[dataset].records
    case OutputWrite(subject, _) => t.subjects[subject].records
    case StateWrite(subject, _) => t.subjects[subject].records
  }

  /** Whether the call returns instead of throwing. */
  ghost predicate Succeeds(t: Tables, call: Call)
  {
    match call
    case Create(_) => true
    case Begin(context, run, begun, declared, now) =>
      && context in t.sessions && run != "" && begun.stageRunId != "" && (context, begun.stageRunId) !in t.used
      && begun.owner == context
      && declared && (begun.source ==> begun.inputs == {}) && forall i :: i in begun.inputs ==>
           InputOk(t.sessions[context], i, now)
    case Return(context, invocation, outputs, shaped) =>
      && context in t.sessions && Owned(t, context, invocation) && shaped
      && forall d :: d in outputs ==> OutputOk(t.sessions[context], t.invocations[invocation], d)
    case Close(context, invocation) => Owned(t, context, invocation)
    case Bind(context, invocation, records, detail) =>
      Owned(t, context, invocation) && DetailOk(t, invocation, detail) && 0 <= records <= MAX_SAFE
    case Authorize(context, a, now) =>
      && Owned(t, context, a.invocation) && t.invocations[a.invocation].stageId == a.stageId
      && SubjectOk(t, context, a.invocation, a.claim, now) && a.granted(RecordsOf(t, context, a.claim))
  }

  function Consumed(t: Tables, claim: Claim): Tables
    requires Spends(claim).Some? ==> Spends(claim).value in t.subjects
  {
    if Spends(claim).None? then t
    else
      var subject := Spends(claim).value;
      t.(subjects := t.subjects[subject := t.subjects[subject].(consumed := true)])
  }

  /** A call that throws changes nothing. */
  ghost function Step(t: Tables, call: Call): Tables
  {
    if !Succeeds(t, call) then t
    else
      match call
      case Create(profile) => t.(sessions := t.sessions[t.next := Session(profile, [])], next := t.next + 1)
      case Return(context, _, outputs, _) =>
        t.(sessions := t.sessions[context := t.sessions[context].(ledger := t.sessions[context].ledger + outputs)])
      case Begin(context, _, begun, _, _) =>
        t.(invocations := t.invocations[t.next := begun], used := t.used + {(context, begun.stageRunId)},
           next := t.next + 1)
      case Close(_, invocation) => t.(invocations := t.invocations - {invocation})
      case Bind(context, invocation, records, detail) =>
        t.(subjects := t.subjects[t.next := Subject(context, invocation, records, false, detail)], next := t.next + 1)
      case Authorize(_, a, _) => Consumed(t, a.claim)
  }

  ghost function Run(calls: seq<Call>): Tables
  {
    if calls == [] then Tables(map[], map[], map[], {}, 0) else Step(Run(calls[..|calls| - 1]), calls[|calls| - 1])
  }

  ghost predicate Inv(t: Tables)
  {
    && (forall c :: c in t.sessions ==> c < t.next && AllAccepted(t.sessions[c].profile, t.sessions[c].ledger))
    && (forall h :: h in t.invocations ==>
         h < t.next
         && (t.invocations[h].owner, t.invocations[h].stageRunId) in t.used)
    && (forall h :: h in t.subjects ==> h < t.next)
  }

  lemma {:induction false} RunInv(calls: seq<Call>)
    ensures Inv(Run(calls))
  {
    if calls != [] {
      RunInv(calls[..|calls| - 1]);
      StepInv(Run(calls[..|calls| - 1]), calls[|calls| - 1]);
    }
  }

  lemma StepInv(t: Tables, call: Call)
    requires Inv(t)
    ensures Inv(Step(t, call))
  {
    hide SubjectOk, DetailOk, RecordsOf, AllAccepted, OutputOk, InputOk;
    match call
    case Create(profile) => NothingToAccept(profile);
    case Return(context, invocation, outputs, _) =>
      if Succeeds(t, call) { AcceptedGrows(t.sessions[context], t.invocations[invocation], outputs); }
    case Authorize(context, a, now) => if Succeeds(t, call) { SpentIsBound(t, context, a, now); }
    case _ =>
  }

  lemma SpentIsBound(t: Tables, context: Context, a: Attempt, now: int)
    requires SubjectOk(t, context, a.invocation, a.claim, now)
    ensures Spends(a.claim).Some? ==> Spends(a.claim).value in t.subjects
  {
  }

  lemma NothingToAccept(profile: Profile)
    ensures AllAccepted(profile, [])
  {
  }

  lemma AcceptedGrows(session: Session, invocation: Invocation, outputs: seq<Dataset>)
    requires AllAccepted(session.profile, session.ledger) && forall d :: d in outputs ==>
               OutputOk(session, invocation, d)
    ensures AllAccepted(session.profile, session.ledger + outputs)
  {
    hide SourceAccepted;
    var ledger, all := session.ledger, session.ledger + outputs;
    forall h | 0 <= h < |all|
      ensures if all[h].parents == {} then SourceAccepted(session.profile, all[h])
              else DerivedAccepted(all[..h], all[h])
    {
      if h < |ledger| {
        assert all[..h] == ledger[..h];
      } else {
        assert all[h] in outputs;
        if !invocation.source {
          LongerLedger(ledger, all[..h], all[h]);
        }
      }
    }
  }

  lemma LongerLedger(ledger: Ledger, longer: Ledger, d: Dataset)
    requires ledger <= longer && DerivedAccepted(ledger, d)
    ensures DerivedAccepted(longer, d)
  {
    assert forall p :: p in d.parents ==> longer[p] == ledger[p];
    assert (set p, x | p in d.parents && x in longer[p].stamps :: x)
           == set p, x | p in d.parents && x in ledger[p].stamps :: x;
    assert (set p, x | p in d.parents && x in longer[p].attributions :: x)
           == set p, x | p in d.parents && x in ledger[p].attributions :: x;
  }

  // Public writes

  /**
   * At any point of any run, a public write is authorized only for a dataset whose source ancestors are all
   * unexpired, approved for redistribution, and of policies the profile approves.
   */
  lemma AuthorizedPublicWritesAreApproved(calls: seq<Call>, context: Context, a: Attempt, now: int, s: nat)
    requires Succeeds(Run(calls), Authorize(context, a, now)) && a.claim.Consumer? && a.claim.isPublic
    requires IsOrigin(ParentsOf(Run(calls).sessions[context].ledger), a.claim.dataset, s)
    ensures var session := Run(calls).sessions[context];
            && s < |session.ledger| && session.ledger[s].approved && session.ledger[s].expiresAt > now
            && exists policy ::
                 policy in session.profile && session.ledger[s].stamps == {policy}
                 && session.profile[policy].approved
  {
    RunInv(calls);
    var session := Run(calls).sessions[context];
    hide Run, IsOrigin, AllAccepted, PublicWriteAllowed, ParentsOf;
    PublicWritesHaveApprovedSources(session.profile, session.ledger, a.claim.dataset, now, s);
  }

  // Datasets are registered for good

  lemma LedgerStep(t: Tables, call: Call, context: Context)
    requires Inv(t) && context in t.sessions
    ensures var u := Step(t, call);
            context in u.sessions && u.sessions[context].profile == t.sessions[context].profile
            && t.sessions[context].ledger <= u.sessions[context].ledger
  {
    hide SubjectOk, DetailOk, RecordsOf, AllAccepted, OutputOk, InputOk;
  }

  /** A registered dataset never changes, whatever is called later. */
  lemma {:induction false} LedgersOnlyGrow(calls: seq<Call>, more: seq<Call>, context: Context)
    requires context in Run(calls).sessions
    ensures var s, t := Run(calls).sessions, Run(calls + more).sessions;
            context in t && t[context].profile == s[context].profile && s[context].ledger <= t[context].ledger
  {
    if more == [] {
      assert calls + more == calls;
    } else {
      var before := calls + more[..|more| - 1];
      assert (calls + more)[..|calls + more| - 1] == before;
      hide Step, Inv;
      LedgersOnlyGrow(calls, more[..|more| - 1], context);
      RunInv(before);
      LedgerStep(Run(before), more[|more| - 1], context);
    }
  }

  // One-shot subjects

  /** The call is a successful authorization that rests on subject `h`. */
  ghost predicate SpendsSubject(t: Tables, call: Call, h: Handle)
  {
    call.Authorize? && Succeeds(t, call) && Spends(call.attempt.claim) == Some(h)
  }

  ghost function Spent(calls: seq<Call>, h: Handle): nat
  {
    if calls == [] then 0
    else Spent(calls[..|calls| - 1], h) + if SpendsSubject(Run(calls[..|calls| - 1]), calls[|calls| - 1], h) then 1
      else 0
  }

  /** A bound subject backs at most one successful authorization, and is consumed exactly when it has. */
  lemma {:induction false} EachSubjectIsSpentOnce(calls: seq<Call>, h: Handle)
    ensures Spent(calls, h) == if h in Run(calls).subjects && Run(calls).subjects[h].consumed then 1 else 0
  {
    hide Step, Succeeds, SpendsSubject;
    if calls != [] {
      EachSubjectIsSpentOnce(calls[..|calls| - 1], h);
      RunInv(calls[..|calls| - 1]);
      SpendStep(Run(calls[..|calls| - 1]), calls[|calls| - 1], h);
    }
  }

  function ConsumedBit(t: Tables, h: Handle): nat
  {
    if h in t.subjects && t.subjects[h].consumed then 1 else 0
  }

  lemma SpendStep(t: Tables, call: Call, h: Handle)
    requires Inv(t)
    ensures ConsumedBit(Step(t, call), h) == ConsumedBit(t, h) + if SpendsSubject(t, call, h) then 1 else 0
  {
    hide AllAccepted, OutputOk, InputOk, PublicWriteAllowed, DetailOk;
  }

  // Stage-run identities

  ghost function Begun(calls: seq<Call>, context: Context, stageRunId: string): nat
  {
    if calls == [] then 0
    else
      var last := calls[|calls| - 1];
      Begun(calls[..|calls| - 1], context, stageRunId)
      + if last.Begin? && last.context == context && last.begun.stageRunId == stageRunId
        && Succeeds(Run(calls[..|calls| - 1]), last) then 1 else 0
  }

  /** No context ever begins two invocations under one stage-run identity, open or closed. */
  lemma {:induction false} StageRunsAreNeverReused(calls: seq<Call>, context: Context, stageRunId: string)
    ensures Begun(calls, context, stageRunId) == if (context, stageRunId) in Run(calls).used then 1 else 0
  {
    if calls != [] {
      hide SubjectOk, DetailOk, RecordsOf, Consumed, InputOk, OutputOk;
      StageRunsAreNeverReused(calls[..|calls| - 1], context, stageRunId);
      UsedStep(Run(calls[..|calls| - 1]), calls[|calls| - 1]);
    }
  }

  lemma UsedStep(t: Tables, call: Call)
    ensures Step(t, call).used ==
            if call.Begin? && Succeeds(t, call) then t.used + {(call.context, call.begun.stageRunId)} else t.used
  {
    hide SubjectOk, DetailOk, RecordsOf, InputOk, OutputOk, AllAccepted;
  }

  // Closed and foreign invocations

  lemma InvocationStep(t: Tables, call: Call, h: Handle)
    requires Inv(t) && h < t.next
    ensures h < Step(t, call).next
    ensures h in Step(t, call).invocations <==>
              h in t.invocations
              && !(call.Close? && call.invocation == h && Succeeds(t, call))
    ensures h in Step(t, call).invocations ==> Step(t, call).invocations[h] == t.invocations[h]
  {
    hide SubjectOk, DetailOk, RecordsOf, InputOk, OutputOk, AllAccepted;
  }

  /** Invocation handles are never reissued, so what is closed stays closed and owners never change. */
  lemma {:induction false} ClosedStaysClosed(calls: seq<Call>, more: seq<Call>, h: Handle)
    requires h < Run(calls).next
    ensures h < Run(calls + more).next
    ensures h in Run(calls + more).invocations ==>
              h in Run(calls).invocations && Run(calls + more).invocations[h] == Run(calls).invocations[h]
  {
    if more == [] {
      assert calls + more == calls;
    } else {
      var before := calls + more[..|more| - 1];
      assert (calls + more)[..|calls + more| - 1] == before;
      hide Step;
      ClosedStaysClosed(calls, more[..|more| - 1], h);
      RunInv(before);
      InvocationStep(Run(before), more[|more| - 1], h);
    }
  }

  /**
   * After an invocation is closed no authorization, binding, return or second close on it ever succeeds, in any
   * context.
   */
  lemma NothingAfterClose(calls: seq<Call>, close: Call, more: seq<Call>, late: Call)
    requires close.Close? && Succeeds(Run(calls), close)
    requires match late
             case Authorize(_, a, _) => a.invocation == close.invocation
             case Bind(_, invocation, _, _) => invocation == close.invocation
             case Return(_, invocation, _, _) => invocation == close.invocation
             case Close(_, invocation) => invocation == close.invocation
             case _ => false
    ensures !Succeeds(Run(calls + [close] + more), late)
  {
    RunInv(calls);
    assert (calls + [close])[..|calls|] == calls;
    ClosedStaysClosed(calls + [close], more, close.invocation);
    hide Run, SubjectOk, DetailOk, RecordsOf, InputOk, OutputOk, AllAccepted;
  }

  /** An authorization succeeds only for the context that began the invocation, and for its own stage. */
  lemma ForeignContextsAreRefused(calls: seq<Call>, begin: Call, more: seq<Call>, context: Context, a: Attempt,
                                  now: int)
    requires begin.Begin? && Succeeds(Run(calls), begin) && a.invocation == Run(calls).next
    requires Succeeds(Run(calls + [begin] + more), Authorize(context, a, now))
    ensures context == begin.context && a.stageId == begin.begun.stageId
  {
    RunInv(calls);
    assert (calls + [begin])[..|calls|] == calls;
    ClosedStaysClosed(calls + [begin], more, a.invocation);
    hide Run, SubjectOk, DetailOk, RecordsOf, InputOk, OutputOk, AllAccepted;
  }

  /** The tables as the module keeps them, changed by the methods of the contexts that share them. */
  class Authorizations {
    var sessions: map<Context, Session>
    var invocations: map<Handle, Invocation>
    var subjects: map<Handle, Subject>
    var usedStageRunIds: set<(Context, string)>
    var sequence: Handle
    ghost var calls: seq<Call>

    ghost function View(): Tables
      reads this
    {
      Tables(sessions, invocations, subjects, usedStageRunIds, sequence)
    }

    /** The tables are what the calls so far led to. */
    ghost predicate Valid()
      reads this
    {
      View() == Run(calls)
    }

    constructor ()
      ensures Valid() && calls == []
    {
      sessions, invocations, subjects, usedStageRunIds, sequence, calls := map[], map[], map[], {}, 0, [];
    }

    method CreateContext(profile: Profile) returns (context: Context)
      requires Valid()
      modifies this
      ensures Valid() && calls == old(calls) + [Create(profile)]
      ensures context !in old(sessions) && sessions == old(sessions)[context := Session(profile, [])]
    {
      RunInv(calls);
      Called(calls, Create(profile));
      hide Run;
      context := sequence;
      sessions := sessions[sequence := Session(profile, [])];
      sequence := sequence + 1;
      calls := calls + [Create(profile)];
    }

    method BeginStageInvocation(context: Context, run: string, begun: Invocation, declared: bool, now: int)
      returns (handle: Option<Handle>)
      requires Valid() && begun.owner == context && context in sessions
      modifies this
      ensures Valid() && calls == old(calls) + [Begin(context, run, begun, declared, now)]
      ensures handle.Some? == Succeeds(old(View()), Begin(context, run, begun, declared, now))
      ensures handle.Some? ==>
                handle.value == old(sequence) && handle.value in invocations
                && invocations[handle.value] == begun
    {
      Called(calls, Begin(context, run, begun, declared, now));
      hide Run, InputOk;
      calls := calls + [Begin(context, run, begun, declared, now)];
      if run == "" || begun.stageRunId == "" || (context, begun.stageRunId) in usedStageRunIds || !declared {
        return None;
      }
      if begun.source && begun.inputs != {} { return None; }
      var todo := begun.inputs;
      while todo != {}
        invariant todo <= begun.inputs && forall i :: i in begun.inputs - todo ==> InputOk(sessions[context], i, now)
      {
        var input :| input in todo;
        if !InputOk(sessions[context], input, now) { return None; }
        todo := todo - {input};
      }
      assert begun.inputs - todo == begun.inputs;
      handle := Some(sequence);
      usedStageRunIds := usedStageRunIds + {(context, begun.stageRunId)};
      invocations := invocations[sequence := begun];
      sequence := sequence + 1;
    }

    /** validateStageOutputs; the outputs of a stage that passes are registered. */
    method ValidateStageOutputs(context: Context, invocation: Handle, outputs: seq<Dataset>, shaped: bool)
      returns (ok: bool)
      requires Valid() && context in sessions
      modifies this
      ensures Valid() && calls == old(calls) + [Return(context, invocation, outputs, shaped)]
      ensures ok == Succeeds(old(View()), Return(context, invocation, outputs, shaped))
    {
      Called(calls, Return(context, invocation, outputs, shaped));
      hide Run, OutputOk;
      calls := calls + [Return(context, invocation, outputs, shaped)];
      ok := false;
      if invocation !in invocations || invocations[invocation].owner != context || !shaped { return; }
      var session, begun := sessions[context], invocations[invocation];
      ok := true;
      for i := 0 to |outputs|
        invariant ok <==> forall j :: 0 <= j < i ==> OutputOk(session, begun, outputs[j])
        invariant View() == old(View()) && calls == old(calls) + [Return(context, invocation, outputs, shaped)]
      {
        var passes := CheckOutput(session, begun, outputs[i]);
        ok := ok && passes;
      }
      EachOutput(session, begun, outputs);
      if ok { sessions := sessions[context := session.(ledger := session.ledger + outputs)]; }
    }

    /** assertSourceDatasetBinding for a source stage, the accumulated restrictions of all inputs for another. */
    method CheckOutput(session: Session, invocation: Invocation, d: Dataset) returns (ok: bool)
      ensures ok == OutputOk(session, invocation, d)
    {
      if invocation.source {
        ok := d.parents == {} && IsSourceDataset(session.profile, d);
      } else {
        ok := d.parents == invocation.inputs;
        if ok { ok := CheckDerived(session.ledger, d); }
      }
    }

    method CloseStageInvocation(context: Context, invocation: Handle) returns (ok: bool)
      requires Valid()
      modifies this
      ensures Valid() && calls == old(calls) + [Close(context, invocation)]
      ensures ok == Succeeds(old(View()), Close(context, invocation)) && (ok ==> invocation !in invocations)
    {
      Called(calls, Close(context, invocation));
      hide Run;
      calls := calls + [Close(context, invocation)];
      ok := invocation in invocations && invocations[invocation].owner == context;
      if ok { invocations := invocations - {invocation}; }
    }

    method BindMutationSubject(context: Context, invocation: Handle, records: int, detail: Detail)
      returns (subject: Option<Handle>)
      requires Valid()
      modifies this
      ensures Valid() && calls == old(calls) + [Bind(context, invocation, records, detail)]
      ensures subject.Some? == Succeeds(old(View()), Bind(context, invocation, records, detail))
      ensures subject.Some? ==> subject.value == old(sequence)
    {
      Called(calls, Bind(context, invocation, records, detail));
      hide Run;
      calls := calls + [Bind(context, invocation, records, detail)];
      if invocation !in invocations || invocations[invocation].owner != context { return None; }
      match detail {
        case OutputMutation(port, staged) =>
          if port !in invocations[invocation].outputs || staged == "" { return None; }
        case StateMutation(proposal) => if proposal == "" { return None; }
      }
      if records < 0 || records > MAX_SAFE { return None; }
      subject := Some(sequence);
      subjects := subjects[sequence := Subject(context, invocation, records, false, detail)];
      sequence := sequence + 1;
    }

    method AuthorizeEffect(context: Context, a: Attempt, now: int) returns (ok: bool)
      requires Valid()
      modifies this
      ensures Valid() && calls == old(calls) + [Authorize(context, a, now)]
      ensures ok == Succeeds(old(View()), Authorize(context, a, now))
    {
      Called(calls, Authorize(context, a, now));
      hide Run, PublicWriteAllowed;
      calls := calls + [Authorize(context, a, now)];
      ok := false;
      if a.invocation !in invocations || invocations[a.invocation].owner != context { return; }
      if invocations[a.invocation].stageId != a.stageId { return; }
      var records;
      match a.claim {
        case Read(count) => records := count;
        case Consumer(dataset, isPublic) =>
          if context !in sessions || dataset >= |sessions[context].ledger|
            || dataset !in invocations[a.invocation].inputs {
            return;
          }
          if sessions[context].ledger[dataset].expiresAt <= now { return; }
          if isPublic && !PublicWriteAllowed(sessions[context].profile, sessions[context].ledger[dataset], now) {
            return;
          }
          records := sessions[context].ledger[dataset].records;
        case OutputWrite(subject, port) =>
          if subject !in subjects || subjects[subject].owner != context
            || subjects[subject].invocation != a.invocation {
            return;
          }
          if !subjects[subject].detail.OutputMutation? || subjects[subject].detail.port != port
            || subjects[subject].consumed {
            return;
          }
          records := subjects[subject].records;
        case StateWrite(subject, proposal) =>
          if subject !in subjects || subjects[subject].owner != context
            || subjects[subject].invocation != a.invocation {
            return;
          }
          if subjects[subject].detail != StateMutation(proposal) || subjects[subject].consumed { return; }
          records := subjects[subject].records;
      }
      if !a.granted(records) { return; }
      var spent := Spends(a.claim);
      if spent.Some? { subjects := subjects[spent.value := subjects[spent.value].(consumed := true)]; }
      ok := true;
    }
  }

  lemma Called(calls: seq<Call>, call: Call)
    ensures Run(calls + [call]) == Step(Run(calls), call)
  {
    hide Step;
    assert (calls + [call])[..|calls|] == calls;
  }

  lemma EachOutput(session: Session, invocation: Invocation, outputs: seq<Dataset>)
    ensures (forall i :: 0 <= i < |outputs| ==> OutputOk(session, invocation, outputs[i])) <==>
              forall d :: d in outputs ==> OutputOk(session, invocation, d)
  {
    hide OutputOk;
    assert forall i :: 0 <= i < |outputs| ==> outputs[i] in outputs;
  }

  /** The source check as it is computed: exactly one stamp, then its policy. */
  predicate IsSourceDataset(profile: Profile, d: Dataset): (r: bool)
    ensures r <==> SourceAccepted(profile, d)
  {
    exists policy :: policy in d.stamps
      && d.stamps == {policy} && policy in profile
      && d.approved == profile[policy].approved
      && d.attributions == (if profile[policy].attribution == "" then {} else {profile[policy].attribution})
      && 0 <= d.expiresAt - d.startedAt <= profile[policy].retention
  }
}
