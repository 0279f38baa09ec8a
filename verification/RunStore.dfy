/**
 * The run-state store (packages/state-sqlite/src/index.ts:88-259): tables of runs and stage attempts,
 * each operation one transaction that either happens whole or not at all.
 */
module RunStore {
  import opened Wrappers
  import opened Sequences

  datatype Status = Running | Succeeded | Failed

  datatype RunRow = RunRow(descriptor: string, status: Status, finishedAt: Option<string>, error: Option<string>)

  datatype AttemptRow = AttemptRow(
    status: Status, startedAt: string, finishedAt: Option<string>, outputs: string, error: Option<string>)

  datatype AttemptKey = AttemptKey(run: string, stage: string, attempt: nat)

  datatype Tables = Tables(runs: map<string, RunRow>, attempts: map<AttemptKey, AttemptRow>)

  datatype Operation =
    | BeginRun(run: string, descriptor: string)
    | BeginStage(run: string, stage: string, startedAt: string)
    | CompleteStage(run: string, stage: string, attempt: nat, finishedAt: string, outputs: string)
    | FailStage(run: string, stage: string, attempt: nat, finishedAt: string, error: string)
    | CompleteRun(run: string, finishedAt: string, expected: seq<string>)
    | FailRun(run: string, finishedAt: string, error: string)

  predicate IsRunning(t: Tables, run: string)
  {
    run in t.runs && t.runs[run].status == Running
  }

  predicate AttemptRunning(t: Tables, k: AttemptKey)
  {
    k in t.attempts && t.attempts[k].status == Running
  }

  /** `m` is the highest attempt of the stage, or 0 when there is none. */
  predicate IsLatest(t: Tables, run: string, stage: string, m: nat)
  {
    && (m != 0 ==> AttemptKey(run, stage, m) in t.attempts)
    && (forall k :: k in t.attempts && k.run == run && k.stage == stage ==> k.attempt <= m)
  }

  predicate HasRunningAttempt(t: Tables, run: string, stage: string)
  {
    exists k :: k in t.attempts && k.run == run && k.stage == stage && t.attempts[k].status == Running
  }

  /** The stages with an attempt are exactly `expected`, and each latest attempt succeeded. */
  predicate StagesSucceeded(t: Tables, run: string, expected: seq<string>)
  {
    && (forall k :: k in t.attempts && k.run == run ==> k.stage in expected)
    && (forall stage :: stage in expected ==>
          exists k :: k in t.attempts && k.run == run && k.stage == stage && IsLatest(t, run, stage, k.attempt)
                      && t.attempts[k].status == Succeeded)
  }

  /** When the store performs an operation rather than throwing. */
  predicate Accepts(t: Tables, op: Operation)
  {
    match op
    case BeginRun(run, _) => run !in t.runs
    case BeginStage(run, stage, _) => IsRunning(t, run) && !HasRunningAttempt(t, run, stage)
    case CompleteStage(run, stage, attempt, _, _) => AttemptRunning(t, AttemptKey(run, stage, attempt))
    case FailStage(run, stage, attempt, _, _) => AttemptRunning(t, AttemptKey(run, stage, attempt))
    case CompleteRun(run, _, expected) =>
      Distinct(expected) && "" !in expected && StagesSucceeded(t, run, expected) && IsRunning(t, run)
    case FailRun(run, _, _) => IsRunning(t, run)
  }

  function FailedAttempts(attempts: map<AttemptKey, AttemptRow>, run: string, finishedAt: string,
                          error: string): map<AttemptKey, AttemptRow>
  {
    map k | k in attempts ::
      if k.run == run && attempts[k].status == Running then
        attempts[k].(status := Failed, finishedAt := Some(finishedAt),
                     error := if attempts[k].error.Some? then attempts[k].error else Some(error))
      else attempts[k]
  }

  /** The tables after an accepted operation; `m` is the latest attempt before a `BeginStage`. */
  function Performed(t: Tables, op: Operation, m: nat): Tables
    requires Accepts(t, op)
  {
    match op
    case BeginRun(run, descriptor) => t.(runs := t.runs[run := RunRow(descriptor, Running, None, None)])
    case BeginStage(run, stage, startedAt) =>
      t.(attempts := t.attempts[AttemptKey(run, stage, m + 1) := AttemptRow(Running, startedAt, None, "{}", None)])
    case CompleteStage(run, stage, attempt, finishedAt, outputs) =>
      var k := AttemptKey(run, stage, attempt);
      t.(attempts := t.attempts[k := t.attempts[k].(status := Succeeded, finishedAt := Some(finishedAt),
                                                    outputs := outputs, error := None)])
    case FailStage(run, stage, attempt, finishedAt, error) =>
      var k := AttemptKey(run, stage, attempt);
      t.(attempts := t.attempts[k := t.attempts[k].(status := Failed, finishedAt := Some(finishedAt),
                                                    error := Some(error))])
    case CompleteRun(run, finishedAt, _) =>
      t.(runs := t.runs[run := t.runs[run].(status := Succeeded, finishedAt := Some(finishedAt), error := None)])
    case FailRun(run, finishedAt, error) =>
      Tables(t.runs[run := t.runs[run].(status := Failed, finishedAt := Some(finishedAt), error := Some(error))],
             FailedAttempts(t.attempts, run, finishedAt, error))
  }

  /** One call of the store: a rejected one rolls back. */
  ghost predicate Steps(t: Tables, op: Operation, t': Tables)
  {
    if Accepts(t, op) then
      if op.BeginStage? then exists m :: IsLatest(t, op.run, op.stage, m) && t' == Performed(t, op, m)
      else t' == Performed(t, op, 0)
    else t' == t
  }

  // The invariant of every reachable store

  /** Attempts are numbered 1..n. */
  predicate Numbered(t: Tables)
  {
    && (forall k :: k in t.attempts ==> k.attempt >= 1)
    && (forall k, j :: k in t.attempts && 1 <= j <= k.attempt ==> AttemptKey(k.run, k.stage, j) in t.attempts)
  }

  /** Only the last attempt of a stage may be running, and only while its run is. */
  predicate OnlyLastRuns(t: Tables)
  {
    forall k :: k in t.attempts && t.attempts[k].status == Running ==>
      IsRunning(t, k.run) && IsLatest(t, k.run, k.stage, k.attempt)
  }

  predicate Inv(t: Tables)
  {
    Numbered(t) && OnlyLastRuns(t) && forall k :: k in t.attempts ==> k.run in t.runs
  }

  lemma StepKeepsInv(t: Tables, op: Operation, t': Tables)
    requires Inv(t) && Steps(t, op, t')
    ensures Inv(t')
  {
    hide Inv;
    if op.BeginStage? {
      if Accepts(t, op) {
        var m :| IsLatest(t, op.run, op.stage, m) && t' == Performed(t, op, m);
        BeginStageKeepsInv(t, op, m);
      }
    } else if Accepts(t, op) {
      OthersKeepInv(t, op);
    }
  }

  lemma BeginStageKeepsInv(t: Tables, op: Operation, m: nat)
    requires Inv(t) && op.BeginStage? && Accepts(t, op) && IsLatest(t, op.run, op.stage, m)
    ensures Inv(Performed(t, op, m))
  {
  }

  lemma OthersKeepInv(t: Tables, op: Operation)
    requires Inv(t) && !op.BeginStage? && Accepts(t, op)
    ensures Inv(Performed(t, op, 0))
  {
    hide Distinct, HasRunningAttempt;
    match op
    case BeginRun(_, _) =>
    case CompleteRun(_, _, _) =>
    case _ =>
  }

  // Histories

  /** Every state the store passes through while `ops` are called in order on an empty database. */
  ghost predicate IsHistory(ops: seq<Operation>, states: seq<Tables>)
  {
    && |states| == |ops| + 1 && states[0] == Tables(map[], map[])
    && forall i :: 0 <= i < |ops| ==> Steps(states[i], ops[i], states[i + 1])
  }

  lemma {:induction false} HistoryInv(ops: seq<Operation>, states: seq<Tables>, i: nat)
    requires IsHistory(ops, states) && i < |states|
    ensures Inv(states[i])
  {
    hide Inv, Steps;
    if i == 0 {
      EmptyInv();
    } else {
      HistoryInv(ops, states, i - 1);
      StepKeepsInv(states[i - 1], ops[i - 1], states[i]);
    }
  }

  lemma EmptyInv()
    ensures Inv(Tables(map[], map[]))
  {
  }

  ghost predicate SameAttempts(t: Tables, t': Tables, run: string)
  {
    forall k: AttemptKey :: k.run == run ==>
      (k in t.attempts <==> k in t'.attempts) && (k in t.attempts ==> t'.attempts[k] == t.attempts[k])
  }

  lemma TerminalStep(t: Tables, op: Operation, t': Tables, run: string)
    requires Inv(t) && Steps(t, op, t') && run in t.runs && t.runs[run].status != Running
    ensures run in t'.runs && t'.runs[run] == t.runs[run] && SameAttempts(t, t', run)
  {
    hide IsLatest, Numbered, StagesSucceeded;
  }

  /** A run that ended never changes again, and neither does any of its attempts; none of them is running. */
  lemma {:induction false} TerminalRunsAreFrozen(ops: seq<Operation>, states: seq<Tables>, i: nat, j: nat, run: string)
    requires IsHistory(ops, states) && i <= j < |states|
    requires run in states[i].runs && states[i].runs[run].status != Running
    ensures run in states[j].runs && states[j].runs[run] == states[i].runs[run]
            && SameAttempts(states[i], states[j], run)
    ensures forall k :: k in states[j].attempts && k.run == run ==> states[j].attempts[k].status != Running
    decreases j - i
  {
    hide Steps, IsLatest, Numbered;
    HistoryInv(ops, states, j);
    if i < j {
      TerminalRunsAreFrozen(ops, states, i, j - 1, run);
      HistoryInv(ops, states, j - 1);
      TerminalStep(states[j - 1], ops[j - 1], states[j], run);
    }
  }

  /** An attempt that ended never changes again. */
  lemma {:induction false} FinishedAttemptsAreFrozen(ops: seq<Operation>, states: seq<Tables>, i: nat, j: nat,
                                                     k: AttemptKey)
    requires IsHistory(ops, states) && i <= j < |states|
    requires k in states[i].attempts && states[i].attempts[k].status != Running
    ensures k in states[j].attempts && states[j].attempts[k] == states[i].attempts[k]
    decreases j - i
  {
    hide Steps;
    if i < j {
      FinishedAttemptsAreFrozen(ops, states, i, j - 1, k);
      FinishedStep(states[j - 1], ops[j - 1], states[j], k);
    }
  }

  lemma FinishedStep(t: Tables, op: Operation, t': Tables, k: AttemptKey)
    requires Steps(t, op, t') && k in t.attempts && t.attempts[k].status != Running
    ensures k in t'.attempts && t'.attempts[k] == t.attempts[k]
  {
    hide StagesSucceeded;
  }

  /** A stage has at most one running attempt, its last one. */
  lemma OneRunningAttempt(ops: seq<Operation>, states: seq<Tables>, i: nat, k: AttemptKey, j: AttemptKey)
    requires IsHistory(ops, states) && i < |states|
    requires AttemptRunning(states[i], k) && j in states[i].attempts && j.run == k.run && j.stage == k.stage
    ensures j.attempt <= k.attempt && (states[i].attempts[j].status == Running ==> j == k)
  {
    HistoryInv(ops, states, i);
  }

  /** How many `BeginStage` calls for the stage were accepted. */
  ghost function Begins(ops: seq<Operation>, states: seq<Tables>, i: nat, run: string, stage: string): nat
    requires |states| == |ops| + 1 && i <= |ops|
  {
    if i == 0 then 0
    else Begins(ops, states, i - 1, run, stage) +
         if ops[i - 1].BeginStage? && ops[i - 1].run == run && ops[i - 1].stage == stage
           && Accepts(states[i - 1], ops[i - 1]) then 1 else 0
  }

  /** The attempts of a stage are exactly 1 up to the number of times it was begun. */
  lemma {:induction false} AttemptsAreTheBegins(ops: seq<Operation>, states: seq<Tables>, i: nat, run: string,
                                                stage: string)
    requires IsHistory(ops, states) && i <= |ops|
    ensures forall a: nat :: AttemptKey(run, stage, a) in states[i].attempts <==>
              1 <= a <= Begins(ops, states, i, run, stage)
  {
    hide Steps;
    if i > 0 {
      AttemptsAreTheBegins(ops, states, i - 1, run, stage);
      HistoryInv(ops, states, i - 1);
      AttemptStep(states[i - 1], ops[i - 1], states[i], run, stage, Begins(ops, states, i - 1, run, stage));
    }
  }

  lemma AttemptStep(t: Tables, op: Operation, t': Tables, run: string, stage: string, n: nat)
    requires Inv(t) && Steps(t, op, t')
    requires forall a: nat :: AttemptKey(run, stage, a) in t.attempts <==> 1 <= a <= n
    ensures var begun := op.BeginStage? && op.run == run && op.stage == stage && Accepts(t, op);
            forall a: nat :: AttemptKey(run, stage, a) in t'.attempts <==> 1 <= a <= n + if begun then 1 else 0
  {
    hide StagesSucceeded, HasRunningAttempt, OnlyLastRuns;
    if op.BeginStage? && op.run == run && op.stage == stage && Accepts(t, op) {
      var m :| IsLatest(t, run, stage, m) && t' == Performed(t, op, m);
      assert m == n by {
        if n > 0 { assert AttemptKey(run, stage, n) in t.attempts; }
      }
    }
  }

  /** A succeeded run was completed with exactly the stages it has, and the latest attempt of each succeeded. */
  lemma {:induction false} SucceededRunsAreComplete(ops: seq<Operation>, states: seq<Tables>, j: nat, run: string)
    requires IsHistory(ops, states) && j < |states|
    requires run in states[j].runs && states[j].runs[run].status == Succeeded
    ensures exists i :: 0 <= i < j && ops[i].CompleteRun? && ops[i].run == run && Distinct(ops[i].expected)
                        && StagesSucceeded(states[j], run, ops[i].expected)
  {
    hide Steps, StagesSucceeded, Distinct, Inv;
    if run in states[j - 1].runs && states[j - 1].runs[run].status != Running {
      HistoryInv(ops, states, j - 1);
      TerminalStep(states[j - 1], ops[j - 1], states[j], run);
      SucceededRunsAreComplete(ops, states, j - 1, run);
      var i :| 0 <= i < j - 1 && ops[i].CompleteRun? && ops[i].run == run && Distinct(ops[i].expected)
               && StagesSucceeded(states[j - 1], run, ops[i].expected);
      SameSuccess(states[j - 1], states[j], run, ops[i].expected);
    } else {
      OnlyCompletionSucceeds(states[j - 1], ops[j - 1], states[j], run);
    }
  }

  lemma SameSuccess(t: Tables, t': Tables, run: string, expected: seq<string>)
    requires SameAttempts(t, t', run) && StagesSucceeded(t, run, expected)
    ensures StagesSucceeded(t', run, expected)
  {
    forall stage | stage in expected
      ensures exists k :: k in t'.attempts && k.run == run && k.stage == stage && IsLatest(t', run, stage, k.attempt)
                          && t'.attempts[k].status == Succeeded
    {
      var k :| k in t.attempts && k.run == run && k.stage == stage && IsLatest(t, run, stage, k.attempt)
        && t.attempts[k].status == Succeeded;
      assert k in t'.attempts && IsLatest(t', run, stage, k.attempt);
    }
  }

  lemma OnlyCompletionSucceeds(t: Tables, op: Operation, t': Tables, run: string)
    requires Steps(t, op, t') && run in t'.runs && t'.runs[run].status == Succeeded
    requires !(run in t.runs && t.runs[run].status != Running)
    ensures op.CompleteRun? && op.run == run && Distinct(op.expected) && StagesSucceeded(t', run, op.expected)
  {
    hide StagesSucceeded, Distinct, HasRunningAttempt;
    if op.CompleteRun? && op.run == run {
      SameSuccess(t, t', run, op.expected);
    }
  }
}
