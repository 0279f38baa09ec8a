/**
 * The store as an object over its two tables (packages/state-sqlite/src/index.ts:88-259), and the
 * executor's use of it over one run (packages/executor/src/index.ts:1406-1598).
 */
module StateStores {
  import opened Wrappers
  import opened Sequences
  import opened RunStore

  class StateStore {
    var runs: map<string, RunRow>
    var attempts: map<AttemptKey, AttemptRow>

    function View(): Tables
      reads this
    {
      Tables(runs, attempts)
    }

    constructor ()
      ensures View() == Tables(map[], map[])
    {
      runs, attempts := map[], map[];
    }

    method BeginRun(run: string, descriptor: string) returns (ok: bool)
      modifies this
      ensures ok == Accepts(old(View()), Operation.BeginRun(run, descriptor))
      ensures Steps(old(View()), Operation.BeginRun(run, descriptor), View())
    {
      ok := run !in runs;
      if ok { runs := runs[run := RunRow(descriptor, Running, None, None)]; }
    }

    /** COALESCE(MAX(attempt), 0) over the attempts of a stage, and whether one of them is running. */
    method Latest(run: string, stage: string) returns (latest: nat, running: bool)
      ensures IsLatest(View(), run, stage, latest)
      ensures running == HasRunningAttempt(View(), run, stage)
    {
      latest, running := 0, false;
      var todo := attempts.Keys;
      while todo != {}
        invariant todo <= attempts.Keys
        invariant latest != 0 ==> AttemptKey(run, stage, latest) in attempts
        invariant forall k :: k in attempts.Keys - todo && k.run == run && k.stage == stage ==> k.attempt <= latest
        invariant running <==> exists k ::
                    k in attempts.Keys - todo && k.run == run && k.stage == stage
                    && attempts[k].status == Running
      {
        var k :| k in todo;
        todo := todo - {k};
        if k.run == run && k.stage == stage {
          if k.attempt > latest { latest := k.attempt; }
          if attempts[k].status == Running { running := true; }
        }
      }
    }

    method BeginStage(run: string, stage: string, startedAt: string) returns (attempt: Option<nat>)
      modifies this`attempts
      ensures attempt.Some? == Accepts(old(View()), Operation.BeginStage(run, stage, startedAt))
      ensures Steps(old(View()), Operation.BeginStage(run, stage, startedAt), View())
      ensures attempt.Some? ==> AttemptRunning(View(), AttemptKey(run, stage, attempt.value))
    {
      if run !in runs || runs[run].status != Running { return None; }
      var latest, running := Latest(run, stage);
      if running { return None; }
      attempt := Some(latest + 1);
      attempts := attempts[AttemptKey(run, stage, latest + 1) := AttemptRow(Running, startedAt, None, "{}", None)];
    }

    method CompleteStage(run: string, stage: string, attempt: nat, finishedAt: string, outputs: string)
      returns (ok: bool)
      modifies this`attempts
      ensures ok == Accepts(old(View()), Operation.CompleteStage(run, stage, attempt, finishedAt, outputs))
      ensures Steps(old(View()), Operation.CompleteStage(run, stage, attempt, finishedAt, outputs), View())
    {
      var k := AttemptKey(run, stage, attempt);
      ok := k in attempts && attempts[k].status == Running;
      if ok {
        attempts := attempts[k := attempts[k].(status := Succeeded, finishedAt := Some(finishedAt), outputs := outputs,
                                               error := None)];
      }
    }

    method FailStage(run: string, stage: string, attempt: nat, finishedAt: string, error: string) returns (ok: bool)
      modifies this`attempts
      ensures ok == Accepts(old(View()), Operation.FailStage(run, stage, attempt, finishedAt, error))
      ensures Steps(old(View()), Operation.FailStage(run, stage, attempt, finishedAt, error), View())
    {
      var k := AttemptKey(run, stage, attempt);
      ok := k in attempts && attempts[k].status == Running;
      if ok {
        attempts := attempts[k := attempts[k].(status := Failed, finishedAt := Some(finishedAt), error := Some(error))];
      }
    }

    /** The query for the latest attempt of every stage of a run. */
    method LatestAttempts(run: string) returns (latest: map<string, nat>)
      ensures forall stage :: stage in latest ==>
                AttemptKey(run, stage, latest[stage]) in attempts
                && IsLatest(View(), run, stage, latest[stage])
      ensures forall k :: k in attempts && k.run == run ==> k.stage in latest
    {
      latest := map[];
      var todo := attempts.Keys;
      while todo != {}
        invariant todo <= attempts.Keys
        invariant forall stage :: stage in latest ==>
                    && AttemptKey(run, stage, latest[stage]) in attempts
                    && forall k :: k in attempts.Keys - todo && k.run == run && k.stage == stage ==>
                         k.attempt <= latest[stage]
        invariant forall k :: k in attempts.Keys - todo && k.run == run ==> k.stage in latest
      {
        var k :| k in todo;
        todo := todo - {k};
        if k.run == run && (k.stage !in latest || latest[k.stage] < k.attempt) {
          latest := latest[k.stage := k.attempt];
        }
      }
    }

    method CompleteRun(run: string, finishedAt: string, expected: seq<string>) returns (ok: bool)
      modifies this`runs
      ensures ok == Accepts(old(View()), Operation.CompleteRun(run, finishedAt, expected))
      ensures Steps(old(View()), Operation.CompleteRun(run, finishedAt, expected), View())
    {
      if !Distinct(expected) || "" in expected { return false; }
      var latest := LatestAttempts(run);
      var complete := latest.Keys == (set s | s in expected)
        && forall stage :: stage in latest ==> attempts[AttemptKey(run, stage, latest[stage])].status == Succeeded;
      CompleteExactly(View(), run, latest, expected);
      if !complete || run !in runs || runs[run].status != Running { return false; }
      runs := runs[run := runs[run].(status := Succeeded, finishedAt := Some(finishedAt), error := None)];
      ok := true;
    }

    method FailRun(run: string, finishedAt: string, error: string) returns (ok: bool)
      modifies this
      ensures ok == Accepts(old(View()), Operation.FailRun(run, finishedAt, error))
      ensures Steps(old(View()), Operation.FailRun(run, finishedAt, error), View())
    {
      if run !in runs || runs[run].status != Running { return false; }
      attempts := FailedAttempts(attempts, run, finishedAt, error);
      runs := runs[run := runs[run].(status := Failed, finishedAt := Some(finishedAt), error := Some(error))];
      ok := true;
    }
  }

  /** Comparing the latest attempts with the expected ids decides whether the run may succeed. */
  lemma CompleteExactly(t: Tables, run: string, latest: map<string, nat>, expected: seq<string>)
    requires forall stage :: stage in latest ==>
               AttemptKey(run, stage, latest[stage]) in t.attempts
               && IsLatest(t, run, stage, latest[stage])
    requires forall k :: k in t.attempts && k.run == run ==> k.stage in latest
    ensures StagesSucceeded(t, run, expected) <==>
              latest.Keys == (set s | s in expected)
              && forall stage :: stage in latest ==>
                   t.attempts[AttemptKey(run, stage, latest[stage])].status == Succeeded
  {
    if StagesSucceeded(t, run, expected) {
      forall stage | stage in latest
        ensures stage in expected && t.attempts[AttemptKey(run, stage, latest[stage])].status == Succeeded
      {
        var k :| k in t.attempts && k.run == run && k.stage == stage && IsLatest(t, run, stage, k.attempt)
          && t.attempts[k].status == Succeeded;
        assert k == AttemptKey(run, stage, latest[stage]);
      }
    }
    if latest.Keys == (set s | s in expected)
      && forall stage :: stage in latest ==> t.attempts[AttemptKey(run, stage, latest[stage])].status == Succeeded {
      forall stage | stage in expected
        ensures exists k :: k in t.attempts && k.run == run && k.stage == stage && IsLatest(t, run, stage, k.attempt)
                            && t.attempts[k].status == Succeeded
      {
        assert stage in latest.Keys;
        assert IsLatest(t, run, stage, AttemptKey(run, stage, latest[stage]).attempt);
      }
    }
  }

  // One run of the executor

  /** What befalls a stage: the run stops before its attempt begins, the attempt fails, or it succeeds. */
  datatype Fate = Stopped | Fails(error: string) | Succeeds(outputs: string)

  predicate AllSucceed(fates: seq<Fate>)
  {
    forall i :: 0 <= i < |fates| ==> fates[i].Succeeds?
  }

  /** The attempts of the run are those of the first `i` stages, and each latest one succeeded. */
  predicate SucceededUpTo(t: Tables, run: string, stages: seq<string>, i: nat)
    requires i <= |stages|
  {
    StagesSucceeded(t, run, stages[..i])
  }

  /**
   * `run`: a run that begins always ends, succeeded exactly when the report is returned; and with
   * distinct stage ids, as validation guarantees, it succeeds exactly when all stages do.
   */
  method ExecuteRun(store: StateStore, run: string, stages: seq<string>, fates: seq<Fate>, startedAt: string,
                    finishedAt: string)
    returns (report: bool)
    requires Inv(store.View()) && |fates| == |stages|
    modifies store
    ensures Inv(store.View())
    ensures run in old(store.runs) ==> !report && store.View() == old(store.View())
    ensures run !in old(store.runs) ==>
              && run in store.runs && store.runs[run].status == (if report then Succeeded else Failed)
              && (Distinct(stages) && "" !in stages ==> report == AllSucceed(fates))
    ensures forall other :: other in old(store.runs) ==>
              other in store.runs && store.runs[other] == old(store.runs)[other]
  {
    var begun := store.BeginRun(run, "preview");
    StepKeepsInv(old(store.View()), BeginRun(run, "preview"), store.View());
    if !begun { return false; }
    var ok := true;
    var i := 0;
    while i < |stages| && ok
      invariant i <= |stages| && Inv(store.View()) && IsRunning(store.View(), run)
      invariant forall other :: other in old(store.runs) ==>
                  other in store.runs && store.runs[other] == old(store.runs)[other]
      invariant ok ==> AllSucceed(fates[..i]) && SucceededUpTo(store.View(), run, stages, i)
      invariant !ok && Distinct(stages) ==> !AllSucceed(fates)
    {
      ok := ExecuteStage(store, run, stages, i, fates[i], startedAt, finishedAt);
      i := i + 1;
    }
    assert fates[..|stages|] == fates && stages[..|stages|] == stages;
    if ok {
      ghost var before := store.View();
      report := store.CompleteRun(run, finishedAt, stages);
      StepKeepsInv(before, CompleteRun(run, finishedAt, stages), store.View());
      if report { return; }
    }
    ghost var before := store.View();
    var failed := store.FailRun(run, finishedAt, "failed");
    StepKeepsInv(before, FailRun(run, finishedAt, "failed"), store.View());
    report := false;
  }

  method ExecuteStage(store: StateStore, run: string, stages: seq<string>, i: nat, fate: Fate, startedAt: string,
                      finishedAt: string)
    returns (ok: bool)
    requires Inv(store.View()) && IsRunning(store.View(), run) && i < |stages|
             && SucceededUpTo(store.View(), run, stages, i)
    modifies store`attempts
    ensures Inv(store.View()) && IsRunning(store.View(), run)
    ensures ok ==> fate.Succeeds? && SucceededUpTo(store.View(), run, stages, i + 1)
    ensures !ok && Distinct(stages) ==> !fate.Succeeds?
  {
    if fate.Stopped? { return false; }
    ghost var t0 := store.View();
    var attempt := store.BeginStage(run, stages[i], startedAt);
    ghost var t1 := store.View();
    StepKeepsInv(t0, BeginStage(run, stages[i], startedAt), t1);
    if attempt.None? { return false; }
    if fate.Fails? {
      var failed := store.FailStage(run, stages[i], attempt.value, finishedAt, fate.error);
      StepKeepsInv(t1, FailStage(run, stages[i], attempt.value, finishedAt, fate.error), store.View());
      return false;
    }
    ok := store.CompleteStage(run, stages[i], attempt.value, finishedAt, fate.outputs);
    StepKeepsInv(t1, CompleteStage(run, stages[i], attempt.value, finishedAt, fate.outputs), store.View());
    StageAdded(t0, store.View(), run, stages, i, attempt.value);
  }

  lemma StageAdded(t0: Tables, t2: Tables, run: string, stages: seq<string>, i: nat, attempt: nat)
    requires i < |stages| && SucceededUpTo(t0, run, stages, i)
    requires IsLatest(t2, run, stages[i], attempt)
    requires AttemptKey(run, stages[i], attempt) in t2.attempts
             && t2.attempts[AttemptKey(run, stages[i], attempt)].status == Succeeded
    requires forall k: AttemptKey :: k != AttemptKey(run, stages[i], attempt) ==>
               (k in t0.attempts <==> k in t2.attempts) && (k in t0.attempts ==> t2.attempts[k] == t0.attempts[k])
    ensures SucceededUpTo(t2, run, stages, i + 1)
  {
    var before, after := stages[..i], stages[..i + 1];
    assert after == before + [stages[i]];
    forall stage | stage in after
      ensures exists k :: k in t2.attempts && k.run == run && k.stage == stage && IsLatest(t2, run, stage, k.attempt)
                          && t2.attempts[k].status == Succeeded
    {
      if stage == stages[i] {
        assert IsLatest(t2, run, stage, AttemptKey(run, stage, attempt).attempt);
      } else {
        var k :| k in t0.attempts && k.run == run && k.stage == stage && IsLatest(t0, run, stage, k.attempt)
                 && t0.attempts[k].status == Succeeded;
        assert k in t2.attempts && IsLatest(t2, run, stage, k.attempt);
      }
    }
  }
}
