/** Running the steps of a scenario (src/engine/execution_engine.cpp): retries, nested concepts,
    skipping, and the state a scenario ends in. */
module Steps {
  import opened Concepts

  datatype TestState = Queued | Running | Passed | Failed | Skipped | Cancelled | Errored

  predicate Terminal(s: TestState) {
    !s.Queued? && !s.Running?
  }

  /** The states of a step that end its scenario. */
  predicate Stopping(s: TestState) {
    s.Failed? || s.Errored? || s.Cancelled?
  }

  datatype StepResult = StepResult(state: TestState, attempts: nat, conceptSteps: seq<StepResult>)

  datatype ScenarioResult = ScenarioResult(scenario: nat, row: int, state: TestState,
                                           contextSteps: seq<StepResult>, stepResults: seq<StepResult>,
                                           teardownSteps: seq<StepResult>)

  /** No step failed, erred or was cancelled, at any concept depth. */
  predicate Clean(r: StepResult)
    decreases r, 0
  {
    !Stopping(r.state) && CleanAll(r.conceptSteps)
  }

  predicate CleanAll(rs: seq<StepResult>)
    decreases rs, 1
  {
    forall i :: 0 <= i < |rs| ==> Clean(rs[i])
  }

  predicate CleanScenario(r: ScenarioResult) {
    CleanAll(r.contextSteps) && CleanAll(r.stepResults) && CleanAll(r.teardownSteps)
  }

  /** Every step result counts at most `limit` runs, at any concept depth. */
  predicate Attempts(r: StepResult, limit: nat)
    decreases r, 0
  {
    1 <= r.attempts <= limit && AttemptsAll(r.conceptSteps, limit)
  }

  predicate AttemptsAll(rs: seq<StepResult>, limit: nat)
    decreases rs, 1
  {
    forall i :: 0 <= i < |rs| ==> Attempts(rs[i], limit)
  }

  const MAX_STEP_RETRY := 5

  /** The larger of the request's and the tags' retry count, held within 0 and the cap. */
  function EffectiveRetry(requested: int, fromTags: int): (n: nat)
    ensures n <= MAX_STEP_RETRY
    ensures requested <= n || n == MAX_STEP_RETRY
    ensures fromTags <= n || n == MAX_STEP_RETRY
    ensures n == 0 || n == MAX_STEP_RETRY || n == requested || n == fromTags
  {
    var n := if requested > fromTags then requested else fromTags;
    if n < 0 then 0 else if n > MAX_STEP_RETRY then MAX_STEP_RETRY else n
  }

  /** The answers of the runner to the runs of one step: all but the last are failures, and the last
      is none unless there have been one more than the retries or something disturbed the scenario. */
  predicate Tried(answers: seq<TestState>, retries: nat, disturbed: bool) {
    && |answers| <= retries + 1
    && (forall j :: 0 <= j < |answers| - 1 ==> answers[j] == Failed)
    && (answers != [] && answers[|answers| - 1] == Failed ==> |answers| == retries + 1 || disturbed)
    && (answers == [] ==> disturbed)
  }

  /** Undisturbed, the answers that the runner would give decide how often a step runs. */
  lemma {:induction false} RunsAreFixed(answers: seq<TestState>, more: seq<TestState>, retries: nat)
    requires Tried(answers, retries, false) && Tried(more, retries, false)
    requires forall j :: 0 <= j < |answers| && j < |more| ==> answers[j] == more[j]
    ensures answers == more
  {
    NoFewer(answers, more, retries);
    NoFewer(more, answers, retries);
  }

  lemma {:induction false} NoFewer(answers: seq<TestState>, more: seq<TestState>, retries: nat)
    requires Tried(answers, retries, false) && Tried(more, retries, false)
    requires forall j :: 0 <= j < |answers| && j < |more| ==> answers[j] == more[j]
    ensures |answers| >= |more|
  {
    var last := |answers| - 1;
    assert forall j :: 0 <= j < |more| && j == last ==> answers[j] == more[j];
    assert forall j :: 0 <= j < |more| - 1 && j == last ==> more[j] == Failed;
  }

  class Execution {
    var cancelled: bool
    var timedOut: bool
    const row: map<string, string>
    const files: map<Arg, Arg>
    const maxRetries: nat
    /** The leaf calls that ran to their end, each once however often it was retried. */
    ghost var ran: seq<Call>

    constructor (row: map<string, string>, files: map<Arg, Arg>, maxRetries: nat)
    {
      this.row, this.files, this.maxRetries := row, files, maxRetries;
      cancelled, timedOut, ran := *, *, [];
    }

    /** Both flags only ever rise. */
    twostate predicate Later()
      reads this
    {
      (old(cancelled) ==> cancelled) && (old(timedOut) ==> timedOut)
    }

    predicate Undisturbed()
      reads this
    {
      !cancelled && !timedOut
    }

    method PollCancelled() returns (c: bool)
      modifies this`cancelled
      ensures Later() && c == cancelled
    {
      if * { cancelled := true; }
      c := cancelled;
    }

    /** `checkTimeout`: the flag latches when the deadline has passed. */
    method CheckTimeout() returns (t: bool)
      modifies this`timedOut
      ensures Later() && t == timedOut
    {
      if * { timedOut := true; }
      t := timedOut;
    }

    /** The runner may report any state. */
    method RunOnce(call: Call) returns (state: TestState)
    {
      state := *;
    }

    method ExecuteStep(step: Step) returns (r: StepResult, stop: bool)
      modifies this
      ensures Later()
      ensures stop <==> Stopping(r.state)
      ensures !stop ==> Clean(r)
      ensures Attempts(r, maxRetries + 1)
      ensures !stop && Undisturbed() ==> ran == old(ran) + Calls(step, row, files)
      decreases step, 1
    {
      if step.isConcept {
        r, stop := ExecuteConcept(step);
      } else {
        ghost var answers;
        r, stop, answers := ExecuteLeaf(step);
      }
    }

    method ExecuteConcept(step: Step) returns (r: StepResult, stop: bool)
      requires step.isConcept
      modifies this
      ensures Later()
      ensures stop <==> Stopping(r.state)
      ensures !stop ==> Clean(r)
      ensures Attempts(r, maxRetries + 1)
      ensures !stop && Undisturbed() ==> ran == old(ran) + Calls(step, row, files)
      decreases step, 0
    {
      var state := Passed;
      var inner: seq<StepResult> := [];
      stop := false;
      var i := 0;
      while i < |step.conceptSteps|
        invariant 0 <= i <= |step.conceptSteps|
        invariant Later()
        invariant stop <==> Stopping(state)
        invariant !stop ==> CleanAll(inner)
        invariant AttemptsAll(inner, maxRetries + 1)
        invariant !stop && Undisturbed() ==> ran == old(ran) + CallsAll(step.conceptSteps[..i], row, files)
      {
        var c := PollCancelled();
        if stop || c {
          inner := inner + [StepResult(Skipped, 1, [])];
        } else {
          var ir, innerStop := ExecuteStep(step.conceptSteps[i]);
          Appended(old(ran), step.conceptSteps, i, row, files);
          inner := inner + [ir];
          if innerStop {
            stop := true;
            state := ir.state;
          }
        }
        i := i + 1;
      }
      assert step.conceptSteps[..i] == step.conceptSteps;
      r := StepResult(state, 1, inner);
    }

    /** The result is the last answer of the runner, and the attempts are its answers; without any,
        the step was cancelled or too late before its first run. */
    method ExecuteLeaf(step: Step) returns (r: StepResult, stop: bool, ghost answers: seq<TestState>)
      requires !step.isConcept
      modifies this
      ensures Later()
      ensures stop <==> Stopping(r.state)
      ensures !stop ==> Clean(r)
      ensures Attempts(r, maxRetries + 1)
      ensures !stop && Undisturbed() ==> ran == old(ran) + Calls(step, row, files)
      ensures Tried(answers, maxRetries, !Undisturbed())
      ensures if answers == [] then r.attempts == 1 && (r.state == Cancelled || r.state == Errored)
              else r.attempts == |answers| && r.state == answers[|answers| - 1]
    {
      var args := ResolveArgs(step.args, row, files);
      var call := Call(step.parameterizedText, args);
      var state := Passed;
      var attempts := 0;
      answers := [];
      while true
        invariant |answers| == attempts && forall j :: 0 <= j < |answers| ==> answers[j] == Failed
        invariant Later() && ran == old(ran)
        invariant 0 <= attempts <= maxRetries + 1
        invariant attempts > 0 ==> state == Failed && attempts <= maxRetries
        decreases maxRetries + 1 - attempts
      {
        var disturbed := PollCancelled();
        if !disturbed { disturbed := CheckTimeout(); }
        if disturbed {
          if attempts == 0 {
            attempts := 1;
            var c := PollCancelled();
            state := if c then Cancelled else Errored;
          }
          stop := true;
          break;
        }
        attempts := attempts + 1;
        state := RunOnce(call);
        answers := answers + [state];
        var c := PollCancelled();
        if state == Failed && attempts <= maxRetries && !c && !timedOut {
          continue;
        }
        ran := ran + [call];
        stop := Stopping(state);
        break;
      }
      r := StepResult(state, attempts, []);
    }

    /** One step of a list: skipped once `stopBefore` is up or the test is disturbed. */
    method RunOrSkip(step: Step, stopBefore: bool, stateBefore: TestState)
      returns (sr: StepResult, stop: bool, state: TestState)
      modifies this
      ensures Later()
      ensures stopBefore ==> stop && state == stateBefore && sr == StepResult(Skipped, 1, [])
      ensures !stop ==> Clean(sr) && state == stateBefore
      ensures stop && !stopBefore ==> !Clean(sr)
      ensures stop && !stopBefore ==> state == if sr.state == Errored || stateBefore == Errored then Errored else Failed
      ensures Attempts(sr, maxRetries + 1)
      ensures !stop && Undisturbed() ==> ran == old(ran) + Calls(step, row, files)
    {
      sr, stop, state := StepResult(Skipped, 1, []), stopBefore, stateBefore;
      if stop { return; }
      var c := PollCancelled();
      if c { return; }
      var t := CheckTimeout();
      if t { return; }
      sr, stop := ExecuteStep(step);
      if stop {
        if sr.state == Errored { state := Errored; }
        else if state != Errored { state := Failed; }
      }
    }

    /** Runs `steps` in order. */
    method RunSteps(steps: seq<Step>, stopBefore: bool, stateBefore: TestState)
      returns (out: seq<StepResult>, stop: bool, state: TestState)
      modifies this
      ensures Later() && |out| == |steps|
      ensures stopBefore ==> stop && state == stateBefore
      ensures !stop ==> CleanAll(out) && state == stateBefore
      ensures stop && !stopBefore ==> (state == Failed || state == Errored) && !CleanAll(out)
      ensures stateBefore == Errored ==> state == Errored
      ensures AttemptsAll(out, maxRetries + 1)
      ensures !stop && Undisturbed() ==> ran == old(ran) + CallsAll(steps, row, files)
    {
      out, stop, state := [], stopBefore, stateBefore;
      var i := 0;
      while i < |steps|
        invariant 0 <= i <= |steps| && |out| == i
        invariant Later()
        invariant stopBefore ==> stop && state == stateBefore
        invariant !stop ==> CleanAll(out) && state == stateBefore
        invariant stop && !stopBefore ==> (state == Failed || state == Errored) && !CleanAll(out)
        invariant stateBefore == Errored ==> state == Errored
        invariant AttemptsAll(out, maxRetries + 1)
        invariant !stop && Undisturbed() ==> ran == old(ran) + CallsAll(steps[..i], row, files)
      {
        var sr;
        sr, stop, state := RunOrSkip(steps[i], stop, state);
        Appended(old(ran), steps, i, row, files);
        AllCleanSnoc(out, sr);
        out := out + [sr];
        i := i + 1;
      }
      assert steps[..i] == steps;
    }

    /** A scenario; `beforeOk` and `afterOk` are what the two hooks around it answer. If nothing
        disturbs it, it passes exactly if both succeed and no step goes wrong at any depth. */
    method ExecuteScenario(scenario: nat, rowIndex: int, contexts: seq<Step>, steps: seq<Step>, teardowns: seq<Step>,
                           beforeOk: bool, afterOk: bool)
      returns (r: ScenarioResult)
      modifies this
      ensures Later()
      ensures Undisturbed() ==> (r.state == Passed <==> beforeOk && afterOk && CleanScenario(r))
      ensures r.state == Passed ==> beforeOk && afterOk
      ensures !beforeOk ==> r.state == Errored
      ensures r.scenario == scenario && r.row == rowIndex
      ensures |r.contextSteps| == |contexts| && |r.stepResults| == |steps| && |r.teardownSteps| == |teardowns|
      ensures r.state in {Passed, Failed, Errored, Cancelled}
      ensures r.state == Passed ==> CleanScenario(r)
      ensures r.state == Cancelled ==> cancelled && CleanScenario(r)
      ensures r.state == Passed && Undisturbed() ==>
                ran == old(ran) + CallsAll(contexts, row, files) + CallsAll(steps, row, files) + CallsAll(teardowns, row, files)
    {
      var state := if beforeOk then Passed else Errored;
      var contextSteps, stop, s1 := RunSteps(contexts, !beforeOk, state);
      var stepResults, stop2, s2 := RunSteps(steps, stop, s1);
      var teardownSteps, teardownStop, s3 := RunSteps(teardowns, false, s2);
      state := s3;
      if teardownStop && state == Passed { state := Failed; }
      if !afterOk && state == Passed { state := Failed; }

      var c := PollCancelled();
      var anySkipped := exists i :: 0 <= i < |stepResults| && stepResults[i].state == Skipped;
      if c && state == Passed {
        if anySkipped || steps == [] { state := Cancelled; }
      } else if timedOut && state == Passed {
        if anySkipped { state := Errored; }
      }
      r := ScenarioResult(scenario, rowIndex, state, contextSteps, stepResults, teardownSteps);
    }
  }

  lemma {:induction false} AllCleanSnoc(rs: seq<StepResult>, r: StepResult)
    ensures CleanAll(rs + [r]) <==> CleanAll(rs) && Clean(r)
  {
    var all := rs + [r];
    if CleanAll(all) {
      forall i | 0 <= i < |rs| ensures Clean(rs[i]) { assert Clean(all[i]); }
      assert Clean(all[|rs|]);
    }
  }

  lemma {:induction false} CallsConcat(a: seq<Step>, b: seq<Step>, row: map<string, string>, files: map<Arg, Arg>)
    ensures CallsAll(a + b, row, files) == CallsAll(a, row, files) + CallsAll(b, row, files)
  {
    if a == [] {
      assert a + b == b;
    } else {
      assert (a + b)[0] == a[0] && (a + b)[1..] == a[1..] + b;
      CallsConcat(a[1..], b, row, files);
    }
  }

  lemma {:induction false} CallsSnoc(steps: seq<Step>, i: nat, row: map<string, string>, files: map<Arg, Arg>)
    requires i < |steps|
    ensures CallsAll(steps[..i + 1], row, files) == CallsAll(steps[..i], row, files) + Calls(steps[i], row, files)
  {
    assert steps[..i + 1] == steps[..i] + [steps[i]];
    CallsConcat(steps[..i], [steps[i]], row, files);
    assert CallsAll([steps[i]], row, files) == Calls(steps[i], row, files) + CallsAll([], row, files);
  }

  lemma {:induction false} Appended(log: seq<Call>, steps: seq<Step>, i: nat, row: map<string, string>, files: map<Arg, Arg>)
    requires i < |steps|
    ensures log + CallsAll(steps[..i + 1], row, files)
         == log + CallsAll(steps[..i], row, files) + Calls(steps[i], row, files)
  {
    CallsSnoc(steps, i, row, files);
  }
}
