/** Running the scenarios of a test one after the other or on several streams, and the states
    that specifications and the test end in (src/engine/execution_engine.cpp). */
module Runs {
  import opened Text
  import opened Steps
  import Concepts

  /** A loaded specification: what `execute` knows before anything runs. `rows` is 0 without a
      data table; `selected` says which scenarios pass the tag and name filters; `errorText` is
      what is reported of one that did not parse. */
  datatype LoadedSpec = LoadedSpec(parsed: bool, rows: nat, selected: seq<bool>, errorText: string)

  datatype Cell = Cell(scenario: nat, row: int)

  /** The counts of the source's record are those of `scenarios`: `PassedIn`, `BadIn`, `SkippedIn`. */
  datatype SpecResult = SpecResult(state: TestState, scenarios: seq<ScenarioResult>)

  /** The outcome of running one cell of one specification. */
  type Oracle = (nat, Cell) -> ScenarioResult

  datatype HookAnswer = Fine | Broken(message: string)

  /** What the hooks around the suite and around each specification answer on each stream; a
      sequential test is stream 0. */
  datatype Hooks = Hooks(beforeSuite: nat -> HookAnswer, afterSuite: nat -> HookAnswer,
                         beforeSpec: (nat, nat) -> bool, afterSpec: (nat, nat) -> bool)

  /** All that decides how a test goes besides its specifications and the order of its threads:
      whether a cancel or the deadline may come, the hooks, the outcome of each cell, and its outcome
      if a cancel or the deadline hits it under way. */
  datatype Test = Test(failFast: bool, cancels: bool, expires: bool, hooks: Hooks, exec: Oracle, late: Oracle)

  // ---------------------------------------------------------------- the cells of a specification

  function RowCount(l: LoadedSpec): nat {
    if l.rows > 0 then l.rows else 1
  }

  function RowIndex(l: LoadedSpec, row: nat): int {
    if l.rows > 0 then row else -1
  }

  /** The selected scenarios among the first `k`, for one row. */
  function RowCells(l: LoadedSpec, row: nat, k: nat): seq<Cell>
    requires k <= |l.selected|
  {
    if k == 0 then []
    else RowCells(l, row, k - 1) + if l.selected[k - 1] then [Cell(k - 1, RowIndex(l, row))] else []
  }

  function CellsOf(l: LoadedSpec, rows: nat): seq<Cell> {
    if rows == 0 then [] else CellsOf(l, rows - 1) + RowCells(l, rows - 1, |l.selected|)
  }

  /** Row-major: every row runs all selected scenarios before the next row starts. */
  function Cells(l: LoadedSpec): seq<Cell> {
    if l.parsed then CellsOf(l, RowCount(l)) else []
  }

  // ---------------------------------------------------------------- counting and aggregation

  /** The four counters of the source's switch over a scenario's state. */
  datatype Kind = KPassed | KFailed | KErrored | KOther

  function KindOf(s: TestState): Kind {
    match s
    case Passed => KPassed
    case Failed => KFailed
    case Errored => KErrored
    case _ => KOther
  }

  function Count(rs: seq<ScenarioResult>, n: nat, k: Kind): nat
    requires n <= |rs|
  {
    if n == 0 then 0 else Count(rs, n - 1, k) + if KindOf(rs[n - 1].state) == k then 1 else 0
  }

  function PassedIn(rs: seq<ScenarioResult>): nat {
    Count(rs, |rs|, KPassed)
  }

  /** A failed scenario and one that erred count alike in the status. */
  function BadIn(rs: seq<ScenarioResult>): nat {
    Count(rs, |rs|, KFailed) + Count(rs, |rs|, KErrored)
  }

  function SkippedIn(rs: seq<ScenarioResult>): nat {
    Count(rs, |rs|, KOther)
  }

  lemma {:induction false} CountPrefix(rs: seq<ScenarioResult>, more: seq<ScenarioResult>, n: nat, k: Kind)
    requires n <= |rs|
    ensures Count(rs + more, n, k) == Count(rs, n, k)
  {
    if n > 0 { CountPrefix(rs, more, n - 1, k); }
  }

  lemma {:induction false} CountsSnoc(rs: seq<ScenarioResult>, r: ScenarioResult)
    ensures PassedIn(rs + [r]) == PassedIn(rs) + Unit(r.state.Passed?)
    ensures BadIn(rs + [r]) == BadIn(rs) + Unit(Bad(r.state))
    ensures SkippedIn(rs + [r]) == SkippedIn(rs) + Unit(KindOf(r.state).KOther?)
  {
    CountPrefix(rs, [r], |rs|, KPassed);
    CountPrefix(rs, [r], |rs|, KFailed);
    CountPrefix(rs, [r], |rs|, KErrored);
    CountPrefix(rs, [r], |rs|, KOther);
  }

  lemma {:induction false} CountsAddUp(rs: seq<ScenarioResult>, n: nat)
    requires n <= |rs|
    ensures Count(rs, n, KPassed) + Count(rs, n, KFailed) + Count(rs, n, KErrored) + Count(rs, n, KOther) == n
  {
    if n > 0 { CountsAddUp(rs, n - 1); }
  }

  predicate Bad(s: TestState) {
    s.Failed? || s.Errored?
  }

  predicate Good(s: TestState) {
    s.Passed? || s.Skipped? || s.Cancelled?
  }

  function AggregateState(failed: int, errored: int, skipped: int, total: int, cancelled: bool): TestState {
    if cancelled then Cancelled
    else if errored > 0 && failed == 0 then Errored
    else if failed > 0 || errored > 0 then Failed
    else if total > 0 && skipped == total then Skipped
    else Passed
  }

  function SpecState(rs: seq<ScenarioResult>, hookFailed: bool, cancelled: bool): TestState {
    if rs == [] then Skipped
    else if hookFailed then Errored
    else AggregateState(Count(rs, |rs|, KFailed), Count(rs, |rs|, KErrored), SkippedIn(rs), |rs|,
                        cancelled && SkippedIn(rs) == |rs|)
  }

  function Summary(rs: seq<ScenarioResult>, hookFailed: bool, cancelled: bool): SpecResult {
    SpecResult(SpecState(rs, hookFailed, cancelled), rs)
  }

  /** The counting at the end of `executeSpec`, and of `executeParallel` for each specification. */
  method Summarize(rs: seq<ScenarioResult>, hookFailed: bool, cancelled: bool) returns (s: SpecResult)
    ensures s == Summary(rs, hookFailed, cancelled)
  {
    var passed, failed, errored, skipped := 0, 0, 0, 0;
    var n := 0;
    while n < |rs|
      invariant 0 <= n <= |rs|
      invariant passed == Count(rs, n, KPassed) && failed == Count(rs, n, KFailed)
      invariant errored == Count(rs, n, KErrored) && skipped == Count(rs, n, KOther)
    {
      match rs[n].state {
        case Passed => passed := passed + 1;
        case Failed => failed := failed + 1;
        case Errored => errored := errored + 1;
        case _ => skipped := skipped + 1;
      }
      n := n + 1;
    }
    CountsAddUp(rs, |rs|);
    var state;
    if |rs| == 0 {
      state := Skipped;
    } else if hookFailed {
      state := Errored;
    } else {
      state := AggregateState(failed, errored, skipped, |rs|, cancelled && passed + failed + errored == 0);
    }
    s := SpecResult(state, rs);
  }

  function OutcomesOf(i: nat, cells: seq<Cell>, exec: Oracle): (r: seq<ScenarioResult>)
    ensures |r| == |cells| && forall j :: 0 <= j < |cells| ==> r[j] == exec(i, cells[j])
  {
    seq(|cells|, j requires 0 <= j < |cells| => exec(i, cells[j]))
  }

  /** What an undisturbed run must report if `faults` says which specifications have a hook error. */
  function Reference(loaded: seq<LoadedSpec>, exec: Oracle, faults: seq<bool>): (r: seq<SpecResult>)
    requires |faults| == |loaded|
    ensures |r| == |loaded|
  {
    seq(|loaded|, i requires 0 <= i < |loaded| => SpecReference(loaded[i], i, exec, faults[i]))
  }

  function SpecReference(l: LoadedSpec, i: nat, exec: Oracle, fault: bool): SpecResult {
    if l.parsed then Summary(OutcomesOf(i, Cells(l), exec), fault, false) else SpecResult(Errored, [])
  }

  function NoFaults(n: nat): (r: seq<bool>)
    ensures |r| == n && forall i :: 0 <= i < n ==> !r[i]
  {
    seq(n, i => false)
  }

  /** A hook error changes the report of a specification exactly if it has scenarios and would
      not be an error anyway. */
  lemma {:induction false} FaultShows(l: LoadedSpec, i: nat, exec: Oracle, fault: bool)
    ensures SpecReference(l, i, exec, fault) == SpecReference(l, i, exec, false)
       <==> !fault || Cells(l) == [] || SpecReference(l, i, exec, false).state == Errored
    ensures fault && Cells(l) != [] ==> SpecReference(l, i, exec, fault).state == Errored
  {
    assert Cells(l) != [] ==> l.parsed;
  }

  /** One result per cell, in order. */
  ghost predicate Covers(rs: seq<ScenarioResult>, cells: seq<Cell>) {
    |rs| == |cells| && forall j :: 0 <= j < |cells| ==> rs[j].scenario == cells[j].scenario && rs[j].row == cells[j].row
  }

  /** A result of this cell that is PASSED only if no step of it went wrong. */
  ghost predicate Faithful(r: ScenarioResult, c: Cell) {
    r.scenario == c.scenario && r.row == c.row && (r.state == Passed ==> CleanScenario(r))
  }

  /** The outcomes that a test may have are those that `executeScenario` returns. */
  method Outcome(x: Execution, c: Cell, contexts: seq<Concepts.Step>, steps: seq<Concepts.Step>,
                 teardowns: seq<Concepts.Step>, beforeOk: bool, afterOk: bool)
    returns (r: ScenarioResult)
    modifies x
    ensures Faithful(r, c)
  {
    r := x.ExecuteScenario(c.scenario, c.row, contexts, steps, teardowns, beforeOk, afterOk);
  }

  ghost predicate FaithfulOracle(exec: Oracle) {
    forall i: nat, c: Cell :: Faithful(exec(i, c), c)
  }

  ghost predicate FaithfulTest(t: Test) {
    FaithfulOracle(t.exec) && FaithfulOracle(t.late)
  }

  // ---------------------------------------------------------------- what a test may report of a cell

  function SkippedResult(c: Cell, cancelled: bool): ScenarioResult {
    ScenarioResult(c.scenario, c.row, if cancelled then Cancelled else Skipped, [], [], [])
  }

  /** What has stopped a test so far. */
  datatype Flags = Flags(cancelled: bool, timedOut: bool, stopped: bool)

  predicate Within(f: Flags, g: Flags) {
    (f.cancelled ==> g.cancelled) && (f.timedOut ==> g.timedOut) && (f.stopped ==> g.stopped)
  }

  /** All that may ever stop this test. */
  function Possible(t: Test): Flags {
    Flags(t.cancels, t.expires, t.cancels || t.expires || t.failFast)
  }

  /** The hooks before a specification have succeeded on a stream, so that its scenarios may run. */
  predicate HooksOk(t: Test, s: nat, i: nat) {
    t.hooks.beforeSuite(s).Fine? && t.hooks.beforeSpec(s, i)
  }

  /** A scenario that is skipped is reported as skipped, and only after a stop or a failed hook, or
      as cancelled, and only after a cancel. */
  predicate SkipOk(state: TestState, f: Flags, hookOk: bool) {
    (state == Skipped && (f.stopped || !hookOk)) || (state == Cancelled && f.cancelled)
  }

  /** The report of a cell: its outcome, its outcome when a cancel or the deadline hit it, or that
      it was skipped. */
  ghost predicate Told(t: Test, f: Flags, hookOk: bool, i: nat, c: Cell, r: ScenarioResult) {
    || r == t.exec(i, c)
    || (r == t.late(i, c) && (f.cancelled || f.timedOut))
    || (r == SkippedResult(c, r.state == Cancelled) && SkipOk(r.state, f, hookOk))
  }

  /** Nothing stops a test on `n` streams: no cancel, no deadline, no failure to stop at, no failed
      hook but for those after a specification and, if its text does not name the hook before the
      suite, the one after the suite. */
  ghost predicate Undisturbed(t: Test, loaded: seq<LoadedSpec>, n: nat) {
    && !t.cancels && !t.expires
    && (t.failFast ==> forall i: nat :: i < |loaded| ==> NeverBad(t.exec, i, Cells(loaded[i])))
    && (forall s: nat :: s < n ==> SuiteGoesWell(t, s))
    && (forall s: nat, i: nat :: s < n && i < |loaded| ==> t.hooks.beforeSpec(s, i))
  }

  predicate SuiteGoesWell(t: Test, s: nat) {
    t.hooks.beforeSuite(s).Fine? && Harmless(t.hooks.afterSuite(s))
  }

  predicate Harmless(answer: HookAnswer) {
    answer.Fine? || !Mentions(answer.message, SUITE_HOOK)
  }

  ghost predicate NeverBad(exec: Oracle, i: nat, cells: seq<Cell>) {
    forall j :: 0 <= j < |cells| ==> !Bad(exec(i, cells[j]).state)
  }

  lemma {:induction false} FewerStreams(t: Test, loaded: seq<LoadedSpec>, m: nat, n: nat)
    requires m <= n && Undisturbed(t, loaded, n)
    ensures Undisturbed(t, loaded, m)
  {
  }

  // ---------------------------------------------------------------- error texts

  predicate Mentions(text: string, word: string) {
    exists p :: 0 <= p <= |text| && Starts(text, p, word)
  }

  /** The final state is decided by searching every error text for this word. */
  const SUITE_HOOK := "before_suite"

  predicate Blames(errors: seq<string>) {
    exists k :: 0 <= k < |errors| && Mentions(errors[k], SUITE_HOOK)
  }

  lemma {:induction false} BlamesMore(errors: seq<string>, text: string)
    ensures Blames(errors + [text]) <==> Blames(errors) || Mentions(text, SUITE_HOOK)
  {
    var more := errors + [text];
    if Blames(errors) {
      var k :| 0 <= k < |errors| && Mentions(errors[k], SUITE_HOOK);
      assert more[k] == errors[k];
    }
    assert more[|errors|] == text;
  }

  /** A text in front that has no 'b' does not matter. */
  lemma {:induction false} MentionsBehind(hook: string, message: string)
    requires 'b' !in hook
    ensures Mentions(hook + message, SUITE_HOOK) ==> Mentions(message, SUITE_HOOK)
  {
    var text := hook + message;
    if p :| 0 <= p <= |text| && Starts(text, p, SUITE_HOOK) {
      assert forall k :: 0 <= k < |hook| ==> text[k] == hook[k] && hook[k] != 'b';
      StartsAt(text, p, SUITE_HOOK, 0);
      forall k | 0 <= k < |SUITE_HOOK| ensures message[p - |hook| + k] == SUITE_HOOK[k] {
        StartsAt(text, p, SUITE_HOOK, k);
      }
      assert Starts(message, p - |hook|, SUITE_HOOK);
    }
  }

  lemma {:induction false} OwnTextMentions(hook: string, message: string)
    requires Starts(hook, 0, SUITE_HOOK)
    ensures Mentions(hook + message, SUITE_HOOK)
  {
    assert Starts(hook + message, 0, SUITE_HOOK);
  }

  /** The texts of the specifications that did not parse, among the first `n`. */
  function ErrorTexts(loaded: seq<LoadedSpec>, n: nat): seq<string>
    requires n <= |loaded|
  {
    if n == 0 then [] else ErrorTexts(loaded, n - 1) + if loaded[n - 1].parsed then [] else [loaded[n - 1].errorText]
  }

  ghost predicate AllClean(rs: seq<ScenarioResult>) {
    forall j :: 0 <= j < |rs| && rs[j].state == Passed ==> CleanScenario(rs[j])
  }

  /** A state that is not bad has no bad scenario. */
  ghost predicate Sound(s: SpecResult) {
    && (Good(s.state) ==> BadIn(s.scenarios) == 0)
    && (s.state == Passed ==> PassedIn(s.scenarios) > 0)
    && AllClean(s.scenarios)
  }

  lemma {:induction false} SummarySound(rs: seq<ScenarioResult>, hookFailed: bool, cancelled: bool)
    requires AllClean(rs)
    ensures Sound(Summary(rs, hookFailed, cancelled))
  {
    CountsAddUp(rs, |rs|);
  }

  // ---------------------------------------------------------------- the state of a running test

  class Run {
    const t: Test
    const total: nat
    /** Nothing will stop this run; what it reports is then determined. */
    ghost const quiet: bool
    var cancelled: bool
    var timedOut: bool
    var failFastTriggered: bool
    /** All texts but the one of a time-out, which names no hook. */
    var errors: seq<string>
    var executed: nat
    var passed: nat
    var failed: nat
    var skipped: nat
    var progress: Share

    constructor (t: Test, total: nat, ghost quiet: bool)
      requires FaithfulTest(t) && (quiet ==> !t.cancels && !t.expires)
      ensures this.t == t && this.total == total && this.quiet == quiet
      ensures Valid() && Shows(0, 0, 0) && errors == []
    {
      this.t, this.total, this.quiet := t, total, quiet;
      cancelled, timedOut, failFastTriggered, errors := false, false, false, [];
      executed, passed, failed, skipped, progress := 0, 0, 0, 0, Share(0, 1);
    }

    ghost predicate Valid()
      reads this
    {
      && executed == passed + failed
      && Done() <= total
      && progress == Progress(Done(), total)
      && (failFastTriggered ==> failed > 0 && t.failFast)
      && (cancelled ==> t.cancels) && (timedOut ==> t.expires)
      && (quiet ==> !t.cancels && !t.expires && !failFastTriggered)
      && FaithfulTest(t)
    }

    ghost predicate Shows(p: nat, f: nat, s: nat)
      reads this
    {
      passed == p && failed == f && skipped == s
    }

    function Done(): nat
      reads this
    {
      executed + skipped
    }

    predicate ShouldStop()
      reads this
    {
      cancelled || timedOut || failFastTriggered
    }

    function Seen(): Flags
      reads this
    {
      Flags(cancelled, timedOut, ShouldStop())
    }

    /** An outcome that does not stop a quiet run. */
    predicate Tame(state: TestState) {
      t.failFast ==> !Bad(state)
    }

    twostate predicate Later()
      reads this
    {
      && (old(cancelled) ==> cancelled) && (old(timedOut) ==> timedOut)
      && (old(failFastTriggered) ==> failFastTriggered) && old(errors) <= errors
    }

    /** Another thread cancels, or the deadline passes. */
    method Poll()
      requires Valid()
      modifies this`cancelled, this`timedOut
      ensures Valid() && Later()
    {
      var cancels, expires: bool := *, *;
      if t.cancels && cancels { cancelled := true; }
      if t.expires && expires { timedOut := true; }
    }

    method ApplyScenarioOutcome(sr: ScenarioResult)
      requires Valid() && Done() < total && (quiet ==> Tame(sr.state))
      modifies this`executed, this`passed, this`failed, this`skipped, this`progress, this`failFastTriggered
      ensures Valid()
      ensures Shows(old(passed) + Unit(sr.state.Passed?), old(failed) + Unit(Bad(sr.state)),
                    old(skipped) + Unit(KindOf(sr.state).KOther?))
      ensures Done() == old(Done()) + 1
      ensures old(progress).AtMost(progress)
      ensures failFastTriggered <==> old(failFastTriggered) || (t.failFast && Bad(sr.state))
    {
      CountOutcome(sr);
      ShowProgress(old(Done()));
      if t.failFast && (sr.state == Failed || sr.state == Errored) {
        failFastTriggered := true;
      }
    }

    method CountOutcome(sr: ScenarioResult)
      requires executed == passed + failed
      modifies this`executed, this`passed, this`failed, this`skipped
      ensures executed == passed + failed && Done() == old(Done()) + 1
      ensures Shows(old(passed) + Unit(sr.state.Passed?), old(failed) + Unit(Bad(sr.state)),
                    old(skipped) + Unit(KindOf(sr.state).KOther?))
    {
      match sr.state {
        case Passed => passed := passed + 1; executed := executed + 1;
        case Failed => failed := failed + 1; executed := executed + 1;
        case Errored => failed := failed + 1; executed := executed + 1;
        case _ => skipped := skipped + 1;
      }
    }

    method ShowProgress(ghost before: nat)
      requires Done() == before + 1 <= total && progress == Progress(before, total)
      modifies this`progress
      ensures progress == Progress(before + 1, total) && old(progress).AtMost(progress)
    {
      ProgressGrows(before, total);
      var processed := executed + skipped;
      if total > 0 {
        progress := if processed < total then Share(processed, total) else Share(1, 1);
      }
    }

    /** A hook around the whole suite has answered. */
    method SuiteHook(answer: HookAnswer, hook: string) returns (ok: bool)
      modifies this`errors
      ensures ok <==> answer.Fine?
      ensures errors == if ok then old(errors) else old(errors) + [hook + answer.message]
      ensures Blames(old(errors)) ==> Blames(errors)
      ensures Starts(hook, 0, SUITE_HOOK) && !ok ==> Blames(errors)
      ensures Harmless(answer) && 'b' !in hook ==> Blames(errors) == Blames(old(errors))
    {
      ok := answer.Fine?;
      if !ok {
        BlamesMore(errors, hook + answer.message);
        if 'b' !in hook { MentionsBehind(hook, answer.message); }
        if Starts(hook, 0, SUITE_HOOK) { OwnTextMentions(hook, answer.message); }
        errors := errors + [hook + answer.message];
      }
    }

    method SuiteFailed() returns (blamed: bool)
      ensures blamed <==> Blames(errors)
    {
      blamed := false;
      var k := 0;
      while k < |errors|
        invariant 0 <= k <= |errors|
        invariant blamed <==> exists j :: 0 <= j < k && Mentions(errors[j], SUITE_HOOK)
      {
        if Mentions(errors[k], SUITE_HOOK) { blamed := true; }
        k := k + 1;
      }
    }

    /** The final state of the test; the source's loop over the specification results. */
    method Finish(specs: seq<SpecResult>, totalSpecs: nat) returns (final: TestState)
      requires Valid()
      modifies this`cancelled, this`timedOut
      ensures Valid() && Later()
      ensures final == FinalState(cancelled, timedOut, Blames(errors), specs, totalSpecs, passed, failed)
    {
      var suiteFailed := SuiteFailed();
      var failedSpecs, erroredSpecs := CountSpecs(specs);
      Poll();
      if cancelled { return Cancelled; }
      if timedOut { return Errored; }
      if suiteFailed { return Errored; }
      final := AggregateState(failedSpecs - erroredSpecs, erroredSpecs, 0, totalSpecs, false);
      if final == Passed && passed == 0 && failed == 0 { final := Skipped; }
    }

    static method CountSpecs(specs: seq<SpecResult>) returns (failedSpecs: nat, erroredSpecs: nat)
      ensures failedSpecs == NotGood(specs, |specs|) && erroredSpecs == Errors(specs, |specs|)
    {
      failedSpecs, erroredSpecs := 0, 0;
      var i := 0;
      while i < |specs|
        invariant 0 <= i <= |specs|
        invariant failedSpecs == NotGood(specs, i) && erroredSpecs == Errors(specs, i)
      {
        if specs[i].state == Errored { erroredSpecs := erroredSpecs + 1; }
        if specs[i].state == Passed || specs[i].state == Skipped { }
        else if specs[i].state != Cancelled { failedSpecs := failedSpecs + 1; }
        i := i + 1;
      }
    }
  }

  /** The exact value of a quotient the source keeps as a `double`. */
  datatype Share = Share(done: nat, of: nat) {
    predicate AtMost(that: Share) {
      done * that.of <= that.done * of
    }
  }

  function Progress(done: nat, total: nat): Share {
    if done == 0 then Share(0, 1) else if done < total then Share(done, total) else Share(1, 1)
  }

  lemma {:induction false} ProgressGrows(done: nat, total: nat)
    requires done < total
    ensures Progress(done, total).AtMost(Progress(done + 1, total)) && Progress(done + 1, total).AtMost(Share(1, 1))
  {
  }

  function Errors(specs: seq<SpecResult>, n: nat): nat
    requires n <= |specs|
  {
    if n == 0 then 0 else Errors(specs, n - 1) + if specs[n - 1].state == Errored then 1 else 0
  }

  function NotGood(specs: seq<SpecResult>, n: nat): (k: nat)
    requires n <= |specs|
    ensures Errors(specs, n) <= k
  {
    if n == 0 then 0 else NotGood(specs, n - 1) + if Good(specs[n - 1].state) then 0 else 1
  }

  function FinalState(cancelled: bool, timedOut: bool, suiteFailed: bool, specs: seq<SpecResult>,
                      totalSpecs: nat, passed: nat, failed: nat): TestState {
    if cancelled then Cancelled
    else if timedOut || suiteFailed then Errored
    else
      var errored := Errors(specs, |specs|);
      var s := AggregateState(NotGood(specs, |specs|) - errored, errored, 0, totalSpecs, false);
      if s == Passed && passed == 0 && failed == 0 then Skipped else s
  }

  // The counts of the first `n` specifications.

  function SumPassed(specs: seq<SpecResult>, n: nat): nat
    requires n <= |specs|
  {
    if n == 0 then 0 else SumPassed(specs, n - 1) + PassedIn(specs[n - 1].scenarios)
  }

  function SumFailed(specs: seq<SpecResult>, n: nat): nat
    requires n <= |specs|
  {
    if n == 0 then 0 else SumFailed(specs, n - 1) + BadIn(specs[n - 1].scenarios)
  }

  function SumSkipped(specs: seq<SpecResult>, n: nat): nat
    requires n <= |specs|
  {
    if n == 0 then 0 else SumSkipped(specs, n - 1) + SkippedIn(specs[n - 1].scenarios)
  }

  lemma {:induction false} NoneBad(specs: seq<SpecResult>, n: nat, i: nat)
    requires i < n <= |specs| && NotGood(specs, n) == 0
    ensures Good(specs[i].state)
  {
    if i < n - 1 { NoneBad(specs, n - 1, i); }
  }

  lemma {:induction false} NoBadScenario(specs: seq<SpecResult>, n: nat)
    requires n <= |specs| && NotGood(specs, n) == 0 && forall i :: 0 <= i < n ==> Sound(specs[i])
    ensures SumFailed(specs, n) == 0
  {
    if n > 0 {
      NoneBad(specs, n, n - 1);
      assert Sound(specs[n - 1]);
      NoBadScenario(specs, n - 1);
    }
  }

  lemma {:induction false} SomePassed(specs: seq<SpecResult>, n: nat) returns (i: nat)
    requires n <= |specs| && SumPassed(specs, n) > 0
    ensures i < n && PassedIn(specs[i].scenarios) > 0
  {
    i := n - 1;
    if PassedIn(specs[i].scenarios) == 0 {
      i := SomePassed(specs, n - 1);
    }
  }

  lemma {:induction false} BadScenarioCounts(rs: seq<ScenarioResult>, n: nat, j: nat)
    requires j < n <= |rs| && Bad(rs[j].state)
    ensures Count(rs, n, KFailed) + Count(rs, n, KErrored) > 0
  {
    if j < n - 1 { BadScenarioCounts(rs, n - 1, j); }
  }

  ghost predicate NoBadIn(rs: seq<ScenarioResult>) {
    forall j :: 0 <= j < |rs| ==> !Bad(rs[j].state)
  }

  /** A green test: no specification and no scenario is bad, something passed, and no passed
      scenario hides a bad step. */
  ghost predicate Green(specs: seq<SpecResult>) {
    && (forall i :: 0 <= i < |specs| ==> Good(specs[i].state) && NoBadIn(specs[i].scenarios) && AllClean(specs[i].scenarios))
    && (exists i :: 0 <= i < |specs| && PassedIn(specs[i].scenarios) > 0)
  }

  ghost predicate AllSound(specs: seq<SpecResult>) {
    forall i :: 0 <= i < |specs| ==> Sound(specs[i])
  }

  lemma {:induction false} GoodSpec(s: SpecResult)
    requires Sound(s) && Good(s.state)
    ensures NoBadIn(s.scenarios) && AllClean(s.scenarios)
  {
    forall j | 0 <= j < |s.scenarios| ensures !Bad(s.scenarios[j].state) {
      if Bad(s.scenarios[j].state) { BadScenarioCounts(s.scenarios, |s.scenarios|, j); }
    }
  }

  lemma {:induction false} PassedMeans(cancelled: bool, timedOut: bool, suiteFailed: bool, specs: seq<SpecResult>,
                    totalSpecs: nat, passed: nat, failed: nat)
    requires FinalState(cancelled, timedOut, suiteFailed, specs, totalSpecs, passed, failed) == Passed
    ensures !cancelled && !timedOut && !suiteFailed && NotGood(specs, |specs|) == 0 && (passed > 0 || failed > 0)
  {
  }

  lemma {:induction false} AllGood(specs: seq<SpecResult>)
    requires NotGood(specs, |specs|) == 0 && AllSound(specs)
    ensures forall i :: 0 <= i < |specs| ==>
              Good(specs[i].state) && NoBadIn(specs[i].scenarios) && AllClean(specs[i].scenarios)
  {
    forall i | 0 <= i < |specs|
      ensures Good(specs[i].state) && NoBadIn(specs[i].scenarios) && AllClean(specs[i].scenarios)
    {
      NoneBad(specs, |specs|, i);
      GoodSpec(specs[i]);
    }
  }

  /** A test that ends PASSED is green, and nothing had stopped it. */
  lemma {:induction false} PassedIsGreen(cancelled: bool, timedOut: bool, suiteFailed: bool, specs: seq<SpecResult>,
                      totalSpecs: nat, passed: nat, failed: nat)
    requires FinalState(cancelled, timedOut, suiteFailed, specs, totalSpecs, passed, failed) == Passed
    requires AllSound(specs)
    requires passed == SumPassed(specs, |specs|) && failed == SumFailed(specs, |specs|)
    ensures !cancelled && !timedOut && !suiteFailed && failed == 0 && Green(specs)
  {
    PassedMeans(cancelled, timedOut, suiteFailed, specs, totalSpecs, passed, failed);
    NoBadScenario(specs, |specs|);
    AllGood(specs);
    var i := SomePassed(specs, |specs|);
    assert PassedIn(specs[i].scenarios) > 0;
  }
}
