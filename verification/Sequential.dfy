/** `executeSequential` and `executeSpec` (src/engine/execution_engine.cpp). */
module Sequential {
  import opened Text
  import opened Steps
  import opened Runs

  // ---------------------------------------------------------------- how many scenarios there are

  function TotalCells(loaded: seq<LoadedSpec>, n: nat): nat
    requires n <= |loaded|
  {
    if n == 0 then 0 else TotalCells(loaded, n - 1) + |Cells(loaded[n - 1])|
  }

  function Selected(l: LoadedSpec, k: nat): nat
    requires k <= |l.selected|
  {
    if k == 0 then 0 else Selected(l, k - 1) + if l.selected[k - 1] then 1 else 0
  }

  lemma {:induction false} RowSize(l: LoadedSpec, row: nat, k: nat)
    requires k <= |l.selected|
    ensures |RowCells(l, row, k)| == Selected(l, k)
  {
    if k > 0 { RowSize(l, row, k - 1); }
  }

  lemma {:induction false} CellsSize(l: LoadedSpec, rows: nat)
    ensures |CellsOf(l, rows)| == rows * Selected(l, |l.selected|)
  {
    if rows > 0 {
      CellsSize(l, rows - 1);
      RowSize(l, rows - 1, |l.selected|);
      assert rows * Selected(l, |l.selected|) == (rows - 1) * Selected(l, |l.selected|) + Selected(l, |l.selected|);
    }
  }

  /** The scenario count of `execute`: every selected scenario counts once per data row. */
  method CountScenarios(loaded: seq<LoadedSpec>) returns (total: nat)
    ensures total == TotalCells(loaded, |loaded|)
  {
    total := 0;
    var i := 0;
    while i < |loaded|
      invariant 0 <= i <= |loaded| && total == TotalCells(loaded, i)
    {
      var l := loaded[i];
      if l.parsed {
        var rows := RowCount(l);
        var n := 0;
        var k := 0;
        while k < |l.selected|
          invariant 0 <= k <= |l.selected| && n == rows * Selected(l, k)
        {
          if l.selected[k] { n := n + rows; }
          k := k + 1;
        }
        CellsSize(l, rows);
        total := total + n;
      }
      i := i + 1;
    }
  }

  // ---------------------------------------------------------------- one specification

  /** `rs` are results of exactly `cells`, and those of `exec` if nothing disturbed the run. */
  ghost predicate Ran(rs: seq<ScenarioResult>, cells: seq<Cell>, i: nat, exec: Oracle, calm: bool) {
    && Covers(rs, cells)
    && AllClean(rs)
    && (calm ==> forall j :: 0 <= j < |cells| ==> rs[j] == exec(i, cells[j]))
  }

  /** Every result is one that a test may report by now. */
  ghost predicate Explained(rs: seq<ScenarioResult>, cells: seq<Cell>, i: nat, t: Test, f: Flags, hookOk: bool) {
    |rs| == |cells| && forall j :: 0 <= j < |cells| ==> Told(t, f, hookOk, i, cells[j], rs[j])
  }

  ghost predicate Reported(rs: seq<ScenarioResult>, cells: seq<Cell>, i: nat, run: Run, hookOk: bool)
    reads run
  {
    Ran(rs, cells, i, run.t.exec, run.quiet) && Explained(rs, cells, i, run.t, run.Seen(), hookOk)
  }

  lemma {:induction false} RanSnoc(rs: seq<ScenarioResult>, cells: seq<Cell>, i: nat, exec: Oracle, quiet: bool,
                                   r: ScenarioResult, c: Cell)
    requires Ran(rs, cells, i, exec, quiet)
    requires Faithful(r, c) && (quiet ==> r == exec(i, c))
    ensures Ran(rs + [r], cells + [c], i, exec, quiet)
  {
  }

  lemma {:induction false} NothingReported(run: Run, i: nat, hookOk: bool)
    ensures Reported([], [], i, run, hookOk)
  {
  }

  lemma {:induction false} ExplainedLater(rs: seq<ScenarioResult>, cells: seq<Cell>, i: nat, t: Test, f: Flags, g: Flags,
                                          hookOk: bool)
    requires Explained(rs, cells, i, t, f, hookOk) && Within(f, g)
    ensures Explained(rs, cells, i, t, g, hookOk)
  {
    forall j | 0 <= j < |cells| ensures Told(t, g, hookOk, i, cells[j], rs[j]) {
      assert Told(t, f, hookOk, i, cells[j], rs[j]);
    }
  }

  lemma {:induction false} ExplainedSnoc(rs: seq<ScenarioResult>, cells: seq<Cell>, i: nat, t: Test, f: Flags, g: Flags,
                                         hookOk: bool, r: ScenarioResult, c: Cell)
    requires Explained(rs, cells, i, t, f, hookOk) && Within(f, g) && Told(t, g, hookOk, i, c, r)
    ensures Explained(rs + [r], cells + [c], i, t, g, hookOk)
  {
    forall j | 0 <= j < |cells| ensures Told(t, g, hookOk, i, cells[j], rs[j]) {
      assert Told(t, f, hookOk, i, cells[j], rs[j]);
    }
  }

  /** `executeScenario`: `late` is what it returns if a cancel or the deadline hits it under way. */
  method RunScenario(run: Run, i: nat, c: Cell) returns (sr: ScenarioResult)
    requires run.Valid()
    modifies run`cancelled, run`timedOut
    ensures run.Valid() && run.Later()
    ensures Faithful(sr, c) && (run.quiet ==> sr == run.t.exec(i, c))
    ensures sr == run.t.exec(i, c) || (sr == run.t.late(i, c) && (run.cancelled || run.timedOut))
  {
    run.Poll();
    sr := run.t.exec(i, c);
    if run.cancelled || run.timedOut {
      if * { sr := run.t.late(i, c); }
    }
  }

  /** A scenario is skipped exactly if its hook failed or a flag is up when the test comes to it. */
  method RunCell(run: Run, i: nat, c: Cell, hookOk: bool) returns (sr: ScenarioResult)
    requires run.Valid() && run.Done() < run.total
    requires run.quiet ==> hookOk && run.Tame(run.t.exec(i, c).state)
    modifies run
    ensures run.Later() && run.errors == old(run.errors)
    ensures run.Valid() && run.Done() == old(run.Done()) + 1
    ensures run.Shows(old(run.passed) + Unit(sr.state.Passed?), old(run.failed) + Unit(Bad(sr.state)),
                      old(run.skipped) + Unit(KindOf(sr.state).KOther?))
    ensures Faithful(sr, c) && (run.quiet ==> sr == run.t.exec(i, c))
    ensures Told(run.t, run.Seen(), hookOk, i, c, sr)
    ensures !hookOk || old(run.ShouldStop()) ==> sr == SkippedResult(c, run.cancelled)
  {
    run.Poll();
    if !hookOk || run.ShouldStop() {
      sr := SkippedResult(c, run.cancelled);
    } else {
      sr := RunScenario(run, i, c);
    }
    run.ApplyScenarioOutcome(sr);
  }

  /** The counters have grown by the outcomes in `rs`. */
  ghost predicate ShowsMore(run: Run, p: nat, f: nat, s: nat, rs: seq<ScenarioResult>)
    reads run
  {
    run.Shows(p + PassedIn(rs), f + BadIn(rs), s + SkippedIn(rs))
  }

  /** No cell of a specification stops a quiet run. */
  ghost predicate TameCells(run: Run, i: nat, cells: seq<Cell>) {
    run.quiet && run.t.failFast ==> NeverBad(run.t.exec, i, cells)
  }

  lemma {:induction false} CellListed(l: LoadedSpec, rows: nat, row: nat, k: nat)
    requires row < rows && k < |l.selected| && l.selected[k]
    ensures Cell(k, RowIndex(l, row)) in CellsOf(l, rows)
  {
    if row < rows - 1 { CellListed(l, rows - 1, row, k); } else { InRow(l, row, |l.selected|, k); }
  }

  lemma {:induction false} InRow(l: LoadedSpec, row: nat, n: nat, k: nat)
    requires k < n <= |l.selected| && l.selected[k]
    ensures Cell(k, RowIndex(l, row)) in RowCells(l, row, n)
  {
    if k < n - 1 { InRow(l, row, n - 1, k); }
  }

  /** The scenarios of one row, after the results `before` of the earlier rows. */
  method RunRow(run: Run, l: LoadedSpec, i: nat, row: nat, hookOk: bool, before: seq<ScenarioResult>,
                ghost cells: seq<Cell>, ghost p: nat, ghost f: nat, ghost s: nat)
    returns (rs: seq<ScenarioResult>)
    requires run.Valid() && ShowsMore(run, p, f, s, before)
    requires run.Done() + Selected(l, |l.selected|) <= run.total
    requires Reported(before, cells, i, run, hookOk)
    requires row < RowCount(l) && TameCells(run, i, CellsOf(l, RowCount(l))) && (run.quiet ==> hookOk)
    modifies run
    ensures run.Later() && run.errors == old(run.errors)
    ensures run.Valid() && ShowsMore(run, p, f, s, rs)
    ensures run.Done() == old(run.Done()) + Selected(l, |l.selected|)
    ensures Reported(rs, cells + RowCells(l, row, |l.selected|), i, run, hookOk)
  {
    hide Reported;
    rs := before;
    var k := 0;
    assert cells + RowCells(l, row, k) == cells;
    while k < |l.selected|
      invariant 0 <= k <= |l.selected|
      invariant run.Later() && run.errors == old(run.errors)
      invariant run.Valid() && ShowsMore(run, p, f, s, rs)
      invariant run.Done() == old(run.Done()) + Selected(l, k)
      invariant Reported(rs, cells + RowCells(l, row, k), i, run, hookOk)
    {
      SelectedGrows(l, k + 1);
      if l.selected[k] {
        rs := RunNext(run, l, i, row, k, hookOk, rs, cells, p, f, s);
      } else {
        assert RowCells(l, row, k + 1) == RowCells(l, row, k);
      }
      k := k + 1;
    }
  }

  method RunNext(run: Run, l: LoadedSpec, i: nat, row: nat, k: nat, hookOk: bool, before: seq<ScenarioResult>,
                 ghost cells: seq<Cell>, ghost p: nat, ghost f: nat, ghost s: nat)
    returns (rs: seq<ScenarioResult>)
    requires run.Valid() && ShowsMore(run, p, f, s, before) && run.Done() < run.total
    requires k < |l.selected| && l.selected[k] && Reported(before, cells + RowCells(l, row, k), i, run, hookOk)
    requires row < RowCount(l) && TameCells(run, i, CellsOf(l, RowCount(l))) && (run.quiet ==> hookOk)
    modifies run
    ensures run.Later() && run.errors == old(run.errors)
    ensures run.Valid() && ShowsMore(run, p, f, s, rs)
    ensures run.Done() == old(run.Done()) + 1
    ensures Reported(rs, cells + RowCells(l, row, k + 1), i, run, hookOk)
  {
    hide Ran, Told, Explained;
    var c := Cell(k, RowIndex(l, row));
    CellListed(l, RowCount(l), row, k);
    ghost var f := run.Seen();
    var sr := RunCell(run, i, c, hookOk);
    RanSnoc(before, cells + RowCells(l, row, k), i, run.t.exec, run.quiet, sr, c);
    ExplainedSnoc(before, cells + RowCells(l, row, k), i, run.t, f, run.Seen(), hookOk, sr, c);
    assert cells + RowCells(l, row, k) + [c] == cells + RowCells(l, row, k + 1);
    CountsSnoc(before, sr);
    rs := before + [sr];
  }

  lemma {:induction false} SelectedGrows(l: LoadedSpec, k: nat)
    requires k <= |l.selected|
    ensures Selected(l, k) <= Selected(l, |l.selected|)
    decreases |l.selected| - k
  {
    if k < |l.selected| { SelectedGrows(l, k + 1); }
  }

  /** The state is that of the scenarios, where a cancel counts only once it has come. */
  ghost predicate Summed(s: SpecResult, hookFailed: bool, f: Flags) {
    s == Summary(s.scenarios, hookFailed, s.state == Cancelled) && (s.state == Cancelled ==> f.cancelled)
  }

  /** A failed `after_spec` leaves a text behind and changes nothing else. */
  method ExecuteSpec(run: Run, l: LoadedSpec, i: nat) returns (s: SpecResult)
    requires l.parsed && run.Valid() && run.Done() + |Cells(l)| <= run.total
    requires TameCells(run, i, Cells(l)) && (run.quiet ==> run.t.hooks.beforeSpec(0, i))
    modifies run
    ensures run.Later() && run.errors == old(run.errors)
    ensures run.Valid() && ShowsMore(run, old(run.passed), old(run.failed), old(run.skipped), s.scenarios)
    ensures run.Done() == old(run.Done()) + |Cells(l)|
    ensures Covers(s.scenarios, Cells(l)) && Sound(s)
    ensures Explained(s.scenarios, Cells(l), i, run.t, run.Seen(), run.t.hooks.beforeSpec(0, i))
    ensures Summed(s, !run.t.hooks.beforeSpec(0, i), run.Seen())
    ensures run.quiet ==> s == SpecReference(l, i, run.t.exec, false)
  {
    var hookOk := run.t.hooks.beforeSpec(0, i);
    var rs := RunRows(run, l, i, hookOk);
    ghost var f := run.Seen();
    run.Poll();
    ExplainedLater(rs, Cells(l), i, run.t, f, run.Seen(), hookOk);
    s := Summarize(rs, !hookOk, run.cancelled);
    SummarySound(rs, !hookOk, run.cancelled);
    if run.quiet { RanIsReference(rs, l, i, run.t.exec, false); }
  }

  method RunRows(run: Run, l: LoadedSpec, i: nat, hookOk: bool) returns (rs: seq<ScenarioResult>)
    requires l.parsed && run.Valid() && run.Done() + |Cells(l)| <= run.total
    requires TameCells(run, i, Cells(l)) && (run.quiet ==> hookOk)
    modifies run
    ensures run.Later() && run.errors == old(run.errors)
    ensures run.Valid() && ShowsMore(run, old(run.passed), old(run.failed), old(run.skipped), rs)
    ensures run.Done() == old(run.Done()) + |Cells(l)|
    ensures Reported(rs, Cells(l), i, run, hookOk)
  {
    hide Reported;
    NothingReported(run, i, hookOk);
    rs := [];
    var row := 0;
    while row < RowCount(l)
      invariant 0 <= row <= RowCount(l)
      invariant run.Later() && run.errors == old(run.errors)
      invariant run.Valid() && ShowsMore(run, old(run.passed), old(run.failed), old(run.skipped), rs)
      invariant run.Done() == old(run.Done()) + |CellsOf(l, row)|
      invariant Reported(rs, CellsOf(l, row), i, run, hookOk)
    {
      RowFits(l, row);
      RowSize(l, row, |l.selected|);
      rs := RunRow(run, l, i, row, hookOk, rs, CellsOf(l, row), old(run.passed), old(run.failed), old(run.skipped));
      row := row + 1;
    }
  }

  lemma {:induction false} RanIsReference(rs: seq<ScenarioResult>, l: LoadedSpec, i: nat, exec: Oracle, fault: bool)
    requires l.parsed && Ran(rs, Cells(l), i, exec, true)
    ensures Summary(rs, fault, false) == SpecReference(l, i, exec, fault)
  {
    assert rs == OutcomesOf(i, Cells(l), exec);
  }

  lemma {:induction false} RowFits(l: LoadedSpec, row: nat)
    requires row < RowCount(l)
    ensures |CellsOf(l, row)| + Selected(l, |l.selected|) <= |CellsOf(l, RowCount(l))|
  {
    CellsSize(l, row);
    CellsSize(l, RowCount(l));
    RowProduct(row, RowCount(l), Selected(l, |l.selected|));
  }

  lemma {:induction false} RowProduct(a: nat, b: nat, c: nat)
    requires a < b
    ensures a * c + c <= b * c
  {
    if a + 1 < b { RowProduct(a, b - 1, c); }
    assert b * c == (b - 1) * c + c;
  }

  // ---------------------------------------------------------------- the whole test

  /** Each specification has all its cells or, skipped or broken, none. */
  ghost predicate CoveredOrEmpty(specs: seq<SpecResult>, loaded: seq<LoadedSpec>) {
    |specs| <= |loaded| && forall i :: 0 <= i < |specs| ==>
      specs[i].scenarios == [] || Covers(specs[i].scenarios, Cells(loaded[i]))
  }

  /** What a sequential test may report of a specification: its scenarios, each as it may be told and
      the state theirs; or an error because it did not parse; or nothing because it was skipped. */
  ghost predicate Answers(s: SpecResult, l: LoadedSpec, i: nat, t: Test, f: Flags) {
    || (if l.parsed then Explained(s.scenarios, Cells(l), i, t, f, t.hooks.beforeSpec(0, i))
                         && Summed(s, !t.hooks.beforeSpec(0, i), f)
        else s == SpecResult(Errored, []))
    || (s == SpecResult(s.state, []) && SkipOk(s.state, f, t.hooks.beforeSuite(0).Fine?))
  }

  ghost predicate AllAnswered(specs: seq<SpecResult>, loaded: seq<LoadedSpec>, t: Test, f: Flags) {
    |specs| <= |loaded| && forall i :: 0 <= i < |specs| ==> Answers(specs[i], loaded[i], i, t, f)
  }

  lemma {:induction false} AnswersLater(s: SpecResult, l: LoadedSpec, i: nat, t: Test, f: Flags, g: Flags)
    requires Answers(s, l, i, t, f) && Within(f, g)
    ensures Answers(s, l, i, t, g)
  {
    hide Told, Summary;
    if l.parsed && Explained(s.scenarios, Cells(l), i, t, f, t.hooks.beforeSpec(0, i)) {
      ExplainedLater(s.scenarios, Cells(l), i, t, f, g, t.hooks.beforeSpec(0, i));
    }
  }

  lemma {:induction false} AnsweredSnoc(specs: seq<SpecResult>, s: SpecResult, loaded: seq<LoadedSpec>, t: Test,
                                        f: Flags, g: Flags)
    requires AllAnswered(specs, loaded, t, f) && Within(f, g) && |specs| < |loaded|
    requires Answers(s, loaded[|specs|], |specs|, t, g)
    ensures AllAnswered(specs + [s], loaded, t, g)
  {
    hide Answers;
    forall i | 0 <= i < |specs| ensures Answers(specs[i], loaded[i], i, t, g) {
      AnswersLater(specs[i], loaded[i], i, t, f, g);
    }
  }

  lemma {:induction false} AnsweredLater(specs: seq<SpecResult>, loaded: seq<LoadedSpec>, t: Test, f: Flags, g: Flags)
    requires AllAnswered(specs, loaded, t, f) && Within(f, g)
    ensures AllAnswered(specs, loaded, t, g)
  {
    hide Answers;
    forall i | 0 <= i < |specs| ensures Answers(specs[i], loaded[i], i, t, g) {
      AnswersLater(specs[i], loaded[i], i, t, f, g);
    }
  }

  /** Where no flag is up and no hook failed, nothing but the outcome can be told. */
  lemma {:induction false} NothingElse(rs: seq<ScenarioResult>, cells: seq<Cell>, i: nat, t: Test)
    requires Explained(rs, cells, i, t, Flags(false, false, false), true)
    ensures rs == OutcomesOf(i, cells, t.exec)
  {
    forall j | 0 <= j < |cells| ensures rs[j] == t.exec(i, cells[j]) {
      assert Told(t, Flags(false, false, false), true, i, cells[j], rs[j]);
    }
  }

  /** A good report of a specification in a test that nothing stopped is the reference. */
  lemma {:induction false} GoodAnswer(s: SpecResult, l: LoadedSpec, i: nat, t: Test)
    requires Answers(s, l, i, t, Flags(false, false, false)) && Good(s.state) && t.hooks.beforeSuite(0).Fine?
    ensures l.parsed && s == SpecReference(l, i, t.exec, false)
  {
    hide Cells, Told;
    if t.hooks.beforeSpec(0, i) {
      NothingElse(s.scenarios, Cells(l), i, t);
    } else {
      assert s.scenarios == [] == OutcomesOf(i, Cells(l), t.exec);
    }
  }

  ghost predicate ShowsSums(run: Run, specs: seq<SpecResult>)
    reads run
  {
    var n := |specs|;
    run.Shows(SumPassed(specs, n), SumFailed(specs, n), SumSkipped(specs, n))
  }

  /** What a test is expected to report if it is quiet: see `Reference`. */
  datatype Expected = Expected(loaded: seq<LoadedSpec>, exec: Oracle, quiet: bool, faults: seq<bool>)

  type Expectation = e: Expected | |e.faults| == |e.loaded|
    witness Expected([], (i, c) => ScenarioResult(0, 0, Passed, [], [], []), false, [])

  /** What is known of one specification. */
  ghost predicate Settled(s: SpecResult, e: Expectation, i: nat)
    requires i < |e.loaded|
  {
    && Sound(s)
    && (s.scenarios == [] || Covers(s.scenarios, Cells(e.loaded[i])))
    && (e.quiet ==> s == SpecReference(e.loaded[i], i, e.exec, e.faults[i]))
  }

  ghost predicate SettledUpTo(specs: seq<SpecResult>, e: Expectation, n: nat)
    requires n <= |specs| <= |e.loaded|
  {
    n == 0 || (SettledUpTo(specs, e, n - 1) && Settled(specs[n - 1], e, n - 1))
  }

  lemma {:induction false} SettledStep(specs: seq<SpecResult>, s: SpecResult, e: Expectation, n: nat)
    requires n <= |specs| < |e.loaded|
    requires SettledUpTo(specs, e, n)
    ensures SettledUpTo(specs + [s], e, n)
  {
    if n > 0 { SettledStep(specs, s, e, n - 1); }
  }

  lemma {:induction false} SettledSnoc(specs: seq<SpecResult>, s: SpecResult, e: Expectation)
    requires |specs| < |e.loaded|
    requires SettledUpTo(specs, e, |specs|)
    requires Settled(s, e, |specs|)
    ensures SettledUpTo(specs + [s], e, |specs| + 1)
  {
    SettledStep(specs, s, e, |specs|);
  }

  lemma {:induction false} SettledAt(specs: seq<SpecResult>, e: Expectation, n: nat, i: nat)
    requires i < n <= |specs| <= |e.loaded| && SettledUpTo(specs, e, n)
    ensures Settled(specs[i], e, i)
  {
    if i < n - 1 { SettledAt(specs, e, n - 1, i); }
  }

  lemma {:induction false} SettledAll(specs: seq<SpecResult>, e: Expectation)
    requires |specs| == |e.loaded| && SettledUpTo(specs, e, |specs|)
    ensures AllSound(specs) && CoveredOrEmpty(specs, e.loaded)
    ensures e.quiet ==> specs == Reference(e.loaded, e.exec, e.faults)
  {
    forall i | 0 <= i < |specs| ensures Settled(specs[i], e, i) { SettledAt(specs, e, |specs|, i); }
  }

  ghost function Plainly(run: Run, loaded: seq<LoadedSpec>): Expectation {
    Expected(loaded, run.t.exec, run.quiet, NoFaults(|loaded|))
  }

  /** What a sequential test needs of its inputs to be quiet. */
  ghost predicate MayBeQuiet(run: Run, loaded: seq<LoadedSpec>) {
    run.quiet ==> Undisturbed(run.t, loaded, 1)
  }

  /** A failed hook before the suite is among the error texts. */
  ghost predicate SuiteTold(run: Run, suiteOk: bool)
    reads run
  {
    (suiteOk <==> run.t.hooks.beforeSuite(0).Fine?) && (suiteOk || Blames(run.errors))
  }

  lemma {:induction false} QuietSuite(run: Run, loaded: seq<LoadedSpec>)
    requires MayBeQuiet(run, loaded)
    ensures run.quiet ==> run.t.hooks.beforeSuite(0).Fine? && Harmless(run.t.hooks.afterSuite(0))
  {
    assert run.quiet ==> SuiteGoesWell(run.t, 0);
  }

  method ExecuteSequential(run: Run, loaded: seq<LoadedSpec>) returns (specs: seq<SpecResult>)
    requires run.Valid() && run.Shows(0, 0, 0) && run.errors == []
    requires run.total == TotalCells(loaded, |loaded|) && MayBeQuiet(run, loaded)
    modifies run
    ensures |specs| == |loaded| && AllSound(specs) && CoveredOrEmpty(specs, loaded)
    ensures run.Valid() && ShowsSums(run, specs)
    ensures AllAnswered(specs, loaded, run.t, run.Seen())
    ensures run.t.hooks.beforeSuite(0).Fine? || Blames(run.errors)
    ensures run.quiet ==> specs == Reference(loaded, run.t.exec, NoFaults(|loaded|))
    ensures run.quiet ==> Blames(run.errors) == Blames(ErrorTexts(loaded, |loaded|))
  {
    hide Settled, SettledUpTo, Blames, AllAnswered, MayBeQuiet, Harmless, Reference, FaithfulTest;
    QuietSuite(run, loaded);
    var suiteOk := BeforeSuite(run);
    specs := RunSpecs(run, loaded, suiteOk);
    AfterSuite(run);
    SettledAll(specs, Plainly(run, loaded));
  }

  method BeforeSuite(run: Run) returns (ok: bool)
    requires run.Valid() && run.errors == []
    modifies run`errors
    ensures run.Valid() && SuiteTold(run, ok) && (ok ==> run.errors == [])
  {
    hide Blames, FaithfulTest;
    assert Starts("before_suite hook failed: ", 0, SUITE_HOOK);
    ok := run.SuiteHook(run.t.hooks.beforeSuite(0), "before_suite hook failed: ");
  }

  method AfterSuite(run: Run)
    requires run.Valid()
    modifies run`errors
    ensures run.Valid() && (Blames(old(run.errors)) ==> Blames(run.errors))
    ensures Harmless(run.t.hooks.afterSuite(0)) ==> Blames(run.errors) == Blames(old(run.errors))
  {
    hide Blames, Harmless, FaithfulTest;
    var ok := run.SuiteHook(run.t.hooks.afterSuite(0), "after_suite hook failed: ");
  }

  method RunSpecs(run: Run, loaded: seq<LoadedSpec>, suiteOk: bool) returns (specs: seq<SpecResult>)
    requires run.Valid() && run.Shows(0, 0, 0) && SuiteTold(run, suiteOk)
    requires run.total == TotalCells(loaded, |loaded|) && MayBeQuiet(run, loaded)
    requires run.quiet ==> suiteOk && run.errors == []
    modifies run
    ensures AllAnswered(specs, loaded, run.t, run.Seen())
    ensures |specs| == |loaded| && SettledUpTo(specs, Plainly(run, loaded), |specs|)
    ensures run.Valid() && ShowsSums(run, specs)
    ensures run.quiet ==> run.errors == ErrorTexts(loaded, |loaded|)
    ensures SuiteTold(run, suiteOk)
  {
    specs := [];
    while |specs| < |loaded|
      invariant |specs| <= |loaded| && SuiteTold(run, suiteOk)
      invariant run.Valid() && ShowsSums(run, specs) && run.Done() <= TotalCells(loaded, |specs|)
      invariant AllAnswered(specs, loaded, run.t, run.Seen())
      invariant SettledUpTo(specs, Plainly(run, loaded), |specs|)
      invariant run.quiet ==> run.errors == ErrorTexts(loaded, |specs|)
    {
      specs := WithNextSpec(run, loaded, specs, suiteOk);
    }
  }

  method WithNextSpec(run: Run, loaded: seq<LoadedSpec>, before: seq<SpecResult>, suiteOk: bool)
    returns (specs: seq<SpecResult>)
    requires |before| < |loaded| && SuiteTold(run, suiteOk)
    requires run.total == TotalCells(loaded, |loaded|) && MayBeQuiet(run, loaded)
    requires run.Valid() && ShowsSums(run, before) && run.Done() <= TotalCells(loaded, |before|)
    requires AllAnswered(before, loaded, run.t, run.Seen())
    requires SettledUpTo(before, Plainly(run, loaded), |before|)
    requires run.quiet ==> suiteOk && run.errors == ErrorTexts(loaded, |before|)
    modifies run
    ensures |specs| == |before| + 1 && SuiteTold(run, suiteOk)
    ensures run.Valid() && ShowsSums(run, specs) && run.Done() <= TotalCells(loaded, |specs|)
    ensures AllAnswered(specs, loaded, run.t, run.Seen())
    ensures SettledUpTo(specs, Plainly(run, loaded), |specs|)
    ensures run.quiet ==> run.errors == ErrorTexts(loaded, |specs|)
  {
    hide Cells, Settled, SettledUpTo, Undisturbed, FaithfulTest, Answers, AllAnswered, Blames, SuiteTold;
    var i := |before|;
    CellsFit(loaded, i);
    ghost var f := run.Seen();
    var s := RunOrSkipSpec(run, loaded, i, suiteOk);
    SettledSnoc(before, s, Plainly(run, loaded));
    AnsweredSnoc(before, s, loaded, run.t, f, run.Seen());
    SumsSnoc(before, s);
    specs := before + [s];
  }

  method RunOrSkipSpec(run: Run, loaded: seq<LoadedSpec>, i: nat, suiteOk: bool) returns (s: SpecResult)
    requires i < |loaded| && run.Valid() && run.Done() + |Cells(loaded[i])| <= run.total
    requires MayBeQuiet(run, loaded) && SuiteTold(run, suiteOk) && (run.quiet ==> suiteOk)
    modifies run
    ensures run.Later()
    ensures run.errors == old(run.errors) || run.errors == old(run.errors) + [loaded[i].errorText]
    ensures run.quiet ==> run.errors == old(run.errors) + if loaded[i].parsed then [] else [loaded[i].errorText]
    ensures run.Valid() && ShowsMore(run, old(run.passed), old(run.failed), old(run.skipped), s.scenarios)
    ensures run.Done() <= old(run.Done()) + |Cells(loaded[i])|
    ensures SuiteTold(run, suiteOk)
    ensures !suiteOk || old(run.ShouldStop()) ==> s == SkippedSpec(run.cancelled)
    ensures Settled(s, Plainly(run, loaded), i) && Answers(s, loaded[i], i, run.t, run.Seen())
  {
    run.Poll();
    if run.ShouldStop() || !suiteOk {
      s := SkippedSpec(run.cancelled);
    } else if loaded[i].parsed {
      s := ExecuteSpec(run, loaded[i], i);
    } else {
      s := SpecResult(Errored, []);
      BlamesMore(run.errors, loaded[i].errorText);
      run.errors := run.errors + [loaded[i].errorText];
    }
  }

  function SkippedSpec(cancelled: bool): SpecResult {
    SpecResult(if cancelled then Cancelled else Skipped, [])
  }

  lemma {:induction false} CellsFit(loaded: seq<LoadedSpec>, i: nat)
    requires i < |loaded|
    ensures TotalCells(loaded, i) + |Cells(loaded[i])| == TotalCells(loaded, i + 1) <= TotalCells(loaded, |loaded|)
    decreases |loaded| - i
  {
    hide Cells;
    if i + 1 < |loaded| { CellsFit(loaded, i + 1); }
  }

  lemma {:induction false} SumsSnoc(specs: seq<SpecResult>, s: SpecResult)
    ensures var n := |specs|;
            && SumPassed(specs + [s], n + 1) == SumPassed(specs, n) + PassedIn(s.scenarios)
            && SumFailed(specs + [s], n + 1) == SumFailed(specs, n) + BadIn(s.scenarios)
            && SumSkipped(specs + [s], n + 1) == SumSkipped(specs, n) + SkippedIn(s.scenarios)
  {
    SumsPrefix(specs, s, |specs|);
  }

  lemma {:induction false} SumsPrefix(specs: seq<SpecResult>, s: SpecResult, n: nat)
    requires n <= |specs|
    ensures SumPassed(specs + [s], n) == SumPassed(specs, n)
    ensures SumFailed(specs + [s], n) == SumFailed(specs, n)
    ensures SumSkipped(specs + [s], n) == SumSkipped(specs, n)
  {
    if n > 0 { SumsPrefix(specs, s, n - 1); }
  }

  /** A test that ends PASSED tells the outcomes of all its scenarios, whatever its inputs. */
  lemma {:induction false} PassedTellsAll(specs: seq<SpecResult>, loaded: seq<LoadedSpec>, t: Test)
    requires Green(specs) && AllAnswered(specs, loaded, t, Flags(false, false, false)) && |specs| == |loaded|
    requires t.hooks.beforeSuite(0).Fine?
    ensures forall i :: 0 <= i < |loaded| ==> loaded[i].parsed
    ensures specs == Reference(loaded, t.exec, NoFaults(|loaded|))
  {
    hide Answers, SpecReference;
    forall i | 0 <= i < |loaded| ensures loaded[i].parsed && specs[i] == SpecReference(loaded[i], i, t.exec, false) {
      GoodAnswer(specs[i], loaded[i], i, t);
    }
  }

  /** The final state of an undisturbed test. */
  function ReferenceFinal(loaded: seq<LoadedSpec>, exec: Oracle, faults: seq<bool>): TestState
    requires |faults| == |loaded|
  {
    var specs := Reference(loaded, exec, faults);
    FinalState(false, false, Blames(ErrorTexts(loaded, |loaded|)), specs, |specs|,
               SumPassed(specs, |specs|), SumFailed(specs, |specs|))
  }

  /** A sequential test from its first hook to its final state. */
  method RunSequentially(t: Test, loaded: seq<LoadedSpec>) returns (specs: seq<SpecResult>, final: TestState)
    requires FaithfulTest(t)
    ensures |specs| == |loaded| && CoveredOrEmpty(specs, loaded)
    ensures AllAnswered(specs, loaded, t, Possible(t))
    ensures final == Passed ==> Green(specs) && forall i :: 0 <= i < |loaded| ==> loaded[i].parsed
    ensures final == Passed ==> specs == Reference(loaded, t.exec, NoFaults(|loaded|))
    ensures Undisturbed(t, loaded, 1) ==> specs == Reference(loaded, t.exec, NoFaults(|loaded|))
    ensures Undisturbed(t, loaded, 1) ==> final == ReferenceFinal(loaded, t.exec, NoFaults(|loaded|))
  {
    hide AllAnswered, Reference, Answers, Told, Green, CoveredOrEmpty;
    var total := CountScenarios(loaded);
    var run := new Run(t, total, Undisturbed(t, loaded, 1));
    specs := ExecuteSequential(run, loaded);
    ghost var f := run.Seen();
    AnsweredLater(specs, loaded, t, f, Possible(t));
    final := run.Finish(specs, |loaded|);
    if final == Passed {
      PassedIsGreen(run.cancelled, run.timedOut, Blames(run.errors), specs, |loaded|, run.passed, run.failed);
      AnsweredLater(specs, loaded, t, f, Flags(false, false, false));
      PassedTellsAll(specs, loaded, t);
    }
  }
}
