/** What `executeParallel` makes of the collected results, and the test as a whole
    (src/engine/execution_engine.cpp). */
module ParallelRun {
  import opened Text
  import opened Steps
  import opened Runs
  import opened Sequential
  import opened Parallel
  import opened Streams

  // ---------------------------------------------------------------- sorting by order

  ghost predicate Distinct(es: seq<Entry>) {
    forall a, b :: 0 <= a < b < |es| ==> es[a].0 != es[b].0
  }

  ghost predicate Sorted(es: seq<Entry>) {
    forall a, b :: 0 <= a < b < |es| ==> es[a].0 < es[b].0
  }

  ghost predicate SameEntries(r: seq<Entry>, es: seq<Entry>) {
    forall e :: e in r <==> e in es
  }

  method SortByOrder(es: seq<Entry>) returns (r: seq<Entry>)
    requires Distinct(es)
    ensures Sorted(r) && SameEntries(r, es)
  {
    r := [];
    var i := 0;
    while i < |es|
      invariant 0 <= i <= |es| && Sorted(r) && SameEntries(r, es[..i])
    {
      NewKey(es, i, r);
      ghost var before := r;
      r := Insert(r, es[i]);
      assert es[..i + 1] == es[..i] + [es[i]];
      i := i + 1;
    }
    assert es[..i] == es;
  }

  lemma {:induction false} NewKey(es: seq<Entry>, i: nat, r: seq<Entry>)
    requires Distinct(es) && i < |es| && SameEntries(r, es[..i])
    ensures forall a :: 0 <= a < |r| ==> r[a].0 != es[i].0
  {
    forall a | 0 <= a < |r| ensures r[a].0 != es[i].0 {
      assert r[a] in es[..i];
      var c :| 0 <= c < i && es[..i][c] == r[a];
      assert es[c] == r[a];
    }
  }

  method Insert(r: seq<Entry>, e: Entry) returns (s: seq<Entry>)
    requires Sorted(r) && forall a :: 0 <= a < |r| ==> r[a].0 != e.0
    ensures Sorted(s) && SameEntries(s, r + [e])
  {
    var k := |r|;
    while k > 0 && r[k - 1].0 > e.0
      invariant 0 <= k <= |r| && forall a :: k <= a < |r| ==> e.0 < r[a].0
    {
      k := k - 1;
    }
    InsertSorted(r, k, e);
    InsertSame(r, k, e);
    s := Inserted(r, k, e);
  }

  function Inserted(r: seq<Entry>, k: nat, e: Entry): (s: seq<Entry>)
    requires k <= |r|
    ensures |s| == |r| + 1 && s[k] == e
    ensures forall a :: 0 <= a < |s| ==> s[a] == if a < k then r[a] else if a == k then e else r[a - 1]
  {
    r[..k] + [e] + r[k..]
  }

  lemma {:induction false} InsertSorted(r: seq<Entry>, k: nat, e: Entry)
    requires Sorted(r) && k <= |r| && (k > 0 ==> r[k - 1].0 < e.0) && forall a :: k <= a < |r| ==> e.0 < r[a].0
    ensures Sorted(Inserted(r, k, e))
  {
  }

  lemma {:induction false} InsertSame(r: seq<Entry>, k: nat, e: Entry)
    requires k <= |r|
    ensures SameEntries(Inserted(r, k, e), r + [e])
  {
    var s := Inserted(r, k, e);
    forall x | x in s ensures x in r + [e] {
      var a :| 0 <= a < |s| && s[a] == x;
    }
    forall x | x in r + [e] ensures x in s {
      if x in r {
        var a :| 0 <= a < |r| && r[a] == x;
        assert s[if a < k then a else a + 1] == x;
      } else {
        assert s[k] == x;
      }
    }
  }

  /** A sorted list whose keys are exactly the numbers from `lo` up to `hi`. */
  ghost predicate Spans(r: seq<Entry>, lo: nat, hi: nat) {
    && (forall a :: 0 <= a < |r| ==> lo <= r[a].0 < hi)
    && (forall k :: lo <= k < hi ==> HasKey(r, k))
  }

  ghost predicate HasKey(r: seq<Entry>, k: nat) {
    exists a :: 0 <= a < |r| && r[a].0 == k
  }

  lemma {:induction false} SpanAt(r: seq<Entry>, lo: nat, hi: nat, j: nat)
    requires Sorted(r) && Spans(r, lo, hi) && j < |r|
    ensures r[j].0 == lo + j
  {
    if j > 0 { SpanAt(r, lo, hi, j - 1); }
    var key := lo + j;
    assert r[j].0 >= key;
    if key < hi {
      assert HasKey(r, key);
      var a :| 0 <= a < |r| && r[a].0 == key;
    }
  }

  lemma {:induction false} SpanSize(r: seq<Entry>, lo: nat, hi: nat)
    requires Sorted(r) && Spans(r, lo, hi) && lo <= hi
    ensures |r| == hi - lo
  {
    if |r| > 0 { SpanAt(r, lo, hi, |r| - 1); }
    var key := lo + |r|;
    if key < hi {
      assert HasKey(r, key);
      var a :| 0 <= a < |r| && r[a].0 == key;
      SpanAt(r, lo, hi, a);
    }
  }

  // ---------------------------------------------------------------- what was collected

  lemma {:induction false} ItemGone(items: seq<Work>, m: nat, p: Plan, b: Board, g: Log, exec: Oracle, quiet: bool, k: nat)
    requires Inv(items, m, p, b, g, exec, quiet) && AllDone(p, b) && k < |items|
    ensures g.outcome[k].Some? && Fits(items[k], g.outcome[k].value, exec, quiet)
    ensures items[k].at.spec < m && (k, g.outcome[k].value) in b.collected[items[k].at.spec]
  {
    assert Placed(items, p, k);
    assert ItemOk(items, m, p, b, g, k, exec, quiet);
  }

  lemma {:induction false} EntryKnown(items: seq<Work>, m: nat, p: Plan, b: Board, g: Log, exec: Oracle, quiet: bool,
                                      i: nat, a: nat)
    requires Inv(items, m, p, b, g, exec, quiet) && i < m && a < |b.collected[i]|
    ensures var e := b.collected[i][a];
            && e.0 < |items| && items[e.0].at.spec == i && g.posn[e.0] == a
            && g.outcome[e.0].Some? && e.1 == g.outcome[e.0].value
  {
    var e := b.collected[i][a];
    assert EntryOk(items, m, p, b, g, e, i, a);
    assert ItemOk(items, m, p, b, g, e.0, exec, quiet);
  }

  lemma {:induction false} EntriesDistinct(items: seq<Work>, m: nat, p: Plan, b: Board, g: Log, exec: Oracle, quiet: bool, i: nat)
    requires Inv(items, m, p, b, g, exec, quiet) && i < m
    ensures Distinct(b.collected[i])
  {
    var es := b.collected[i];
    forall a, c | 0 <= a < c < |es| ensures es[a].0 != es[c].0 {
      EntryKnown(items, m, p, b, g, exec, quiet, i, a);
      EntryKnown(items, m, p, b, g, exec, quiet, i, c);
    }
  }

  /** The outcomes from `base` on are those in `rs`. */
  ghost predicate SliceOf(rs: seq<ScenarioResult>, o: seq<Option<ScenarioResult>>, base: nat) {
    base + |rs| <= |o| && forall j :: 0 <= j < |rs| ==> o[base + j] == Some(rs[j])
  }

  function Values(es: seq<Entry>): (rs: seq<ScenarioResult>)
    ensures |rs| == |es| && forall j :: 0 <= j < |es| ==> rs[j] == es[j].1
  {
    seq(|es|, j requires 0 <= j < |es| => es[j].1)
  }

  /** The entries of one specification: an outcome for every key from `lo` up to `hi`. */
  ghost predicate Gathered(es: seq<Entry>, o: seq<Option<ScenarioResult>>, lo: nat, hi: nat) {
    && (forall a :: 0 <= a < |es| ==> EntryIn(es[a], o, lo, hi))
    && (forall k :: lo <= k < hi ==> OutcomeIn(es, o, k))
  }

  ghost predicate EntryIn(e: Entry, o: seq<Option<ScenarioResult>>, lo: nat, hi: nat) {
    lo <= e.0 < hi && e.0 < |o| && o[e.0] == Some(e.1)
  }

  ghost predicate OutcomeIn(es: seq<Entry>, o: seq<Option<ScenarioResult>>, k: nat) {
    k < |o| && o[k].Some? && (k, o[k].value) in es
  }

  lemma {:induction false} GatheredAll(items: seq<Work>, m: nat, p: Plan, b: Board, g: Log, exec: Oracle, quiet: bool,
                                       i: nat, cells: seq<Cell>, base: nat)
    requires Inv(items, m, p, b, g, exec, quiet) && AllDone(p, b) && i < m && SpecLaidOut(items, i, cells, base)
    ensures Gathered(b.collected[i], g.outcome, base, base + |cells|)
  {
    var es, hi := b.collected[i], base + |cells|;
    forall a | 0 <= a < |es| ensures EntryIn(es[a], g.outcome, base, hi) {
      EntryKnown(items, m, p, b, g, exec, quiet, i, a);
    }
    forall k | base <= k < hi ensures OutcomeIn(es, g.outcome, k) {
      assert items[k].at.spec == i;
      ItemGone(items, m, p, b, g, exec, quiet, k);
    }
  }

  lemma {:induction false} SortedSpans(es: seq<Entry>, o: seq<Option<ScenarioResult>>, lo: nat, hi: nat, r: seq<Entry>)
    requires Gathered(es, o, lo, hi) && Sorted(r) && SameEntries(r, es)
    ensures Spans(r, lo, hi)
    ensures forall a :: 0 <= a < |r| ==> EntryIn(r[a], o, lo, hi)
  {
    forall a | 0 <= a < |r| ensures EntryIn(r[a], o, lo, hi) {
      assert r[a] in es;
    }
    forall k | lo <= k < hi ensures HasKey(r, k) {
      assert OutcomeIn(es, o, k);
      assert (k, o[k].value) in r;
    }
  }

  lemma {:induction false} SortedSlice(es: seq<Entry>, o: seq<Option<ScenarioResult>>, lo: nat, hi: nat, r: seq<Entry>)
    requires Gathered(es, o, lo, hi) && Sorted(r) && SameEntries(r, es) && lo <= hi <= |o|
    ensures |r| == hi - lo && SliceOf(Values(r), o, lo)
  {
    SortedSpans(es, o, lo, hi, r);
    SpanSize(r, lo, hi);
    forall j | 0 <= j < |r| ensures o[lo + j] == Some(r[j].1) {
      SpanAt(r, lo, hi, j);
      assert EntryIn(r[j], o, lo, hi);
    }
  }

  lemma {:induction false} SliceRan(items: seq<Work>, m: nat, p: Plan, b: Board, g: Log, exec: Oracle, quiet: bool,
                                    i: nat, cells: seq<Cell>, base: nat, rs: seq<ScenarioResult>)
    requires Inv(items, m, p, b, g, exec, quiet) && AllDone(p, b) && i < m && SpecLaidOut(items, i, cells, base)
    requires |rs| == |cells| && SliceOf(rs, g.outcome, base)
    ensures Ran(rs, cells, i, exec, quiet)
  {
    forall j | 0 <= j < |rs| ensures Faithful(rs[j], cells[j]) && (quiet ==> rs[j] == exec(i, cells[j])) {
      var k := base + j;
      assert g.outcome[k] == Some(rs[j]) && items[k].at.cell == cells[j] && items[k].at.spec == i;
      ItemGone(items, m, p, b, g, exec, quiet, k);
    }
  }

  lemma {:induction false} SliceCount(rs: seq<ScenarioResult>, o: seq<Option<ScenarioResult>>, base: nat, n: nat, k: Kind)
    requires SliceOf(rs, o, base) && n <= |rs|
    ensures Outcomes(o, base + n, k) == Outcomes(o, base, k) + Count(rs, n, k)
  {
    if n > 0 {
      SliceCount(rs, o, base, n - 1, k);
      assert o[base + (n - 1)] == Some(rs[n - 1]);
    }
  }

  // ---------------------------------------------------------------- the specifications' results

  /** The sums over the first specifications are the counts over their items. */
  ghost predicate SumsAre(specs: seq<SpecResult>, n: nat, o: seq<Option<ScenarioResult>>, upto: nat)
    requires n <= |specs| && upto <= |o|
  {
    && SumPassed(specs, n) == Outcomes(o, upto, KPassed)
    && SumFailed(specs, n) == Outcomes(o, upto, KFailed) + Outcomes(o, upto, KErrored)
    && SumSkipped(specs, n) == Outcomes(o, upto, KOther)
  }

  lemma {:induction false} SumsGrow(specs: seq<SpecResult>, s: SpecResult, o: seq<Option<ScenarioResult>>, upto: nat)
    requires upto <= |o| && SumsAre(specs, |specs|, o, upto)
    requires SliceOf(s.scenarios, o, upto)
    ensures SumsAre(specs + [s], |specs| + 1, o, upto + |s.scenarios|)
  {
    hide SliceOf, Outcomes;
    SumsSnoc(specs, s);
    SliceCount(s.scenarios, o, upto, |s.scenarios|, KPassed);
    SliceCount(s.scenarios, o, upto, |s.scenarios|, KFailed);
    SliceCount(s.scenarios, o, upto, |s.scenarios|, KErrored);
    SliceCount(s.scenarios, o, upto, |s.scenarios|, KOther);
  }

  /** Every specification that parsed has all its cells, in order; every other is an error. */
  ghost predicate FullyCovered(specs: seq<SpecResult>, loaded: seq<LoadedSpec>) {
    |specs| <= |loaded| && forall i :: 0 <= i < |specs| ==> SpecCovered(specs[i], loaded[i])
  }

  ghost predicate SpecCovered(s: SpecResult, l: LoadedSpec) {
    if l.parsed then Covers(s.scenarios, Cells(l)) else s.state == Errored && s.scenarios == []
  }

  /** What a test on `n` streams may report of the cells of a specification, which are dealt out
      from number `base` on. */
  ghost predicate ToldFrom(rs: seq<ScenarioResult>, cells: seq<Cell>, i: nat, t: Test, f: Flags, n: nat, base: nat)
    requires n > 0
  {
    |rs| == |cells| && forall j: nat :: j < |cells| ==> Told(t, f, HooksOk(t, (base + j) % n, i), i, cells[j], rs[j])
  }

  /** What it may report of a specification: its scenarios, each as it may be told, and the state
      theirs; or an error because it did not parse. */
  ghost predicate Tells(s: SpecResult, loaded: seq<LoadedSpec>, i: nat, t: Test, f: Flags, n: nat)
    requires i < |loaded| && n > 0
  {
    if loaded[i].parsed then
      && ToldFrom(s.scenarios, Cells(loaded[i]), i, t, f, n, TotalCells(loaded, i))
      && Summed(s, HookFails(t.hooks, loaded, n, i), f)
    else s == SpecResult(Errored, [])
  }

  ghost predicate AllTell(specs: seq<SpecResult>, loaded: seq<LoadedSpec>, t: Test, f: Flags, n: nat)
    requires n > 0
  {
    |specs| <= |loaded| && forall i :: 0 <= i < |specs| ==> Tells(specs[i], loaded, i, t, f, n)
  }

  lemma {:induction false} TellsLater(s: SpecResult, loaded: seq<LoadedSpec>, i: nat, t: Test, f: Flags, g: Flags, n: nat)
    requires i < |loaded| && n > 0 && Tells(s, loaded, i, t, f, n) && Within(f, g)
    ensures Tells(s, loaded, i, t, g, n)
  {
    hide Cells, HookFails, Summary, HooksOk;
    var cells, base := Cells(loaded[i]), TotalCells(loaded, i);
    if loaded[i].parsed {
      forall j: nat | j < |cells| ensures Told(t, g, HooksOk(t, (base + j) % n, i), i, cells[j], s.scenarios[j]) {
        assert Told(t, f, HooksOk(t, (base + j) % n, i), i, cells[j], s.scenarios[j]);
      }
    }
  }

  lemma {:induction false} AllTellLater(specs: seq<SpecResult>, loaded: seq<LoadedSpec>, t: Test, f: Flags, g: Flags, n: nat)
    requires n > 0 && AllTell(specs, loaded, t, f, n) && Within(f, g)
    ensures AllTell(specs, loaded, t, g, n)
  {
    hide Tells;
    forall i | 0 <= i < |specs| ensures Tells(specs[i], loaded, i, t, g, n) {
      TellsLater(specs[i], loaded, i, t, f, g, n);
    }
  }

  lemma {:induction false} AllTellSnoc(specs: seq<SpecResult>, s: SpecResult, loaded: seq<LoadedSpec>, t: Test, f: Flags,
                                       g: Flags, n: nat)
    requires n > 0 && AllTell(specs, loaded, t, f, n) && Within(f, g) && |specs| < |loaded|
    requires Tells(s, loaded, |specs|, t, g, n)
    ensures AllTell(specs + [s], loaded, t, g, n)
  {
    hide Tells;
    AllTellLater(specs, loaded, t, f, g, n);
  }

  /** A good report of a specification in a test that nothing stopped is the reference. */
  lemma {:induction false} GoodTells(s: SpecResult, loaded: seq<LoadedSpec>, i: nat, t: Test, n: nat)
    requires i < |loaded| && n > 0 && Tells(s, loaded, i, t, Flags(false, false, false), n) && Good(s.state)
    requires forall s: nat :: s < n ==> t.hooks.beforeSuite(s).Fine?
    ensures loaded[i].parsed && s == SpecReference(loaded[i], i, t.exec, false)
  {
    hide Cells;
    var cells, base := Cells(loaded[i]), TotalCells(loaded, i);
    if cells != [] {
      assert !HookFails(t.hooks, loaded, n, i);
      forall j: nat | j < |cells| ensures s.scenarios[j] == t.exec(i, cells[j]) {
        assert StreamOf(loaded, n, i, j) == (base + j) % n;
        assert Told(t, Flags(false, false, false), HooksOk(t, (base + j) % n, i), i, cells[j], s.scenarios[j]);
      }
    }
    assert s.scenarios == OutcomesOf(i, cells, t.exec);
  }

  lemma {:induction false} SliceTold(items: seq<Work>, p: Plan, t: Test, f: Flags, o: seq<Option<ScenarioResult>>,
                                     n: nat, i: nat, cells: seq<Cell>, base: nat, rs: seq<ScenarioResult>)
    requires n > 0 && AllTold(items, p, t, f, o) && RoundRobin(items, p, n) && SpecLaidOut(items, i, cells, base)
    requires |rs| == |cells| && SliceOf(rs, o, base)
    ensures ToldFrom(rs, cells, i, t, f, n, base)
  {
    hide Told, HooksOk;
    forall j: nat | j < |cells| ensures Told(t, f, HooksOk(t, (base + j) % n, i), i, cells[j], rs[j]) {
      var k := base + j;
      assert o[k] == Some(rs[j]) && items[k].at.cell == cells[j] && items[k].at.spec == i;
      assert ItemTold(items[k], p.stream[k], t, f, o[k]);
    }
  }

  /** A hook error was told of exactly these specifications. */
  ghost predicate ErrorsAre(pool: Pool, faults: seq<bool>)
    reads pool
  {
    pool.b.hookErrors == faults
  }

  ghost function Expecting(pool: Pool, loaded: seq<LoadedSpec>, faults: seq<bool>): Expectation
    requires |faults| == |loaded|
  {
    Expected(loaded, pool.run.t.exec, pool.run.quiet, faults)
  }

  lemma {:induction false} CoveredSettles(s: SpecResult, e: Expectation, i: nat)
    requires i < |e.loaded| && Sound(s) && SpecCovered(s, e.loaded[i])
    requires e.quiet ==> s == SpecReference(e.loaded[i], i, e.exec, e.faults[i])
    ensures Settled(s, e, i)
  {
  }

  /** The results of one specification after the threads have joined. One without scenarios has
      no hook error, so it does not matter which of the two is looked at first. */
  method CollectParsed(pool: Pool, i: nat, ghost l: LoadedSpec, ghost base: nat, ghost n: nat) returns (s: SpecResult)
    requires pool.Valid() && AllDone(pool.p, pool.b) && i < pool.m && SpecLaidOut(pool.items, i, Cells(l), base) && l.parsed
    requires n > 0 && RoundRobin(pool.items, pool.p, n)
    modifies pool.run`cancelled, pool.run`timedOut
    ensures pool.Valid()
    ensures Covers(s.scenarios, Cells(l)) && Sound(s) && SliceOf(s.scenarios, pool.g.outcome, base)
    ensures ToldFrom(s.scenarios, Cells(l), i, pool.run.t, pool.run.Seen(), n, base)
    ensures Summed(s, pool.b.hookErrors[i], pool.run.Seen())
    ensures pool.run.Later()
    ensures pool.run.quiet ==> s == SpecReference(l, i, pool.run.t.exec, pool.b.hookErrors[i])
  {
    hide SpecReference, Told, RoundRobin, AllTold, SliceOf, Gathered, Spans, Dealt, Fits;
    ghost var exec, quiet := pool.run.t.exec, pool.run.quiet;
    EntriesDistinct(pool.items, pool.m, pool.p, pool.b, pool.g, exec, quiet, i);
    GatheredAll(pool.items, pool.m, pool.p, pool.b, pool.g, exec, quiet, i, Cells(l), base);
    var r := SortByOrder(pool.b.collected[i]);
    SortedSlice(pool.b.collected[i], pool.g.outcome, base, base + |Cells(l)|, r);
    var rs := Values(r);
    SliceRan(pool.items, pool.m, pool.p, pool.b, pool.g, exec, quiet, i, Cells(l), base, rs);
    pool.Poll();
    SliceTold(pool.items, pool.p, pool.run.t, pool.run.Seen(), pool.g.outcome, n, i, Cells(l), base, rs);
    s := Summarize(rs, pool.b.hookErrors[i], pool.run.cancelled);
    SummarySound(rs, pool.b.hookErrors[i], pool.run.cancelled);
    if quiet { RanIsReference(rs, l, i, exec, pool.b.hookErrors[i]); }
  }

  method Collect(pool: Pool, loaded: seq<LoadedSpec>, i: nat, ghost faults: seq<bool>, ghost n: nat) returns (s: SpecResult)
    requires pool.Valid() && AllDone(pool.p, pool.b) && pool.m == |loaded| && LaidOut(pool.items, loaded)
    requires i < |loaded| && n > 0 && RoundRobin(pool.items, pool.p, n)
    requires faults == Faults(pool.run.t.hooks, loaded, n) && ErrorsAre(pool, faults)
    modifies pool.run`cancelled, pool.run`timedOut
    ensures pool.Valid() && pool.run.Later() && Tells(s, loaded, i, pool.run.t, pool.run.Seen(), n)
    ensures SpecCovered(s, loaded[i]) && SliceOf(s.scenarios, pool.g.outcome, TotalCells(loaded, i))
    ensures Settled(s, Expecting(pool, loaded, faults), i)
  {
    ghost var base := TotalCells(loaded, i);
    assert SpecLaidOut(pool.items, i, Cells(loaded[i]), base);
    if loaded[i].parsed {
      s := CollectParsed(pool, i, loaded[i], base, n);
    } else {
      s := SpecResult(Errored, []);
    }
    CoveredSettles(s, Expecting(pool, loaded, faults), i);
  }

  lemma {:induction false} CoveredSnoc(specs: seq<SpecResult>, s: SpecResult, loaded: seq<LoadedSpec>)
    requires |specs| < |loaded| && FullyCovered(specs, loaded) && SpecCovered(s, loaded[|specs|])
    ensures FullyCovered(specs + [s], loaded) && |s.scenarios| == |Cells(loaded[|specs|])|
  {
    forall i | 0 <= i < |specs + [s]| ensures SpecCovered((specs + [s])[i], loaded[i]) {
      if i < |specs| { assert SpecCovered(specs[i], loaded[i]); }
    }
  }

  method WithNext(pool: Pool, loaded: seq<LoadedSpec>, before: seq<SpecResult>, ghost faults: seq<bool>, ghost n: nat)
    returns (specs: seq<SpecResult>)
    requires pool.Valid() && AllDone(pool.p, pool.b) && pool.m == |loaded| && LaidOut(pool.items, loaded)
    requires |before| < |loaded| && n > 0 && RoundRobin(pool.items, pool.p, n) && FullyCovered(before, loaded)
    requires faults == Faults(pool.run.t.hooks, loaded, n) && ErrorsAre(pool, faults)
    requires AllTell(before, loaded, pool.run.t, pool.run.Seen(), n)
    requires SettledUpTo(before, Expecting(pool, loaded, faults), |before|)
    requires SummedUp(before, loaded, pool.g.outcome)
    modifies pool.run`cancelled, pool.run`timedOut
    ensures pool.Valid() && |specs| == |before| + 1 && FullyCovered(specs, loaded)
    ensures AllTell(specs, loaded, pool.run.t, pool.run.Seen(), n)
    ensures SettledUpTo(specs, Expecting(pool, loaded, faults), |specs|)
    ensures SummedUp(specs, loaded, pool.g.outcome)
  {
    hide SliceOf, Inv, AllTold, Tells, Settled, FullyCovered, SpecCovered, AllTell, SummedUp, LaidOut, RoundRobin, Dealt;
    ghost var f := pool.run.Seen();
    var s := Collect(pool, loaded, |before|, faults, n);
    OneMore(before, s, Expecting(pool, loaded, faults), pool.run.t, f, pool.run.Seen(), n, pool.g.outcome);
    specs := before + [s];
  }

  lemma {:induction false} OneMore(before: seq<SpecResult>, s: SpecResult, e: Expectation, t: Test, f: Flags, g: Flags, n: nat,
                                   o: seq<Option<ScenarioResult>>)
    requires n > 0 && |before| < |e.loaded| && Within(f, g)
    requires FullyCovered(before, e.loaded) && SpecCovered(s, e.loaded[|before|])
    requires AllTell(before, e.loaded, t, f, n) && Tells(s, e.loaded, |before|, t, g, n)
    requires SettledUpTo(before, e, |before|) && Settled(s, e, |before|)
    requires SummedUp(before, e.loaded, o) && SliceOf(s.scenarios, o, TotalCells(e.loaded, |before|))
    ensures FullyCovered(before + [s], e.loaded) && AllTell(before + [s], e.loaded, t, g, n)
    ensures SettledUpTo(before + [s], e, |before| + 1) && SummedUp(before + [s], e.loaded, o)
  {
    hide Tells, Settled, SettledUpTo, SliceOf;
    AllTellSnoc(before, s, e.loaded, t, f, g, n);
    SettledSnoc(before, s, e);
    CoveredSnoc(before, s, e.loaded);
    SummedSnoc(before, s, e.loaded, o);
  }

  ghost predicate SummedUp(specs: seq<SpecResult>, loaded: seq<LoadedSpec>, o: seq<Option<ScenarioResult>>) {
    && |specs| <= |loaded| && TotalCells(loaded, |loaded|) == |o| && TotalCells(loaded, |specs|) <= |o|
    && SumsAre(specs, |specs|, o, TotalCells(loaded, |specs|))
  }

  lemma {:induction false} SummedSnoc(specs: seq<SpecResult>, s: SpecResult, loaded: seq<LoadedSpec>,
                                      o: seq<Option<ScenarioResult>>)
    requires SummedUp(specs, loaded, o) && |specs| < |loaded| && |s.scenarios| == |Cells(loaded[|specs|])|
    requires SliceOf(s.scenarios, o, TotalCells(loaded, |specs|))
    ensures SummedUp(specs + [s], loaded, o)
  {
    hide SliceOf, Cells, SumsAre;
    var n, upto := |specs|, TotalCells(loaded, |specs|);
    CellsFit(loaded, n);
    SumsGrow(specs, s, o, upto);
    assert |specs + [s]| == n + 1 && TotalCells(loaded, n + 1) == upto + |s.scenarios|;
  }

  method CollectAll(pool: Pool, loaded: seq<LoadedSpec>, ghost faults: seq<bool>, ghost n: nat) returns (specs: seq<SpecResult>)
    requires pool.Valid() && AllDone(pool.p, pool.b) && pool.m == |loaded| && LaidOut(pool.items, loaded)
    requires n > 0 && RoundRobin(pool.items, pool.p, n)
    requires faults == Faults(pool.run.t.hooks, loaded, n) && ErrorsAre(pool, faults)
    modifies pool.run`cancelled, pool.run`timedOut
    ensures pool.Valid() && |specs| == |loaded| && FullyCovered(specs, loaded)
    ensures AllTell(specs, loaded, pool.run.t, pool.run.Seen(), n)
    ensures SettledUpTo(specs, Expecting(pool, loaded, faults), |specs|)
    ensures SummedUp(specs, loaded, pool.g.outcome)
  {
    specs := [];
    while |specs| < |loaded|
      invariant |specs| <= |loaded| && pool.Valid() && FullyCovered(specs, loaded)
      invariant AllTell(specs, loaded, pool.run.t, pool.run.Seen(), n)
      invariant SettledUpTo(specs, Expecting(pool, loaded, faults), |specs|)
      invariant SummedUp(specs, loaded, pool.g.outcome)
    {
      specs := WithNext(pool, loaded, specs, faults, n);
    }
  }

  lemma {:induction false} AllCounted(o: seq<Option<ScenarioResult>>, n: nat)
    requires n <= |o| && forall k :: 0 <= k < n ==> o[k].Some?
    ensures AllOutcomes(o, n) == n
  {
    if n > 0 { AllCounted(o, n - 1); }
  }

  // ---------------------------------------------------------------- the whole test

  lemma {:induction false} SpecsAscend(items: seq<Work>, loaded: seq<LoadedSpec>, k: nat, l: nat)
    requires LaidOut(items, loaded) && k <= l < |items|
    ensures items[k].at.spec <= items[l].at.spec
  {
    var i, j := items[k].at.spec, items[l].at.spec;
    assert SpecLaidOut(items, i, Cells(loaded[i]), TotalCells(loaded, i));
    assert SpecLaidOut(items, j, Cells(loaded[j]), TotalCells(loaded, j));
    CellsFit(loaded, j);
    if j < i { BasesGrow(loaded, j + 1, i); }
  }

  /** Each thread groups its bucket by specification. */
  method GroupAll(buckets: seq<seq<Work>>, m: nat) returns (queues: seq<seq<Work>>)
    requires forall s :: 0 <= s < |buckets| ==> InOrder(buckets[s], m)
    ensures queues == buckets
  {
    queues := [];
    while |queues| < |buckets|
      invariant |queues| <= |buckets| && forall s :: 0 <= s < |queues| ==> queues[s] == buckets[s]
    {
      var queue := GroupBySpec(buckets[|queues|], m);
      queues := queues + [queue];
    }
  }

  lemma {:induction false} BucketInOrder(items: seq<Work>, loaded: seq<LoadedSpec>, p: Plan, s: nat)
    requires LaidOut(items, loaded) && Dealt(items, p) && s < |p.queues| && Ascending(p.queues[s])
    ensures InOrder(p.queues[s], |loaded|)
  {
    var bucket := p.queues[s];
    forall j | 0 <= j < |bucket| ensures bucket[j].at.spec < |loaded| {
      assert Owned(items, p, p.queues[s][j], s, j);
    }
    forall a, b | 0 <= a < b < |bucket| ensures bucket[a].at.spec <= bucket[b].at.spec {
      assert Owned(items, p, p.queues[s][a], s, a) && Owned(items, p, p.queues[s][b], s, b);
      SpecsAscend(items, loaded, bucket[a].order, bucket[b].order);
    }
  }

  // ---------------------------------------------------------------- which hooks fail

  /** The stream that cell `j` of specification `i` is dealt to. */
  function StreamOf(loaded: seq<LoadedSpec>, n: nat, i: nat, j: nat): (s: nat)
    requires i < |loaded| && n > 0
    ensures s < n
  {
    (TotalCells(loaded, i) + j) % n
  }

  /** A hook of specification `i` runs and fails on a stream that one of its scenarios is dealt to. */
  predicate HookFails(hooks: Hooks, loaded: seq<LoadedSpec>, n: nat, i: nat)
    requires i < |loaded| && n > 0
  {
    exists j: nat :: j < |Cells(loaded[i])| && FailsAt(hooks, StreamOf(loaded, n, i, j), i)
  }

  predicate FailsAt(hooks: Hooks, s: nat, i: nat) {
    hooks.beforeSuite(s).Fine? && (!hooks.beforeSpec(s, i) || !hooks.afterSpec(s, i))
  }

  /** `after_spec` of specification `i` fails on a stream that has run one of its scenarios. */
  predicate AfterFails(hooks: Hooks, loaded: seq<LoadedSpec>, n: nat, i: nat)
    requires i < |loaded| && n > 0
  {
    exists j: nat :: j < |Cells(loaded[i])| && !hooks.afterSpec(StreamOf(loaded, n, i, j), i)
  }

  function Faults(hooks: Hooks, loaded: seq<LoadedSpec>, n: nat): (r: seq<bool>)
    requires n > 0
    ensures |r| == |loaded| && forall i :: 0 <= i < |loaded| ==> r[i] == HookFails(hooks, loaded, n, i)
  {
    seq(|loaded|, i requires 0 <= i < |loaded| => HookFails(hooks, loaded, n, i))
  }

  ghost predicate RoundRobin(items: seq<Work>, p: Plan, n: nat) {
    |p.stream| == |items| && |p.queues| == n > 0 && forall k :: 0 <= k < |items| ==> p.stream[k] == k % n
  }

  lemma {:induction false} ItemOfSpec(items: seq<Work>, loaded: seq<LoadedSpec>, p: Plan, n: nat, i: nat, s: nat, a: nat)
    returns (j: nat)
    requires LaidOut(items, loaded) && Dealt(items, p) && RoundRobin(items, p, n) && i < |loaded| && s < n
    requires a < |p.queues[s]| && p.queues[s][a].at.spec == i
    ensures j < |Cells(loaded[i])| && StreamOf(loaded, n, i, j) == s
  {
    var base := TotalCells(loaded, i);
    assert SpecLaidOut(items, i, Cells(loaded[i]), base);
    assert Owned(items, p, p.queues[s][a], s, a);
    j := p.queues[s][a].order - base;
  }

  lemma {:induction false} CellOnStream(items: seq<Work>, loaded: seq<LoadedSpec>, p: Plan, n: nat, i: nat, j: nat)
    requires LaidOut(items, loaded) && Dealt(items, p) && RoundRobin(items, p, n) && i < |loaded|
    requires j < |Cells(loaded[i])|
    ensures var s := StreamOf(loaded, n, i, j); HasSpec(p.queues[s], |p.queues[s]|, i)
  {
    var k := TotalCells(loaded, i) + j;
    assert SpecLaidOut(items, i, Cells(loaded[i]), TotalCells(loaded, i));
    assert items[k].at.spec == i;
    assert Placed(items, p, k);
  }

  lemma {:induction false} FaultsAtEnd(pool: Pool, loaded: seq<LoadedSpec>, n: nat)
    requires pool.Valid() && AllDone(pool.p, pool.b) && pool.m == |loaded| && LaidOut(pool.items, loaded)
    requires RoundRobin(pool.items, pool.p, n)
    ensures ErrorsAre(pool, Faults(pool.run.t.hooks, loaded, n))
  {
    hide Tallied, FaithfulTest, StreamOk, ItemOk, EntryOk, AllTold;
    var st, c, errors := pool.St(), pool.Curtains(), pool.b.hookErrors;
    forall i | 0 <= i < |loaded| ensures errors[i] == HookFails(st.hooks, loaded, n, i) {
      assert forall s :: 0 <= s < |st.queues| ==> c.reached[s] == c.handed[s] == |st.queues[s]|;
      ErrorsAtEnd(st, c, errors, i);
      FaultSeen(st, pool.items, loaded, pool.p, n, i);
    }
  }

  lemma {:induction false} FaultSeen(st: Stage, items: seq<Work>, loaded: seq<LoadedSpec>, p: Plan, n: nat, i: nat)
    requires LaidOut(items, loaded) && Dealt(items, p) && RoundRobin(items, p, n) && i < |loaded|
    requires st.queues == p.queues && StageOk(st, |loaded|)
    requires forall s :: 0 <= s < n ==> st.suiteOk[s] == st.hooks.beforeSuite(s).Fine?
    ensures (exists s: nat :: FailsOn(st, |loaded|, s, i)) <==> HookFails(st.hooks, loaded, n, i)
  {
    if s: nat :| FailsOn(st, |loaded|, s, i) {
      var a :| 0 <= a < |p.queues[s]| && p.queues[s][a].at.spec == i;
      var j := ItemOfSpec(items, loaded, p, n, i, s, a);
      assert FailsAt(st.hooks, StreamOf(loaded, n, i, j), i);
    }
    if j: nat :| j < |Cells(loaded[i])| && FailsAt(st.hooks, StreamOf(loaded, n, i, j), i) {
      CellOnStream(items, loaded, p, n, i, j);
      assert FailsOn(st, |loaded|, StreamOf(loaded, n, i, j), i);
    }
  }

  /** Where the hooks before a specification succeed, only those after it can fail. */
  lemma {:induction false} OnlyAfterFails(t: Test, loaded: seq<LoadedSpec>, n: nat, i: nat)
    requires n > 0 && i < |loaded| && Undisturbed(t, loaded, n)
    ensures HookFails(t.hooks, loaded, n, i) <==> AfterFails(t.hooks, loaded, n, i)
  {
    if j: nat :| j < |Cells(loaded[i])| && FailsAt(t.hooks, StreamOf(loaded, n, i, j), i) {
      assert SuiteGoesWell(t, StreamOf(loaded, n, i, j));
    }
    if j: nat :| j < |Cells(loaded[i])| && !t.hooks.afterSpec(StreamOf(loaded, n, i, j), i) {
      assert SuiteGoesWell(t, StreamOf(loaded, n, i, j));
      assert FailsAt(t.hooks, StreamOf(loaded, n, i, j), i);
    }
  }

  /** One hook of the suite on every stream. The threads run them side by side, but all that
      matters in the end is which texts there are. */
  method SuiteHooks(run: Run, n: nat, answers: nat -> HookAnswer, hook: string) returns (ok: seq<bool>)
    requires run.Valid()
    modifies run`errors
    ensures run.Valid() && |ok| == n && forall s :: 0 <= s < n ==> ok[s] == answers(s).Fine?
    ensures (forall s: nat :: s < n ==> answers(s).Fine?) ==> run.errors == old(run.errors)
    ensures Blames(old(run.errors)) ==> Blames(run.errors)
    ensures Starts(hook, 0, SUITE_HOOK) ==> (forall s: nat :: s < n ==> answers(s).Fine?) || Blames(run.errors)
    ensures 'b' !in hook && (forall s: nat :: s < n ==> Harmless(answers(s))) ==> Blames(run.errors) == Blames(old(run.errors))
  {
    hide Blames, Harmless, Starts, FaithfulTest;
    ok := [];
    while |ok| < n
      invariant run.Valid() && |ok| <= n && forall s :: 0 <= s < |ok| ==> ok[s] == answers(s).Fine?
      invariant (forall s: nat :: s < |ok| ==> answers(s).Fine?) ==> run.errors == old(run.errors)
      invariant Blames(old(run.errors)) ==> Blames(run.errors)
      invariant Starts(hook, 0, SUITE_HOOK) ==> (forall s: nat :: s < |ok| ==> answers(s).Fine?) || Blames(run.errors)
      invariant 'b' !in hook && (forall s: nat :: s < |ok| ==> Harmless(answers(s))) ==>
                  Blames(run.errors) == Blames(old(run.errors))
    {
      var fine := run.SuiteHook(answers(|ok|), hook);
      ok := ok + [fine];
    }
  }

  // ---------------------------------------------------------------- the whole test

  ghost predicate MayBeQuietOn(run: Run, loaded: seq<LoadedSpec>, n: nat) {
    run.quiet ==> Undisturbed(run.t, loaded, n)
  }

  lemma {:induction false} QuietSuites(run: Run, loaded: seq<LoadedSpec>, n: nat)
    requires MayBeQuietOn(run, loaded, n)
    ensures run.quiet ==> forall s: nat :: s < n ==> run.t.hooks.beforeSuite(s).Fine?
    ensures run.quiet ==> forall s: nat :: s < n ==> Harmless(run.t.hooks.afterSuite(s))
  {
    if run.quiet {
      forall s: nat | s < n ensures run.t.hooks.beforeSuite(s).Fine? && Harmless(run.t.hooks.afterSuite(s)) {
        assert SuiteGoesWell(run.t, s);
      }
    }
  }

  /** A failed hook before the suite is among the error texts. */
  ghost predicate SuitesTold(run: Run, n: nat)
    reads run
  {
    (forall s: nat :: s < n ==> run.t.hooks.beforeSuite(s).Fine?) || Blames(run.errors)
  }

  method NoteBroken(run: Run, loaded: seq<LoadedSpec>)
    requires run.Valid() && run.errors == []
    modifies run`errors
    ensures run.Valid() && run.errors == ErrorTexts(loaded, |loaded|)
  {
    var i := 0;
    while i < |loaded|
      invariant 0 <= i <= |loaded| && run.Valid() && run.errors == ErrorTexts(loaded, i)
    {
      if !loaded[i].parsed { run.errors := run.errors + [loaded[i].errorText]; }
      i := i + 1;
    }
  }

  lemma {:induction false} ItemsTame(run: Run, items: seq<Work>, loaded: seq<LoadedSpec>, n: nat)
    requires MayBeQuietOn(run, loaded, n) && LaidOut(items, loaded)
    ensures run.quiet ==>
              forall k :: 0 <= k < |items| ==> run.Tame(run.t.exec(items[k].at.spec, items[k].at.cell).state)
  {
    hide Cells, Harmless, SuiteGoesWell, Bad;
    if run.quiet && run.t.failFast {
      forall k | 0 <= k < |items| ensures !Bad(run.t.exec(items[k].at.spec, items[k].at.cell).state) {
        var i := items[k].at.spec;
        assert SpecLaidOut(items, i, Cells(loaded[i]), TotalCells(loaded, i));
        assert NeverBad(run.t.exec, i, Cells(loaded[i]));
        assert items[TotalCells(loaded, i) + (k - TotalCells(loaded, i))].at.cell == Cells(loaded[i])[k - TotalCells(loaded, i)];
      }
    }
  }

  /** The items are made, dealt and grouped. */
  method DealOut(loaded: seq<LoadedSpec>, n: nat) returns (items: seq<Work>, queues: seq<seq<Work>>, ghost p: Plan)
    requires n > 0
    ensures items == Items(loaded, |loaded|) && LaidOut(items, loaded) && |items| == TotalCells(loaded, |loaded|)
    ensures p.queues == queues && Dealt(items, p) && RoundRobin(items, p, n)
    ensures forall s :: 0 <= s < |queues| ==> InOrder(queues[s], |loaded|)
    ensures forall k :: 0 <= k < |items| ==> items[k].at.spec < |loaded| && items[k].order == k
  {
    items := BuildItems(loaded);
    LayoutOfItems(loaded);
    var buckets;
    buckets, p := Deal(items, n);
    forall s | 0 <= s < |buckets| ensures InOrder(buckets[s], |loaded|) { BucketInOrder(items, loaded, p, s); }
    queues := GroupAll(buckets, |loaded|);
  }

  /** The items are made, dealt and grouped, `before_suite` runs, and the threads go on to the end. */
  method RunStreams(run: Run, loaded: seq<LoadedSpec>, n: nat) returns (pool: Pool)
    requires run.Valid() && run.Shows(0, 0, 0) && run.errors == [] && n > 0
    requires run.total == TotalCells(loaded, |loaded|) && MayBeQuietOn(run, loaded, n)
    modifies run
    ensures fresh(pool) && pool.run == run && pool.m == |loaded| && LaidOut(pool.items, loaded)
    ensures pool.Valid() && AllDone(pool.p, pool.b) && RoundRobin(pool.items, pool.p, n)
    ensures SuitesTold(run, n)
    ensures run.quiet ==> run.errors == ErrorTexts(loaded, |loaded|)
  {
    NoteBroken(run, loaded);
    var items, queues, p := DealOut(loaded, n);
    ItemsTame(run, items, loaded, n);
    QuietSuites(run, loaded, n);
    assert Starts("before_suite hook failed on stream: ", 0, SUITE_HOOK);
    var suiteOk := SuiteHooks(run, n, run.t.hooks.beforeSuite, "before_suite hook failed on stream: ");
    pool := new Pool(run, items, |loaded|, queues, p, suiteOk);
    pool.Join();
  }

  /** Whatever the interleaving, and also when the run is cancelled, times out, stops at a failure
      or loses a hook, every scenario of every specification that parsed is reported exactly once
      and in order. An undisturbed run reports just the outcomes, but for failed `after_spec` hooks. */
  method ExecuteParallel(run: Run, loaded: seq<LoadedSpec>, n: nat) returns (specs: seq<SpecResult>)
    requires run.Valid() && run.Shows(0, 0, 0) && run.errors == [] && n > 0
    requires run.total == TotalCells(loaded, |loaded|) && MayBeQuietOn(run, loaded, n)
    modifies run
    ensures |specs| == |loaded| && AllSound(specs) && FullyCovered(specs, loaded)
    ensures run.Valid() && ShowsSums(run, specs) && run.Done() == run.total
    ensures AllTell(specs, loaded, run.t, run.Seen(), n) && SuitesTold(run, n)
    ensures run.quiet ==> specs == Reference(loaded, run.t.exec, Faults(run.t.hooks, loaded, n))
    ensures run.quiet ==> Blames(run.errors) == Blames(ErrorTexts(loaded, |loaded|))
  {
    hide FullyCovered, AllTell, Blames, Faults, Reference, ErrorTexts;
    var pool := RunStreams(run, loaded, n);
    AfterSuites(run, loaded, n);
    specs := CollectSpecs(pool, loaded, n);
  }

  method AfterSuites(run: Run, loaded: seq<LoadedSpec>, n: nat)
    requires run.Valid() && MayBeQuietOn(run, loaded, n)
    modifies run`errors
    ensures run.Valid() && (Blames(old(run.errors)) ==> Blames(run.errors))
    ensures run.quiet ==> Blames(run.errors) == Blames(old(run.errors))
  {
    hide Blames, Harmless, FaithfulTest, MayBeQuietOn;
    QuietSuites(run, loaded, n);
    var after := SuiteHooks(run, n, run.t.hooks.afterSuite, "after_suite hook failed on stream: ");
  }

  /** What is reported once all threads have joined. */
  method CollectSpecs(pool: Pool, loaded: seq<LoadedSpec>, n: nat) returns (specs: seq<SpecResult>)
    requires pool.Valid() && AllDone(pool.p, pool.b) && pool.m == |loaded| && LaidOut(pool.items, loaded)
    requires n > 0 && RoundRobin(pool.items, pool.p, n)
    requires pool.run.total == TotalCells(loaded, |loaded|)
    modifies pool.run`cancelled, pool.run`timedOut
    ensures |specs| == |loaded| && AllSound(specs) && FullyCovered(specs, loaded)
    ensures pool.run.Valid() && ShowsSums(pool.run, specs) && pool.run.Done() == pool.run.total
    ensures AllTell(specs, loaded, pool.run.t, pool.run.Seen(), n)
    ensures pool.run.quiet ==> specs == Reference(loaded, pool.run.t.exec, Faults(pool.run.t.hooks, loaded, n))
  {
    hide FaithfulTest, FullyCovered, SettledUpTo, AllTell;
    ghost var faults := Faults(pool.run.t.hooks, loaded, n);
    FaultsAtEnd(pool, loaded, n);
    specs := CollectAll(pool, loaded, faults, n);
    SettledAll(specs, Expecting(pool, loaded, faults));
    AllRan(pool);
  }

  lemma {:induction false} AllRan(pool: Pool)
    requires pool.Valid() && AllDone(pool.p, pool.b)
    ensures pool.run.Done() == pool.run.total
  {
    forall k | 0 <= k < |pool.items| ensures pool.g.outcome[k].Some? {
      ItemGone(pool.items, pool.m, pool.p, pool.b, pool.g, pool.run.t.exec, pool.run.quiet, k);
    }
    AllCounted(pool.g.outcome, |pool.items|);
  }

  /** A test that ends PASSED tells the outcomes of all its scenarios, whatever its inputs. */
  lemma {:induction false} PassedTellsAll(specs: seq<SpecResult>, loaded: seq<LoadedSpec>, t: Test, n: nat)
    requires n > 0 && Green(specs) && AllTell(specs, loaded, t, Flags(false, false, false), n) && |specs| == |loaded|
    requires forall s: nat :: s < n ==> t.hooks.beforeSuite(s).Fine?
    ensures forall i :: 0 <= i < |loaded| ==> loaded[i].parsed
    ensures specs == Reference(loaded, t.exec, NoFaults(|loaded|))
  {
    hide Tells, SpecReference;
    forall i | 0 <= i < |loaded| ensures loaded[i].parsed && specs[i] == SpecReference(loaded[i], i, t.exec, false) {
      GoodTells(specs[i], loaded, i, t, n);
    }
  }

  /** A parallel test from its first hook to its final state. */
  method RunInParallel(t: Test, loaded: seq<LoadedSpec>, n: nat) returns (specs: seq<SpecResult>, final: TestState)
    requires FaithfulTest(t) && n > 0
    ensures |specs| == |loaded| && FullyCovered(specs, loaded)
    ensures AllTell(specs, loaded, t, Possible(t), n)
    ensures final == Passed ==> Green(specs) && forall i :: 0 <= i < |loaded| ==> loaded[i].parsed
    ensures final == Passed ==> specs == Reference(loaded, t.exec, NoFaults(|loaded|))
    ensures Undisturbed(t, loaded, n) ==> specs == Reference(loaded, t.exec, Faults(t.hooks, loaded, n))
    ensures Undisturbed(t, loaded, n) ==> final == ReferenceFinal(loaded, t.exec, Faults(t.hooks, loaded, n))
  {
    hide AllTell, Tells, Reference, Green, FullyCovered;
    var total := CountScenarios(loaded);
    var run := new Run(t, total, Undisturbed(t, loaded, n));
    specs := ExecuteParallel(run, loaded, n);
    ghost var f := run.Seen();
    AllTellLater(specs, loaded, t, f, Possible(t), n);
    final := run.Finish(specs, |loaded|);
    if final == Passed {
      PassedIsGreen(run.cancelled, run.timedOut, Blames(run.errors), specs, |loaded|, run.passed, run.failed);
      AllTellLater(specs, loaded, t, f, Flags(false, false, false), n);
      PassedTellsAll(specs, loaded, t, n);
    }
  }

  // ---------------------------------------------------------------- both ways of running a test

  /** The reports of the two modes for an undisturbed test, specification by specification. */
  lemma {:induction false} ModesAgreeIff(t: Test, loaded: seq<LoadedSpec>, n: nat, i: nat)
    requires n > 0 && i < |loaded|
    ensures var one, many := Reference(loaded, t.exec, NoFaults(|loaded|)), Reference(loaded, t.exec, Faults(t.hooks, loaded, n));
            && (one[i] == many[i] <==> !HookFails(t.hooks, loaded, n, i) || one[i].state == Errored)
            && (one[i] != many[i] ==> many[i].state == Errored && one[i].scenarios == many[i].scenarios)
  {
    FaultShows(loaded[i], i, t.exec, HookFails(t.hooks, loaded, n, i));
  }

  /** Two undisturbed runs of one test, one after the other and on `n` streams, report the same of a
      specification exactly if no `after_spec` hook of it failed on a stream, or it is an error anyway. */
  method SameEitherWay(t: Test, loaded: seq<LoadedSpec>, n: nat)
    returns (one: seq<SpecResult>, many: seq<SpecResult>, oneFinal: TestState, manyFinal: TestState)
    requires FaithfulTest(t) && n > 0 && Undisturbed(t, loaded, n)
    ensures |one| == |many| == |loaded|
    ensures forall i :: 0 <= i < |loaded| ==>
              (one[i] == many[i] <==> !AfterFails(t.hooks, loaded, n, i) || one[i].state == Errored)
    ensures one == many ==> oneFinal == manyFinal
  {
    FewerStreams(t, loaded, 1, n);
    one, oneFinal := RunSequentially(t, loaded);
    many, manyFinal := RunInParallel(t, loaded, n);
    forall i | 0 <= i < |loaded|
      ensures one[i] == many[i] <==> !AfterFails(t.hooks, loaded, n, i) || one[i].state == Errored
    {
      OnlyAfterFails(t, loaded, n, i);
      ModesAgreeIff(t, loaded, n, i);
    }
  }

  /** Two runs of one test that both end PASSED report the same, whatever came in between. */
  method PassedAlike(t: Test, loaded: seq<LoadedSpec>, n: nat)
    returns (one: seq<SpecResult>, many: seq<SpecResult>, oneFinal: TestState, manyFinal: TestState)
    requires FaithfulTest(t) && n > 0
    ensures oneFinal == Passed && manyFinal == Passed ==> one == many
  {
    one, oneFinal := RunSequentially(t, loaded);
    many, manyFinal := RunInParallel(t, loaded, n);
  }

  lemma {:induction false} TwoCells(l: LoadedSpec)
    requires l.parsed && l.rows == 0 && l.selected == [true, true]
    ensures Cells(l) == [Cell(0, -1), Cell(1, -1)]
  {
    assert RowCells(l, 0, 0) == [] && RowIndex(l, 0) == -1 && l.selected[0] && l.selected[1];
    assert RowCells(l, 0, 1) == RowCells(l, 0, 0) + [Cell(0, -1)] == [Cell(0, -1)];
    assert RowCells(l, 0, 2) == RowCells(l, 0, 1) + [Cell(1, -1)] == [Cell(0, -1), Cell(1, -1)];
    assert CellsOf(l, 0) == [] && CellsOf(l, 1) == RowCells(l, 0, 2);
  }

  lemma {:induction false} TwoPassed(rs: seq<ScenarioResult>)
    requires |rs| == 2 && rs[0].state == Passed && rs[1].state == Passed
    ensures PassedIn(rs) == 2 && SpecState(rs, false, false) == Passed && SpecState(rs, true, false) == Errored
  {
    assert Count(rs, 1, KPassed) == 1;
    CountsAddUp(rs, 2);
  }

  lemma {:induction false} FinalOfOne(specs: seq<SpecResult>, passed: nat, failed: nat)
    requires |specs| == 1
    ensures specs[0].state == Passed && passed > 0 ==> FinalState(false, false, false, specs, 1, passed, failed) == Passed
    ensures specs[0].state == Errored ==> FinalState(false, false, false, specs, 1, passed, failed) == Errored
  {
    assert NotGood(specs, 0) == 0 && Errors(specs, 0) == 0;
  }

  /** Two passing scenarios on two streams: one failed `after_spec` turns PASSED into an error. */
  lemma {:induction false} OneFailedHook(t: Test, loaded: seq<LoadedSpec>)
    requires |loaded| == 1 && loaded[0].parsed && loaded[0].rows == 0 && loaded[0].selected == [true, true]
    requires t.exec(0, Cell(0, -1)).state == Passed && t.exec(0, Cell(1, -1)).state == Passed
    requires t.hooks.beforeSuite(1).Fine? && !t.hooks.afterSpec(1, 0)
    ensures ReferenceFinal(loaded, t.exec, NoFaults(1)) == Passed
    ensures ReferenceFinal(loaded, t.exec, Faults(t.hooks, loaded, 2)) == Errored
  {
    TwoCells(loaded[0]);
    var rs := OutcomesOf(0, Cells(loaded[0]), t.exec);
    TwoPassed(rs);
    assert StreamOf(loaded, 2, 0, 1) == 1 && FailsAt(t.hooks, 1, 0);
    var one, many := Reference(loaded, t.exec, NoFaults(1)), Reference(loaded, t.exec, Faults(t.hooks, loaded, 2));
    assert one[0] == Summary(rs, false, false) && many[0] == Summary(rs, true, false);
    assert ErrorTexts(loaded, 1) == ErrorTexts(loaded, 0) == [];
    assert SumPassed(one, 1) == SumPassed(one, 0) + 2;
    FinalOfOne(one, SumPassed(one, 1), SumFailed(one, 1));
    FinalOfOne(many, SumPassed(many, 1), SumFailed(many, 1));
  }

  /** Such a test: everything succeeds but `after_spec` on the second stream. */
  method TestOfTwo() returns (t: Test, loaded: seq<LoadedSpec>)
    ensures FaithfulTest(t) && Undisturbed(t, loaded, 2)
    ensures ReferenceFinal(loaded, t.exec, NoFaults(|loaded|)) == Passed
    ensures ReferenceFinal(loaded, t.exec, Faults(t.hooks, loaded, 2)) == Errored
  {
    var hooks := Hooks(s => Fine, s => Fine, (s, i) => true, (s, i) => s != 1);
    var passes: Oracle := (i, c: Cell) => ScenarioResult(c.scenario, c.row, Passed, [], [], []);
    t := Test(false, false, false, hooks, passes, passes);
    loaded := [LoadedSpec(true, 0, [true, true], "")];
    hide ReferenceFinal, Faults, NoFaults;
    OneFailedHook(t, loaded);
  }

  method AfterSpecDiffers() returns (t: Test, loaded: seq<LoadedSpec>, oneFinal: TestState, manyFinal: TestState)
    ensures FaithfulTest(t) && Undisturbed(t, loaded, 2)
    ensures oneFinal == Passed && manyFinal == Errored
  {
    hide FaithfulTest, Undisturbed, ReferenceFinal, Reference, Faults, NoFaults, Green, AllTell, AllAnswered;
    t, loaded := TestOfTwo();
    FewerStreams(t, loaded, 1, 2);
    var one, many;
    one, oneFinal := RunSequentially(t, loaded);
    many, manyFinal := RunInParallel(t, loaded, 2);
  }
}
