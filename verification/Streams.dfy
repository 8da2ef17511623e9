/** The streams of `executeParallel` at work, until all of them have joined
    (src/engine/execution_engine.cpp). */
module Streams {
  import opened Text
  import opened Steps
  import opened Runs
  import opened Sequential
  import opened Parallel

  // ---------------------------------------------------------------- counting outcomes

  function Outcomes(o: seq<Option<ScenarioResult>>, n: nat, k: Kind): nat
    requires n <= |o|
  {
    if n == 0 then 0 else Outcomes(o, n - 1, k) + Unit(o[n - 1].Some? && KindOf(o[n - 1].value.state) == k)
  }

  lemma {:induction false} OutcomesUpdate(o: seq<Option<ScenarioResult>>, i: nat, r: ScenarioResult, n: nat, k: Kind)
    requires i < |o| && o[i].None? && n <= |o|
    ensures Outcomes(o[i := Some(r)], n, k) == Outcomes(o, n, k) + Unit(i < n && KindOf(r.state) == k)
  {
    if n > 0 { OutcomesUpdate(o, i, r, n - 1, k); }
  }

  function AllOutcomes(o: seq<Option<ScenarioResult>>, n: nat): nat
    requires n <= |o|
  {
    Outcomes(o, n, KPassed) + Outcomes(o, n, KFailed) + Outcomes(o, n, KErrored) + Outcomes(o, n, KOther)
  }

  lemma {:induction false} OutcomesBound(o: seq<Option<ScenarioResult>>, n: nat)
    requires n <= |o|
    ensures AllOutcomes(o, n) <= n
  {
    if n > 0 { OutcomesBound(o, n - 1); }
  }

  lemma {:induction false} RoomLeft(o: seq<Option<ScenarioResult>>, i: nat, n: nat)
    requires i < n <= |o| && o[i].None?
    ensures AllOutcomes(o, n) < n
  {
    if i < n - 1 { RoomLeft(o, i, n - 1); } else { OutcomesBound(o, n - 1); }
  }

  lemma {:induction false} NoOutcomes(o: seq<Option<ScenarioResult>>, n: nat, k: Kind)
    requires n <= |o| && forall i :: 0 <= i < n ==> o[i].None?
    ensures Outcomes(o, n, k) == 0
  {
    if n > 0 { NoOutcomes(o, n - 1, k); }
  }

  ghost predicate Tallied(run: Run, o: seq<Option<ScenarioResult>>)
    reads run
  {
    run.Shows(Outcomes(o, |o|, KPassed), Outcomes(o, |o|, KFailed) + Outcomes(o, |o|, KErrored), Outcomes(o, |o|, KOther))
  }

  lemma {:induction false} TallyUpdate(o: seq<Option<ScenarioResult>>, i: nat, r: ScenarioResult)
    requires i < |o| && o[i].None?
    ensures var u := o[i := Some(r)];
            && Outcomes(u, |u|, KPassed) == Outcomes(o, |o|, KPassed) + Unit(r.state.Passed?)
            && Outcomes(u, |u|, KFailed) + Outcomes(u, |u|, KErrored)
               == Outcomes(o, |o|, KFailed) + Outcomes(o, |o|, KErrored) + Unit(Bad(r.state))
            && Outcomes(u, |u|, KOther) == Outcomes(o, |o|, KOther) + Unit(KindOf(r.state).KOther?)
  {
    OutcomesUpdate(o, i, r, |o|, KPassed);
    OutcomesUpdate(o, i, r, |o|, KFailed);
    OutcomesUpdate(o, i, r, |o|, KErrored);
    OutcomesUpdate(o, i, r, |o|, KOther);
  }

  // ---------------------------------------------------------------- the streams

  /** What a stream has decided to do with its current item; `Ready` once its hook has run. */
  datatype Choice = Undecided | Ready | Go | Skip(state: TestState)

  /** A skip has its reason. */
  ghost predicate ChoiceOk(c: Choice, t: Test, f: Flags, quiet: bool, q: seq<Work>, j: nat, s: nat) {
    c.Skip? ==> !quiet && j < |q| && SkipOk(c.state, f, HooksOk(t, s, q[j].at.spec))
  }

  /** The outcome of an item, once it is there, is one that the test may report by now. */
  ghost predicate ItemTold(w: Work, s: nat, t: Test, f: Flags, o: Option<ScenarioResult>) {
    o.Some? ==> Told(t, f, HooksOk(t, s, w.at.spec), w.at.spec, w.at.cell, o.value)
  }

  ghost predicate AllTold(items: seq<Work>, p: Plan, t: Test, f: Flags, o: seq<Option<ScenarioResult>>) {
    && |items| == |p.stream| == |o|
    && forall k :: 0 <= k < |items| ==> ItemTold(items[k], p.stream[k], t, f, o[k])
  }

  lemma {:induction false} AllToldLater(items: seq<Work>, p: Plan, t: Test, f: Flags, g: Flags, o: seq<Option<ScenarioResult>>)
    requires AllTold(items, p, t, f, o) && Within(f, g)
    ensures AllTold(items, p, t, g, o)
  {
    forall k | 0 <= k < |items| ensures ItemTold(items[k], p.stream[k], t, g, o[k]) {
      assert ItemTold(items[k], p.stream[k], t, f, o[k]);
    }
  }

  lemma {:induction false} AllToldNext(items: seq<Work>, p: Plan, t: Test, f: Flags, g: Flags,
                                       o: seq<Option<ScenarioResult>>, k: nat, r: ScenarioResult)
    requires AllTold(items, p, t, f, o) && Within(f, g) && k < |items| && ItemTold(items[k], p.stream[k], t, g, Some(r))
    ensures AllTold(items, p, t, g, o[k := Some(r)])
  {
    AllToldLater(items, p, t, f, g, o);
  }

  lemma {:induction false} InvHolds(items: seq<Work>, m: nat, p: Plan, b: Board, g: Log, exec: Oracle, quiet: bool,
                                    hookErrors: seq<bool>)
    requires Inv(items, m, p, b, g, exec, quiet) && |hookErrors| == |b.hookErrors|
    ensures Inv(items, m, p, b.(hookErrors := hookErrors), g, exec, quiet)
  {
    var b' := b.(hookErrors := hookErrors);
    forall k | 0 <= k < |items| ensures ItemOk(items, m, p, b', g, k, exec, quiet) {
      assert ItemOk(items, m, p, b, g, k, exec, quiet);
    }
    forall s | 0 <= s < |p.queues| ensures StreamOk(items, m, p, b', g, s) {
      assert StreamOk(items, m, p, b, g, s);
    }
    forall i, a | 0 <= i < m && 0 <= a < |b'.collected[i]| ensures EntryOk(items, m, p, b', g, b'.collected[i][a], i, a) {
      assert EntryOk(items, m, p, b, g, b.collected[i][a], i, a);
    }
  }

  lemma {:induction false} InvAtStart(items: seq<Work>, m: nat, p: Plan, b: Board, g: Log, exec: Oracle, quiet: bool)
    requires Sized(items, m, p, b, g)
    requires forall s :: 0 <= s < |p.queues| ==> b.next[s] == 0 && b.held[s].None?
    requires forall i :: 0 <= i < m ==> b.collected[i] == []
    requires forall k :: 0 <= k < |items| ==> g.outcome[k].None?
    ensures Inv(items, m, p, b, g, exec, quiet)
  {
    forall k | 0 <= k < |items| ensures ItemOk(items, m, p, b, g, k, exec, quiet) { assert Placed(items, p, k); }
  }

  // ---------------------------------------------------------------- the hooks around specifications

  /** The first item of a specification on its stream, and the last one. */
  predicate Opens(q: seq<Work>, j: nat)
    requires j < |q|
  {
    j == 0 || q[j - 1].at.spec != q[j].at.spec
  }

  predicate Closes(q: seq<Work>, j: nat)
    requires j < |q|
  {
    j + 1 == |q| || q[j + 1].at.spec != q[j].at.spec
  }

  ghost predicate HasSpec(q: seq<Work>, n: nat, i: nat)
    requires n <= |q|
  {
    exists j :: 0 <= j < n && q[j].at.spec == i
  }

  /** The queues of the streams, whether `before_suite` succeeded on them, and the hooks. */
  datatype Stage = Stage(queues: seq<seq<Work>>, suiteOk: seq<bool>, hooks: Hooks)

  /** How many items of each stream have been opened and handed in, for which stream and
      specification `before_spec` has run, and its last answer. */
  datatype Curtain = Curtain(reached: seq<nat>, handed: seq<nat>, begun: set<(nat, nat)>, groupOk: seq<bool>)

  ghost predicate StageOk(st: Stage, m: nat) {
    |st.suiteOk| == |st.queues| && forall s, j :: 0 <= s < |st.queues| && 0 <= j < |st.queues[s]| ==> st.queues[s][j].at.spec < m
  }

  /** A hook of specification `i` fails on stream `s`. */
  ghost predicate FailsOn(st: Stage, m: nat, s: nat, i: nat)
    requires StageOk(st, m)
  {
    && s < |st.queues| && st.suiteOk[s] && HasSpec(st.queues[s], |st.queues[s]|, i)
    && (!st.hooks.beforeSpec(s, i) || !st.hooks.afterSpec(s, i))
  }

  ghost predicate OpenedTold(st: Stage, c: Curtain, errors: seq<bool>, s: nat, i: nat)
    requires i < |errors|
  {
    (s, i) in c.begun && (!st.hooks.beforeSpec(s, i) ==> errors[i])
  }

  ghost predicate ClosedTold(st: Stage, errors: seq<bool>, s: nat, j: nat)
    requires s < |st.queues| && j < |st.queues[s]| && st.queues[s][j].at.spec < |errors|
  {
    Closes(st.queues[s], j) && !st.hooks.afterSpec(s, st.queues[s][j].at.spec) ==> errors[st.queues[s][j].at.spec]
  }

  ghost predicate Shaped(st: Stage, c: Curtain, errors: seq<bool>) {
    && StageOk(st, |errors|)
    && |c.reached| == |c.handed| == |c.groupOk| == |st.queues|
    && forall s :: 0 <= s < |st.queues| ==> c.reached[s] <= |st.queues[s]| && c.handed[s] <= |st.queues[s]|
  }

  ghost predicate Blamed(st: Stage, errors: seq<bool>)
    requires StageOk(st, |errors|)
  {
    forall i :: 0 <= i < |errors| && errors[i] ==> exists s: nat :: FailsOn(st, |errors|, s, i)
  }

  ghost predicate OpenedAll(st: Stage, c: Curtain, errors: seq<bool>)
    requires Shaped(st, c, errors)
  {
    forall s, j :: 0 <= s < |st.queues| && st.suiteOk[s] && 0 <= j < c.reached[s] ==>
      OpenedTold(st, c, errors, s, st.queues[s][j].at.spec)
  }

  ghost predicate ClosedAll(st: Stage, c: Curtain, errors: seq<bool>)
    requires Shaped(st, c, errors)
  {
    forall s, j :: 0 <= s < |st.queues| && st.suiteOk[s] && 0 <= j < c.handed[s] ==> ClosedTold(st, errors, s, j)
  }

  ghost predicate LastAnswers(st: Stage, c: Curtain, errors: seq<bool>)
    requires Shaped(st, c, errors)
  {
    forall s :: 0 <= s < |st.queues| && st.suiteOk[s] && c.reached[s] > 0 ==>
      c.groupOk[s] == st.hooks.beforeSpec(s, st.queues[s][c.reached[s] - 1].at.spec)
  }

  ghost predicate BegunTold(st: Stage, c: Curtain, errors: seq<bool>)
    requires Shaped(st, c, errors)
  {
    forall x :: x in c.begun ==> x.0 < |st.queues| && HasSpec(st.queues[x.0], c.reached[x.0], x.1)
  }

  /** The hook errors are those of the hooks that have run, and every hook has run once. */
  ghost predicate HooksTold(st: Stage, c: Curtain, errors: seq<bool>) {
    && Shaped(st, c, errors)
    && Blamed(st, errors)
    && OpenedAll(st, c, errors)
    && ClosedAll(st, c, errors)
    && LastAnswers(st, c, errors)
    && BegunTold(st, c, errors)
  }

  function Opened(st: Stage, c: Curtain, s: nat): Curtain
    requires s < |c.reached| == |c.groupOk| == |st.queues| == |st.suiteOk| && c.reached[s] < |st.queues[s]|
  {
    var j := c.reached[s];
    var i := st.queues[s][j].at.spec;
    if st.suiteOk[s] && Opens(st.queues[s], j) then
      c.(reached := c.reached[s := j + 1], begun := c.begun + {(s, i)}, groupOk := c.groupOk[s := st.hooks.beforeSpec(s, i)])
    else c.(reached := c.reached[s := j + 1])
  }

  function OpenedErrors(st: Stage, c: Curtain, s: nat, errors: seq<bool>): (r: seq<bool>)
    requires s < |c.reached| == |st.queues| == |st.suiteOk| && c.reached[s] < |st.queues[s]|
    requires st.queues[s][c.reached[s]].at.spec < |errors|
    ensures |r| == |errors|
  {
    var i := st.queues[s][c.reached[s]].at.spec;
    if st.suiteOk[s] && Opens(st.queues[s], c.reached[s]) && !st.hooks.beforeSpec(s, i) then errors[i := true] else errors
  }

  function ClosedErrors(st: Stage, s: nat, j: nat, errors: seq<bool>): (r: seq<bool>)
    requires s < |st.queues| == |st.suiteOk| && j < |st.queues[s]| && st.queues[s][j].at.spec < |errors|
    ensures |r| == |errors|
  {
    var i := st.queues[s][j].at.spec;
    if st.suiteOk[s] && Closes(st.queues[s], j) && !st.hooks.afterSpec(s, i) then errors[i := true] else errors
  }

  lemma {:induction false} OpenKeeps(st: Stage, c: Curtain, errors: seq<bool>, s: nat)
    requires HooksTold(st, c, errors) && s < |st.queues| && c.reached[s] < |st.queues[s]|
    ensures st.queues[s][c.reached[s]].at.spec < |errors|
    ensures HooksTold(st, Opened(st, c, s), OpenedErrors(st, c, s, errors))
  {
    OpenBlames(st, c, errors, s);
    OpenOpens(st, c, errors, s);
    OpenCloses(st, c, errors, s);
    OpenAnswers(st, c, errors, s);
    OpenBegins(st, c, errors, s);
  }

  lemma {:induction false} OpenBlames(st: Stage, c: Curtain, errors: seq<bool>, s: nat)
    requires Shaped(st, c, errors) && Blamed(st, errors) && s < |st.queues| && c.reached[s] < |st.queues[s]|
    ensures Blamed(st, OpenedErrors(st, c, s, errors))
  {
    var q, j, errors' := st.queues[s], c.reached[s], OpenedErrors(st, c, s, errors);
    forall i | 0 <= i < |errors| && errors'[i] ensures exists s: nat :: FailsOn(st, |errors|, s, i) {
      if !errors[i] {
        assert q[j].at.spec == i && HasSpec(q, |q|, i);
        assert FailsOn(st, |errors|, s, i);
      }
    }
  }

  lemma {:induction false} OpenOpens(st: Stage, c: Curtain, errors: seq<bool>, s: nat)
    requires Shaped(st, c, errors) && OpenedAll(st, c, errors) && s < |st.queues| && c.reached[s] < |st.queues[s]|
    ensures Shaped(st, Opened(st, c, s), OpenedErrors(st, c, s, errors))
    ensures OpenedAll(st, Opened(st, c, s), OpenedErrors(st, c, s, errors))
  {
    var q, j := st.queues[s], c.reached[s];
    var c', errors' := Opened(st, c, s), OpenedErrors(st, c, s, errors);
    forall t, k | 0 <= t < |st.queues| && st.suiteOk[t] && 0 <= k < c'.reached[t]
      ensures OpenedTold(st, c', errors', t, st.queues[t][k].at.spec)
    {
      if t != s || k < j {
        assert OpenedTold(st, c, errors, t, st.queues[t][k].at.spec);
      } else if !Opens(q, j) {
        assert OpenedTold(st, c, errors, s, q[j - 1].at.spec);
      }
    }
  }

  lemma {:induction false} OpenCloses(st: Stage, c: Curtain, errors: seq<bool>, s: nat)
    requires Shaped(st, c, errors) && ClosedAll(st, c, errors) && s < |st.queues| && c.reached[s] < |st.queues[s]|
    requires Shaped(st, Opened(st, c, s), OpenedErrors(st, c, s, errors))
    ensures ClosedAll(st, Opened(st, c, s), OpenedErrors(st, c, s, errors))
  {
    var c', errors' := Opened(st, c, s), OpenedErrors(st, c, s, errors);
    forall t, k | 0 <= t < |st.queues| && st.suiteOk[t] && 0 <= k < c'.handed[t] ensures ClosedTold(st, errors', t, k) {
      assert ClosedTold(st, errors, t, k);
    }
  }

  lemma {:induction false} OpenAnswers(st: Stage, c: Curtain, errors: seq<bool>, s: nat)
    requires Shaped(st, c, errors) && LastAnswers(st, c, errors) && s < |st.queues| && c.reached[s] < |st.queues[s]|
    requires Shaped(st, Opened(st, c, s), OpenedErrors(st, c, s, errors))
    ensures LastAnswers(st, Opened(st, c, s), OpenedErrors(st, c, s, errors))
  {
  }

  lemma {:induction false} OpenBegins(st: Stage, c: Curtain, errors: seq<bool>, s: nat)
    requires Shaped(st, c, errors) && BegunTold(st, c, errors) && s < |st.queues| && c.reached[s] < |st.queues[s]|
    requires Shaped(st, Opened(st, c, s), OpenedErrors(st, c, s, errors))
    ensures BegunTold(st, Opened(st, c, s), OpenedErrors(st, c, s, errors))
  {
    var c' := Opened(st, c, s);
    forall x | x in c'.begun ensures x.0 < |st.queues| && HasSpec(st.queues[x.0], c'.reached[x.0], x.1) {
      if x in c.begun {
        assert HasSpec(st.queues[x.0], c.reached[x.0], x.1);
      } else {
        assert st.queues[s][c.reached[s]].at.spec == x.1;
      }
    }
  }

  lemma {:induction false} LaterSpecs(q: seq<Work>, m: nat, k: nat, j: nat)
    requires InOrder(q, m) && k < j < |q| && Opens(q, j)
    ensures q[k].at.spec != q[j].at.spec
  {
    if k < j - 1 { assert q[k].at.spec <= q[j - 1].at.spec; }
  }

  /** The items of a specification lie together on a stream, so its hook has not run before. */
  lemma {:induction false} OpensOnce(st: Stage, c: Curtain, errors: seq<bool>, s: nat)
    requires HooksTold(st, c, errors) && s < |st.queues| && c.reached[s] < |st.queues[s]|
    requires InOrder(st.queues[s], |errors|) && Opens(st.queues[s], c.reached[s])
    ensures (s, st.queues[s][c.reached[s]].at.spec) !in c.begun
  {
    var q, j := st.queues[s], c.reached[s];
    var i := q[j].at.spec;
    if (s, i) in c.begun {
      var k :| 0 <= k < j && q[k].at.spec == i;
      LaterSpecs(q, |errors|, k, j);
    }
  }

  lemma {:induction false} CloseKeeps(st: Stage, c: Curtain, errors: seq<bool>, s: nat)
    requires HooksTold(st, c, errors) && s < |st.queues| && c.handed[s] < |st.queues[s]|
    ensures st.queues[s][c.handed[s]].at.spec < |errors|
    ensures HooksTold(st, c.(handed := c.handed[s := c.handed[s] + 1]), ClosedErrors(st, s, c.handed[s], errors))
  {
    CloseBlames(st, c, errors, s);
    CloseOpens(st, c, errors, s);
    CloseCloses(st, c, errors, s);
  }

  lemma {:induction false} CloseBlames(st: Stage, c: Curtain, errors: seq<bool>, s: nat)
    requires Shaped(st, c, errors) && Blamed(st, errors) && s < |st.queues| && c.handed[s] < |st.queues[s]|
    ensures Blamed(st, ClosedErrors(st, s, c.handed[s], errors))
  {
    var q, j, errors' := st.queues[s], c.handed[s], ClosedErrors(st, s, c.handed[s], errors);
    forall i | 0 <= i < |errors| && errors'[i] ensures exists s: nat :: FailsOn(st, |errors|, s, i) {
      if !errors[i] {
        assert q[j].at.spec == i && HasSpec(q, |q|, i);
        assert FailsOn(st, |errors|, s, i);
      }
    }
  }

  lemma {:induction false} CloseOpens(st: Stage, c: Curtain, errors: seq<bool>, s: nat)
    requires Shaped(st, c, errors) && OpenedAll(st, c, errors) && s < |st.queues| && c.handed[s] < |st.queues[s]|
    ensures var c' := c.(handed := c.handed[s := c.handed[s] + 1]);
            && Shaped(st, c', ClosedErrors(st, s, c.handed[s], errors))
            && OpenedAll(st, c', ClosedErrors(st, s, c.handed[s], errors))
  {
    var errors' := ClosedErrors(st, s, c.handed[s], errors);
    var c' := c.(handed := c.handed[s := c.handed[s] + 1]);
    forall t, k | 0 <= t < |st.queues| && st.suiteOk[t] && 0 <= k < c'.reached[t]
      ensures OpenedTold(st, c', errors', t, st.queues[t][k].at.spec)
    {
      assert OpenedTold(st, c, errors, t, st.queues[t][k].at.spec);
    }
  }

  lemma {:induction false} CloseCloses(st: Stage, c: Curtain, errors: seq<bool>, s: nat)
    requires Shaped(st, c, errors) && ClosedAll(st, c, errors) && s < |st.queues| && c.handed[s] < |st.queues[s]|
    requires Shaped(st, c.(handed := c.handed[s := c.handed[s] + 1]), ClosedErrors(st, s, c.handed[s], errors))
    ensures ClosedAll(st, c.(handed := c.handed[s := c.handed[s] + 1]), ClosedErrors(st, s, c.handed[s], errors))
  {
    var errors' := ClosedErrors(st, s, c.handed[s], errors);
    var c' := c.(handed := c.handed[s := c.handed[s] + 1]);
    forall t, k | 0 <= t < |st.queues| && st.suiteOk[t] && 0 <= k < c'.handed[t] ensures ClosedTold(st, errors', t, k) {
      if t != s || k < c.handed[s] { assert ClosedTold(st, errors, t, k); }
    }
  }

  lemma {:induction false} SomeCloses(q: seq<Work>, j: nat) returns (k: nat)
    requires j < |q|
    ensures j <= k < |q| && Closes(q, k) && q[k].at.spec == q[j].at.spec
    decreases |q| - j
  {
    k := j;
    if !Closes(q, j) { k := SomeCloses(q, j + 1); }
  }

  /** When all is handed in, exactly the specifications with a failed hook have an error. */
  lemma {:induction false} ErrorsAtEnd(st: Stage, c: Curtain, errors: seq<bool>, i: nat)
    requires HooksTold(st, c, errors) && i < |errors|
    requires forall s :: 0 <= s < |st.queues| ==> c.reached[s] == c.handed[s] == |st.queues[s]|
    ensures errors[i] <==> exists s: nat :: FailsOn(st, |errors|, s, i)
  {
    if s: nat :| FailsOn(st, |errors|, s, i) {
      var q := st.queues[s];
      var j :| 0 <= j < |q| && q[j].at.spec == i;
      assert OpenedTold(st, c, errors, s, i);
      var k := SomeCloses(q, j);
      assert ClosedTold(st, errors, s, k);
    }
  }

  // ---------------------------------------------------------------- the streams

  function HookError(b: Board, i: nat, ok: bool): Board
    requires i < |b.hookErrors|
  {
    if ok then b else b.(hookErrors := b.hookErrors[i := true])
  }

  function Reached(next: seq<nat>, choice: seq<Choice>): (r: seq<nat>)
    requires |next| == |choice|
    ensures |r| == |next|
    ensures forall s :: 0 <= s < |r| ==> r[s] == if choice[s].Undecided? then next[s] else next[s] + 1
  {
    seq(|next|, s requires 0 <= s < |next| => if choice[s].Undecided? then next[s] else next[s] + 1)
  }

  function Handed(next: seq<nat>, held: seq<Option<ScenarioResult>>): (r: seq<nat>)
    requires |next| == |held|
    ensures |r| == |next|
    ensures forall s :: 0 <= s < |r| ==> r[s] == if held[s].Some? && next[s] > 0 then next[s] - 1 else next[s]
  {
    seq(|next|, s requires 0 <= s < |next| => if held[s].Some? && next[s] > 0 then next[s] - 1 else next[s])
  }

  /** Every method below that takes a stream is one step of its thread; any other thread may run
      between two of them. */
  class Pool {
    const run: Run
    const items: seq<Work>
    const m: nat
    const queues: seq<seq<Work>>
    const suiteOk: seq<bool>
    ghost const p: Plan
    var b: Board
    var choice: seq<Choice>
    var groupOk: seq<bool>
    ghost var g: Log
    ghost var begun: set<(nat, nat)>

    ghost function St(): Stage {
      Stage(queues, suiteOk, run.t.hooks)
    }

    ghost predicate Sizes()
      reads this
    {
      |choice| == |groupOk| == |suiteOk| == |queues| == |b.next| == |b.held|
    }

    ghost function Curtains(): Curtain
      requires Sizes()
      reads this
    {
      Curtain(Reached(b.next, choice), Handed(b.next, b.held), begun, groupOk)
    }

    /** What the inputs of a quiet run guarantee. */
    ghost predicate Quietly() {
      run.quiet ==>
        && (forall s :: 0 <= s < |suiteOk| ==> suiteOk[s])
        && (forall s: nat, i: nat :: s < |queues| && i < m ==> run.t.hooks.beforeSpec(s, i))
        && (forall k :: 0 <= k < |items| ==> run.Tame(run.t.exec(items[k].at.spec, items[k].at.cell).state))
    }

    ghost predicate Fixed() {
      && p.queues == queues && run.total == |items| && Quietly()
      && (forall s :: 0 <= s < |suiteOk| ==> suiteOk[s] == run.t.hooks.beforeSuite(s).Fine?)
      && forall s :: 0 <= s < |queues| ==> InOrder(queues[s], m)
    }

    ghost predicate Sane()
      reads this
    {
      Fixed() && Sizes() && Inv(items, m, p, b, g, run.t.exec, run.quiet)
    }

    ghost predicate ChoicesOk()
      requires Sizes()
      reads this, run
    {
      forall s :: 0 <= s < |choice| ==> ChoiceOk(choice[s], run.t, run.Seen(), run.quiet, queues[s], b.next[s], s)
    }

    ghost predicate Valid()
      reads this, run
    {
      && run.Valid() && Tallied(run, g.outcome)
      && Sane()
      && HooksTold(St(), Curtains(), b.hookErrors)
      && ChoicesOk() && AllTold(items, p, run.t, run.Seen(), g.outcome)
    }

    ghost function Holding(): set<nat>
      reads this
    {
      set s: nat | s < |b.held| && b.held[s].Some?
    }

    ghost function Unopened(): set<nat>
      reads this
    {
      set s: nat | s < |choice| && choice[s].Undecided?
    }

    ghost function Waiting(): set<nat>
      reads this
    {
      set s: nat | s < |choice| && choice[s].Ready?
    }

    predicate Busy(s: nat)
      reads this
    {
      s < |queues| == |b.next| == |b.held| && (b.held[s].Some? || b.next[s] < |queues[s]|)
    }

    /** Stream `s` has an item to work on. */
    predicate Working(s: nat)
      reads this
    {
      s < |queues| == |b.next| == |b.held| == |choice| && b.held[s].None? && b.next[s] < |queues[s]|
    }

    constructor (run: Run, items: seq<Work>, m: nat, queues: seq<seq<Work>>, ghost p: Plan, suiteOk: seq<bool>)
      requires p.queues == queues && Dealt(items, p) && |suiteOk| == |queues|
      requires forall s :: 0 <= s < |queues| ==> InOrder(queues[s], m)
      requires forall k :: 0 <= k < |items| ==> items[k].at.spec < m && items[k].order == k
      requires run.Valid() && run.Shows(0, 0, 0) && run.total == |items|
      requires forall s :: 0 <= s < |suiteOk| ==> suiteOk[s] == run.t.hooks.beforeSuite(s).Fine?
      requires run.quiet ==> forall s :: 0 <= s < |suiteOk| ==> suiteOk[s]
      requires run.quiet ==> forall s: nat, i: nat :: s < |queues| && i < m ==> run.t.hooks.beforeSpec(s, i)
      requires run.quiet ==>
                 forall k :: 0 <= k < |items| ==> run.Tame(run.t.exec(items[k].at.spec, items[k].at.cell).state)
      ensures Valid() && this.run == run && this.items == items && this.m == m && this.p == p
      ensures this.queues == queues && this.suiteOk == suiteOk
    {
      this.run, this.items, this.m, this.queues, this.p, this.suiteOk := run, items, m, queues, p, suiteOk;
      b := Board(seq(|queues|, i => 0), seq(|queues|, i => None), seq(m, i => []), seq(m, i => false));
      choice, groupOk, begun := seq(|queues|, i => Undecided), seq(|queues|, i => true), {};
      g := Log(seq(|items|, i => None), seq(|items|, i => 0));
      new;
      NoOutcomes(g.outcome, |items|, KPassed);
      NoOutcomes(g.outcome, |items|, KFailed);
      NoOutcomes(g.outcome, |items|, KErrored);
      NoOutcomes(g.outcome, |items|, KOther);
      InvAtStart(items, m, p, b, g, run.t.exec, run.quiet);
    }

    method Owner(s: nat, j: nat) returns (i: nat)
      requires Sized(items, m, p, b, g) && p.queues == queues && s < |queues| && j < |queues[s]|
      ensures i == queues[s][j].at.spec < m
    {
      assert Owned(items, p, p.queues[s][j], s, j);
      i := queues[s][j].at.spec;
    }

    method Poll()
      requires Valid()
      modifies run`cancelled, run`timedOut
      ensures Valid() && run.Done() == old(run.Done()) && run.Later()
    {
      hide HooksTold, Inv, FaithfulTest;
      ghost var f := run.Seen();
      run.Poll();
      AllToldLater(items, p, run.t, f, run.Seen(), g.outcome);
    }

    /** `before_spec` runs exactly when a stream comes to the first of its items of a specification,
        once for each; its failure is remembered for that specification. */
    method BeforeSpec(s: nat)
      requires Valid() && Working(s) && choice[s].Undecided?
      modifies this`b, this`choice, this`groupOk, this`begun
      ensures Valid() && choice == old(choice)[s := Ready]
      ensures Curtains() == Opened(St(), old(Curtains()), s)
      ensures b == old(b).(hookErrors := OpenedErrors(St(), old(Curtains()), s, old(b.hookErrors)))
      ensures suiteOk[s] && Opens(queues[s], b.next[s]) ==> (s, queues[s][b.next[s]].at.spec) !in old(begun)
    {
      OpenKeeps(St(), Curtains(), b.hookErrors, s);
      if Opens(queues[s], b.next[s]) { OpensOnce(St(), Curtains(), b.hookErrors, s); }
      Open(s);
    }

    method Open(s: nat)
      requires Sane() && Working(s) && choice[s].Undecided? && ChoicesOk()
      modifies this`b, this`choice, this`groupOk, this`begun
      ensures Sane() && choice == old(choice)[s := Ready] && ChoicesOk()
      ensures b.next == old(b.next) && queues[s][b.next[s]].at.spec < m
      ensures Curtains() == Opened(St(), old(Curtains()), s)
      ensures b == old(b).(hookErrors := OpenedErrors(St(), old(Curtains()), s, old(b.hookErrors)))
    {
      ghost var c := Curtains();
      BeforeHook(s);
      choice := choice[s := Ready];
      assert Curtains() == Opened(St(), c, s);
    }

    method BeforeHook(s: nat)
      requires Sane() && Working(s)
      modifies this`b, this`groupOk, this`begun
      ensures Sane() && b.next == old(b.next) && queues[s][b.next[s]].at.spec < m
      ensures var i := queues[s][b.next[s]].at.spec;
              if suiteOk[s] && Opens(queues[s], b.next[s]) then
                && begun == old(begun) + {(s, i)} && groupOk == old(groupOk)[s := run.t.hooks.beforeSpec(s, i)]
                && b == HookError(old(b), i, run.t.hooks.beforeSpec(s, i))
              else b == old(b) && begun == old(begun) && groupOk == old(groupOk)
    {
      var q, j := queues[s], b.next[s];
      var i := Owner(s, j);
      if suiteOk[s] && Opens(q, j) {
        var ok := run.t.hooks.beforeSpec(s, i);
        Report(i, ok);
        groupOk := groupOk[s := ok];
        begun := begun + {(s, i)};
      }
    }

    /** A hook of specification `i` has answered. */
    method Report(i: nat, ok: bool)
      requires Sane() && i < m
      modifies this`b
      ensures Sane() && b == HookError(old(b), i, ok)
    {
      if !ok {
        InvHolds(items, m, p, b, g, run.t.exec, run.quiet, b.hookErrors[i := true]);
        b := b.(hookErrors := b.hookErrors[i := true]);
      }
    }

    /** The stream looks at the flags and decides what becomes of its next item: it goes on exactly
        if its hooks have succeeded and no flag is up. */
    method Decide(s: nat)
      requires Valid() && Working(s) && choice[s].Ready?
      modifies this`choice, run`cancelled, run`timedOut
      ensures Valid() && run.Done() == old(run.Done()) && run.Later()
      ensures var hookOk := HooksOk(run.t, s, queues[s][b.next[s]].at.spec);
              choice == old(choice)[s := if hookOk && !run.ShouldStop() then Go
                                         else Skip(if suiteOk[s] && run.cancelled then Cancelled else Skipped)]
    {
      hide Inv, Tallied, FaithfulTest, AllTold;
      assert Curtains().reached[s] == b.next[s] + 1;
      HookAnswered(s);
      Poll();
      Choose(s);
    }

    /** What the stream remembers of its hooks is what they answered. */
    lemma {:induction false} HookAnswered(s: nat)
      requires Sane() && HooksTold(St(), Curtains(), b.hookErrors) && s < |queues|
      requires 0 < Curtains().reached[s] <= |queues[s]|
      ensures suiteOk[s] && groupOk[s] <==> HooksOk(run.t, s, queues[s][Curtains().reached[s] - 1].at.spec)
      ensures run.quiet ==> suiteOk[s] && groupOk[s]
    {
      var j := Curtains().reached[s] - 1;
      assert Owned(items, p, p.queues[s][j], s, j);
    }

    method Choose(s: nat)
      requires run.Valid() && Sizes() && s < |queues| && choice[s].Ready? && ChoicesOk()
      requires b.next[s] < |queues[s]| && (suiteOk[s] && groupOk[s] <==> HooksOk(run.t, s, queues[s][b.next[s]].at.spec))
      requires run.quiet ==> suiteOk[s] && groupOk[s]
      modifies this`choice
      ensures Sizes() && ChoicesOk() && Curtains() == old(Curtains())
      ensures var hookOk := HooksOk(run.t, s, queues[s][b.next[s]].at.spec);
              choice == old(choice)[s := if hookOk && !run.ShouldStop() then Go
                                         else Skip(if suiteOk[s] && run.cancelled then Cancelled else Skipped)]
    {
      if suiteOk[s] && groupOk[s] && !run.ShouldStop() {
        choice := choice[s := Go];
      } else {
        choice := choice[s := Skip(if suiteOk[s] && run.cancelled then Cancelled else Skipped)];
      }
      assert Curtains() == old(Curtains());
    }

    method Perform(w: Work, c: Choice, s: nat) returns (sr: ScenarioResult)
      requires run.Valid() && (c.Go? || c.Skip?)
      requires c.Skip? ==> !run.quiet && SkipOk(c.state, run.Seen(), HooksOk(run.t, s, w.at.spec))
      modifies run`cancelled, run`timedOut
      ensures run.Valid() && run.Later() && Fits(w, sr, run.t.exec, run.quiet)
      ensures ItemTold(w, s, run.t, run.Seen(), Some(sr))
      ensures c.Skip? ==> sr == SkippedResult(w.at.cell, c.state == Cancelled)
    {
      match c {
        case Skip(state) => sr := ScenarioResult(w.at.cell.scenario, w.at.cell.row, state, [], [], []);
        case Go => sr := RunScenario(run, w.at.spec, w.at.cell);
      }
    }

    /** The scenario runs or is skipped, and its outcome is counted. */
    method Execute(s: nat)
      requires Valid() && Working(s) && (choice[s].Go? || choice[s].Skip?)
      modifies this`b, this`choice, this`g, run
      ensures Valid() && run.Done() == old(run.Done()) + 1 && run.errors == old(run.errors)
      ensures b.held[s].Some?
      ensures old(choice[s]).Skip? ==>
                b.held[s].value == SkippedResult(queues[s][old(b.next[s])].at.cell, old(choice[s]).state == Cancelled)
    {
      hide HooksTold, FaithfulTest, Inv, Told, HooksOk, AllTold, ItemTold, Tallied;
      ghost var c := Curtains();
      var w := queues[s][b.next[s]];
      var sr := PerformNext(s);
      ExecuteKeepsInv(items, m, p, b, g, run.t.exec, run.quiet, s, sr);
      ghost var next := Executed(b, g, s, w, sr);
      b := b.(next := b.next[s := b.next[s] + 1], held := b.held[s := Some(sr)]);
      g := next.1;
      choice := choice[s := Undecided];
      assert Curtains() == c;
    }

    method PerformNext(s: nat) returns (sr: ScenarioResult)
      requires Valid() && Working(s) && (choice[s].Go? || choice[s].Skip?)
      modifies run
      ensures var w := queues[s][b.next[s]];
              && w.order < |g.outcome| && Fits(w, sr, run.t.exec, run.quiet)
              && Tallied(run, g.outcome[w.order := Some(sr)])
              && AllTold(items, p, run.t, run.Seen(), g.outcome[w.order := Some(sr)])
              && (choice[s].Skip? ==> sr == SkippedResult(w.at.cell, choice[s].state == Cancelled))
      ensures run.Valid() && run.Later() && run.errors == old(run.errors) && run.Done() == old(run.Done()) + 1
    {
      hide HooksTold, FaithfulTest, Inv, Told, SkipOk, HooksOk, AllTold, ItemTold, Fits;
      ghost var f := run.Seen();
      var w := queues[s][b.next[s]];
      assert ChoiceOk(choice[s], run.t, f, run.quiet, queues[s], b.next[s], s);
      sr := Perform(w, choice[s], s);
      NextIs(s);
      NextIsTame(s, sr);
      ghost var h := run.Seen();
      AllToldNext(items, p, run.t, f, h, g.outcome, w.order, sr);
      Count(w, sr);
      AllToldLater(items, p, run.t, h, run.Seen(), g.outcome[w.order := Some(sr)]);
    }

    lemma {:induction false} NextIs(s: nat)
      requires Sane() && Working(s)
      ensures var w := queues[s][b.next[s]];
              && w.order < |items| == |p.stream| == |g.outcome| && items[w.order] == w && p.stream[w.order] == s
              && g.outcome[w.order].None?
    {
      hide HooksTold, FaithfulTest, StreamOk, EntryOk;
      var w := queues[s][b.next[s]];
      assert Owned(items, p, w, s, b.next[s]);
      assert ItemOk(items, m, p, b, g, w.order, run.t.exec, run.quiet);
    }

    lemma {:induction false} NextIsTame(s: nat, sr: ScenarioResult)
      requires Sane() && Working(s) && Fits(queues[s][b.next[s]], sr, run.t.exec, run.quiet)
      ensures run.quiet ==> run.Tame(sr.state)
    {
      hide HooksTold, FaithfulTest, ItemOk, StreamOk, EntryOk;
      assert Owned(items, p, queues[s][b.next[s]], s, b.next[s]);
    }

    method Count(w: Work, sr: ScenarioResult)
      requires run.Valid() && run.total == |g.outcome| && Tallied(run, g.outcome)
      requires w.order < |g.outcome| && g.outcome[w.order].None? && (run.quiet ==> run.Tame(sr.state))
      modifies run
      ensures run.Valid() && run.Done() == old(run.Done()) + 1
      ensures run.Later() && run.errors == old(run.errors)
      ensures Tallied(run, g.outcome[w.order := Some(sr)])
    {
      RoomLeft(g.outcome, w.order, |g.outcome|);
      TallyUpdate(g.outcome, w.order, sr);
      run.ApplyScenarioOutcome(sr);
    }

    /** The result joins those of its specification, in whatever order the streams come; then
        `after_spec` runs if it was the stream's last one of that specification. */
    method HandIn(s: nat)
      requires Valid() && s < |queues| && b.held[s].Some?
      modifies this`b, this`g
      ensures Valid() && run.Done() == old(run.Done())
      ensures 0 < b.next[s] <= |queues[s]| && queues[s][b.next[s] - 1].at.spec < m
      ensures b.next == old(b.next) && b.held == old(b.held)[s := None]
      ensures b.hookErrors == ClosedErrors(St(), s, b.next[s] - 1, old(b.hookErrors))
    {
      hide HooksTold, Inv, Tallied, ChoiceOk, FaithfulTest, AllTold;
      Close(s);
      CloseKeeps(St(), old(Curtains()), old(b.hookErrors), s);
    }

    method Close(s: nat)
      requires Sane() && s < |queues| && b.held[s].Some?
      modifies this`b, this`g
      ensures Sane() && g.outcome == old(g.outcome)
      ensures 0 < b.next[s] <= |queues[s]| && queues[s][b.next[s] - 1].at.spec < m
      ensures b.next == old(b.next) && b.held == old(b.held)[s := None]
      ensures b.hookErrors == ClosedErrors(St(), s, b.next[s] - 1, old(b.hookErrors))
      ensures old(Curtains()).handed[s] == b.next[s] - 1
      ensures Curtains() == old(Curtains()).(handed := old(Curtains()).handed[s := b.next[s]])
    {
      ghost var c := Curtains();
      var i := Collect(s);
      if suiteOk[s] && Closes(queues[s], b.next[s] - 1) {
        Report(i, run.t.hooks.afterSpec(s, i));
      }
      assert Curtains() == c.(handed := c.handed[s := b.next[s]]);
    }

    method Collect(s: nat) returns (i: nat)
      requires Sane() && s < |queues| && b.held[s].Some?
      modifies this`b, this`g
      ensures Sane() && g.outcome == old(g.outcome)
      ensures 0 < b.next[s] <= |queues[s]| && i == queues[s][b.next[s] - 1].at.spec < m
      ensures b.next == old(b.next) && b.held == old(b.held)[s := None] && b.hookErrors == old(b.hookErrors)
    {
      HandInKeepsInv(items, m, p, b, g, run.t.exec, run.quiet, s);
      var w := queues[s][b.next[s] - 1];
      ghost var next := HandedIn(b, g, s, w);
      b := b.(held := b.held[s := None],
              collected := b.collected[w.at.spec := b.collected[w.at.spec] + [(w.order, b.held[s].value)]]);
      g := next.1;
      i := w.at.spec;
    }

    /** The next step of a stream; what is left to do gets less. */
    method Step(s: nat)
      requires Valid() && s < |queues| && Busy(s)
      modifies this`b, this`choice, this`groupOk, this`g, this`begun, run
      ensures Valid() && run.errors == old(run.errors)
      ensures Less(run.total - run.Done(), Holding(), Unopened(), Waiting(),
                   old(run.total - run.Done()), old(Holding()), old(Unopened()), old(Waiting()))
    {
      hide HooksTold, Inv, Tallied, ChoiceOk, FaithfulTest, AllTold;
      if b.held[s].Some? {
        assert s in Holding();
        HandIn(s);
      } else if choice[s].Undecided? {
        assert s in Unopened();
        BeforeSpec(s);
      } else if choice[s].Ready? {
        assert s in Waiting();
        Decide(s);
      } else {
        Execute(s);
      }
    }

    /** Any interleaving of the threads, until all of them have joined. */
    method Join()
      requires Valid()
      modifies this`b, this`choice, this`groupOk, this`g, this`begun, run
      ensures Valid() && run.errors == old(run.errors)
      ensures AllDone(p, b)
    {
      while exists s: nat :: s < |queues| && Busy(s)
        invariant Valid() && run.errors == old(run.errors)
        decreases run.total - run.Done(), Holding(), Unopened(), Waiting()
      {
        var s: nat :| s < |queues| && Busy(s);
        Step(s);
      }
      forall s | 0 <= s < |queues| ensures b.next[s] == |queues[s]| && b.held[s].None? {
        assert !Busy(s);
        assert StreamOk(items, m, p, b, g, s);
      }
    }
  }

  /** The order in which the streams' work gets less. */
  ghost predicate Less(n: int, h: set<nat>, u: set<nat>, w: set<nat>, n': int, h': set<nat>, u': set<nat>, w': set<nat>) {
    n < n' || (n == n' && (h < h' || (h == h' && (u < u' || (u == u' && w < w')))))
  }

  ghost predicate AllDone(p: Plan, b: Board) {
    && |b.next| == |b.held| == |p.queues|
    && forall s :: 0 <= s < |p.queues| ==> b.next[s] == |p.queues[s]| && b.held[s].None?
  }
}
