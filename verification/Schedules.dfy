/** Schedules, the tests they submit, and the clock: every step is one critical section of the
    scheduler or of the engine (src/engine/scheduler.cpp). */
module Schedules {
  import opened Text
  import Cron
  import CronNext
  import History

  /** `cron` is the trimmed text that `expr` was parsed from. */
  datatype Item = Item(cron: string, expr: Cron.Expr, enabled: bool, skip: bool, lastFired: int, lastTest: Option<nat>)

  /** What the ticking thread is about. It reads the clock once, lists the schedules, and then gives
      them their turns one by one; in between it holds no lock. */
  datatype Walk = Resting | Timed(minute: nat) | Walking(minute: nat, todo: set<string>)

  datatype State = State(engine: History.State, items: map<string, Item>, saved: map<string, Item>, clock: nat, walk: Walk,
                         /* which schedule submitted a test */ owner: map<nat, string>,
                         /* schedules that skip since they were created */ alwaysSkip: set<string>)

  /** What comes of a submission: a new test, or an exception. */
  datatype Outcome = Submitted(id: nat) | Rejected

  datatype Action =
    | Advance(minute: nat)
    | ReadClock
    | ListAll
    | Turn(id: string, outcome: Outcome)
    | EndTick
    | FireNow(id: string, outcome: Outcome)
    | Create(id: string, text: string, expr: Cron.Expr, enabled: bool, skip: bool)
    /** An empty text leaves the expression alone. */
    | Update(id: string, text: string, expr: Cron.Expr, enabled: bool, skip: bool)
    | Delete(id: string)
    | EngineStep(step: History.Action)
    | ApiSubmit(test: nat)
    /** The process starts again: the engine has finished tests only, the schedules are read back. */
    | Restart(engine: History.State)

  predicate Possible(s: State, o: Outcome) {
    o.Submitted? ==> o.id !in s.engine.records
  }

  ghost predicate ParsedAs(text: string, expr: Cron.Expr) {
    Cron.Accepted(text) && Cron.Denotes(expr, text)
  }

  ghost predicate Enabled(s: State, a: Action) {
    match a
    case Advance(minute) => minute >= s.clock
    case ReadClock => s.walk.Resting?
    case ListAll => s.walk.Timed?
    case Turn(id, o) => s.walk.Walking? && id in s.walk.todo && Possible(s, o)
    case EndTick => s.walk.Walking? && s.walk.todo == {}
    case FireNow(id, o) => id in s.items && Possible(s, o)
    case Create(id, text, expr, _, _) => id !in s.items && ParsedAs(text, expr)
    case Update(id, text, expr, _, _) => id in s.items && (text != "" ==> ParsedAs(text, expr))
    case Delete(id) => id in s.items
    case EngineStep(step) => !step.Submit? && History.Enabled(s.engine, step)
    case ApiSubmit(test) => test !in s.engine.records
    case Restart(engine) => History.Inv(engine) && forall id :: id in engine.records ==> History.Done(engine, id)
  }

  /** The conditions of `tick`. */
  predicate Due(item: Item, minute: nat) {
    item.enabled && item.lastFired != minute && CronNext.Matches(item.expr, minute)
  }

  /** The previous test of a schedule that skips is still queued or running. */
  predicate Blocked(engine: History.State, item: Item) {
    item.skip && item.lastTest.Some? && History.Active(engine, item.lastTest.value)
  }

  /** `update` compares the new text as it came with the stored one. */
  predicate NewText(item: Item, text: string) {
    text != "" && text != item.cron
  }

  function WithItem(s: State, id: string, item: Item): State {
    s.(items := s.items[id := item], saved := s.items[id := item])
  }

  /** `fireLocked` in the given minute, and `saveOne`. */
  function Fired(s: State, id: string, minute: nat, o: Outcome): State
    requires id in s.items && Possible(s, o)
  {
    var item := s.items[id].(lastFired := minute);
    if Blocked(s.engine, item) || o.Rejected? then WithItem(s, id, item)
    else
      WithItem(s, id, item.(lastTest := Some(o.id))).(
        engine := History.Apply(s.engine, History.Submit(o.id)), owner := s.owner[o.id := id])
  }

  function Disown(owner: map<nat, string>, id: string): map<nat, string> {
    map t | t in owner && owner[t] != id :: owner[t]
  }

  function Updated(item: Item, text: string, expr: Cron.Expr, enabled: bool, skip: bool): Item {
    if NewText(item, text) then Item(Trim(text), expr, enabled, skip, -1, item.lastTest)
    else item.(enabled := enabled, skip := skip)
  }

  function Apply(s: State, a: Action): State
    requires Enabled(s, a)
  {
    match a
    case Advance(minute) => s.(clock := minute)
    case ReadClock => s.(walk := Timed(s.clock))
    case ListAll => s.(walk := Walking(s.walk.minute, s.items.Keys))
    case Turn(id, o) =>
      var t := s.(walk := Walking(s.walk.minute, s.walk.todo - {id}));
      if id in s.items && Due(s.items[id], s.walk.minute) then Fired(t, id, s.walk.minute, o) else t
    case EndTick => s.(walk := Resting)
    case FireNow(id, o) => Fired(s, id, s.clock, o)
    case Create(id, text, expr, enabled, skip) =>
      WithItem(s, id, Item(Trim(text), expr, enabled, skip, -1, None)).(
        owner := Disown(s.owner, id), alwaysSkip := if skip then s.alwaysSkip + {id} else s.alwaysSkip - {id})
    case Update(id, text, expr, enabled, skip) =>
      WithItem(s, id, Updated(s.items[id], text, expr, enabled, skip)).(
        alwaysSkip := if skip then s.alwaysSkip else s.alwaysSkip - {id})
    case Delete(id) =>
      s.(items := s.items - {id}, saved := s.items - {id}, owner := Disown(s.owner, id), alwaysSkip := s.alwaysSkip - {id})
    case EngineStep(step) => s.(engine := History.Apply(s.engine, step))
    case ApiSubmit(test) => s.(engine := History.Apply(s.engine, History.Submit(test)), owner := s.owner - {test})
    case Restart(engine) => s.(engine := engine, items := s.saved, owner := map[], walk := Resting)
  }

  // ---------------------------------------------------------------- the invariant

  predicate OwnerRight(s: State, test: nat)
    requires test in s.owner
  {
    var id := s.owner[test];
    History.Active(s.engine, test) && id in s.alwaysSkip ==> id in s.items && s.items[id].lastTest == Some(test)
  }

  predicate WalkRight(s: State) {
    s.walk.Resting? || s.walk.minute <= s.clock
  }

  predicate Inv(s: State) {
    && History.Inv(s.engine) && s.saved == s.items && WalkRight(s)
    && (forall id :: id in s.items ==> s.items[id].lastFired <= s.clock)
    && (forall id :: id in s.alwaysSkip ==> id in s.items && s.items[id].skip)
    && (forall test :: test in s.owner ==> OwnerRight(s, test))
  }

  /** The first start: no schedules and no active tests. */
  predicate Initial(s: State) {
    && History.Initial(s.engine)
    && s.items == s.saved == map[] && s.walk.Resting? && s.owner == map[] && s.alwaysSkip == {}
  }

  lemma {:induction false} InitialInv(s: State)
    requires Initial(s)
    ensures Inv(s)
  {
    History.InitialInv(s.engine);
  }

  lemma {:induction false} FiredKeepsInv(s: State, id: string, minute: nat, o: Outcome)
    requires Inv(s) && id in s.items && Possible(s, o) && minute <= s.clock
    ensures Inv(Fired(s, id, minute, o))
  {
    var t := Fired(s, id, minute, o);
    if o.Submitted? { History.StepKeepsInv(s.engine, History.Submit(o.id)); }
    forall test | test in t.owner ensures OwnerRight(t, test) {
      if test in s.owner { assert OwnerRight(s, test); }
    }
  }

  lemma {:induction false} WalkKeepsInv(s: State, walk: Walk)
    requires Inv(s) && (walk.Resting? || walk.minute <= s.clock)
    ensures Inv(s.(walk := walk))
  {
    var t := s.(walk := walk);
    forall test | test in t.owner ensures OwnerRight(t, test) { assert OwnerRight(s, test); }
  }

  lemma {:induction false} EngineKeepsInv(s: State, step: History.Action)
    requires Inv(s) && Enabled(s, EngineStep(step))
    ensures Inv(Apply(s, EngineStep(step)))
  {
    var t := Apply(s, EngineStep(step));
    History.StepKeepsInv(s.engine, step);
    forall test | test in t.owner ensures OwnerRight(t, test) {
      assert OwnerRight(s, test);
      if History.Active(t.engine, test) { History.ActiveWasActive(s.engine, step, test); }
    }
  }

  lemma {:induction false} ApiKeepsInv(s: State, id: nat)
    requires Inv(s) && Enabled(s, ApiSubmit(id))
    ensures Inv(Apply(s, ApiSubmit(id)))
  {
    var t := Apply(s, ApiSubmit(id));
    History.StepKeepsInv(s.engine, History.Submit(id));
    forall test | test in t.owner ensures OwnerRight(t, test) { assert OwnerRight(s, test); }
  }

  predicate Edits(a: Action) {
    a.Create? || a.Update? || a.Delete? || a.Restart? || a.Advance?
  }

  lemma {:induction false} EditKeepsInv(s: State, a: Action)
    requires Inv(s) && Enabled(s, a) && Edits(a)
    ensures Inv(Apply(s, a))
  {
    var t := Apply(s, a);
    forall test | test in t.owner ensures OwnerRight(t, test) { assert OwnerRight(s, test); }
  }

  lemma {:induction false} TurnKeepsInv(s: State, id: string, o: Outcome)
    requires Inv(s) && Enabled(s, Turn(id, o))
    ensures Inv(Apply(s, Turn(id, o)))
  {
    var walk := Walking(s.walk.minute, s.walk.todo - {id});
    WalkKeepsInv(s, walk);
    if id in s.items && Due(s.items[id], s.walk.minute) { FiredKeepsInv(s.(walk := walk), id, s.walk.minute, o); }
  }

  /** Every step keeps the invariant. */
  lemma {:induction false} StepKeepsInv(s: State, a: Action)
    requires Inv(s) && Enabled(s, a)
    ensures Inv(Apply(s, a))
  {
    match a
    case ReadClock => WalkKeepsInv(s, Timed(s.clock));
    case ListAll => WalkKeepsInv(s, Walking(s.walk.minute, s.items.Keys));
    case Turn(id, o) => TurnKeepsInv(s, id, o);
    case EndTick => WalkKeepsInv(s, Resting);
    case FireNow(id, o) => FiredKeepsInv(s, id, s.clock, o);
    case EngineStep(step) => EngineKeepsInv(s, step);
    case ApiSubmit(id) => ApiKeepsInv(s, id);
    case _ => EditKeepsInv(s, a);
  }

  ghost predicate StepAt(ss: seq<State>, acts: seq<Action>, k: nat)
    requires |ss| == |acts| + 1 && k < |acts|
  {
    Enabled(ss[k], acts[k]) && ss[k + 1] == Apply(ss[k], acts[k])
  }

  /** A run from the first start. */
  ghost predicate Run(ss: seq<State>, acts: seq<Action>) {
    && |ss| == |acts| + 1 && Initial(ss[0])
    && forall k: nat :: k < |acts| ==> StepAt(ss, acts, k)
  }

  /** A run so far, from the first start on. */
  datatype Trace = Trace(ss: seq<State>, acts: seq<Action>)

  ghost predicate Runs(t: Trace) {
    Run(t.ss, t.acts)
  }

  function Now(t: Trace): State
    requires t.ss != []
  {
    t.ss[|t.ss| - 1]
  }

  ghost function Longer(t: Trace, a: Action): Trace
    requires t.ss != [] && Enabled(Now(t), a)
  {
    Trace(t.ss + [Apply(Now(t), a)], t.acts + [a])
  }

  lemma {:induction false} LongerRuns(t: Trace, a: Action)
    requires Runs(t) && Enabled(Now(t), a)
    ensures Runs(Longer(t, a))
  {
    var u := Longer(t, a);
    forall k: nat | k < |u.acts| ensures StepAt(u.ss, u.acts, k) {
      if k < |t.acts| { assert StepAt(t.ss, t.acts, k); }
    }
  }

  lemma {:induction false} ReachableInv(ss: seq<State>, acts: seq<Action>, k: nat)
    requires Run(ss, acts) && k <= |acts|
    ensures Inv(ss[k])
  {
    if k == 0 {
      InitialInv(ss[0]);
    } else {
      ReachableInv(ss, acts, k - 1);
      assert StepAt(ss, acts, k - 1);
      StepKeepsInv(ss[k - 1], acts[k - 1]);
    }
  }

  // ---------------------------------------------------------------- texts and their expressions

  ghost predicate ItemParsed(item: Item) {
    Trimmed(item.cron) && ParsedAs(item.cron, item.expr)
  }

  ghost predicate AllParsed(items: map<string, Item>) {
    forall id :: id in items ==> ItemParsed(items[id])
  }

  /** A stored text is parsed to what the text it was trimmed from was parsed to. */
  lemma {:induction false} TrimmedParses(text: string, expr: Cron.Expr)
    requires ParsedAs(text, expr)
    ensures Trimmed(Trim(text)) && ParsedAs(Trim(text), expr)
  {
    TrimOfTrimmed(Trim(text));
    assert Cron.Fields(Trim(text)) == Cron.Fields(text);
  }

  lemma {:induction false} FiredParsed(s: State, id: string, minute: nat, o: Outcome)
    requires id in s.items && Possible(s, o) && AllParsed(s.items)
    ensures AllParsed(Fired(s, id, minute, o).items)
  {
    assert ItemParsed(s.items[id]);
  }

  lemma {:induction false} StepKeepsParsed(s: State, a: Action)
    requires Enabled(s, a) && s.saved == s.items && AllParsed(s.items)
    ensures AllParsed(Apply(s, a).items)
  {
    hide ParsedAs, Trimmed, Due, History.Apply, History.Enabled;
    match a
    case Turn(id, o) =>
      if id in s.items && Due(s.items[id], s.walk.minute) {
        FiredParsed(s.(walk := Walking(s.walk.minute, s.walk.todo - {id})), id, s.walk.minute, o);
      }
    case FireNow(id, o) => FiredParsed(s, id, s.clock, o);
    case Create(id, text, expr, _, _) => TrimmedParses(text, expr);
    case Update(id, text, expr, _, _) =>
      assert ItemParsed(s.items[id]);
      if text != "" { TrimmedParses(text, expr); }
    case _ =>
  }

  lemma {:induction false} ReachableParsed(ss: seq<State>, acts: seq<Action>, k: nat)
    requires Run(ss, acts) && k <= |acts|
    ensures AllParsed(ss[k].items)
  {
    if k > 0 {
      ReachableParsed(ss, acts, k - 1);
      ReachableInv(ss, acts, k - 1);
      assert StepAt(ss, acts, k - 1);
      StepKeepsParsed(ss[k - 1], acts[k - 1]);
    }
  }

  // ---------------------------------------------------------------- no two tests at once

  /** At every point of every run, a schedule that has skipped since it was created has at most one
      test queued or running, those fired by hand included. */
  lemma {:induction false} AtMostOneActive(ss: seq<State>, acts: seq<Action>, k: nat, id: string, a: nat, b: nat)
    requires Run(ss, acts) && k <= |acts|
    requires var s := ss[k];
             && id in s.alwaysSkip
             && a in s.owner && s.owner[a] == id && History.Active(s.engine, a)
             && b in s.owner && s.owner[b] == id && History.Active(s.engine, b)
    ensures a == b
  {
    ReachableInv(ss, acts, k);
    assert OwnerRight(ss[k], a) && OwnerRight(ss[k], b);
  }

  // ---------------------------------------------------------------- whole ticks

  /** Steps that do not begin or end a tick. */
  predicate InTick(a: Action) {
    !a.ReadClock? && !a.EndTick? && !a.Restart?
  }

  /** From step `from` to the last step the run is one tick, other threads' steps in between. */
  ghost predicate OneTick(t: Trace, from: nat) {
    && Runs(t) && from < |t.acts| - 1 && t.acts[from].ReadClock? && t.acts[|t.acts| - 1].EndTick?
    && forall k :: from < k < |t.acts| - 1 ==> InTick(t.acts[k])
  }

  predicate TurnOf(a: Action, id: string) {
    a.Turn? && a.id == id
  }

  /** Where the tick lists the schedules. */
  lemma {:induction false} Lists(t: Trace, from: nat, k: nat) returns (l: nat)
    requires Runs(t) && from < k <= |t.acts| && t.acts[from].ReadClock?
    requires forall j :: from < j < k ==> InTick(t.acts[j])
    ensures if t.ss[k].walk.Walking? then from < l < k && t.acts[l].ListAll? && t.ss[l].walk == Timed(t.ss[from].clock)
            else t.ss[k].walk == Timed(t.ss[from].clock)
  {
    l := 0;
    assert StepAt(t.ss, t.acts, k - 1);
    if k > from + 1 {
      l := Lists(t, from, k - 1);
      if t.acts[k - 1].ListAll? { l := k - 1; }
    }
  }

  /** The schedules that still wait for their turn are those listed that have had none. */
  lemma {:induction false} StillWaits(t: Trace, l: nat, k: nat, id: string)
    requires Runs(t) && l < k <= |t.acts| && t.acts[l].ListAll?
    requires forall j :: l < j < k ==> InTick(t.acts[j])
    ensures t.ss[l].walk.Timed? && t.ss[k].walk.Walking? && t.ss[k].walk.minute == t.ss[l].walk.minute
    ensures id in t.ss[k].walk.todo <==> id in t.ss[l].items && forall j :: l < j < k ==> !TurnOf(t.acts[j], id)
  {
    assert StepAt(t.ss, t.acts, k - 1);
    if k > l + 1 { StillWaits(t, l, k - 1, id); }
  }

  lemma {:induction false} TurnSettles(s: State, a: Action, id: string)
    requires Enabled(s, a) && TurnOf(a, id)
    ensures id in Apply(s, a).items ==> !Due(Apply(s, a).items[id], s.walk.minute)
  {
  }

  /** A tick works with the minute that it read. It gives each schedule that it has listed exactly one
      turn, whatever other threads do, and none to any other; a schedule that has had its turn is
      not due in that minute. */
  lemma {:induction false} OneTurnEach(t: Trace, from: nat, id: string) returns (l: nat)
    requires OneTick(t, from)
    ensures var last := |t.acts| - 1;
            && from < l < last && t.acts[l].ListAll?
            && (id in t.ss[l].items <==> exists k :: l < k < last && TurnOf(t.acts[k], id))
            && (forall j, k :: l < j < k < last && TurnOf(t.acts[j], id) ==> !TurnOf(t.acts[k], id))
            && (forall k :: l < k < last && TurnOf(t.acts[k], id) && id in t.ss[k + 1].items ==>
                  !Due(t.ss[k + 1].items[id], t.ss[from].clock))
  {
    var last := |t.acts| - 1;
    assert StepAt(t.ss, t.acts, last);
    l := Lists(t, from, last);
    StillWaits(t, l, last, id);
    forall k | l < k < last && TurnOf(t.acts[k], id)
      ensures id in t.ss[l].items && (forall j :: l < j < k ==> !TurnOf(t.acts[j], id))
      ensures id in t.ss[k + 1].items ==> !Due(t.ss[k + 1].items[id], t.ss[from].clock)
    {
      StillWaits(t, l, k, id);
      assert StepAt(t.ss, t.acts, k);
      TurnSettles(t.ss[k], t.acts[k], id);
    }
  }

  // ---------------------------------------------------------------- fired twice in one minute

  /** A tick fires the schedule in this minute. */
  predicate TickFires(s: State, a: Action, id: string, m: nat) {
    a.Turn? && a.id == id && s.walk.Walking? && s.walk.minute == m && id in s.items && Due(s.items[id], m)
  }

  predicate HandFires(s: State, a: Action, id: string, m: nat) {
    a.FireNow? && a.id == id && s.clock == m
  }

  predicate FiresIn(s: State, a: Action, id: string, m: nat) {
    TickFires(s, a, id, m) || HandFires(s, a, id, m)
  }

  predicate FiresElsewhere(s: State, a: Action, id: string, m: nat) {
    || (a.Turn? && s.walk.Walking? && s.walk.minute != m && TickFires(s, a, id, s.walk.minute))
    || (a.FireNow? && s.clock != m && HandFires(s, a, id, s.clock))
  }

  /** The schedule gets a text that differs from the stored one, or is another schedule altogether. */
  predicate Rewrites(s: State, a: Action, id: string) {
    || (a.Create? && a.id == id)
    || (a.Delete? && a.id == id)
    || (a.Update? && a.id == id && id in s.items && NewText(s.items[id], a.text))
  }

  predicate Disturbs(s: State, a: Action, id: string, m: nat) {
    FiresElsewhere(s, a, id, m) || Rewrites(s, a, id)
  }

  ghost predicate DisturbedBetween(ss: seq<State>, acts: seq<Action>, i: nat, j: nat, id: string, m: nat)
    requires i <= j <= |acts| < |ss|
  {
    exists k :: i < k < j && Disturbs(ss[k], acts[k], id, m)
  }

  /** What one step does to the minute that a schedule remembers. */
  lemma {:induction false} MinuteStep(s: State, a: Action, id: string, m: nat)
    requires Inv(s) && Enabled(s, a) && !FiresIn(s, a, id, m)
    ensures var t := Apply(s, a);
            && (Disturbs(s, a, id, m) ==> id !in t.items || t.items[id].lastFired != m)
            && (!Disturbs(s, a, id, m) ==> (id in t.items <==> id in s.items))
            && (!Disturbs(s, a, id, m) && id in s.items ==> t.items[id].lastFired == s.items[id].lastFired)
  {
  }

  lemma {:induction false} FiringRemembers(s: State, a: Action, id: string, m: nat)
    requires Inv(s) && Enabled(s, a) && FiresIn(s, a, id, m)
    ensures var t := Apply(s, a); id in t.items && t.items[id].lastFired == m
  {
  }

  lemma {:induction false} DisturbedLater(ss: seq<State>, acts: seq<Action>, i: nat, j: nat, id: string, m: nat)
    requires i < j < |acts| < |ss|
    ensures DisturbedBetween(ss, acts, i, j + 1, id, m)
       <==> DisturbedBetween(ss, acts, i, j, id, m) || Disturbs(ss[j], acts[j], id, m)
  {
  }

  predicate Remembers(s: State, id: string, m: nat) {
    id in s.items && s.items[id].lastFired == m
  }

  /** From its last firing in a minute on, the schedule remembers that minute until disturbed. */
  lemma {:induction false} RemembersIff(ss: seq<State>, acts: seq<Action>, i: nat, j: nat, id: string, m: nat)
    requires Run(ss, acts) && i < j <= |acts| && FiresIn(ss[i], acts[i], id, m)
    requires forall k :: i < k < j ==> !FiresIn(ss[k], acts[k], id, m)
    ensures Remembers(ss[j], id, m) <==> !DisturbedBetween(ss, acts, i, j, id, m)
  {
    ReachableInv(ss, acts, j - 1);
    assert StepAt(ss, acts, j - 1);
    if i < j - 1 {
      RemembersIff(ss, acts, i, j - 1, id, m);
      RemembersStep(ss[j - 1], acts[j - 1], id, m);
      DisturbedLater(ss, acts, i, j - 1, id, m);
    } else {
      FiringRemembers(ss[i], acts[i], id, m);
    }
  }

  lemma {:induction false} RemembersStep(s: State, a: Action, id: string, m: nat)
    requires Inv(s) && Enabled(s, a) && !FiresIn(s, a, id, m)
    ensures Remembers(Apply(s, a), id, m) <==> Remembers(s, id, m) && !Disturbs(s, a, id, m)
  {
    MinuteStep(s, a, id, m);
  }

  /** After a schedule has fired in minute `m`, by a tick or by hand, it is due in `m` again exactly
      if in between it was fired in another minute or its text was changed. */
  lemma {:induction false} DueAgainIff(ss: seq<State>, acts: seq<Action>, i: nat, j: nat, id: string, m: nat)
    requires Run(ss, acts) && i < j <= |acts| && FiresIn(ss[i], acts[i], id, m)
    requires forall k :: i < k < j ==> !FiresIn(ss[k], acts[k], id, m)
    requires id in ss[j].items && ss[j].items[id].enabled && CronNext.Matches(ss[j].items[id].expr, m)
    ensures Due(ss[j].items[id], m) <==> DisturbedBetween(ss, acts, i, j, id, m)
  {
    RemembersIff(ss, acts, i, j, id, m);
  }

  lemma {:induction false} LastFiring(ss: seq<State>, acts: seq<Action>, i: nat, j: nat, id: string, m: nat) returns (l: nat)
    requires i < j <= |acts| < |ss| && FiresIn(ss[i], acts[i], id, m)
    ensures i <= l < j && FiresIn(ss[l], acts[l], id, m) && forall k :: l < k < j ==> !FiresIn(ss[k], acts[k], id, m)
    decreases j - i
  {
    if k :| i < k < j && FiresIn(ss[k], acts[k], id, m) {
      l := LastFiring(ss, acts, k, j, id, m);
    } else {
      l := i;
    }
  }

  /** A tick fires a schedule in a minute in which it has fired before only if it was disturbed in
      between, and only if its text matches that minute. */
  lemma {:induction false} TwiceOnlyIfDisturbed(ss: seq<State>, acts: seq<Action>, i: nat, j: nat, id: string, m: nat)
    requires Run(ss, acts) && i < j < |acts|
    requires FiresIn(ss[i], acts[i], id, m) && TickFires(ss[j], acts[j], id, m)
    ensures DisturbedBetween(ss, acts, i, j, id, m)
    ensures Cron.Accepted(ss[j].items[id].cron) && CronNext.TextMatches(ss[j].items[id].cron, m)
  {
    var l := LastFiring(ss, acts, i, j, id, m);
    DueAgainIff(ss, acts, l, j, id, m);
    ReachableParsed(ss, acts, j);
    assert ItemParsed(ss[j].items[id]);
    CronNext.MatchesText(ss[j].items[id].expr, ss[j].items[id].cron, m);
  }

  /** What a caller can see to: no manual firing in a later minute while a tick is under way, and
      no saved text that differs from the stored one. */
  predicate Careful(s: State, a: Action, id: string) {
    && !Rewrites(s, a, id)
    && (a.FireNow? && a.id == id && !s.walk.Resting? ==> s.clock == s.walk.minute)
  }

  /** The minute of a tick under way is not before the one the schedule last fired in. */
  predicate NotAhead(s: State, id: string, m: nat) {
    && id in s.items && m <= s.items[id].lastFired
    && (!s.walk.Resting? ==> s.items[id].lastFired <= s.walk.minute)
  }

  lemma {:induction false} CarefulStep(s: State, a: Action, id: string, m: nat)
    requires Inv(s) && Enabled(s, a) && Careful(s, a, id) && NotAhead(s, id, m)
    ensures NotAhead(Apply(s, a), id, m)
  {
  }

  lemma {:induction false} FirstFiring(s: State, a: Action, id: string, m: nat)
    requires Inv(s) && Enabled(s, a) && Careful(s, a, id) && FiresIn(s, a, id, m)
    ensures NotAhead(Apply(s, a), id, m)
  {
  }

  lemma {:induction false} StaysNotAhead(ss: seq<State>, acts: seq<Action>, i: nat, j: nat, id: string, m: nat)
    requires Run(ss, acts) && i < j <= |acts| && FiresIn(ss[i], acts[i], id, m)
    requires forall k :: i <= k < j ==> Careful(ss[k], acts[k], id)
    ensures NotAhead(ss[j], id, m)
  {
    ReachableInv(ss, acts, j - 1);
    assert StepAt(ss, acts, j - 1);
    if i < j - 1 {
      StaysNotAhead(ss, acts, i, j - 1, id, m);
      CarefulStep(ss[j - 1], acts[j - 1], id, m);
    } else {
      FirstFiring(ss[i], acts[i], id, m);
    }
  }

  /** With such callers a tick fires a schedule only in later minutes than all its firings before,
      by ticks or by hand, restarts included. */
  lemma {:induction false} NoMinuteTwice(ss: seq<State>, acts: seq<Action>, i: nat, j: nat, id: string, m: nat, n: nat)
    requires Run(ss, acts) && i < j < |acts|
    requires FiresIn(ss[i], acts[i], id, m) && TickFires(ss[j], acts[j], id, n)
    requires forall k :: i <= k < j ==> Careful(ss[k], acts[k], id)
    ensures m < n
  {
    StaysNotAhead(ss, acts, i, j, id, m);
  }
}
