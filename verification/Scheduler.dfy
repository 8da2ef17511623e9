/** The scheduler at work on its schedules and the engine (src/engine/scheduler.cpp). */
module Scheduler {
  import opened Text
  import opened Schedules
  import Cron
  import CronNext
  import History
  import Records

  /** What every reachable state satisfies. */
  ghost predicate Good(s: State) {
    Inv(s) && AllParsed(s.items)
  }

  lemma {:induction false} StepKeepsGood(s: State, a: Action)
    requires Good(s) && Enabled(s, a)
    ensures Good(Apply(s, a))
  {
    StepKeepsInv(s, a);
    StepKeepsParsed(s, a);
  }

  /** Two expressions parsed from one text are the same. */
  lemma {:induction false} OneMeaning(text: string, a: Cron.Expr, b: Cron.Expr)
    requires ParsedAs(text, a) && ParsedAs(text, b)
    ensures a == b
  {
    assert a.minute == b.minute && a.hour == b.hour && a.dom == b.dom && a.month == b.month && a.dow == b.dow;
  }

  /** From `from` on, the schedules that are still to have their turn, each once. */
  ghost predicate ToVisit(walk: Walk, ids: seq<string>, from: nat) {
    && walk.Walking?
    && (forall a, b :: from <= a < b < |ids| ==> ids[a] != ids[b])
    && (forall id :: id in walk.todo <==> exists a :: from <= a < |ids| && ids[a] == id)
  }

  lemma {:induction false} OneVisited(walk: Walk, ids: seq<string>, i: nat)
    requires ToVisit(walk, ids, i) && i < |ids|
    ensures ids[i] in walk.todo && ToVisit(Walking(walk.minute, walk.todo - {ids[i]}), ids, i + 1)
  {
    var todo := walk.todo - {ids[i]};
    forall id ensures id in todo <==> exists a :: i + 1 <= a < |ids| && ids[a] == id {
      if id in todo {
        var a :| i <= a < |ids| && ids[a] == id;
        assert a != i;
      }
    }
  }

  // ---------------------------------------------------------------- what several steps amount to

  /** The step is a tick that fires some schedule. */
  predicate Fires(s: State, a: Action) {
    a.Turn? && s.walk.Walking? && TickFires(s, a, a.id, s.walk.minute)
  }

  /** How many of the steps from `from` to `n` are such. */
  ghost function Firings(t: Trace, from: nat, n: nat): nat
    requires n <= |t.acts| < |t.ss|
  {
    if n <= from then 0 else Firings(t, from, n - 1) + (if Fires(t.ss[n - 1], t.acts[n - 1]) then 1 else 0)
  }

  ghost predicate Onward(t: Trace, u: Trace) {
    |t.ss| == |t.acts| + 1 && |u.ss| == |u.acts| + 1 && t.ss <= u.ss && t.acts <= u.acts
  }

  /** From `t` the run goes on to `u` inside one tick, which fires so many schedules on the way. */
  ghost predicate Goes(t: Trace, u: Trace, fired: nat) {
    && Onward(t, u) && fired == Firings(u, |t.acts|, |u.acts|)
    && forall k :: |t.acts| <= k < |u.acts| ==> InTick(u.acts[k])
  }

  lemma {:induction false} FiringsBefore(t: Trace, u: Trace, from: nat, n: nat)
    requires Onward(t, u) && n <= |t.acts|
    ensures Firings(u, from, n) == Firings(t, from, n)
  {
    if n > from {
      FiringsBefore(t, u, from, n - 1);
      assert u.ss[n - 1] == t.ss[n - 1] && u.acts[n - 1] == t.acts[n - 1];
    }
  }

  lemma {:induction false} FiringsSplit(t: Trace, from: nat, m: nat, n: nat)
    requires from <= m <= n <= |t.acts| < |t.ss|
    ensures Firings(t, from, n) == Firings(t, from, m) + Firings(t, m, n)
  {
    if m < n { FiringsSplit(t, from, m, n - 1); }
  }

  lemma {:induction false} GoesOn(t: Trace, u: Trace, v: Trace, a: nat, b: nat)
    requires Goes(t, u, a) && Goes(u, v, b)
    ensures Goes(t, v, a + b)
  {
    FiringsBefore(u, v, |t.acts|, |u.acts|);
    FiringsSplit(v, |t.acts|, |u.acts|, |v.acts|);
    forall k | |t.acts| <= k < |v.acts| ensures InTick(v.acts[k]) {
      if k < |u.acts| { assert v.acts[k] == u.acts[k]; }
    }
  }

  lemma {:induction false} GoesNowhere(t: Trace)
    requires Runs(t)
    ensures Goes(t, t, 0)
  {
  }

  lemma {:induction false} GoesStep(t: Trace, a: Action)
    requires Runs(t) && Enabled(Now(t), a) && InTick(a)
    ensures Goes(t, Longer(t, a), if Fires(Now(t), a) then 1 else 0)
  {
    var u, n := Longer(t, a), |t.acts|;
    assert Firings(u, n, n) == 0 && u.ss[n] == Now(t) && u.acts[n] == a;
  }

  /** A tick from `t` to `w`: its first step, what comes in between, its last step. */
  lemma {:induction false} TickDone(t: Trace, u: Trace, v: Trace, w: Trace, fired: nat)
    requires Runs(t) && Enabled(Now(t), ReadClock) && u == Longer(t, ReadClock)
    requires Goes(u, v, fired) && Runs(v) && Enabled(Now(v), EndTick) && w == Longer(v, EndTick) && Runs(w)
    ensures Onward(t, w) && OneTick(w, |t.acts|) && fired == Firings(w, |t.acts|, |w.acts|)
  {
    var n := |t.acts|;
    FiringsBefore(v, w, n + 1, |v.acts|);
    FiringsSplit(w, n, n + 1, |w.acts|);
    assert Firings(w, n, n) == 0;
    assert w.acts[n] == v.acts[n] == u.acts[n] == ReadClock && w.acts[|v.acts|] == EndTick;
    forall k | n < k < |w.acts| - 1 ensures InTick(w.acts[k]) { assert w.acts[k] == v.acts[k]; }
  }

  // ---------------------------------------------------------------- ids

  predicate IdChar(c: char) {
    IsAlpha(c) || IsDigit(c) || c == '-' || c == '_' || c == '.'
  }

  /** An id that may be the name of a file. */
  predicate SafeId(id: string) {
    && 0 < |id| <= 128
    && (forall i :: 0 <= i < |id| ==> IdChar(id[i]))
    && forall i :: 0 < i < |id| ==> id[i - 1] != '.' || id[i] != '.'
  }

  /** A date and a time, written in digits and dashes. */
  predicate StampOk(stamp: string) {
    |stamp| <= 64 && forall i :: 0 <= i < |stamp| ==> IsDigit(stamp[i]) || stamp[i] == '-'
  }

  function DigitChar(n: nat): char
    requires n < 10
  {
    "0123456789"[n]
  }

  function Generated(stamp: string, k: nat): string
    requires k < 1000
  {
    "sched-" + (stamp + ['-', DigitChar(k / 100), DigitChar(k / 10 % 10), DigitChar(k % 10)])
  }

  lemma {:induction false} GeneratedIsSafe(stamp: string, k: nat)
    requires StampOk(stamp) && k < 1000
    ensures SafeId(Generated(stamp, k))
  {
    var tail := stamp + ['-', DigitChar(k / 100), DigitChar(k / 10 % 10), DigitChar(k % 10)];
    assert forall i :: 0 <= i < |tail| ==> IsDigit(tail[i]) || tail[i] == '-';
  }

  class Plans {
    const engine: Records.Engine
    var items: map<string, Item>
    var order: seq<string>
    /** The schedule files, one per schedule. */
    var saved: map<string, Item>
    var fires: nat
    var skips: nat
    var errors: nat
    /** What the system's clock shows, in minutes. */
    var clock: nat
    /** Where the ticking thread is. */
    var walk: Walk
    /** The number of the last generated id. */
    var suffix: nat
    ghost var attempts: nat
    ghost var owner: map<nat, string>
    ghost var alwaysSkip: set<string>
    /** All that has happened so far, in this object and in its engine. */
    ghost var past: Trace

    ghost function View(): State
      reads this, engine
    {
      State(engine.View(), items, saved, clock, walk, owner, alwaysSkip)
    }

    /** `order_` lists each schedule once, and every attempt to fire is counted as one of three. */
    ghost predicate Books()
      reads this
    {
      && fires + skips + errors == attempts
      && (forall i, j :: 0 <= i < j < |order| ==> order[i] != order[j])
      && (forall id :: id in items <==> id in order)
      && (forall id :: id in items ==> SafeId(id))
    }

    ghost predicate Valid()
      reads this, engine
    {
      Good(View()) && saved == items && engine.Valid() && Books() && Runs(past) && Now(past) == View()
    }

    twostate predicate Did(a: Action)
      reads this, engine
    {
      old(Valid()) && old(Enabled(View(), a)) && View() == Apply(old(View()), a) && past == Longer(old(past), a) && Valid()
    }

    /** The step that is about to be taken is noted. */
    ghost method Note(a: Action)
      requires Valid() && Enabled(View(), a)
      modifies this`past
      ensures past == Longer(old(past), a) && Runs(past) && Now(past) == Apply(old(View()), a) && Good(Now(past))
    {
      StepKeepsGood(View(), a);
      LongerRuns(past, a);
      past := Longer(past, a);
    }

    constructor (engine: Records.Engine, clock: nat)
      requires engine.Valid() && History.Initial(engine.View())
      ensures Valid() && this.engine == engine && Initial(View()) && attempts == 0
    {
      this.engine := engine;
      items, order, saved := map[], [], map[];
      fires, skips, errors, suffix, attempts := 0, 0, 0, 0, 0;
      this.clock, walk, owner, alwaysSkip := clock, Resting, map[], {};
      past := Trace([State(engine.View(), map[], map[], clock, Resting, map[], {})], []);
    }

    /** A number that no record has; whether the submission succeeds is up to the request. */
    method Attempt() returns (o: Outcome)
      ensures Possible(View(), o)
    {
      if * { return Rejected; }
      var id := 0;
      ghost var tried: set<nat> := {};
      while id in engine.records
        invariant forall t :: t in tried <==> t < id && t in engine.records
        decreases engine.records.Keys - tried
      {
        tried := tried + {id};
        id := id + 1;
      }
      o := Submitted(id);
    }

    predicate IsActive(test: nat)
      reads engine
    {
      test in engine.records
      && (engine.records[test].state.Queued? || engine.records[test].state.Running?)
    }

    // -------------------------------------------------------------- firing

    /** The submission of a schedule's test. */
    method SubmitFor(id: string, item: Item, o: Outcome) returns (r: Item)
      requires engine.Valid() && Possible(View(), o)
      modifies this`owner, this`fires, this`errors, engine`records, engine`order, engine`cancelFlags, engine`holders
      ensures engine.Valid()
      ensures match o
              case Submitted(test) =>
                && engine.View() == History.Apply(old(engine.View()), History.Submit(test))
                && owner == old(owner)[test := id] && r == item.(lastTest := Some(test))
                && fires == old(fires) + 1 && errors == old(errors)
              case Rejected =>
                && engine.View() == old(engine.View()) && owner == old(owner) && r == item
                && fires == old(fires) && errors == old(errors) + 1
    {
      r := item;
      match o {
        case Submitted(test) =>
          engine.Submit(test);
          owner := owner[test := id];
          r := item.(lastTest := Some(test));
          fires := fires + 1;
        case Rejected =>
          errors := errors + 1;
      }
    }

    method IsBlocked(item: Item) returns (blocked: bool)
      ensures blocked <==> Blocked(engine.View(), item)
    {
      blocked := item.skip && item.lastTest.Some? && IsActive(item.lastTest.value);
    }

    method Save(id: string, item: Item)
      modifies this`items, this`saved
      ensures items == old(items)[id := item] && saved == old(saved)[id := item]
    {
      items, saved := items[id := item], saved[id := item];
    }

    /** The body of `fireLocked`: a skip, a new test or an error. */
    method Launch(id: string, item: Item, o: Outcome) returns (r: Item)
      requires engine.Valid() && Possible(View(), o) && fires + skips + errors == attempts
      modifies this`fires, this`skips, this`errors, this`attempts, this`owner
      modifies engine`records, engine`order, engine`cancelFlags, engine`holders
      ensures engine.Valid() && fires + skips + errors == attempts == old(attempts) + 1
      ensures if old(Blocked(engine.View(), item)) || o.Rejected? then
                engine.View() == old(engine.View()) && owner == old(owner) && r == item
              else
                && engine.View() == History.Apply(old(engine.View()), History.Submit(o.id))
                && owner == old(owner)[o.id := id] && r == item.(lastTest := Some(o.id))
      ensures fires == old(fires) + (if !old(Blocked(engine.View(), item)) && o.Submitted? then 1 else 0)
      ensures skips == old(skips) + (if old(Blocked(engine.View(), item)) then 1 else 0)
    {
      attempts := attempts + 1;
      var blocked := IsBlocked(item);
      if blocked {
        skips := skips + 1;
        r := item;
      } else {
        r := SubmitFor(id, item, o);
      }
    }

    /** `fireLocked`, with the minute already noted, and `saveOne`: each attempt is a fire, a skip
        or an error. */
    method FireLocked(id: string, minute: nat, o: Outcome)
      requires engine.Valid() && Books() && saved == items && id in items && Possible(View(), o)
      modifies this`items, this`saved, this`fires, this`skips, this`errors, this`attempts, this`owner
      modifies engine`records, engine`order, engine`cancelFlags, engine`holders
      ensures View() == Fired(old(View()), id, minute, o) && engine.Valid() && Books()
      ensures attempts == old(attempts) + 1
      ensures fires == old(fires) + (if !old(Blocked(engine.View(), items[id])) && o.Submitted? then 1 else 0)
      ensures skips == old(skips) + (if old(Blocked(engine.View(), items[id])) then 1 else 0)
    {
      var item := Launch(id, items[id].(lastFired := minute), o);
      Save(id, item);
    }

    method FireByHand(id: string) returns (found: bool, ghost o: Outcome)
      requires Valid()
      modifies this, engine`records, engine`order, engine`cancelFlags, engine`holders
      ensures found <==> old(id in items)
      ensures if found then Did(FireNow(id, o)) && attempts == old(attempts) + 1 else View() == old(View()) && past == old(past)
      ensures walk == old(walk) && Valid()
    {
      hide Good, Runs, Longer;
      o := Rejected;
      found := id in items;
      if found {
        var outcome := Attempt();
        o := outcome;
        Note(FireNow(id, outcome));
        FireLocked(id, clock, outcome);
      }
    }

    // -------------------------------------------------------------- ticking

    /** Time passes. */
    method Pass(minute: nat)
      requires Valid() && minute >= clock
      modifies this`clock, this`past
      ensures Did(Advance(minute))
    {
      hide Good, Runs, Longer;
      Note(Advance(minute));
      clock := minute;
    }

    method BeginTick()
      requires Valid() && walk.Resting?
      modifies this`walk, this`past
      ensures Did(ReadClock)
    {
      hide Good, Runs, Longer;
      Note(ReadClock);
      walk := Timed(clock);
    }

    method ListSchedules() returns (ids: seq<string>)
      requires Valid() && walk.Timed?
      modifies this`walk, this`past
      ensures Did(ListAll) && ids == order
    {
      hide Good, Runs, Longer;
      Note(ListAll);
      ids := order;
      walk := Walking(walk.minute, items.Keys);
    }

    /** One schedule's turn in `tick`. */
    method TakeTurn(id: string) returns (fired: bool, ghost o: Outcome)
      requires Valid() && walk.Walking? && id in walk.todo
      modifies this, engine`records, engine`order, engine`cancelFlags, engine`holders
      ensures Did(Turn(id, o)) && walk == Walking(old(walk.minute), old(walk.todo) - {id})
      ensures fired <==> old(TickFires(View(), Turn(id, o), id, walk.minute))
      ensures attempts == old(attempts) + (if fired then 1 else 0)
    {
      hide Good, Runs, Longer;
      var outcome := Attempt();
      o := outcome;
      Note(Turn(id, outcome));
      fired := DoTurn(id, outcome);
    }

    method DoTurn(id: string, o: Outcome) returns (fired: bool)
      requires engine.Valid() && Books() && saved == items && walk.Walking? && id in walk.todo && Possible(View(), o)
      modifies this`walk, this`items, this`saved, this`fires, this`skips, this`errors, this`attempts, this`owner
      modifies engine`records, engine`order, engine`cancelFlags, engine`holders
      ensures View() == Apply(old(View()), Turn(id, o)) && engine.Valid() && Books()
      ensures walk == Walking(old(walk.minute), old(walk.todo) - {id})
      ensures fired <==> old(id in items && Due(items[id], walk.minute))
      ensures attempts == old(attempts) + (if fired then 1 else 0)
    {
      var minute := walk.minute;
      walk := Walking(minute, walk.todo - {id});
      fired := id in items && items[id].enabled && items[id].lastFired != minute && CronNext.Matches(items[id].expr, minute);
      if fired { FireLocked(id, minute, o); }
    }

    method FinishTick()
      requires Valid() && walk.Walking? && walk.todo == {}
      modifies this`walk, this`past
      ensures Did(EndTick)
    {
      hide Good, Runs, Longer;
      Note(EndTick);
      walk := Resting;
    }

    /** Other threads take their locks, as often as they like. */
    method Others()
      requires Valid()
      modifies this, engine
      ensures Valid() && walk == old(walk) && Goes(old(past), past, 0)
    {
      hide Good, Runs, Longer, Goes;
      var n: nat := *;
      GoesNowhere(past);
      while n > 0
        invariant Valid() && walk == old(walk) && Goes(old(past), past, 0)
      {
        ghost var before := past;
        OneOther();
        GoesOn(old(past), before, past, 0, 0);
        n := n - 1;
      }
    }

    method OneOther()
      requires Valid()
      modifies this, engine
      ensures Valid() && walk == old(walk) && Goes(old(past), past, 0)
    {
      hide Good, Runs, Longer, Goes;
      var kind: nat := *;
      if kind == 0 { ByHand(); } else if kind == 1 { Edit(); } else if kind == 2 { EngineMoves(); } else { TimePasses(); }
    }

    method TimePasses()
      requires Valid()
      modifies this`clock, this`past
      ensures Valid() && walk == old(walk) && Goes(old(past), past, 0)
    {
      hide Good, Runs, Longer, Goes;
      var later: nat :| later >= clock;
      GoesStep(past, Advance(later));
      Pass(later);
    }

    method ByHand()
      requires Valid()
      modifies this, engine`records, engine`order, engine`cancelFlags, engine`holders
      ensures Valid() && walk == old(walk) && Goes(old(past), past, 0)
    {
      hide Good, Runs, Longer, Goes;
      var id: string := *;
      var found, o := FireByHand(id);
      if found { GoesStep(old(past), FireNow(id, o)); } else { GoesNowhere(past); }
    }

    method Edit()
      requires Valid()
      modifies this
      ensures Valid() && walk == old(walk) && Goes(old(past), past, 0)
    {
      hide Good, Runs, Longer, Goes;
      var id, text: string := *, *;
      var enabled, skip: bool := *, *;
      var kind: nat := *;
      if kind == 0 {
        MaybeCreate(id, text, enabled, skip);
      } else if kind == 1 {
        var updated, expr := UpdateSchedule(id, text, enabled, skip);
        if updated { GoesStep(old(past), Update(id, text, expr, enabled, skip)); } else { GoesNowhere(past); }
      } else {
        var deleted := DeleteSchedule(id);
        if deleted { GoesStep(old(past), Delete(id)); } else { GoesNowhere(past); }
      }
    }

    method MaybeCreate(given: string, text: string, enabled: bool, skip: bool)
      requires Valid()
      modifies this
      ensures Valid() && walk == old(walk) && Goes(old(past), past, 0)
    {
      hide Good, Runs, Longer, Goes, Generated, Books;
      var stamp: string := *;
      if StampOk(stamp) && (given == "" ==> HasFree(stamp)) {
        var created, id, expr := CreateSchedule(given, stamp, text, enabled, skip);
        if created { GoesStep(old(past), Create(id, text, expr, enabled, skip)); } else { GoesNowhere(past); }
      } else {
        GoesNowhere(past);
      }
    }

    /** Any step of the engine, or a test that comes over the network. */
    method EngineMoves()
      requires Valid()
      modifies this`past, this`owner, engine
      ensures Valid() && walk == old(walk) && Goes(old(past), past, 0)
    {
      hide Good, Runs, Longer, Goes;
      var step: History.Action := *;
      if step.Submit? {
        Arrives(step.id);
      } else if (step.Trim? ==> step.limit == engine.historyLimit) && History.Enabled(engine.View(), step) {
        GoesStep(past, EngineStep(step));
        Note(EngineStep(step));
        engine.Proceed(step);
      } else {
        GoesNowhere(past);
      }
    }

    method Arrives(test: nat)
      requires Valid()
      modifies this`past, this`owner, engine`records, engine`order, engine`cancelFlags, engine`holders
      ensures Valid() && walk == old(walk) && Goes(old(past), past, 0)
    {
      hide Good, Runs, Longer, Goes;
      if test in engine.records {
        GoesNowhere(past);
      } else {
        GoesStep(past, ApiSubmit(test));
        Note(ApiSubmit(test));
        engine.Submit(test);
        owner := owner - {test};
      }
    }

    /** The minute is read, and then the schedules are listed. */
    method StartTick() returns (ids: seq<string>)
      requires Valid() && walk.Resting?
      modifies this, engine
      ensures old(Enabled(View(), ReadClock)) && Goes(Longer(old(past), ReadClock), past, 0)
      ensures Valid() && ToVisit(walk, ids, 0)
    {
      hide Good, Runs, Longer, Goes;
      BeginTick();
      ghost var begun := past;
      Others();
      ghost var before := past;
      GoesStep(past, ListAll);
      ids := ListSchedules();
      GoesOn(begun, before, past, 0, 0);
    }

    method NextTurn(ids: seq<string>, i: nat) returns (fired: bool)
      requires Valid() && i < |ids| && ToVisit(walk, ids, i)
      modifies this, engine
      ensures Valid() && ToVisit(walk, ids, i + 1) && Goes(old(past), past, if fired then 1 else 0)
    {
      hide Good, Runs, Longer, Goes;
      Others();
      OneVisited(walk, ids, i);
      ghost var before, o := past, Rejected;
      fired, o := TakeTurn(ids[i]);
      GoesStep(before, Turn(ids[i], o));
      GoesOn(old(past), before, past, 0, if fired then 1 else 0);
    }

    method VisitAll(ids: seq<string>) returns (fired: nat)
      requires Valid() && ToVisit(walk, ids, 0)
      modifies this, engine
      ensures Valid() && ToVisit(walk, ids, |ids|) && Goes(old(past), past, fired)
    {
      hide Good, Runs, Longer, Goes, ToVisit;
      fired := 0;
      GoesNowhere(past);
      var i := 0;
      while i < |ids|
        invariant 0 <= i <= |ids| && Valid() && ToVisit(walk, ids, i) && Goes(old(past), past, fired)
      {
        ghost var before := past;
        var one := NextTurn(ids, i);
        GoesOn(old(past), before, past, fired, if one then 1 else 0);
        if one { fired := fired + 1; }
        i := i + 1;
      }
    }

    /** `tick`: the clock is read once, and every schedule that was listed has one turn. Other
        threads may come in between any two of these steps. */
    method Tick() returns (fired: nat)
      requires Valid() && walk.Resting?
      modifies this, engine
      ensures Valid() && walk.Resting? && Onward(old(past), past)
      ensures OneTick(past, |old(past).acts|) && fired == Firings(past, |old(past).acts|, |past.acts|)
    {
      hide Good, Longer, Goes;
      var ids := StartTick();
      ghost var listed := past;
      fired := VisitAll(ids);
      ghost var before, begun := past, Longer(old(past), ReadClock);
      GoesOn(begun, listed, before, 0, fired);
      FinishTick();
      TickDone(old(past), begun, before, past, fired);
    }

    // -------------------------------------------------------------- editing

    /** Some id is left for this second; otherwise the search for one would not end. */
    predicate HasFree(stamp: string)
      reads this
    {
      exists k: nat :: k < 1000 && Generated(stamp, k) !in items
    }

    method GenerateId(stamp: string) returns (id: string)
      requires StampOk(stamp) && HasFree(stamp)
      modifies this`suffix
      ensures SafeId(id) && id !in items
    {
      hide SafeId, StampOk, Generated;
      ghost var free: nat :| free < 1000 && Generated(stamp, free) !in items;
      suffix := (suffix + 1) % 1000;
      id := Generated(stamp, suffix);
      while id in items
        invariant suffix < 1000 && id == Generated(stamp, suffix)
        decreases if suffix <= free then free - suffix else free + 1000 - suffix
      {
        suffix := (suffix + 1) % 1000;
        id := Generated(stamp, suffix);
      }
      GeneratedIsSafe(stamp, suffix);
    }

    /** Without a given id, one is generated from the time. */
    method CreateSchedule(given: string, stamp: string, text: string, enabled: bool, skip: bool)
      returns (created: bool, id: string, ghost expr: Cron.Expr)
      requires Valid() && StampOk(stamp) && (given == "" && Cron.Accepted(text) ==> HasFree(stamp))
      modifies this
      ensures created <==> Cron.Accepted(text) && (given == "" || (SafeId(given) && old(given !in items)))
      ensures created ==> SafeId(id) && old(id !in items) && (given == "" || id == given)
      ensures if created then Did(Create(id, text, expr, enabled, skip)) else View() == old(View()) && past == old(past)
      ensures walk == old(walk) && Valid()
    {
      hide Good, Runs, Longer, SafeId, StampOk, Generated;
      var parsed := Cron.Parse(text);
      expr := if parsed.Some? then parsed.value else NoExpr();
      id := given;
      created := parsed.Some?;
      if created && given == "" {
        id := GenerateId(stamp);
      } else if created {
        created := SafeId(id) && id !in items;
      }
      if created {
        Note(Create(id, text, parsed.value, enabled, skip));
        Add(id, Item(Trim(text), parsed.value, enabled, skip, -1, None));
      }
    }

    function NoExpr(): Cron.Expr {
      Cron.Expr({}, {}, {}, {}, {}, true, true)
    }

    method Add(id: string, item: Item)
      requires Books() && id !in items && SafeId(id)
      modifies this`items, this`order, this`saved, this`owner, this`alwaysSkip
      ensures Books() && items == old(items)[id := item] && saved == old(saved)[id := item]
      ensures owner == Disown(old(owner), id)
      ensures alwaysSkip == if item.skip then old(alwaysSkip) + {id} else old(alwaysSkip) - {id}
    {
      items, order, saved := items[id := item], order + [id], saved[id := item];
      owner := Disown(owner, id);
      alwaysSkip := if item.skip then alwaysSkip + {id} else alwaysSkip - {id};
    }

    method UpdateSchedule(id: string, text: string, enabled: bool, skip: bool) returns (updated: bool, ghost expr: Cron.Expr)
      requires Valid()
      modifies this
      ensures updated <==> (text == "" || Cron.Accepted(text)) && old(id in items)
      ensures if updated then Did(Update(id, text, expr, enabled, skip)) else View() == old(View()) && past == old(past)
      ensures walk == old(walk) && Valid()
    {
      hide Good, Runs, Longer;
      var parsed := None;
      if text != "" { parsed := Cron.Parse(text); }
      expr := if parsed.Some? then parsed.value else NoExpr();
      updated := (text == "" || parsed.Some?) && id in items;
      if updated {
        Note(Update(id, text, expr, enabled, skip));
        Revise(id, text, parsed, enabled, skip);
      }
    }

    method Revise(id: string, text: string, parsed: Option<Cron.Expr>, enabled: bool, skip: bool)
      requires id in items && Books() && (parsed.Some? <==> text != "")
      modifies this`items, this`saved, this`alwaysSkip
      ensures Books() && items == old(items)[id := items[id]] && saved == old(saved)[id := items[id]]
      ensures items[id] == Updated(old(items)[id], text, if parsed.Some? then parsed.value else NoExpr(), enabled, skip)
      ensures alwaysSkip == if skip then old(alwaysSkip) else old(alwaysSkip) - {id}
    {
      var item := items[id];
      if parsed.Some? && text != item.cron {
        item := item.(cron := Trim(text), expr := parsed.value, lastFired := -1);
      }
      Save(id, item.(enabled := enabled, skip := skip));
      alwaysSkip := if skip then alwaysSkip else alwaysSkip - {id};
    }

    method DeleteSchedule(id: string) returns (found: bool)
      requires Valid()
      modifies this
      ensures found <==> old(id in items)
      ensures if found then Did(Delete(id)) else View() == old(View()) && past == old(past)
      ensures walk == old(walk) && Valid()
    {
      hide Good, Runs, Longer;
      found := id in items;
      if found {
        Note(Delete(id));
        Erase(id);
      }
    }

    method Erase(id: string)
      requires Books()
      modifies this`items, this`order, this`saved, this`owner, this`alwaysSkip
      ensures Books() && items == old(items) - {id} && saved == old(saved) - {id}
      ensures owner == Disown(old(owner), id) && alwaysSkip == old(alwaysSkip) - {id}
    {
      items, saved := items - {id}, saved - {id};
      EraseFromOrder(id);
      owner, alwaysSkip := Disown(owner, id), alwaysSkip - {id};
    }

    method EraseFromOrder(id: string)
      requires forall i, j :: 0 <= i < j < |order| ==> order[i] != order[j]
      modifies this`order
      ensures forall i, j :: 0 <= i < j < |order| ==> order[i] != order[j]
      ensures forall x :: x in order <==> x in old(order) && x != id
    {
      var kept: seq<string> := [];
      var i := 0;
      while i < |order|
        invariant 0 <= i <= |order| && order == old(order)
        invariant forall x :: x in kept <==> x in order[..i] && x != id
        invariant forall a, b :: 0 <= a < b < |kept| ==> kept[a] != kept[b]
      {
        assert order[..i + 1] == order[..i] + [order[i]];
        assert order[i] !in order[..i];
        if order[i] != id { kept := kept + [order[i]]; }
        i := i + 1;
      }
      assert order[..i] == order;
      order := kept;
    }

    // -------------------------------------------------------------- starting again

    /** `loadAll` when the process has started again: the texts are parsed anew. The files are read in
        some order, which does not matter here. */
    method LoadAll()
      requires Valid() && forall id :: id in engine.records ==> History.Done(engine.View(), id)
      modifies this`items, this`order, this`walk, this`owner, this`past
      ensures Did(Restart(old(engine.View())))
    {
      hide Good, Runs, Longer;
      Note(Restart(engine.View()));
      ghost var before := items;
      items, order := ReadFiles(saved);
      walk, owner := Resting, map[];
    }

    static method ReadFiles(saved: map<string, Item>) returns (items: map<string, Item>, order: seq<string>)
      requires AllParsed(saved)
      ensures items == saved
      ensures forall i, j :: 0 <= i < j < |order| ==> order[i] != order[j]
      ensures forall id :: id in items <==> id in order
    {
      hide ParsedAs, Trimmed;
      items, order := map[], [];
      var left := saved.Keys;
      while left != {}
        invariant left <= saved.Keys && forall id :: id in items <==> id in saved && id !in left
        invariant forall id :: id in items ==> items[id] == saved[id]
        invariant forall i, j :: 0 <= i < j < |order| ==> order[i] != order[j]
        invariant forall id :: id in items <==> id in order
        decreases left
      {
        var id :| id in left;
        var item := ReadItem(saved[id]);
        items, order, left := items[id := item], order + [id], left - {id};
      }
    }

    static method ReadItem(file: Item) returns (item: Item)
      requires ItemParsed(file)
      ensures item == file
    {
      var parsed := Cron.Parse(file.cron);
      OneMeaning(file.cron, parsed.value, file.expr);
      item := Item(file.cron, parsed.value, file.enabled, file.skip, file.lastFired, file.lastTest);
    }
  }
}
