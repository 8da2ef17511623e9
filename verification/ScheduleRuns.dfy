/** Two runs in which a schedule is fired twice in one minute although the clock never goes back
    (src/engine/scheduler.cpp). */
module ScheduleRuns {
  import opened Text
  import opened Schedules
  import Calendar
  import Cron
  import CronNext
  import History

  // ---------------------------------------------------------------- two expressions

  function Bounds(kind: Cron.Kind): set<nat> {
    set v: nat | v <= Cron.High(kind) && AtLeast(v, Cron.Low(kind))
  }

  predicate AtLeast(v: nat, low: nat) {
    low <= v
  }

  lemma {:induction false} InBounds(v: nat, kind: Cron.Kind)
    requires Cron.Low(kind) <= v <= Cron.High(kind)
    ensures v in Bounds(kind)
  {
    assert AtLeast(v, Cron.Low(kind));
  }

  lemma {:induction false} EveryStep(v: nat, begin: nat)
    requires begin <= v
    ensures Cron.InSteps(v, begin, 1)
  {
    if v > begin { EveryStep(v - 1, begin); }
  }

  lemma {:induction false} StarField(kind: Cron.Kind)
    ensures Cron.FieldOk("*", kind) && Cron.SetIs(Bounds(kind), "*", kind)
  {
    var f := "*";
    assert f[..1] == f && Cron.Items(f, 0) == [f];
    assert Cron.ItemBounds(f, kind) == Some((Cron.Low(kind), Cron.High(kind)));
    assert Cron.ItemOk(Cron.Items(f, 0)[0], kind);
    forall v ensures v in Bounds(kind) <==> Cron.FieldHas(f, kind, v) {
      if v in Bounds(kind) {
        EveryStep(v, Cron.Low(kind));
        assert Cron.ItemHas(Cron.Items(f, 0)[0], kind, v);
      }
    }
  }

  lemma {:induction false} ZeroField(kind: Cron.Kind)
    requires kind.Minute? || kind.Hour?
    ensures Cron.FieldOk("0", kind) && Cron.SetIs({0}, "0", kind)
  {
    var f := "0";
    assert f[..1] == f && Cron.Items(f, 0) == [f];
    assert DigitsValue(f, 1) == 0 && AllDigits(f);
    assert Cron.TokenValue(f, kind) == Some(0);
    assert Cron.ItemBounds(f, kind) == Some((0, 0));
    assert Cron.ItemOk(Cron.Items(f, 0)[0], kind);
    forall v ensures v in {0} <==> Cron.FieldHas(f, kind, v) {
      if v == 0 { assert Cron.ItemHas(Cron.Items(f, 0)[0], kind, v); }
    }
  }

  /** Five words of one character each. */
  lemma {:induction false} FiveWords(s: string, a: char, b: char)
    requires s == [a, ' ', b, ' ', '*', ' ', '*', ' ', '*'] && !IsSpace(a) && !IsSpace(b)
    ensures Words(s, 0, "") == [[a], [b], "*", "*", "*"]
  {
    OneWord(s, 8, '*');
    OneWord(s, 6, '*');
    OneWord(s, 4, '*');
    OneWord(s, 2, b);
    OneWord(s, 0, a);
  }

  lemma {:induction false} OneWord(s: string, k: nat, c: char)
    requires k < |s| && s[k] == c && !IsSpace(c) && (k + 1 < |s| ==> s[k + 1] == ' ')
    ensures Words(s, k, "") == [[c]] + if k + 1 < |s| then Words(s, k + 2, "") else []
  {
    assert "" + [s[k]] == [c];
  }

  function Star(bits: set<nat>, hours: set<nat>): Cron.Expr {
    Cron.Expr(bits, hours, Bounds(Cron.MonthDay), Bounds(Cron.Month), Bounds(Cron.Weekday), true, true)
  }

  lemma {:induction false} StarDenotes(text: string, f: seq<string>, bits: set<nat>, hours: set<nat>)
    requires Cron.Fields(text) == f && |f| == 5 && f[2] == "*" && f[3] == "*" && f[4] == "*"
    requires Cron.FieldOk(f[0], Cron.Minute) && Cron.SetIs(bits, f[0], Cron.Minute)
    requires Cron.FieldOk(f[1], Cron.Hour) && Cron.SetIs(hours, f[1], Cron.Hour)
    ensures ParsedAs(text, Star(bits, hours))
  {
    StarField(Cron.MonthDay);
    StarField(Cron.Month);
    StarField(Cron.Weekday);
    forall v ensures v in Bounds(Cron.Weekday) <==> Cron.WeekdayHas("*", v) {
      assert Cron.FieldHas("*", Cron.Weekday, v) <==> v in Bounds(Cron.Weekday);
    }
  }

  lemma {:induction false} MidnightParsed(text: string)
    requires Trim(text) == "0 0 * * *"
    ensures ParsedAs(text, Star({0}, {0}))
  {
    FiveWords(Trim(text), '0', '0');
    ZeroField(Cron.Minute);
    ZeroField(Cron.Hour);
    StarDenotes(text, ["0", "0", "*", "*", "*"], {0}, {0});
  }

  lemma {:induction false} AlwaysParsed(text: string)
    requires Trim(text) == "* * * * *"
    ensures ParsedAs(text, Star(Bounds(Cron.Minute), Bounds(Cron.Hour)))
  {
    FiveWords(Trim(text), '*', '*');
    StarField(Cron.Minute);
    StarField(Cron.Hour);
    StarDenotes(text, ["*", "*", "*", "*", "*"], Bounds(Cron.Minute), Bounds(Cron.Hour));
  }

  /** The first minutes of 1970. */
  lemma {:induction false} FirstMinutes(bits: set<nat>, hours: set<nat>, m: nat)
    requires m < 60 && m in bits && 0 in hours
    ensures CronNext.Matches(Star(bits, hours), m)
  {
    assert Calendar.DayOf(m) == 0 && Calendar.HourOf(m) == 0 && Calendar.MinuteOf(m) == m;
    Calendar.DateSplit(0);
    InBounds(Calendar.MonthOf(0), Cron.Month);
  }

  lemma {:induction false} OneSpace(text: string)
    requires text == " 0 0 * * *"
    ensures Trim(text) == "0 0 * * *"
  {
    assert text[1..] == "0 0 * * *";
    assert TrimLeft(text[1..]) == text[1..];
  }

  // ---------------------------------------------------------------- building runs

  /** `u` goes on from where `t` ends. */
  ghost predicate Extends(u: Trace, t: Trace) {
    Runs(u) && Runs(t) && t.ss <= u.ss && t.acts <= u.acts
  }

  lemma {:induction false} Step(t: Trace, a: Action) returns (u: Trace)
    requires Runs(t) && Enabled(Now(t), a)
    ensures Extends(u, t) && u.acts == t.acts + [a] && Now(u) == Apply(Now(t), a)
  {
    u := Longer(t, a);
    LongerRuns(t, a);
  }

  /** Step `k` of the run is this firing by a tick. */
  ghost predicate TickedAt(t: Trace, k: nat, id: string, m: nat) {
    Runs(t) && k < |t.acts| && TickFires(t.ss[k], t.acts[k], id, m)
  }

  ghost predicate FiredAt(t: Trace, k: nat, id: string, m: nat) {
    Runs(t) && k < |t.acts| && FiresIn(t.ss[k], t.acts[k], id, m)
  }

  lemma {:induction false} StillTicked(u: Trace, t: Trace, k: nat, id: string, m: nat)
    requires Extends(u, t) && TickedAt(t, k, id, m)
    ensures TickedAt(u, k, id, m)
  {
    assert u.ss[k] == t.ss[k] && u.acts[k] == t.acts[k];
  }

  lemma {:induction false} StillFired(u: Trace, t: Trace, k: nat, id: string, m: nat)
    requires Extends(u, t) && FiredAt(t, k, id, m)
    ensures FiredAt(u, k, id, m)
  {
    assert u.ss[k] == t.ss[k] && u.acts[k] == t.acts[k];
  }

  ghost predicate Sole(s: State, id: string, item: Item) {
    s.items == map[id := item]
  }

  /** From step `from` on, no schedule is created, changed or deleted. */
  ghost predicate Unedited(t: Trace, from: nat) {
    forall k :: from <= k < |t.acts| ==> !t.acts[k].Create? && !t.acts[k].Update? && !t.acts[k].Delete?
  }

  /** A tick reads the clock and lists the only schedule. */
  lemma {:induction false} Listing(t: Trace, id: string, item: Item) returns (u: Trace)
    requires Runs(t) && Sole(Now(t), id, item) && Now(t).walk.Resting?
    ensures Extends(u, t) && |u.acts| == |t.acts| + 2 && Now(u) == Now(t).(walk := Walking(Now(t).clock, {id}))
    ensures forall k :: |t.acts| <= k < |u.acts| ==> u.acts[k].ReadClock? || u.acts[k].ListAll?
  {
    var t1 := Step(t, ReadClock);
    u := Step(t1, ListAll);
    assert Now(t).items.Keys == {id};
  }

  /** A whole tick with one schedule, which is due. */
  lemma {:induction false} TickOnce(t: Trace, id: string, item: Item, test: nat) returns (u: Trace, k: nat)
    requires Runs(t) && Sole(Now(t), id, item) && Now(t).walk.Resting? && Due(item, Now(t).clock) && !item.skip
    requires test !in Now(t).engine.records
    ensures Extends(u, t) && |t.acts| <= k && TickedAt(u, k, id, Now(t).clock)
    ensures Sole(Now(u), id, item.(lastFired := Now(t).clock, lastTest := Some(test))) && Now(u).walk.Resting?
    ensures forall from :: 0 <= from && Unedited(t, from) ==> Unedited(u, from)
    ensures Now(u).clock == Now(t).clock && forall x :: x in Now(u).engine.records <==> x in Now(t).engine.records || x == test
  {
    hide StepAt, ParsedAs;
    var t2 := Listing(t, id, item);
    k := |t2.acts|;
    var t3 := Step(t2, Turn(id, Submitted(test)));
    assert t3.ss[k] == Now(t2) && t3.acts[k] == Turn(id, Submitted(test));
    assert TickedAt(t3, k, id, Now(t).clock);
    assert Now(t3).walk == Walking(Now(t).clock, {});
    u := Step(t3, EndTick);
    StillTicked(u, t3, k, id, Now(t).clock);
  }

  lemma {:induction false} FirstStep(engine: History.State, clock: nat, id: string, text: string, expr: Cron.Expr)
    returns (t: Trace)
    requires History.Initial(engine) && ParsedAs(text, expr)
    ensures Runs(t) && |t.acts| == 1 && Sole(Now(t), id, Item(Trim(text), expr, true, false, -1, None))
    ensures Now(t).walk.Resting? && Now(t).clock == clock && Now(t).engine == engine
  {
    var s := State(engine, map[], map[], clock, Resting, map[], {});
    var t0 := Trace([s], []);
    t := Step(t0, Create(id, text, expr, true, false));
  }

  // ---------------------------------------------------------------- the two runs

  /** The step saves a text that means the same as the stored one. */
  ghost predicate Respells(s: State, a: Action, id: string, text: string, spaced: string) {
    a.Update? && a.id == id && a.text == spaced && id in s.items && s.items[id].cron == text && s.items[id].expr == a.expr
  }

  lemma {:induction false} Respelled(engine: History.State, id: string, text: string, spaced: string, expr: Cron.Expr)
    returns (t: Trace, i: nat, k: nat, j: nat)
    requires History.Initial(engine) && engine.records == map[]
    requires ParsedAs(text, expr) && ParsedAs(spaced, expr) && CronNext.Matches(expr, 0)
    requires Trim(text) == text && Trim(spaced) == text && spaced != text && spaced != ""
    ensures TickedAt(t, i, id, 0) && TickedAt(t, j, id, 0) && i < k < j
    ensures Respells(t.ss[k], t.acts[k], id, text, spaced)
  {
    var item := Item(text, expr, true, false, -1, None);
    var t1 := FirstStep(engine, 0, id, text, expr);
    var t2;
    t2, i := TickOnce(t1, id, item, 0);
    var t3 := Respelling(t2, id, item.(lastFired := 0, lastTest := Some(0)), spaced);
    k := |t2.acts|;
    StillTicked(t3, t2, i, id, 0);
    t, j := TickOnce(t3, id, item.(lastTest := Some(0)), 1);
    StillTicked(t, t3, i, id, 0);
    assert t.acts[k] == t3.acts[k] && t.ss[k] == t3.ss[k];
  }

  lemma {:induction false} Respelling(t: Trace, id: string, item: Item, spaced: string) returns (u: Trace)
    requires Runs(t) && Sole(Now(t), id, item) && Now(t).walk.Resting? && ParsedAs(spaced, item.expr)
    requires Trim(spaced) == item.cron && spaced != item.cron && spaced != "" && item.enabled && !item.skip
    ensures Extends(u, t) && |u.acts| == |t.acts| + 1
    ensures Respells(u.ss[|t.acts|], u.acts[|t.acts|], id, item.cron, spaced)
    ensures Sole(Now(u), id, item.(lastFired := -1)) && Now(u).walk.Resting? && Now(u).clock == Now(t).clock
    ensures Now(u).engine == Now(t).engine
  {
    u := Step(t, Update(id, spaced, item.expr, true, false));
    assert u.ss[|t.acts|] == Now(t);
  }

  /** The schedule "0 0 * * *" is saved again as " 0 0 * * *" and is fired twice by ticks in one minute. */
  lemma {:induction false} RespelledFiresAgain(engine: History.State, id: string)
    returns (t: Trace, i: nat, k: nat, j: nat)
    requires History.Initial(engine) && engine.records == map[]
    ensures TickedAt(t, i, id, 0) && TickedAt(t, j, id, 0) && i < k < j
    ensures Respells(t.ss[k], t.acts[k], id, "0 0 * * *", " 0 0 * * *")
  {
    var text, spaced := "0 0 * * *", " 0 0 * * *";
    TrimOfTrimmed(text);
    OneSpace(spaced);
    MidnightParsed(text);
    MidnightParsed(spaced);
    FirstMinutes({0}, {0}, 0);
    assert |spaced| == 10 && |text| == 9;
    t, i, k, j := Respelled(engine, id, text, spaced, Star({0}, {0}));
  }

  /** A tick reads minute 0 and lists the schedule, which is then fired by hand in minute 1. */
  lemma {:induction false} LateHand(t: Trace, id: string, item: Item) returns (u: Trace)
    requires Runs(t) && |t.acts| == 1 && Sole(Now(t), id, item) && Now(t).walk.Resting? && Now(t).clock == 0
    requires !item.skip && Now(t).engine.records == map[]
    ensures Runs(u) && |u.acts| == 5 && FiredAt(u, 4, id, 1) && Unedited(u, 4)
    ensures Sole(Now(u), id, item.(lastFired := 1, lastTest := Some(0))) && Now(u).walk == Walking(0, {id})
    ensures Now(u).clock == 1 && Now(u).engine.records.Keys == {0}
  {
    hide StepAt, ParsedAs;
    var t2 := Listing(t, id, item);
    var t3 := Step(t2, Advance(1));
    u := Step(t3, FireNow(id, Submitted(0)));
    assert u.ss[4] == t3.ss[4] == Now(t3) && u.acts[4] == FireNow(id, Submitted(0));
  }

  /** The schedule's turn in that tick comes only now. */
  lemma {:induction false} LateTurn(t: Trace, id: string, item: Item) returns (u: Trace)
    requires Runs(t) && |t.acts| == 5 && Sole(Now(t), id, item) && Now(t).walk == Walking(0, {id}) && Now(t).clock == 1
    requires !item.skip && Due(item, 0) && Now(t).engine.records.Keys == {0} && Unedited(t, 4)
    ensures Extends(u, t) && Unedited(u, 4)
    ensures Sole(Now(u), id, item.(lastFired := 0, lastTest := Some(1))) && Now(u).walk.Resting?
    ensures Now(u).clock == 1 && Now(u).engine.records.Keys == {0, 1}
  {
    var t1 := Step(t, Turn(id, Submitted(1)));
    assert Now(t1).walk == Walking(0, {});
    u := Step(t1, EndTick);
  }

  lemma {:induction false} Stale(engine: History.State, id: string, text: string, expr: Cron.Expr)
    returns (t: Trace, i: nat, j: nat)
    requires History.Initial(engine) && engine.records == map[] && ParsedAs(text, expr) && Trim(text) == text
    requires CronNext.Matches(expr, 0) && CronNext.Matches(expr, 1)
    ensures FiredAt(t, i, id, 1) && TickedAt(t, j, id, 1) && i < j && Unedited(t, i)
  {
    hide ParsedAs;
    var item := Item(text, expr, true, false, -1, None);
    var t1 := FirstStep(engine, 0, id, text, expr);
    var t2 := LateHand(t1, id, item);
    var t3 := LateTurn(t2, id, item.(lastFired := 1, lastTest := Some(0)));
    StillFired(t3, t2, 4, id, 1);
    i := 4;
    t, j := TickOnce(t3, id, item.(lastFired := 0, lastTest := Some(1)), 2);
    StillFired(t, t3, 4, id, 1);
  }

  /** The schedule "* * * * *" is fired by hand in minute 1 after a tick has read minute 0 and before
      it comes to the schedule; the next tick fires it in minute 1 once more. */
  lemma {:induction false} StaleTick(engine: History.State, id: string) returns (t: Trace, i: nat, j: nat)
    requires History.Initial(engine) && engine.records == map[]
    ensures FiredAt(t, i, id, 1) && TickedAt(t, j, id, 1) && i < j && Unedited(t, i)
  {
    var text, expr := "* * * * *", Star(Bounds(Cron.Minute), Bounds(Cron.Hour));
    TrimOfTrimmed(text);
    AlwaysParsed(text);
    InBounds(0, Cron.Minute);
    InBounds(1, Cron.Minute);
    InBounds(0, Cron.Hour);
    FirstMinutes(Bounds(Cron.Minute), Bounds(Cron.Hour), 0);
    FirstMinutes(Bounds(Cron.Minute), Bounds(Cron.Hour), 1);
    t, i, j := Stale(engine, id, text, expr);
  }
}
