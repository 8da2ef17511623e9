/** The engine's records as they are kept, with the counters of finished tests
    (src/engine/execution_engine.cpp). */
module Records {
  import opened Steps
  import opened History

  class Engine {
    var records: map<nat, Record>
    var order: seq<nat>
    var cancelFlags: map<nat, bool>
    var completed: nat
    var passed: nat
    var failed: nat
    var cancelled: nat
    var errored: nat
    const historyLimit: nat
    /** Where the active tests are: in the queue or with a thread. */
    var holders: map<nat, Holder>

    function View(): History.State
      reads this
    {
      History.State(records, order, cancelFlags, holders)
    }

    ghost predicate Valid()
      reads this
    {
      Inv(View()) && completed == passed + failed + cancelled + errored
    }

    ghost predicate Can(a: Action)
      reads this
    {
      Valid() && Enabled(View(), a)
    }

    twostate predicate Did(a: Action)
      reads this
    {
      old(Can(a)) && View() == Apply(old(View()), a) && Valid()
    }

    constructor (historyLimit: nat)
      ensures Valid() && records == map[] && this.historyLimit == historyLimit
    {
      records, order, cancelFlags, this.historyLimit := map[], [], map[], historyLimit;
      completed, passed, failed, cancelled, errored := 0, 0, 0, 0, 0;
      holders := map[];
    }

    /** `submit` up to the point where the record is in place. */
    method Submit(id: nat)
      requires Can(Action.Submit(id))
      modifies this`records, this`order, this`cancelFlags, this`holders
      ensures Did(Action.Submit(id))
    {
      hide Inv;
      StepKeepsInv(View(), Action.Submit(id));
      records := records[id := Record(Queued, false)];
      order := order + [id];
      cancelFlags := cancelFlags[id := false];
      holders := holders[id := BySubmit];
    }

    /** `cancel` of a test that it took out of the queue. */
    method CancelQueued(id: nat)
      requires Can(Action.CancelQueued(id))
      modifies this
      ensures Did(Action.CancelQueued(id))
      ensures completed == old(completed) + 1 && cancelled == old(cancelled) + 1
    {
      hide Inv;
      StepKeepsInv(View(), Action.CancelQueued(id));
      if id in records { records := records[id := Record(Cancelled, true)]; }
      cancelFlags := cancelFlags - {id};
      holders := holders - {id};
      completed, cancelled := completed + 1, cancelled + 1;
    }

    /** `cancel` of a test that was not in the queue. */
    method RaiseFlag(id: nat) returns (raised: bool)
      requires Valid()
      modifies this`cancelFlags
      ensures raised <==> old(Enabled(View(), Action.RaiseFlag(id)))
      ensures if raised then Did(Action.RaiseFlag(id)) else View() == old(View())
    {
      if id !in records || Terminal(records[id].state) { return false; }
      if id !in cancelFlags { return false; }
      StepKeepsInv(View(), Action.RaiseFlag(id));
      cancelFlags := cancelFlags[id := true];
      raised := true;
    }

    /** The end of `execute`: the final state becomes visible and is counted. */
    method Finish(id: nat, final: TestState)
      requires Can(Action.Finish(id, final))
      modifies this
      ensures Did(Action.Finish(id, final))
      ensures completed == old(completed) + 1
      ensures passed == old(passed) + (if final == Passed || final == Skipped then 1 else 0)
      ensures failed == old(failed) + (if final == Failed then 1 else 0)
      ensures cancelled == old(cancelled) + (if final == Cancelled then 1 else 0)
      ensures errored == old(errored) + (if final == Errored then 1 else 0)
    {
      hide Inv;
      StepKeepsInv(View(), Action.Finish(id, final));
      if id in records { records := records[id := Record(final, true)]; }
      cancelFlags := cancelFlags - {id};
      holders := holders - {id};
      CountFinal(final);
    }

    method CountFinal(final: TestState)
      requires Terminal(final)
      modifies this`completed, this`passed, this`failed, this`cancelled, this`errored
      ensures completed == old(completed) + 1
      ensures passed == old(passed) + (if final == Passed || final == Skipped then 1 else 0)
      ensures failed == old(failed) + (if final == Failed then 1 else 0)
      ensures cancelled == old(cancelled) + (if final == Cancelled then 1 else 0)
      ensures errored == old(errored) + (if final == Errored then 1 else 0)
    {
      completed := completed + 1;
      if final == Passed || final == Skipped {
        passed := passed + 1;
      } else if final == Failed {
        failed := failed + 1;
      } else if final == Cancelled {
        cancelled := cancelled + 1;
      } else {
        errored := errored + 1;
      }
    }

    /** `execute` threw. */
    method Throw(id: nat)
      requires Can(Action.Throw(id))
      modifies this`records, this`holders
      ensures Did(Action.Throw(id))
    {
      hide Inv;
      StepKeepsInv(View(), Action.Throw(id));
      if id in records { records := records[id := Record(Errored, true)]; }
      holders := holders - {id};
    }

    /** A test goes into the queue or out of it. */
    method PassOn(id: nat, to: Holder, ghost step: Action)
      requires Can(step) && (step == Enqueue(id) || step == Dequeue(id) || step == Unqueue(id))
      requires to == (match step case Enqueue(_) => InQueue case Dequeue(_) => ByWorker case _ => ByCancel)
      modifies this`holders
      ensures Did(step)
    {
      StepKeepsInv(View(), step);
      holders := holders[id := to];
    }

    method ShowRunning(id: nat)
      requires Can(Action.ShowRunning(id))
      modifies this`records
      ensures Did(Action.ShowRunning(id))
    {
      StepKeepsInv(View(), Action.ShowRunning(id));
      if id in records { records := records[id := records[id].(state := Running)]; }
    }

    /** A worker drops the test that it has just taken, because the engine stops. */
    method DropAtStop(id: nat)
      requires Can(Action.DropAtStop(id))
      modifies this`records, this`holders
      ensures Did(Action.DropAtStop(id))
    {
      StepKeepsInv(View(), Action.DropAtStop(id));
      if id in records { records := records[id := records[id].(state := Cancelled)]; }
      holders := holders - {id};
    }

    /** Any step of any thread. */
    method Proceed(step: Action)
      requires Can(step) && (step.Trim? ==> step.limit == historyLimit)
      modifies this
      ensures Did(step)
    {
      hide Inv, Apply;
      match step {
        case Submit(id) => Submit(id);
        case Trim(_) => TrimHistory();
        case Enqueue(id) => PassOn(id, InQueue, step);
        case Dequeue(id) => PassOn(id, ByWorker, step);
        case Unqueue(id) => PassOn(id, ByCancel, step);
        case CancelQueued(id) => CancelQueued(id);
        case RaiseFlag(id) => var raised := RaiseFlag(id);
        case ShowRunning(id) => ShowRunning(id);
        case Finish(id, final) => Finish(id, final);
        case Throw(id) => Throw(id);
        case DropAtStop(id) => DropAtStop(id);
        case Remove(id) => var removed := RemoveTest(id);
        case Clear => ClearHistory();
      }
    }

    method RemoveTest(id: nat) returns (removed: bool)
      requires Valid()
      modifies this`records, this`order, this`cancelFlags
      ensures removed <==> old(Done(View(), id))
      ensures if removed then Did(Remove(id)) else View() == old(View())
    {
      if id !in records || !Terminal(records[id].state) { return false; }
      ghost var before := View();
      records := records - {id};
      EraseFromOrder(id);
      cancelFlags := cancelFlags - {id};
      StepKeepsInv(before, Remove(id));
      removed := true;
    }

    method EraseFromOrder(id: nat)
      modifies this`order
      ensures order == Without(old(order), id)
    {
      var kept := [];
      var i := 0;
      while i < |order|
        invariant 0 <= i <= |order| && order == old(order)
        invariant kept + Without(order[i..], id) == Without(order, id)
      {
        assert order[i..] == [order[i]] + order[i + 1..];
        if order[i] != id {
          assert kept + ([order[i]] + Without(order[i + 1..], id)) == (kept + [order[i]]) + Without(order[i + 1..], id);
          kept := kept + [order[i]];
        }
        i := i + 1;
      }
      order := kept;
    }

    /** The first finished test in the listing. */
    method FirstDone() returns (i: nat)
      requires Valid()
      ensures i <= |order| && (i < |order| ==> DoneIn(records, order[i]))
      ensures forall j :: 0 <= j < i ==> !DoneIn(records, order[j])
    {
      i := 0;
      while i < |order|
        invariant 0 <= i <= |order| && forall j :: 0 <= j < i ==> !DoneIn(records, order[j])
      {
        if order[i] in records && Terminal(records[order[i]].state) { return; }
        i := i + 1;
      }
    }

    /** The first `dropped` finished tests of `before` are gone. */
    ghost predicate Dropped(before: History.State, dropped: nat)
      reads this
    {
      Inv(before) && Valid() && View() == Keep(before, DropDone(before.order, before.records, dropped))
    }

    /** The oldest finished records go, until there are few enough or none is left. */
    method TrimHistory()
      requires Valid()
      modifies this`records, this`order, this`cancelFlags
      ensures Did(Trim(historyLimit))
    {
      hide DropDone, Restrict, KeepFlags, Inv;
      ghost var before, dropped := View(), 0;
      KeepAll(before);
      while |order| > historyLimit
        invariant Dropped(before, dropped)
        invariant |order| + dropped == |before.order| && dropped <= Excess(before.order, historyLimit)
        decreases |order|
      {
        var i := FirstDone();
        if i == |order| {
          NoneLeft(before, order, dropped, Excess(before.order, historyLimit));
          return;
        }
        EraseAt(i, before, dropped);
        dropped := dropped + 1;
      }
    }

    method EraseAt(i: nat, ghost before: History.State, ghost dropped: nat)
      requires Dropped(before, dropped) && i < |order| && DoneIn(records, order[i])
      requires forall j :: 0 <= j < i ==> !DoneIn(records, order[j])
      modifies this`records, this`order, this`cancelFlags
      ensures Dropped(before, dropped + 1) && |order| == |old(order)| - 1
    {
      EraseOne(before, order, dropped, i);
      DropKeepsInv(before, dropped + 1);
      var id := order[i];
      records, cancelFlags := records - {id}, cancelFlags - {id};
      order := order[..i] + order[i + 1..];
    }

    method ListActive() returns (kept: seq<nat>)
      ensures kept == ActiveOnly(order, records)
    {
      kept := [];
      var i := 0;
      while i < |order|
        invariant 0 <= i <= |order| && kept + ActiveOnly(order[i..], records) == ActiveOnly(order, records)
      {
        assert order[i..] == [order[i]] + order[i + 1..];
        if order[i] !in records || !Terminal(records[order[i]].state) {
          assert kept + ([order[i]] + ActiveOnly(order[i + 1..], records))
              == (kept + [order[i]]) + ActiveOnly(order[i + 1..], records);
          kept := kept + [order[i]];
        }
        i := i + 1;
      }
    }

    /** All finished records go. */
    method ClearHistory()
      requires Valid()
      modifies this`records, this`order, this`cancelFlags
      ensures Did(Clear)
    {
      StepKeepsInv(View(), Clear);
      var kept := ListActive();
      records, cancelFlags := Restrict(records, kept), KeepFlags(cancelFlags, order, kept);
      order := kept;
    }
  }

  lemma {:induction false} KeepAll(s: History.State)
    requires Inv(s)
    ensures Keep(s, DropDone(s.order, s.records, 0)) == s
  {
    assert Restrict(s.records, s.order) == s.records;
  }

  /** Dropping one more is dropping the first that is left. */
  lemma {:induction false} DropTwice(order: seq<nat>, records: map<nat, Record>, k: nat)
    ensures DropDone(order, records, k + 1) == DropDone(DropDone(order, records, k), records, 1)
  {
    if order != [] && k > 0 {
      DropTwice(order[1..], records, if DoneIn(records, order[0]) then k - 1 else k);
      var rest := DropDone(order[1..], records, k);
      if !DoneIn(records, order[0]) { assert ([order[0]] + rest)[1..] == rest; }
    }
  }

  lemma {:induction false} DropFirst(order: seq<nat>, records: map<nat, Record>, i: nat)
    requires i < |order| && DoneIn(records, order[i]) && forall j :: 0 <= j < i ==> !DoneIn(records, order[j])
    ensures DropDone(order, records, 1) == order[..i] + order[i + 1..]
  {
    if i > 0 {
      DropFirst(order[1..], records, i - 1);
      assert order[..i] == [order[0]] + order[1..][..i - 1];
      assert order[1..][i - 1 + 1..] == order[i + 1..];
    } else {
      assert DropDone(order[1..], records, 0) == order[1..];
    }
  }

  lemma {:induction false} EraseOne(s: History.State, order: seq<nat>, k: nat, i: nat)
    requires Inv(s) && order == DropDone(s.order, s.records, k)
    requires i < |order| && DoneIn(Restrict(s.records, order), order[i])
    requires forall j :: 0 <= j < i ==> !DoneIn(Restrict(s.records, order), order[j])
    ensures var next := order[..i] + order[i + 1..];
            && next == DropDone(s.order, s.records, k + 1)
            && Restrict(s.records, next) == Restrict(s.records, order) - {order[i]}
            && KeepFlags(s.flags, s.order, next) == KeepFlags(s.flags, s.order, order) - {order[i]}
  {
    var next := order[..i] + order[i + 1..];
    DropsOnlyDone(s.order, s.records, k);
    forall j | 0 <= j < i ensures !DoneIn(s.records, order[j]) { SameDone(s.records, order, order[j]); }
    DropFirst(order, s.records, i);
    DropTwice(s.order, s.records, k);
    NextIs(order, i);
    RestrictNext(s.records, order, next, order[i]);
    FlagsNext(s.flags, s.order, order, next, order[i]);
  }

  lemma {:induction false} DropKeepsInv(s: History.State, k: nat)
    requires Inv(s)
    ensures Inv(Keep(s, DropDone(s.order, s.records, k)))
  {
    DropsOnlyDone(s.order, s.records, k);
    KeepKeepsInv(s, DropDone(s.order, s.records, k));
  }

  lemma {:induction false} SameDone(m: map<nat, Record>, order: seq<nat>, id: nat)
    requires id in order
    ensures DoneIn(Restrict(m, order), id) <==> DoneIn(m, id)
  {
  }

  lemma {:induction false} RestrictNext(m: map<nat, Record>, order: seq<nat>, next: seq<nat>, gone: nat)
    requires forall id :: id in next <==> id in order && id != gone
    ensures Restrict(m, next) == Restrict(m, order) - {gone}
  {
  }

  lemma {:induction false} FlagsNext(flags: map<nat, bool>, before: seq<nat>, order: seq<nat>, next: seq<nat>, gone: nat)
    requires gone in before && forall id :: id in next <==> id in order && id != gone
    ensures KeepFlags(flags, before, next) == KeepFlags(flags, before, order) - {gone}
  {
  }

  lemma {:induction false} NextIs(order: seq<nat>, i: nat)
    requires NoRepeats(order) && i < |order|
    ensures forall id :: id in order[..i] + order[i + 1..] <==> id in order && id != order[i]
  {
    var next := order[..i] + order[i + 1..];
    forall id | id in order && id != order[i] ensures id in next {
      var j :| 0 <= j < |order| && order[j] == id;
      assert next[if j < i then j else j - 1] == id;
    }
  }

  lemma {:induction false} NoneLeft(s: History.State, order: seq<nat>, k: nat, n: nat)
    requires k <= n && order == DropDone(s.order, s.records, k)
    requires forall j :: 0 <= j < |order| ==> !DoneIn(Restrict(s.records, order), order[j])
    ensures DropDone(s.order, s.records, n) == order
  {
    forall j | 0 <= j < |order| ensures !DoneIn(s.records, order[j]) { SameDone(s.records, order, order[j]); }
    if k < n {
      NoneLeft(s, order, k, n - 1);
      DropTwice(s.order, s.records, n - 1);
      NoDone(order, s.records, 1);
    }
  }

  lemma {:induction false} NoDone(order: seq<nat>, records: map<nat, Record>, k: nat)
    requires forall j :: 0 <= j < |order| ==> !DoneIn(records, order[j])
    ensures DropDone(order, records, k) == order
  {
    if order != [] && k > 0 {
      NoDone(order[1..], records, k);
      assert order == [order[0]] + order[1..];
    }
  }
}
