/** The engine's records: what may happen to a test between its submission and the removal of its
    record, each step one critical section (src/engine/execution_engine.cpp). */
module History {
  import opened Steps

  datatype Record = Record(state: TestState, hasResult: bool)

  /** Who has an active test: `submit` before it is queued, the queue, `cancel` after it took the test
      out of the queue, or a worker. The queue gives a test to one taker only. */
  datatype Holder = BySubmit | InQueue | ByCancel | ByWorker

  datatype State = State(records: map<nat, Record>, order: seq<nat>, flags: map<nat, bool>,
                         /* of the active tests */ holders: map<nat, Holder>)

  datatype Action =
    | Submit(id: nat)
    | Trim(limit: nat)
    | Enqueue(id: nat)
    | Dequeue(id: nat)
    | Unqueue(id: nat)
    | CancelQueued(id: nat)
    | RaiseFlag(id: nat)
    | ShowRunning(id: nat)
    | Finish(id: nat, final: TestState)
    | Throw(id: nat)
    | DropAtStop(id: nat)
    | Remove(id: nat)
    | Clear

  predicate HeldBy(s: State, id: nat, h: Holder) {
    id in s.holders && s.holders[id] == h
  }

  predicate Done(s: State, id: nat) {
    id in s.records && Terminal(s.records[id].state)
  }

  predicate Active(s: State, id: nat) {
    id in s.records && !Terminal(s.records[id].state)
  }

  predicate Enabled(s: State, a: Action) {
    match a
    case Submit(id) => id !in s.records
    case Trim(_) => true
    case Enqueue(id) => HeldBy(s, id, BySubmit)
    case Dequeue(id) => HeldBy(s, id, InQueue)
    case Unqueue(id) => HeldBy(s, id, InQueue)
    case CancelQueued(id) => HeldBy(s, id, ByCancel)
    case RaiseFlag(id) => Active(s, id) && id in s.flags
    case ShowRunning(id) => HeldBy(s, id, ByWorker)
    case Finish(id, final) => HeldBy(s, id, ByWorker) && Terminal(final)
    case Throw(id) => HeldBy(s, id, ByWorker)
    case DropAtStop(id) => HeldBy(s, id, ByWorker)
    case Remove(id) => Done(s, id)
    case Clear => true
  }

  // ---------------------------------------------------------------- dropping records

  predicate DoneIn(records: map<nat, Record>, id: nat) {
    id in records && Terminal(records[id].state)
  }

  /** `order` without its first `k` finished tests. */
  function DropDone(order: seq<nat>, records: map<nat, Record>, k: nat): seq<nat> {
    if order == [] || k == 0 then order
    else if DoneIn(records, order[0]) then DropDone(order[1..], records, k - 1)
    else [order[0]] + DropDone(order[1..], records, k)
  }

  function DoneCount(order: seq<nat>, records: map<nat, Record>): nat {
    if order == [] then 0 else (if DoneIn(records, order[0]) then 1 else 0) + DoneCount(order[1..], records)
  }

  /** The tests of `order` that have not finished. */
  function ActiveOnly(order: seq<nat>, records: map<nat, Record>): seq<nat> {
    if order == [] then [] else (if DoneIn(records, order[0]) then [] else [order[0]]) + ActiveOnly(order[1..], records)
  }

  function Without(order: seq<nat>, id: nat): seq<nat> {
    if order == [] then [] else (if order[0] == id then [] else [order[0]]) + Without(order[1..], id)
  }

  function Restrict<T>(m: map<nat, T>, order: seq<nat>): map<nat, T> {
    map id | id in m && id in order :: m[id]
  }

  /** How many records are too many. */
  function Excess(order: seq<nat>, limit: nat): nat {
    if |order| > limit then |order| - limit else 0
  }

  /** The flags that are left when the listing shrinks from `before` to `after`. */
  function KeepFlags(flags: map<nat, bool>, before: seq<nat>, after: seq<nat>): map<nat, bool> {
    map id | id in flags && (id in after || id !in before) :: flags[id]
  }

  function Keep(s: State, order: seq<nat>): State {
    s.(records := Restrict(s.records, order), order := order, flags := KeepFlags(s.flags, s.order, order))
  }

  function Apply(s: State, a: Action): State
    requires Enabled(s, a)
  {
    match a
    case Submit(id) =>
      State(s.records[id := Record(Queued, false)], s.order + [id], s.flags[id := false], s.holders[id := BySubmit])
    case Trim(limit) => Keep(s, DropDone(s.order, s.records, Excess(s.order, limit)))
    case Enqueue(id) => s.(holders := s.holders[id := InQueue])
    case Dequeue(id) => s.(holders := s.holders[id := ByWorker])
    case Unqueue(id) => s.(holders := s.holders[id := ByCancel])
    case CancelQueued(id) => Closed(s, id, Record(Cancelled, true)).(flags := s.flags - {id})
    case RaiseFlag(id) => s.(flags := s.flags[id := true])
    case ShowRunning(id) => if id in s.records then s.(records := s.records[id := s.records[id].(state := Running)]) else s
    case Finish(id, final) => Closed(s, id, Record(final, true)).(flags := s.flags - {id})
    case Throw(id) => Closed(s, id, Record(Errored, true))
    case DropAtStop(id) => Closed(s, id, if id in s.records then s.records[id].(state := Cancelled) else Record(Cancelled, false))
    case Remove(id) => State(s.records - {id}, Without(s.order, id), s.flags - {id}, s.holders)
    case Clear => Keep(s, ActiveOnly(s.order, s.records))
  }

  /** The test is over: its record, if there is one, says so. */
  function Closed(s: State, id: nat, r: Record): State {
    s.(records := if id in s.records then s.records[id := r] else s.records, holders := s.holders - {id})
  }

  // ---------------------------------------------------------------- the invariant

  predicate NoRepeats(order: seq<nat>) {
    forall i, j :: 0 <= i < j < |order| ==> order[i] != order[j]
  }

  /** `order_` lists exactly the keys of `records_`. */
  predicate Lists(order: seq<nat>, records: map<nat, Record>) {
    (forall id :: id in records ==> id in order) && (forall id :: id in order ==> id in records)
  }

  predicate HeldRight(s: State, id: nat) {
    id in s.holders ==>
      Active(s, id) && (s.holders[id].ByWorker? || s.records[id].state == Queued)
  }

  predicate Inv(s: State) {
    && NoRepeats(s.order) && Lists(s.order, s.records)
    && (forall id :: id in s.holders ==> HeldRight(s, id))
    && (forall id :: id in s.records && Active(s, id) ==> id in s.holders)
  }

  lemma {:induction false} DropsOnlyDone(order: seq<nat>, records: map<nat, Record>, k: nat)
    requires NoRepeats(order)
    ensures var r := DropDone(order, records, k);
            NoRepeats(r) && (forall id :: id in r ==> id in order) && (forall id :: id in order && !DoneIn(records, id) ==> id in r)
  {
    if order != [] && k > 0 {
      var rest := order[1..];
      assert order == [order[0]] + rest;
      DropsOnlyDone(rest, records, if DoneIn(records, order[0]) then k - 1 else k);
    }
  }

  lemma {:induction false} ActiveOnlyIs(order: seq<nat>, records: map<nat, Record>)
    requires NoRepeats(order)
    ensures var r := ActiveOnly(order, records);
            NoRepeats(r) && forall id :: id in r <==> id in order && !DoneIn(records, id)
  {
    if order != [] {
      assert order == [order[0]] + order[1..];
      ActiveOnlyIs(order[1..], records);
    }
  }

  lemma {:induction false} WithoutIs(order: seq<nat>, id: nat)
    requires NoRepeats(order)
    ensures var r := Without(order, id);
            NoRepeats(r) && forall x :: x in r <==> x in order && x != id
  {
    if order != [] {
      assert order == [order[0]] + order[1..] && order[0] !in order[1..];
      WithoutIs(order[1..], id);
    }
  }

  lemma {:induction false} KeepKeepsInv(s: State, order: seq<nat>)
    requires Inv(s) && NoRepeats(order) && (forall id :: id in order ==> id in s.order)
    requires forall id :: id in s.order && !DoneIn(s.records, id) ==> id in order
    ensures Inv(Keep(s, order))
  {
    var t := Keep(s, order);
    forall id | id in t.holders ensures HeldRight(t, id) { assert HeldRight(s, id); }
    forall id | id in t.records && Active(t, id) ensures id in t.holders { assert Active(s, id); }
  }

  lemma {:induction false} OneKeepsInv(s: State, a: Action)
    requires Inv(s) && Enabled(s, a) && !a.Trim? && !a.Clear? && !a.Remove?
    ensures Inv(Apply(s, a))
  {
    var t := Apply(s, a);
    forall id | id in t.holders ensures HeldRight(t, id) {
      if id in s.holders { assert HeldRight(s, id); }
      if !a.Submit? { assert a.id in s.holders ==> HeldRight(s, a.id); }
    }
    forall id | id in t.records && Active(t, id) ensures id in t.holders {
      assert Active(s, id) || a == Submit(id);
    }
  }

  lemma {:induction false} RemoveKeepsInv(s: State, id: nat)
    requires Inv(s) && Enabled(s, Remove(id))
    ensures Inv(Apply(s, Remove(id)))
  {
    var t := Apply(s, Remove(id));
    WithoutIs(s.order, id);
    forall x | x in t.holders ensures HeldRight(t, x) { assert HeldRight(s, x); }
    forall x | x in t.records && Active(t, x) ensures x in t.holders { assert Active(s, x); }
  }

  /** Every step keeps the invariant. */
  lemma {:induction false} StepKeepsInv(s: State, a: Action)
    requires Inv(s) && Enabled(s, a)
    ensures Inv(Apply(s, a))
  {
    match a
    case Trim(limit) =>
      DropsOnlyDone(s.order, s.records, Excess(s.order, limit));
      KeepKeepsInv(s, DropDone(s.order, s.records, Excess(s.order, limit)));
    case Clear =>
      ActiveOnlyIs(s.order, s.records);
      KeepKeepsInv(s, ActiveOnly(s.order, s.records));
    case Remove(id) => RemoveKeepsInv(s, id);
    case _ => OneKeepsInv(s, a);
  }

  // ---------------------------------------------------------------- what a step leaves alone

  /** A finished test stays as it finished, until its record goes. */
  lemma {:induction false} DoneStays(s: State, a: Action, id: nat)
    requires Inv(s) && Enabled(s, a) && Done(s, id)
    ensures id in Apply(s, a).records ==> Apply(s, a).records[id] == s.records[id]
  {
    assert HeldRight(s, id);
  }

  /** An active test keeps its record. */
  lemma {:induction false} ActiveStays(s: State, a: Action, id: nat)
    requires Inv(s) && Enabled(s, a) && Active(s, id)
    ensures id in Apply(s, a).records
  {
    match a
    case Trim(limit) => DropsOnlyDone(s.order, s.records, Excess(s.order, limit));
    case Clear => ActiveOnlyIs(s.order, s.records);
    case _ =>
  }

  /** Only a submission makes a test active. */
  lemma {:induction false} ActiveWasActive(s: State, a: Action, id: nat)
    requires Inv(s) && Enabled(s, a) && Active(Apply(s, a), id)
    ensures Active(s, id) || a == Submit(id)
  {
    if id in s.holders { assert HeldRight(s, id); }
  }

  /** The engine as it starts: no tests but finished ones of earlier times. */
  predicate Initial(s: State) {
    && NoRepeats(s.order) && Lists(s.order, s.records) && s.flags == map[] && s.holders == map[]
    && forall id :: id in s.records ==> Done(s, id)
  }

  lemma {:induction false} InitialInv(s: State)
    requires Initial(s)
    ensures Inv(s)
  {
  }

  ghost predicate StepAt(ss: seq<State>, acts: seq<Action>, k: nat)
    requires |ss| == |acts| + 1 && k < |acts|
  {
    Enabled(ss[k], acts[k]) && ss[k + 1] == Apply(ss[k], acts[k])
  }

  ghost predicate Run(ss: seq<State>, acts: seq<Action>) {
    && |ss| == |acts| + 1 && Initial(ss[0])
    && forall k: nat :: k < |acts| ==> StepAt(ss, acts, k)
  }

  /** In every reachable state the listing and the records agree, and a test has a taker exactly
      while it is active. */
  lemma {:induction false} ReachableInv(ss: seq<State>, acts: seq<Action>, k: nat)
    requires Run(ss, acts) && k <= |acts|
    ensures Inv(ss[k])
  {
    if k == 0 {
      InitialInv(ss[0]);
    } else {
      ReachableInv(ss, acts, k - 1);
      assert StepAt(ss, acts, k - 1);
      StepKeepsInv(ss[k - 1], acts[k - 1]);
    }
  }

  // ---------------------------------------------------------------- what is trimmed

  /** Trimming cuts the listing at a point: of the tests before it only the active ones stay, and
      from it on all stay. It drops as many finished tests as there are too many records, or all. */
  lemma {:induction false} TrimCuts(order: seq<nat>, records: map<nat, Record>, k: nat) returns (cut: nat)
    ensures cut <= |order| && DropDone(order, records, k) == ActiveOnly(order[..cut], records) + order[cut..]
    ensures DoneCount(order[..cut], records) == if k <= DoneCount(order, records) then k else DoneCount(order, records)
  {
    if order == [] || k == 0 {
      cut := 0;
      assert order[..0] == [] && order[0..] == order;
    } else {
      var rest := order[1..];
      cut := TrimCuts(rest, records, if DoneIn(records, order[0]) then k - 1 else k);
      cut := cut + 1;
      assert order[..cut][1..] == rest[..cut - 1] && order[cut..] == rest[cut - 1..];
      assert order[..cut][0] == order[0];
    }
  }

  lemma {:induction false} DropSize(order: seq<nat>, records: map<nat, Record>, k: nat)
    ensures |DropDone(order, records, k)| + (if k <= DoneCount(order, records) then k else DoneCount(order, records)) == |order|
  {
    if order != [] && k > 0 { DropSize(order[1..], records, if DoneIn(records, order[0]) then k - 1 else k); }
  }
}
