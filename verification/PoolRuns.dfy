/** What holds in every reachable state of the runner pool (src/runner/runner_bridge.cpp). */
module PoolRuns {
  import opened Text
  import opened Pool

  // ---------------------------------------------------------------- counting sessions

  predicate On(x: Session, i: nat) {
    !x.Closed? && x.slot == i
  }

  predicate Restarting(x: Session, i: nat) {
    x.Launching? && x.slot == i
  }

  /** The open sessions on slot `i` among the first `n`. */
  function Held(ss: seq<Session>, n: nat, i: nat): nat
    requires n <= |ss|
  {
    if n == 0 then 0 else Held(ss, n - 1, i) + Unit(On(ss[n - 1], i))
  }

  /** Those of them that are restarting its runner. */
  function Flying(ss: seq<Session>, n: nat, i: nat): nat
    requires n <= |ss|
  {
    if n == 0 then 0 else Flying(ss, n - 1, i) + Unit(Restarting(ss[n - 1], i))
  }

  lemma {:induction false} SessionUpdate(ss: seq<Session>, id: nat, x: Session, n: nat, i: nat)
    requires id < |ss| && n <= |ss|
    ensures id >= n ==> Held(ss[id := x], n, i) == Held(ss, n, i) && Flying(ss[id := x], n, i) == Flying(ss, n, i)
    ensures id < n ==>
              && Held(ss[id := x], n, i) == Held(ss, n, i) + Unit(On(x, i)) - Unit(On(ss[id], i))
              && Flying(ss[id := x], n, i) == Flying(ss, n, i) + Unit(Restarting(x, i)) - Unit(Restarting(ss[id], i))
  {
    if n > 0 { SessionUpdate(ss, id, x, n - 1, i); }
  }

  lemma {:induction false} SessionsAppended(ss: seq<Session>, more: seq<Session>, n: nat, i: nat)
    requires n <= |more|
    ensures Held(ss + more, |ss| + n, i) == Held(ss, |ss|, i) + Held(more, n, i)
    ensures Flying(ss + more, |ss| + n, i) == Flying(ss, |ss|, i) + Flying(more, n, i)
  {
    if n > 0 {
      SessionsAppended(ss, more, n - 1, i);
    } else {
      SessionsPrefix(ss, more, |ss|, i);
    }
  }

  lemma {:induction false} SessionsPrefix(ss: seq<Session>, more: seq<Session>, n: nat, i: nat)
    requires n <= |ss|
    ensures Held(ss + more, n, i) == Held(ss, n, i) && Flying(ss + more, n, i) == Flying(ss, n, i)
  {
    if n > 0 { SessionsPrefix(ss, more, n - 1, i); }
  }

  lemma {:induction false} OpenIsHeld(ss: seq<Session>, id: nat, n: nat, i: nat)
    requires id < n <= |ss|
    ensures On(ss[id], i) ==> Held(ss, n, i) >= 1
    ensures Restarting(ss[id], i) ==> Flying(ss, n, i) >= 1
  {
    if id < n - 1 { OpenIsHeld(ss, id, n - 1, i); }
  }

  predicate AllClosed(ss: seq<Session>) {
    forall id :: 0 <= id < |ss| ==> ss[id].Closed?
  }

  lemma {:induction false} ClosedHoldNothing(ss: seq<Session>, n: nat, i: nat)
    requires AllClosed(ss) && n <= |ss|
    ensures Held(ss, n, i) == 0 && Flying(ss, n, i) == 0
  {
    if n > 0 { ClosedHoldNothing(ss, n - 1, i); }
  }

  // ---------------------------------------------------------------- the invariant

  /** The runner starts under way on slot `i`: by a session, or by `start` or `restartRunner`. */
  function Starts(s: State, i: nat): nat {
    Flying(s.sessions, |s.sessions|, i) + Unit(s.lifecycle.Starting? && i in s.lifecycle.flying)
  }

  predicate SlotOk(s: State, i: nat)
    requires i < |s.slots| == |s.autos|
  {
    var slot := s.slots[i];
    && slot.users == Held(s.sessions, |s.sessions|, i)
    && (!s.safe ==> slot.users <= 1)
    && Starts(s, i) == Unit(slot.restarting)
    && (slot.restarting ==> slot.state == Connecting && slot.proc == NoRunner)
    && (NotLaunched(s.lifecycle, i) ==> slot.proc == NoRunner)
    && s.autos[i] <= slot.restarts
    && (s.autos[i] > 0 ==> s.autos[i] <= s.config.maxRestarts)
  }

  /** Slot `i` still waits for `startAllSlots` to launch its runner. */
  predicate NotLaunched(l: Lifecycle, i: nat) {
    l.Stopping? || (l.Starting? && (i in l.todo || i in l.flying || (!l.probed && i > 0)))
  }

  /** `waitForIdle` has returned and `draining_` is not cleared yet. */
  predicate PastIdle(l: Lifecycle) {
    l.Stopping? || l.Starting?
  }

  predicate InRange(x: Session, size: nat) {
    x.Closed? || x.slot < size
  }

  predicate Launchable(slots: set<nat>, size: nat, probed: bool) {
    forall i :: i in slots ==> i < size && (probed || i == 0)
  }

  predicate LifecycleOk(l: Lifecycle, size: nat) {
    && (l.Starting? ==> l.todo !! l.flying && Launchable(l.todo, size, l.probed) && Launchable(l.flying, size, l.probed))
    && (PastIdle(l) || (l.Draining? && !l.op.OpStart?) ==> size > 0)
  }

  predicate Inv(s: State) {
    && |s.autos| == |s.slots|
    && (forall i :: 0 <= i < |s.slots| ==> SlotOk(s, i))
    && (forall id :: 0 <= id < |s.sessions| ==> InRange(s.sessions[id], |s.slots|))
    && (s.safe ==> |s.slots| == 1)
    && (s.draining <==> !s.lifecycle.Quiet?)
    && (PastIdle(s.lifecycle) ==> AllClosed(s.sessions))
    && LifecycleOk(s.lifecycle, |s.slots|)
  }

  // ---------------------------------------------------------------- choosing

  predicate Ascending(c: seq<nat>) {
    forall a, b :: 0 <= a < b < |c| ==> c[a] < c[b]
  }

  lemma {:induction false} IndicesAre(cfg: Config, slots: seq<Slot>, n: nat, want: Wanted)
    requires n <= |slots|
    ensures var c := Indices(cfg, slots, n, want);
            && Ascending(c)
            && (forall a :: 0 <= a < |c| ==> c[a] < n && Pool.Fits(cfg, slots[c[a]], want))
            && (forall i :: 0 <= i < n && Pool.Fits(cfg, slots[i], want) ==> i in c)
  {
    if n > 0 {
      IndicesAre(cfg, slots, n - 1, want);
      var before, c := Indices(cfg, slots, n - 1, want), Indices(cfg, slots, n, want);
      forall i | 0 <= i < n && Pool.Fits(cfg, slots[i], want) ensures i in c {
        if i < n - 1 { assert i in before; }
      }
    }
  }

  /** A grant in exclusive mode: as many slots as were asked for, free, all different, and all
      connected, or at least usable, whenever enough such slots are free. */
  predicate GoodChoice(cfg: Config, slots: seq<Slot>, k: nat, c: seq<nat>) {
    && |c| == k && Ascending(c)
    && (forall a :: 0 <= a < k ==> c[a] < |slots| && slots[c[a]].users == 0)
    && (|Indices(cfg, slots, |slots|, FreeConnected)| >= k ==> forall a :: 0 <= a < k ==> slots[c[a]].state == Connected)
    && (AnyUsable(cfg, slots) ==> forall a :: 0 <= a < k ==> Usable(cfg, slots[c[a]]))
  }

  lemma {:induction false} ChoiceIsGood(cfg: Config, slots: seq<Slot>, k: nat)
    requires Choose(cfg, slots, k).Some?
    ensures GoodChoice(cfg, slots, k, Choose(cfg, slots, k).value)
  {
    IndicesAre(cfg, slots, |slots|, FreeConnected);
    IndicesAre(cfg, slots, |slots|, FreeUsable);
    IndicesAre(cfg, slots, |slots|, AnyFree);
  }

  // ---------------------------------------------------------------- each step keeps the invariant

  lemma {:induction false} NewOnSlot(c: seq<nat>, n: nat, i: nat)
    requires n <= |c|
    ensures Flying(NewSessions(c), n, i) == 0
    ensures (forall a :: 0 <= a < n ==> c[a] == i) ==> Held(NewSessions(c), n, i) == n
    ensures (forall a :: 0 <= a < n ==> c[a] != i) ==> Held(NewSessions(c), n, i) == 0
  {
    if n > 0 { NewOnSlot(c, n - 1, i); }
  }

  lemma {:induction false} NewOnDistinct(c: seq<nat>, n: nat, i: nat)
    requires n <= |c| && Ascending(c)
    ensures Held(NewSessions(c), n, i) == Unit(i in c[..n])
  {
    if n > 0 {
      NewOnDistinct(c, n - 1, i);
      assert c[..n] == c[..n - 1] + [c[n - 1]];
    }
  }

  /** What a reservation of the slots `c` adds to slot `i`. */
  lemma {:induction false} ReserveSums(s: State, c: seq<nat>, i: nat)
    ensures var ss := s.sessions + NewSessions(c);
            && Flying(ss, |ss|, i) == Flying(s.sessions, |s.sessions|, i)
            && Held(ss, |ss|, i) == Held(s.sessions, |s.sessions|, i) + Held(NewSessions(c), |c|, i)
  {
    SessionsAppended(s.sessions, NewSessions(c), |c|, i);
    NewOnSlot(c, |c|, i);
  }

  lemma {:induction false} ChosenAre(s: State, n: int, i: nat)
    requires s.slots != [] && Grant(s, n).Some? && !s.safe && i < |s.slots|
    ensures var c := Grant(s, n).value;
            && Held(NewSessions(c), |c|, i) == Unit(i in c)
            && (i in c ==> s.slots[i].users == 0)
  {
    var c := Grant(s, n).value;
    ChoiceIsGood(s.config, s.slots, Clamp(n, |s.slots|));
    NewOnDistinct(c, |c|, i);
    assert c[..|c|] == c;
  }

  lemma {:induction false} ReserveKeepsSlot(s: State, n: int, i: nat)
    requires Inv(s) && Enabled(s, Reserve(n)) && i < |s.slots|
    ensures SlotOk(Apply(s, Reserve(n)), i)
  {
    var c := Grant(s, n).value;
    assert SlotOk(s, i);
    ReserveSums(s, c, i);
    if s.safe { NewOnSlot(c, |c|, i); } else { ChosenAre(s, n, i); }
  }

  lemma {:induction false} ReserveKeepsInv(s: State, n: int)
    requires Inv(s) && Enabled(s, Reserve(n))
    ensures Inv(Apply(s, Reserve(n)))
  {
    var t, c := Apply(s, Reserve(n)), Grant(s, n).value;
    forall i | 0 <= i < |t.slots| ensures SlotOk(t, i) { ReserveKeepsSlot(s, n, i); }
    if s.slots != [] && !s.safe { ChoiceIsGood(s.config, s.slots, Clamp(n, |s.slots|)); }
    forall id | 0 <= id < |t.sessions| ensures InRange(t.sessions[id], |t.slots|) {
      if id < |s.sessions| { assert InRange(s.sessions[id], |s.slots|); }
    }
  }

  predicate SessionStep(a: Action, id: nat) {
    a == Release(id) || a == EnsureAlive(id) || (a.Restarted? && a.id == id) || a == SeesDeath(id)
  }

  /** One session changes, and with it the slot it is on. */
  lemma {:induction false} SessionSums(s: State, id: nat, x: Session, j: nat)
    requires id < |s.sessions| && j < |s.slots|
    ensures var ss, n := s.sessions[id := x], |s.sessions|;
            && Held(ss, n, j) == Held(s.sessions, n, j) - Unit(On(s.sessions[id], j)) + Unit(On(x, j))
            && Flying(ss, n, j) == Flying(s.sessions, n, j) - Unit(Restarting(s.sessions[id], j)) + Unit(Restarting(x, j))
    ensures On(s.sessions[id], j) ==> Held(s.sessions, |s.sessions|, j) >= 1
    ensures Restarting(s.sessions[id], j) ==> Flying(s.sessions, |s.sessions|, j) >= 1
  {
    OpenIsHeld(s.sessions, id, |s.sessions|, j);
    SessionUpdate(s.sessions, id, x, |s.sessions|, j);
  }

  lemma {:induction false} ReleaseKeepsSlot(s: State, id: nat, j: nat)
    requires Inv(s) && Enabled(s, Release(id)) && j < |s.slots|
    ensures SlotOk(Apply(s, Release(id)), j)
  {
    SessionSums(s, id, Closed, j);
    assert SlotOk(s, j);
  }

  lemma {:induction false} EnsureAliveKeepsSlot(s: State, id: nat, j: nat)
    requires Inv(s) && Enabled(s, EnsureAlive(id)) && j < |s.slots|
    ensures SlotOk(Apply(s, EnsureAlive(id)), j)
  {
    SessionSums(s, id, Launching(s.sessions[id].slot), j);
    assert SlotOk(s, j);
  }

  lemma {:induction false} RestartedKeepsSlot(s: State, id: nat, ok: bool, j: nat)
    requires Inv(s) && Enabled(s, Restarted(id, ok)) && j < |s.slots|
    ensures SlotOk(Apply(s, Restarted(id, ok)), j)
  {
    SessionSums(s, id, Using(s.sessions[id].slot), j);
    assert SlotOk(s, j);
  }

  lemma {:induction false} SessionKeepsSlot(s: State, a: Action, id: nat, j: nat)
    requires Inv(s) && Enabled(s, a) && SessionStep(a, id) && j < |s.slots|
    ensures SlotOk(Apply(s, a), j)
  {
    match a
    case Release(_) => ReleaseKeepsSlot(s, id, j);
    case EnsureAlive(_) => EnsureAliveKeepsSlot(s, id, j);
    case Restarted(_, ok) => RestartedKeepsSlot(s, id, ok, j);
    case SeesDeath(_) => assert SlotOk(s, j);
    case _ =>
  }

  lemma {:induction false} SessionKeepsInv(s: State, a: Action, id: nat)
    requires Inv(s) && Enabled(s, a) && SessionStep(a, id)
    ensures Inv(Apply(s, a))
  {
    var t := Apply(s, a);
    forall j | 0 <= j < |t.slots| ensures SlotOk(t, j) { SessionKeepsSlot(s, a, id, j); }
    forall k | 0 <= k < |t.sessions| ensures InRange(t.sessions[k], |t.slots|) {
      assert InRange(s.sessions[k], |s.slots|) && InRange(s.sessions[id], |s.slots|);
    }
  }

  lemma {:induction false} DeathKeepsInv(s: State, i: nat)
    requires Inv(s) && Enabled(s, Dies(i))
    ensures Inv(Apply(s, Dies(i)))
  {
    var t := Apply(s, Dies(i));
    forall j | 0 <= j < |t.slots| ensures SlotOk(t, j) { assert SlotOk(s, j); }
  }

  lemma {:induction false} OpenMeansUsed(s: State, id: nat)
    requires Inv(s) && id < |s.sessions|
    ensures !s.sessions[id].Closed? ==> s.sessions[id].slot < |s.slots| && s.slots[s.sessions[id].slot].users > 0
  {
    var x := s.sessions[id];
    assert InRange(x, |s.slots|);
    if !x.Closed? {
      OpenIsHeld(s.sessions, id, |s.sessions|, x.slot);
      assert SlotOk(s, x.slot);
    }
  }

  lemma {:induction false} IdleMeansClosed(s: State)
    requires Inv(s) && Idle(s.slots)
    ensures AllClosed(s.sessions)
  {
    forall id | 0 <= id < |s.sessions| ensures s.sessions[id].Closed? { OpenMeansUsed(s, id); }
  }

  lemma {:induction false} RestInRange(n: nat)
    ensures forall i :: i in Rest(n) ==> 0 < i < n
  {
    if n > 1 { RestInRange(n - 1); }
  }

  lemma {:induction false} OpEndsKeepInv(s: State, a: Action)
    requires Inv(s) && Enabled(s, a) && (a.BeginOp? || a.Finish?)
    ensures Inv(Apply(s, a))
  {
    var t := Apply(s, a);
    forall j | 0 <= j < |t.slots| ensures SlotOk(t, j) { assert SlotOk(s, j); }
  }

  lemma {:induction false} DrainedKeepsInv(s: State)
    requires Inv(s) && Enabled(s, Drained)
    ensures Inv(Apply(s, Drained))
  {
    var t := Apply(s, Drained);
    IdleMeansClosed(s);
    forall j | 0 <= j < |t.slots| ensures SlotOk(t, j) {
      ClosedHoldNothing(s.sessions, |s.sessions|, j);
      if j < |s.slots| { assert SlotOk(s, j); }
    }
  }

  lemma {:induction false} LaunchKeepsInv(s: State, a: Action)
    requires Inv(s) && Enabled(s, a) && (a.RunnersStopped? || a.LaunchBegin? || a.LaunchEnd?)
    ensures Inv(Apply(s, a))
  {
    var t := Apply(s, a);
    forall j | 0 <= j < |t.slots| ensures SlotOk(t, j) {
      assert SlotOk(s, j);
      ClosedHoldNothing(s.sessions, |s.sessions|, j);
    }
  }

  lemma {:induction false} ProbedKeepsInv(s: State, isSafe: bool)
    requires Inv(s) && Enabled(s, Probed(isSafe))
    ensures Inv(Apply(s, Probed(isSafe)))
  {
    var t := Apply(s, Probed(isSafe));
    RestInRange(|s.slots|);
    forall j | 0 <= j < |t.slots| ensures SlotOk(t, j) {
      assert SlotOk(s, j);
      ClosedHoldNothing(s.sessions, |s.sessions|, j);
    }
  }

  /** Every step keeps the invariant. */
  lemma {:induction false} StepKeepsInv(s: State, a: Action)
    requires Inv(s) && Enabled(s, a)
    ensures Inv(Apply(s, a))
  {
    match a
    case Reserve(n) => ReserveKeepsInv(s, n);
    case Release(id) => SessionKeepsInv(s, a, id);
    case EnsureAlive(id) => SessionKeepsInv(s, a, id);
    case Restarted(id, _) => SessionKeepsInv(s, a, id);
    case SeesDeath(id) => SessionKeepsInv(s, a, id);
    case Dies(i) => DeathKeepsInv(s, i);
    case BeginOp(_) => OpEndsKeepInv(s, a);
    case Finish => OpEndsKeepInv(s, a);
    case Drained => DrainedKeepsInv(s);
    case Probed(isSafe) => ProbedKeepsInv(s, isSafe);
    case _ => LaunchKeepsInv(s, a);
  }

  // ---------------------------------------------------------------- whole runs

  /** `ss[k + 1]` comes out of `ss[k]` by the step `acts[k]`. */
  ghost predicate Run(ss: seq<State>, acts: seq<Action>) {
    |ss| == |acts| + 1 && forall k :: 0 <= k < |acts| ==> Enabled(ss[k], acts[k]) && ss[k + 1] == Apply(ss[k], acts[k])
  }

  /** The pool before its first `start`. */
  predicate Initial(s: State) {
    s.slots == [] && s.autos == [] && s.sessions == [] && !s.safe && !s.draining && s.lifecycle.Quiet?
  }

  lemma {:induction false} RunKeepsInv(ss: seq<State>, acts: seq<Action>, k: nat)
    requires Run(ss, acts) && Inv(ss[0]) && k <= |acts|
    ensures Inv(ss[k])
  {
    if k > 0 {
      RunKeepsInv(ss, acts, k - 1);
      StepKeepsInv(ss[k - 1], acts[k - 1]);
    }
  }

  function TotalUsers(slots: seq<Slot>, m: nat): nat
    requires m <= |slots|
  {
    if m == 0 then 0 else TotalUsers(slots, m - 1) + slots[m - 1].users
  }

  function OpenSessions(ss: seq<Session>, n: nat): nat
    requires n <= |ss|
  {
    if n == 0 then 0 else OpenSessions(ss, n - 1) + Unit(!ss[n - 1].Closed?)
  }

  function HeldSum(ss: seq<Session>, n: nat, m: nat): nat
    requires n <= |ss|
  {
    if m == 0 then 0 else HeldSum(ss, n, m - 1) + Held(ss, n, m - 1)
  }

  lemma {:induction false} HeldSumStep(ss: seq<Session>, n: nat, m: nat)
    requires 0 < n <= |ss|
    ensures HeldSum(ss, n, m) == HeldSum(ss, n - 1, m) + Unit(!ss[n - 1].Closed? && ss[n - 1].slot < m)
  {
    if m > 0 { HeldSumStep(ss, n, m - 1); }
  }

  lemma {:induction false} NothingHeld(ss: seq<Session>, m: nat)
    ensures HeldSum(ss, 0, m) == 0
  {
    if m > 0 { NothingHeld(ss, m - 1); }
  }

  lemma {:induction false} HeldSumIsOpen(ss: seq<Session>, n: nat, m: nat)
    requires n <= |ss| && forall id :: 0 <= id < n ==> InRange(ss[id], m)
    ensures HeldSum(ss, n, m) == OpenSessions(ss, n)
  {
    if n == 0 {
      NothingHeld(ss, m);
    } else {
      HeldSumIsOpen(ss, n - 1, m);
      HeldSumStep(ss, n, m);
      assert InRange(ss[n - 1], m);
    }
  }

  lemma {:induction false} UsersAreHeld(s: State, m: nat)
    requires Inv(s) && m <= |s.slots|
    ensures TotalUsers(s.slots, m) == HeldSum(s.sessions, |s.sessions|, m)
  {
    if m > 0 {
      UsersAreHeld(s, m - 1);
      assert SlotOk(s, m - 1);
    }
  }

  lemma {:induction false} TwoHeld(ss: seq<Session>, a: nat, b: nat, n: nat, i: nat)
    requires a < b < n <= |ss| && On(ss[a], i) && On(ss[b], i)
    ensures Held(ss, n, i) >= 2
  {
    if b < n - 1 { TwoHeld(ss, a, b, n - 1, i); } else { OpenIsHeld(ss, a, n - 1, i); }
  }

  /** No two open sessions are on one slot. */
  predicate Exclusive(ss: seq<Session>) {
    forall a, b :: 0 <= a < b < |ss| && !ss[a].Closed? && !ss[b].Closed? ==> ss[a].slot != ss[b].slot
  }

  predicate SafeState(s: State) {
    && |s.autos| == |s.slots|
    && (!s.safe ==> Exclusive(s.sessions) && forall i :: 0 <= i < |s.slots| ==> s.slots[i].users <= 1)
    && TotalUsers(s.slots, |s.slots|) == OpenSessions(s.sessions, |s.sessions|)
    && (PastIdle(s.lifecycle) ==> AllClosed(s.sessions))
    && (forall i :: 0 <= i < |s.slots| ==> Starts(s, i) <= 1)
    && (forall i :: 0 <= i < |s.slots| && s.autos[i] > 0 ==> s.autos[i] <= s.config.maxRestarts)
  }

  lemma {:induction false} InvIsSafe(s: State)
    requires Inv(s)
    ensures SafeState(s)
  {
    UsersAreHeld(s, |s.slots|);
    HeldSumIsOpen(s.sessions, |s.sessions|, |s.slots|);
    forall i | 0 <= i < |s.slots|
      ensures (!s.safe ==> s.slots[i].users <= 1) && Starts(s, i) <= 1 && (s.autos[i] > 0 ==> s.autos[i] <= s.config.maxRestarts)
    {
      assert SlotOk(s, i);
    }
    if !s.safe { SessionsExclude(s); }
  }

  lemma {:induction false} SessionsExclude(s: State)
    requires Inv(s) && !s.safe
    ensures Exclusive(s.sessions)
  {
    forall a, b | 0 <= a < b < |s.sessions| && !s.sessions[a].Closed? && !s.sessions[b].Closed?
      ensures s.sessions[a].slot != s.sessions[b].slot
    {
      var i := s.sessions[a].slot;
      assert InRange(s.sessions[a], |s.slots|) && SlotOk(s, i);
      if s.sessions[b].slot == i { TwoHeld(s.sessions, a, b, |s.sessions|, i); }
    }
  }

  /** In every reachable state: one session at most per slot unless the runner is shared, users in
      all equal to reservations outstanding, no session while runners are stopped and started, at
      most one start under way per slot, and automatic restarts within the budget. */
  lemma {:induction false} ReachableIsSafe(ss: seq<State>, acts: seq<Action>, k: nat)
    requires Run(ss, acts) && Initial(ss[0]) && k <= |acts|
    ensures SafeState(ss[k])
  {
    RunKeepsInv(ss, acts, k);
    InvIsSafe(ss[k]);
  }

  // ---------------------------------------------------------------- who has to wait

  function UsableCount(cfg: Config, slots: seq<Slot>, n: nat): nat
    requires n <= |slots|
  {
    if n == 0 then 0 else UsableCount(cfg, slots, n - 1) + Unit(Usable(cfg, slots[n - 1]))
  }

  function UsableSlots(s: State): nat {
    UsableCount(s.config, s.slots, |s.slots|)
  }

  lemma {:induction false} CountOfUsable(cfg: Config, slots: seq<Slot>, n: nat)
    requires n <= |slots|
    ensures |Indices(cfg, slots, n, FreeConnected)| <= |Indices(cfg, slots, n, FreeUsable)| <= UsableCount(cfg, slots, n)
    ensures UsableCount(cfg, slots, n) > 0 <==> exists i :: 0 <= i < n && Usable(cfg, slots[i])
    ensures (forall i :: 0 <= i < n ==> slots[i].users == 0) ==>
              |Indices(cfg, slots, n, FreeUsable)| == UsableCount(cfg, slots, n) && |Indices(cfg, slots, n, AnyFree)| == n
  {
    if n > 0 { CountOfUsable(cfg, slots, n - 1); }
  }

  lemma {:induction false} ClosedMeansFree(s: State)
    requires Inv(s) && AllClosed(s.sessions)
    ensures forall i :: 0 <= i < |s.slots| ==> s.slots[i].users == 0
    ensures !s.lifecycle.Starting? ==> Idle(s.slots)
  {
    forall i | 0 <= i < |s.slots| ensures s.slots[i].users == 0 && (!s.lifecycle.Starting? ==> !s.slots[i].restarting) {
      assert SlotOk(s, i);
      ClosedHoldNothing(s.sessions, |s.sessions|, i);
    }
  }

  /** Once all reservations are given back and nothing drains the pool, a request for `n` slots is
      granted exactly when `n`, within 1 and the size of the pool, is at most the number of usable
      slots or no slot is usable. So a request for one slot is never stuck on an idle pool, and
      since a waiting request holds nothing, neither are two that ask for several. */
  lemma {:induction false} GrantedWhenIdle(s: State, n: int)
    requires Inv(s) && s.lifecycle.Quiet? && AllClosed(s.sessions) && s.slots != []
    ensures Enabled(s, Reserve(n)) <==>
              s.safe || Clamp(n, |s.slots|) <= UsableSlots(s) || UsableSlots(s) == 0
    ensures n <= 1 ==> Enabled(s, Reserve(n))
  {
    ClosedMeansFree(s);
    CountOfUsable(s.config, s.slots, |s.slots|);
  }

  /** `waitForIdle` returns once all reservations are given back. */
  lemma {:induction false} DrainEnds(s: State)
    requires Inv(s) && s.lifecycle.Draining? && AllClosed(s.sessions)
    ensures Enabled(s, Drained)
  {
    ClosedMeansFree(s);
  }

  /** A step of the sessions, not of `start`, `stopRunner` or `restartRunner`. */
  predicate Ordinary(a: Action) {
    a.Reserve? || a.Release? || a.EnsureAlive? || a.Restarted? || a.Dies? || a.SeesDeath?
  }

  lemma {:induction false} UnusableStays(s: State, a: Action, i: nat)
    requires Inv(s) && Enabled(s, a) && Ordinary(a) && i < |s.slots|
    ensures |Apply(s, a).slots| == |s.slots| && Apply(s, a).config == s.config
    ensures Usable(s.config, Apply(s, a).slots[i]) ==> Usable(s.config, s.slots[i])
  {
    assert SlotOk(s, i);
    if a.Restarted? && s.sessions[a.id].slot == i { OpenIsHeld(s.sessions, a.id, |s.sessions|, i); }
  }

  lemma {:induction false} CountShrinks(cfg: Config, before: seq<Slot>, after: seq<Slot>, n: nat)
    requires n <= |before| == |after| && forall i :: 0 <= i < n && Usable(cfg, after[i]) ==> Usable(cfg, before[i])
    ensures UsableCount(cfg, after, n) <= UsableCount(cfg, before, n)
  {
    if n > 0 { CountShrinks(cfg, before, after, n - 1); }
  }

  lemma {:induction false} UsableShrinks(s: State, a: Action)
    requires Inv(s) && Enabled(s, a) && Ordinary(a)
    ensures var t := Apply(s, a);
            |t.slots| == |s.slots| && t.safe == s.safe && UsableSlots(t) <= UsableSlots(s)
  {
    var t := Apply(s, a);
    forall i | 0 <= i < |s.slots| ensures Usable(s.config, t.slots[i]) ==> Usable(s.config, s.slots[i]) {
      UnusableStays(s, a, i);
    }
    if s.slots != [] { UnusableStays(s, a, 0); }
    CountShrinks(s.config, s.slots, t.slots, |s.slots|);
  }

  lemma {:induction false} RunShrinks(ss: seq<State>, acts: seq<Action>, k: nat)
    requires Run(ss, acts) && Inv(ss[0]) && k <= |acts| && forall j :: 0 <= j < |acts| ==> Ordinary(acts[j])
    ensures |ss[k].slots| == |ss[0].slots| && ss[k].safe == ss[0].safe && UsableSlots(ss[k]) <= UsableSlots(ss[0])
  {
    if k > 0 {
      RunShrinks(ss, acts, k - 1);
      RunKeepsInv(ss, acts, k - 1);
      UsableShrinks(ss[k - 1], acts[k - 1]);
    }
  }

  /** A request for more slots than are usable waits, however often the others come and go, as long
      as some slot is usable and nobody starts, stops or restarts the pool. */
  lemma {:induction false} WaitsForGood(ss: seq<State>, acts: seq<Action>, n: int, k: nat)
    requires Run(ss, acts) && Inv(ss[0]) && k <= |acts| && forall j :: 0 <= j < |acts| ==> Ordinary(acts[j])
    requires !ss[0].safe && ss[0].slots != [] && UsableSlots(ss[0]) < Clamp(n, |ss[0].slots|)
    ensures UsableSlots(ss[k]) > 0 ==> !Enabled(ss[k], Reserve(n))
  {
    RunShrinks(ss, acts, k);
    CountOfUsable(ss[k].config, ss[k].slots, |ss[k].slots|);
  }

  /** A `start` of two runners, without automatic restarts, as far as the first runner. */
  function FirstStarts(): seq<Action> {
    [BeginOp(OpStart(Config(false, 5), 2)), Drained, LaunchBegin(0), LaunchEnd(0, true)]
  }

  /** The rest of it: the second runner fails to start. */
  function SecondFails(): seq<Action> {
    [Probed(false), LaunchBegin(1), LaunchEnd(1, false), Finish]
  }

  predicate HalfStarted(s: State) {
    && s.slots == [Slot(0, Connected, 0, false, Alive), Slot(0, Disconnected, 0, false, NoRunner)]
    && s.lifecycle == Starting({}, {}, false) && !s.config.autoRestart && !s.safe && s.sessions == []
  }

  lemma {:induction false} FirstStart(s0: State) returns (ss: seq<State>)
    requires Initial(s0)
    ensures Run(ss, FirstStarts()) && ss[0] == s0 && HalfStarted(ss[4])
  {
    var acts := FirstStarts();
    var s1 := Apply(s0, acts[0]);
    var s2 := Apply(s1, acts[1]);
    assert s2.slots == [Slot(0, Disconnected, 0, false, NoRunner), Slot(0, Disconnected, 0, false, NoRunner)];
    var s3 := Apply(s2, acts[2]);
    ss := [s0, s1, s2, s3, Apply(s3, acts[3])];
  }

  lemma {:induction false} SecondFailure(s0: State) returns (ss: seq<State>)
    requires HalfStarted(s0)
    ensures Run(ss, SecondFails()) && ss[0] == s0
    ensures ss[4].slots == [Slot(0, Connected, 0, false, Alive), Slot(0, RunnerError, 0, false, NoRunner)]
    ensures ss[4].lifecycle.Quiet? && ss[4].sessions == [] && !ss[4].config.autoRestart && !ss[4].safe
  {
    var acts := SecondFails();
    assert Rest(2) == {1};
    var s1 := Apply(s0, acts[0]);
    var s2 := Apply(s1, acts[1]);
    var s3 := Apply(s2, acts[2]);
    ss := [s0, s1, s2, s3, Apply(s3, acts[3])];
  }

  lemma {:induction false} RunsJoin(ss: seq<State>, more: seq<State>, acts: seq<Action>, further: seq<Action>)
    requires Run(ss, acts) && Run(more, further) && ss[|acts|] == more[0]
    ensures Run(ss + more[1..], acts + further)
  {
    var all, steps := ss + more[1..], acts + further;
    forall k | 0 <= k < |steps| ensures Enabled(all[k], steps[k]) && all[k + 1] == Apply(all[k], steps[k]) {
      if k >= |acts| {
        var j := k - |acts|;
        assert all[k] == more[j] && all[k + 1] == more[j + 1] && steps[k] == further[j];
      }
    }
  }

  /** After a start that brought up one runner of two the pool is idle, and yet a test with two
      streams waits for good. */
  lemma {:induction false} WaitsOnAnIdlePool(s0: State) returns (ss: seq<State>)
    requires Initial(s0)
    ensures Run(ss, FirstStarts() + SecondFails()) && ss[0] == s0
    ensures var s := ss[8];
            s.lifecycle.Quiet? && s.sessions == [] && |s.slots| == 2 && UsableSlots(s) == 1 && !Enabled(s, Reserve(2))
  {
    var one := FirstStart(s0);
    var two := SecondFailure(one[4]);
    RunsJoin(one, two, FirstStarts(), SecondFails());
    ss := one + two[1..];
    RunKeepsInv(ss, FirstStarts() + SecondFails(), 8);
    OneIsUsable(ss[8]);
    GrantedWhenIdle(ss[8], 2);
  }

  lemma {:induction false} OneIsUsable(s: State)
    requires s.slots == [Slot(0, Connected, 0, false, Alive), Slot(0, RunnerError, 0, false, NoRunner)]
    requires !s.config.autoRestart
    ensures UsableSlots(s) == 1
  {
    assert UsableCount(s.config, s.slots, 1) == 1;
  }
}
