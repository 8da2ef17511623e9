/** The states of the runner pool and the atomic steps between them: every step is one critical
    section under the pool's mutex, and a blocked wait is a step that is not enabled yet
    (src/runner/runner_bridge.cpp). */
module Pool {
  import opened Text

  datatype RunnerState = Disconnected | Connecting | Connected | Busy | RunnerError

  /** The runner process of a slot. */
  datatype Proc = NoRunner | Alive | Dead

  datatype Slot = Slot(users: nat, state: RunnerState, restarts: nat, restarting: bool, proc: Proc)

  datatype Config = Config(autoRestart: bool, maxRestarts: int)

  /** A reservation of one slot: handed out, possibly attached to a thread, and given back once.
      `Launching` is the thread inside `ensureAlive` that restarts the slot's runner. */
  datatype Session = Closed | Using(slot: nat) | Launching(slot: nat)

  datatype Op = OpStart(config: Config, size: int) | OpStop | OpRestart

  /** Where `start`, `stopRunner` or `restartRunner` is; at most one of them runs at a time. */
  datatype Lifecycle =
    | Quiet
    | Draining(op: Op)
    | Stopping(op: Op)
    | Starting(todo: set<nat>, flying: set<nat>, probed: bool)

  datatype State = State(slots: seq<Slot>, config: Config, safe: bool, draining: bool, lifecycle: Lifecycle,
                         sessions: seq<Session>,
                         /* automatic restarts of each slot since `start` */ autos: seq<nat>)

  const MAX_POOL_SIZE := 64

  // ---------------------------------------------------------------- choosing slots

  predicate Usable(cfg: Config, slot: Slot) {
    slot.state != RunnerError || (cfg.autoRestart && slot.restarts < cfg.maxRestarts)
  }

  datatype Wanted = AnyFree | FreeUsable | FreeConnected

  predicate Fits(cfg: Config, slot: Slot, want: Wanted) {
    && slot.users == 0
    && (want.AnyFree? || Usable(cfg, slot))
    && (want.FreeConnected? ==> slot.state == Connected)
  }

  /** The slots of the wanted kind among the first `n`, lowest index first. */
  function Indices(cfg: Config, slots: seq<Slot>, n: nat, want: Wanted): seq<nat>
    requires n <= |slots|
  {
    if n == 0 then []
    else Indices(cfg, slots, n - 1, want) + if Fits(cfg, slots[n - 1], want) then [n - 1] else []
  }

  predicate AnyUsable(cfg: Config, slots: seq<Slot>) {
    exists i :: 0 <= i < |slots| && Usable(cfg, slots[i])
  }

  function Clamp(n: int, size: nat): (k: int)
    requires size > 0
    ensures 1 <= k <= size && (1 <= n <= size ==> k == n)
  {
    if n < 1 then 1 else if n > size then size else n
  }

  /** `reserveSlotsLocked` in exclusive mode: `None` if the request has to wait. */
  function Choose(cfg: Config, slots: seq<Slot>, k: nat): Option<seq<nat>> {
    var connected := Indices(cfg, slots, |slots|, FreeConnected);
    var usable := Indices(cfg, slots, |slots|, FreeUsable);
    var free := Indices(cfg, slots, |slots|, AnyFree);
    if |connected| >= k then Some(connected[..k])
    else if |usable| >= k then Some(usable[..k])
    else if !AnyUsable(cfg, slots) && |free| >= k then Some(free[..k])
    else None
  }

  function Grant(s: State, n: int): Option<seq<nat>> {
    if s.slots == [] then Some([])
    else if s.draining then None
    else if s.safe then Some(seq(if n < 1 then 1 else n, i => 0))
    else Choose(s.config, s.slots, Clamp(n, |s.slots|))
  }

  function SlotsGranted(slots: seq<Slot>, safe: bool, chosen: seq<nat>): (r: seq<Slot>)
    ensures |r| == |slots|
  {
    if safe && slots != [] then slots[0 := slots[0].(users := slots[0].users + |chosen|)]
    else seq(|slots|, i requires 0 <= i < |slots| => if i in chosen then slots[i].(users := 1) else slots[i])
  }

  function NewSessions(chosen: seq<nat>): (r: seq<Session>)
    ensures |r| == |chosen| && forall j :: 0 <= j < |chosen| ==> r[j] == Using(chosen[j])
  {
    seq(|chosen|, j requires 0 <= j < |chosen| => Using(chosen[j]))
  }

  // ---------------------------------------------------------------- the steps

  datatype Action =
    | Reserve(n: int)
    | Release(id: nat)
    | EnsureAlive(id: nat)
    | Restarted(id: nat, ok: bool)
    | Dies(slot: nat)
    | SeesDeath(id: nat)
    | BeginOp(op: Op)
    | Drained
    | RunnersStopped
    | LaunchBegin(slot: nat)
    | LaunchEnd(slot: nat, ok: bool)
    | Probed(isSafe: bool)
    | Finish

  predicate UsingSlot(s: State, id: nat) {
    id < |s.sessions| && s.sessions[id].Using? && s.sessions[id].slot < |s.slots|
  }

  predicate Idle(slots: seq<Slot>) {
    forall i :: 0 <= i < |slots| ==> slots[i].users == 0 && !slots[i].restarting
  }

  predicate Enabled(s: State, a: Action) {
    match a
    case Reserve(n) => Grant(s, n).Some?
    case Release(id) => UsingSlot(s, id)
    case EnsureAlive(id) => UsingSlot(s, id) && !s.slots[s.sessions[id].slot].restarting
    case Restarted(id, _) => id < |s.sessions| && s.sessions[id].Launching? && s.sessions[id].slot < |s.slots|
    case Dies(slot) => slot < |s.slots| && s.slots[slot].proc.Alive?
    case SeesDeath(id) => UsingSlot(s, id) && s.slots[s.sessions[id].slot].proc.Dead?
    case BeginOp(op) =>
      && s.lifecycle.Quiet?
      && (if op.OpStart? then forall i :: 0 <= i < |s.slots| ==> s.slots[i].state != Connected && s.slots[i].state != Busy
          else s.slots != [])
    case Drained => s.lifecycle.Draining? && Idle(s.slots)
    case RunnersStopped => s.lifecycle.Stopping?
    case LaunchBegin(slot) => s.lifecycle.Starting? && slot in s.lifecycle.todo && slot < |s.slots|
    case LaunchEnd(slot, _) => s.lifecycle.Starting? && slot in s.lifecycle.flying && slot < |s.slots|
    case Probed(_) => s.lifecycle.Starting? && s.lifecycle.todo == {} && s.lifecycle.flying == {} && !s.lifecycle.probed
    case Finish => s.lifecycle.Starting? && s.lifecycle.todo == {} && s.lifecycle.flying == {} && s.lifecycle.probed
  }

  function NewSlots(size: int): seq<Slot> {
    seq(Clamp(size, MAX_POOL_SIZE), i => Slot(0, Disconnected, 0, false, NoRunner))
  }

  function StoppedSlots(slots: seq<Slot>): (r: seq<Slot>)
    ensures |r| == |slots|
  {
    seq(|slots|, i requires 0 <= i < |slots| => slots[i].(proc := NoRunner, state := Disconnected))
  }

  function RecountedSlots(slots: seq<Slot>): (r: seq<Slot>)
    ensures |r| == |slots|
  {
    seq(|slots|, i requires 0 <= i < |slots| => slots[i].(restarts := slots[i].restarts + 1))
  }

  /** All slots but the first, which has been launched as the probe. */
  function Rest(n: nat): set<nat> {
    if n <= 1 then {} else Rest(n - 1) + {n - 1}
  }

  /** The end of `startSlot`. */
  function Launched(slot: Slot, ok: bool): Slot {
    slot.(proc := if ok then Alive else NoRunner, state := if ok then Connected else RunnerError, restarting := false)
  }

  /** What `ensureAlive` makes of a slot whose runner is gone. */
  function Revived(cfg: Config, slot: Slot): Slot {
    if !cfg.autoRestart then
      if slot.state != Disconnected then slot.(state := RunnerError) else slot
    else if slot.restarts >= cfg.maxRestarts then slot.(state := RunnerError)
    else slot.(restarts := slot.restarts + 1, restarting := true, proc := NoRunner, state := Connecting)
  }

  predicate Restarts(cfg: Config, slot: Slot) {
    !slot.proc.Alive? && cfg.autoRestart && slot.restarts < cfg.maxRestarts
  }

  function Apply(s: State, a: Action): State
    requires Enabled(s, a)
  {
    match a
    case Reserve(n) =>
      var chosen := Grant(s, n).value;
      s.(slots := SlotsGranted(s.slots, s.safe, chosen), sessions := s.sessions + NewSessions(chosen))
    case Release(id) =>
      var i := s.sessions[id].slot;
      var slot := s.slots[i];
      s.(slots := s.slots[i := if slot.users > 0 then slot.(users := slot.users - 1) else slot],
         sessions := s.sessions[id := Closed])
    case EnsureAlive(id) =>
      var i := s.sessions[id].slot;
      if s.slots[i].proc.Alive? then s
      else if Restarts(s.config, s.slots[i]) && i < |s.autos| then
        s.(slots := s.slots[i := Revived(s.config, s.slots[i])], sessions := s.sessions[id := Launching(i)],
           autos := s.autos[i := s.autos[i] + 1])
      else s.(slots := s.slots[i := Revived(s.config, s.slots[i])])
    case Restarted(id, ok) =>
      var i := s.sessions[id].slot;
      s.(slots := s.slots[i := Launched(s.slots[i], ok)], sessions := s.sessions[id := Using(i)])
    case Dies(slot) => s.(slots := s.slots[slot := s.slots[slot].(proc := Dead)])
    case SeesDeath(id) =>
      var i := s.sessions[id].slot;
      s.(slots := s.slots[i := s.slots[i].(state := RunnerError)])
    case BeginOp(op) => s.(draining := true, lifecycle := Draining(op))
    case Drained =>
      (match s.lifecycle.op
       case OpStart(config, size) =>
         var slots := NewSlots(size);
         s.(config := config, safe := false, slots := slots, autos := seq(|slots|, i => 0),
            lifecycle := Starting({0}, {}, false))
       case op => s.(slots := StoppedSlots(s.slots), lifecycle := Stopping(op)))
    case RunnersStopped =>
      if s.lifecycle.op.OpRestart? then s.(slots := RecountedSlots(s.slots), lifecycle := Starting({0}, {}, false))
      else s.(draining := false, lifecycle := Quiet)
    case LaunchBegin(slot) =>
      s.(slots := s.slots[slot := s.slots[slot].(state := Connecting, restarting := true)],
         lifecycle := s.lifecycle.(todo := s.lifecycle.todo - {slot}, flying := s.lifecycle.flying + {slot}))
    case LaunchEnd(slot, ok) =>
      s.(slots := s.slots[slot := Launched(s.slots[slot], ok)],
         lifecycle := s.lifecycle.(flying := s.lifecycle.flying - {slot}))
    case Probed(isSafe) =>
      if isSafe && s.slots != [] && s.autos != [] then
        s.(safe := true, slots := s.slots[..1], autos := s.autos[..1], lifecycle := Starting({}, {}, true))
      else
        s.(lifecycle := Starting(Rest(|s.slots|), {}, true))
    case Finish => s.(draining := false, lifecycle := Quiet)
  }
}
