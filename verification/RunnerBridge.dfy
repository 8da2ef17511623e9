/** The runner pool as the object that the threads share: one method per critical section
    (src/runner/runner_bridge.cpp). */
module RunnerBridge {
  import opened Text
  import opened Pool
  import opened PoolRuns

  class Bridge {
    var slots: seq<Slot>
    var config: Config
    var draining: bool
    var concurrencySafe: bool
    // Where the threads are.
    ghost var lifecycle: Lifecycle
    ghost var sessions: seq<Session>
    ghost var autos: seq<nat>

    ghost function View(): State
      reads this
    {
      State(slots, config, concurrencySafe, draining, lifecycle, sessions, autos)
    }

    ghost predicate Valid()
      reads this
    {
      Inv(View())
    }

    ghost predicate Can(a: Action)
      reads this
    {
      Inv(View()) && Enabled(View(), a)
    }

    /** The critical section has done exactly the step `a`, and the invariant still holds. */
    twostate predicate Did(a: Action)
      reads this
    {
      old(Can(a)) && View() == Apply(old(View()), a) && Valid()
    }

    constructor (config: Config)
      ensures Initial(View()) && Valid()
    {
      slots, this.config, draining, concurrencySafe := [], config, false, false;
      lifecycle, sessions, autos := Quiet, [], [];
    }

    /** The wait condition and the assignment of `reserveSlotsLocked`. */
    method ReserveSlots(n: int) returns (chosen: Option<seq<nat>>)
      requires Valid()
      modifies this`slots, this`sessions
      ensures chosen == Grant(old(View()), n)
      ensures if chosen.Some? then Did(Reserve(n)) else View() == old(View())
    {
      if slots == [] { return Some([]); }
      if draining { return None; }
      ghost var before := View();
      if concurrencySafe {
        var k := if n < 1 then 1 else n;
        chosen := Some(seq(k, i => 0));
        slots := slots[0 := slots[0].(users := slots[0].users + k)];
      } else {
        chosen := ChooseSlots(Clamp(n, |slots|));
        if chosen == None { return; }
        ChoiceIsGood(config, slots, Clamp(n, |slots|));
        Occupy(chosen.value);
      }
      sessions := sessions + NewSessions(chosen.value);
      StepKeepsInv(before, Reserve(n));
    }

    method ChooseSlots(k: nat) returns (chosen: Option<seq<nat>>)
      requires k >= 1
      ensures chosen == Choose(config, slots, k)
    {
      var connected, freeUsable, freeAny := [], [], [];
      var anyUsable := false;
      var i := 0;
      while i < |slots|
        invariant 0 <= i <= |slots|
        invariant anyUsable <==> exists j :: 0 <= j < i && Usable(config, slots[j])
        invariant connected == Indices(config, slots, i, FreeConnected)
        invariant freeUsable == Indices(config, slots, i, FreeUsable)
        invariant freeAny == Indices(config, slots, i, AnyFree)
      {
        var slot := slots[i];
        var ok := Usable(config, slot);
        anyUsable := anyUsable || ok;
        if slot.users == 0 {
          freeAny := freeAny + [i];
          if ok {
            freeUsable := freeUsable + [i];
            if slot.state == Connected { connected := connected + [i]; }
          }
        }
        i := i + 1;
      }
      if |connected| >= k {
        chosen := Some(connected[..k]);
      } else if |freeUsable| >= k {
        chosen := Some(freeUsable[..k]);
      } else if !anyUsable && |freeAny| >= k {
        chosen := Some(freeAny[..k]);
      } else {
        chosen := None;
      }
    }

    method Occupy(chosen: seq<nat>)
      requires forall a :: 0 <= a < |chosen| ==> chosen[a] < |slots|
      modifies this`slots
      ensures slots == SlotsGranted(old(slots), false, chosen)
    {
      var a := 0;
      while a < |chosen|
        invariant 0 <= a <= |chosen| && |slots| == |old(slots)|
        invariant forall i :: 0 <= i < |slots| ==>
                    slots[i] == if i in chosen[..a] then old(slots)[i].(users := 1) else old(slots)[i]
      {
        assert chosen[..a + 1] == chosen[..a] + [chosen[a]];
        slots := slots[chosen[a] := slots[chosen[a]].(users := 1)];
        a := a + 1;
      }
      assert chosen[..a] == chosen;
    }

    /** The end of the session `id`. */
    method ReleaseSlot(index: nat, ghost id: nat)
      requires Can(Release(id)) && sessions[id].slot == index
      modifies this`slots, this`sessions
      ensures Did(Release(id))
    {
      StepKeepsInv(View(), Release(id));
      if index < |slots| && slots[index].users > 0 {
        slots := slots[index := slots[index].(users := slots[index].users - 1)];
      }
      sessions := sessions[id := Closed];
    }

    /** `ensureAlive` after its wait: is the runner alive, or is this thread to launch a new one? */
    method EnsureAlive(index: nat, ghost id: nat) returns (alive: bool, launch: bool)
      requires Can(Pool.EnsureAlive(id)) && sessions[id].slot == index
      modifies this`slots, this`sessions, this`autos
      ensures Did(Pool.EnsureAlive(id))
      ensures alive <==> old(slots[index].proc).Alive?
      ensures launch <==> sessions[id].Launching?
    {
      StepKeepsInv(View(), Pool.EnsureAlive(id));
      var slot := slots[index];
      alive, launch := slot.proc.Alive?, false;
      if alive { return; }
      if !config.autoRestart {
        if slot.state != Disconnected {
          slots := slots[index := slot.(state := RunnerError)];
        }
        return;
      }
      if slot.restarts >= config.maxRestarts {
        slots := slots[index := slot.(state := RunnerError)];
        return;
      }
      launch := true;
      slots := slots[index := slot.(restarts := slot.restarts + 1, restarting := true, proc := NoRunner, state := Connecting)];
      sessions, autos := sessions[id := Launching(index)], autos[index := autos[index] + 1];
    }

    /** The last part of `startSlot`, for a session that restarts its runner. */
    method RestartDone(index: nat, ok: bool, ghost id: nat)
      requires Can(Restarted(id, ok)) && sessions[id].slot == index
      modifies this`slots, this`sessions
      ensures Did(Restarted(id, ok))
    {
      StepKeepsInv(View(), Restarted(id, ok));
      SetResult(index, ok);
      sessions := sessions[id := Using(index)];
    }

    method SetResult(index: nat, ok: bool)
      requires index < |slots|
      modifies this`slots
      ensures slots == old(slots)[index := Launched(old(slots)[index], ok)]
    {
      var slot := slots[index];
      if ok {
        slot := slot.(proc := Alive, state := Connected);
      } else {
        slot := slot.(proc := NoRunner, state := RunnerError);
      }
      slots := slots[index := slot.(restarting := false)];
    }

    /** The runner died under a step or a hook. */
    method SeesDeath(index: nat, ghost id: nat)
      requires Can(Pool.SeesDeath(id)) && sessions[id].slot == index
      modifies this`slots
      ensures Did(Pool.SeesDeath(id))
    {
      StepKeepsInv(View(), Pool.SeesDeath(id));
      slots := slots[index := slots[index].(state := RunnerError)];
    }

    /** The beginning of `start`, `stopRunner` and `restartRunner`; `lifecycleMutex_` is held. */
    method Begin(op: Op) returns (goesOn: bool)
      requires Valid() && lifecycle.Quiet?
      modifies this`draining, this`lifecycle
      ensures if goesOn then Did(BeginOp(op)) else View() == old(View()) && !Enabled(View(), BeginOp(op))
    {
      if op.OpStart? {
        var i := 0;
        while i < |slots|
          invariant 0 <= i <= |slots|
          invariant forall j :: 0 <= j < i ==> slots[j].state != Connected && slots[j].state != Busy
        {
          if slots[i].state == Connected || slots[i].state == Busy { return false; }
          i := i + 1;
        }
      } else if slots == [] {
        return false;
      }
      StepKeepsInv(View(), BeginOp(op));
      draining, lifecycle := true, Draining(op);
      goesOn := true;
    }

    /** The condition that `waitForIdle` waits for. */
    method IsIdle() returns (idle: bool)
      ensures idle <==> Idle(slots)
    {
      var i := 0;
      while i < |slots|
        invariant 0 <= i <= |slots|
        invariant forall j :: 0 <= j < i ==> slots[j].users == 0 && !slots[j].restarting
      {
        if slots[i].users > 0 || slots[i].restarting { return false; }
        i := i + 1;
      }
      idle := true;
    }

    /** `start` once the pool is drained: fresh slots. */
    method Reset(config: Config, size: int)
      requires Can(Drained) && lifecycle.op == OpStart(config, size)
      modifies this
      ensures Did(Drained)
    {
      StepKeepsInv(View(), Drained);
      this.config, concurrencySafe, slots := config, false, [];
      var n := if size < 1 then 1 else if size > MAX_POOL_SIZE then MAX_POOL_SIZE else size;
      while |slots| < n
        invariant |slots| <= n && this.config == config && !concurrencySafe
        invariant draining == old(draining) && sessions == old(sessions)
        invariant forall i :: 0 <= i < |slots| ==> slots[i] == Slot(0, Disconnected, 0, false, NoRunner)
      {
        slots := slots + [Slot(0, Disconnected, 0, false, NoRunner)];
      }
      assert slots == NewSlots(size);
      autos, lifecycle := seq(|slots|, i => 0), Starting({0}, {}, false);
    }

    /** `stopAllSlots` up to the point where it lets go of the mutex. */
    method StopAllSlots()
      requires Can(Drained) && !lifecycle.op.OpStart?
      modifies this`slots, this`lifecycle
      ensures Did(Drained)
    {
      ghost var before := View();
      var i := 0;
      while i < |slots|
        invariant 0 <= i <= |slots| && |slots| == |before.slots| && lifecycle == before.lifecycle
        invariant forall j :: 0 <= j < |slots| ==> slots[j] == if j < i then StoppedSlots(before.slots)[j] else before.slots[j]
      {
        var slot := slots[i].(proc := NoRunner);
        if slot.state != Disconnected { slot := slot.(state := Disconnected); }
        slots := slots[i := slot];
        i := i + 1;
      }
      assert slots == StoppedSlots(before.slots);
      lifecycle := Stopping(lifecycle.op);
      StepKeepsInv(before, Drained);
    }

    /** The end of `stopRunner`: the old runners have stopped. */
    method StopDone()
      requires Can(RunnersStopped) && !lifecycle.op.OpRestart?
      modifies this`draining, this`lifecycle
      ensures Did(RunnersStopped)
    {
      StepKeepsInv(View(), RunnersStopped);
      draining, lifecycle := false, Quiet;
    }

    /** The middle of `restartRunner`: from here on it goes the way of `start`. */
    method CountRestarts()
      requires Can(RunnersStopped) && lifecycle.op.OpRestart?
      modifies this`slots, this`lifecycle
      ensures Did(RunnersStopped)
    {
      ghost var before := View();
      var i := 0;
      while i < |slots|
        invariant 0 <= i <= |slots| && |slots| == |before.slots| && lifecycle == before.lifecycle
        invariant forall j :: 0 <= j < |slots| ==>
                    slots[j] == if j < i then RecountedSlots(before.slots)[j] else before.slots[j]
      {
        slots := slots[i := slots[i].(restarts := slots[i].restarts + 1)];
        i := i + 1;
      }
      assert slots == RecountedSlots(before.slots);
      lifecycle := Starting({0}, {}, false);
      StepKeepsInv(before, RunnersStopped);
    }

    /** The first part of `startSlot`, for a slot that `startAllSlots` launches. */
    method LaunchBegin(index: nat)
      requires Can(Pool.LaunchBegin(index))
      modifies this`slots, this`lifecycle
      ensures Did(Pool.LaunchBegin(index))
    {
      StepKeepsInv(View(), Pool.LaunchBegin(index));
      slots := slots[index := slots[index].(state := Connecting, restarting := true)];
      lifecycle := lifecycle.(todo := lifecycle.todo - {index}, flying := lifecycle.flying + {index});
    }

    method LaunchEnd(index: nat, ok: bool)
      requires Can(Pool.LaunchEnd(index, ok))
      modifies this`slots, this`lifecycle
      ensures Did(Pool.LaunchEnd(index, ok))
    {
      StepKeepsInv(View(), Pool.LaunchEnd(index, ok));
      SetResult(index, ok);
      lifecycle := lifecycle.(flying := lifecycle.flying - {index});
    }

    /** The first runner tells whether it can be shared. */
    method AfterProbe(isSafe: bool)
      requires Can(Probed(isSafe))
      modifies this
      ensures Did(Probed(isSafe))
    {
      StepKeepsInv(View(), Probed(isSafe));
      if isSafe {
        concurrencySafe := true;
        if |slots| > 1 { slots := slots[..1]; }
        autos, lifecycle := autos[..1], Starting({}, {}, true);
      } else {
        lifecycle := Starting(Rest(|slots|), {}, true);
      }
    }

    method FinishStart()
      requires Can(Finish)
      modifies this`draining, this`lifecycle
      ensures Did(Finish)
    {
      StepKeepsInv(View(), Finish);
      draining, lifecycle := false, Quiet;
    }
  }
}
