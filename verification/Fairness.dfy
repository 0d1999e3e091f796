/** The two run queues together are one first-in first-out queue, and nobody waits forever. */
module Fairness {
  import opened Limits
  import opened Options
  import opened Lifecycle
  import opened LifecycleProofs
  import opened Dispatching
  import opened Runs

  /** The queue a context switch chooses from: the running process goes to the end. */
  function Waiting(s: State): seq<nat> {
    if s.running == 0 then Fifo(s) else Fifo(s) + [s.running]
  }

  /** A context switch takes the first live process of that one queue, with the context saved
      for it, and drops the dead entries in front of it. */
  lemma SwitchIsFifo(s: State, regs: Ctx, rescue: seq<Load>)
    requires Inv(s) && (s.running == 0 || |s.expired| < QUEUE_CAPACITY) && s.used != {}
    ensures var q, o := Waiting(s), ContextSwitch(s, regs, rescue);
            var k := FirstLive(q, s.used);
            && k < |q| && o.Switched? && o.state.running == q[k] && Fifo(o.state) == q[k + 1..]
            && o.state.used == s.used && IsPid(q[k])
            && (if q[k] == s.running then o.state.entered == regs
                else s.pcbs[q[k]].ctx == Some(o.state.entered))
  {
    SwitchedOut(s, regs);
    var s1 := SwitchOut(s, regs);
    SomeoneRuns(s1.(running := 0));
    StillQueued(s1);
    DispatchFirst(s1, rescue);
  }

  // ---------- bounded waiting ----------

  /** Steps that run the scheduler's loop. */
  predicate Switches(s: State, step: Step) {
    match step
    case Tick(_, _) => true
    case Yield(_, _) => Fifo(s) != []
    case Halt(pid, _, _, _) => IsPid(pid) && pid == s.running && s.pcbs[pid].parent == 0
    case _ => false
  }

  function CountSwitches(states: seq<State>, steps: seq<Step>): nat
    requires |states| == |steps| + 1
  {
    if steps == [] then 0
    else (if Switches(states[0], steps[0]) then 1 else 0) + CountSwitches(states[1..], steps[1..])
  }

  /** Steps that queue a new root process, ahead of the expired queue. */
  predicate Spawns(s: State, step: Step) {
    step.Spawn? && Allocates(s, step.load) && step.load.Loaded?
  }

  function CountSpawns(states: seq<State>, steps: seq<Step>): nat
    requires |states| == |steps| + 1
  {
    if steps == [] then 0
    else (if Spawns(states[0], steps[0]) then 1 else 0) + CountSpawns(states[1..], steps[1..])
  }

  function Position(q: seq<nat>, p: nat): (k: nat)
    requires p in q
    ensures k < |q| && q[k] == p && p !in q[..k]
  {
    if q[0] == p then 0 else 1 + Position(q[1..], p)
  }

  lemma {:induction false} PositionIs(q: seq<nat>, p: nat, k: nat)
    requires k < |q| && q[k] == p && p !in q[..k]
    ensures Position(q, p) == k
  {
    if k > 0 {
      assert q[0] in q[..k];
      assert q[1..][..k - 1] == q[..k][1..];
      PositionIs(q[1..], p, k - 1);
    }
  }

  /** A prefix without `p` shifts the position of `p` by its length. */
  lemma {:induction false} PositionShift(a: seq<nat>, q: seq<nat>, p: nat)
    requires p !in a && p in q
    ensures Position(a + q, p) == |a| + Position(q, p)
  {
    var k := |a| + Position(q, p);
    assert (a + q)[..k] == a + q[..Position(q, p)];
    PositionIs(a + q, p, k);
  }

  lemma {:induction false} PositionPrefix(q: seq<nat>, b: seq<nat>, p: nat)
    requires p in q
    ensures Position(q + b, p) == Position(q, p)
  {
    var k := Position(q, p);
    assert (q + b)[..k] == q[..k];
    PositionIs(q + b, p, k);
  }

  predicate Ends(s': State, step: Step, p: nat) {
    s'.running == p || (step.Halt? && step.pid == p)
  }

  /** A live queued process that is neither dispatched nor killed by a step moves forward by
      at least one place on a switch, and back by at most one place on a spawn. */
  lemma StepMoves(s: State, step: Step, s': State, p: nat)
    requires Inv(s) && Moves(s, step, s') && Guard(s, step)
    requires p in s.used && p in Fifo(s) && !Ends(s', step, p)
    ensures p in s'.used && p in Fifo(s')
    ensures Position(Fifo(s'), p) + (if Switches(s, step) then 1 else 0)
            <= Position(Fifo(s), p) + (if Spawns(s, step) then 1 else 0)
  {
    match step
    case Tick(regs, rescue) => SwitchMoves(s, regs, rescue, p);
    case Yield(regs, rescue) => SwitchMoves(s, regs, rescue, p);
    case Exec(regs, load) => assert Fifo(s') == Fifo(s);
    case Spawn(load) => SpawnMoves(s, load, p);
    case Halt(pid, status, regs, rescue) =>
      if pid == s.running && s.pcbs[pid].parent == 0 {
        DyingMoves(s, regs, rescue, p);
        DyingRootSwitches(s, status, regs, rescue);
      } else if pid == s.running || s.pcbs[pid].parent == 0 {
        assert Fifo(s') == Fifo(s);
      } else {
        WokenParent(s, pid, status, regs, rescue);
        PositionPrefix(Fifo(s), [s.pcbs[pid].parent], p);
      }
  }

  /** Removing the first live entry and what precedes it brings `p` forward. */
  lemma {:induction false} DropMoves(q: seq<nat>, used: set<nat>, p: nat)
    requires p in q && p in used
    requires var k := FirstLive(q, used); k < |q| && q[k] != p
    ensures var k := FirstLive(q, used);
            p in q[k + 1..] && Position(q[k + 1..], p) + 1 <= Position(q, p)
  {
    var k := FirstLive(q, used);
    var a, b := q[..k + 1], q[k + 1..];
    assert a + b == q;
    assert p !in a by {
      assert forall i :: 0 <= i < |a| ==> a[i] == q[i] != p;
    }
    assert p in b;
    PositionShift(a, b, p);
  }

  lemma SwitchMoves(s: State, regs: Ctx, rescue: seq<Load>, p: nat)
    requires Inv(s) && (s.running == 0 || |s.expired| < QUEUE_CAPACITY)
    requires p in s.used && p in Fifo(s)
    requires ContextSwitch(s, regs, rescue).Switched? ==> ContextSwitch(s, regs, rescue).state.running != p
    ensures var o := ContextSwitch(s, regs, rescue);
            && o.Switched? && p in o.state.used && p in Fifo(o.state)
            && Position(Fifo(o.state), p) + 1 <= Position(Fifo(s), p)
  {
    SwitchIsFifo(s, regs, rescue);
    if s.running != 0 {
      PositionPrefix(Fifo(s), [s.running], p);
    }
    DropMoves(Waiting(s), s.used, p);
  }

  lemma DyingMoves(s: State, regs: Ctx, rescue: seq<Load>, p: nat)
    requires Inv(s) && s.running != 0 && s.pcbs[s.running].parent == 0
    requires p in s.used && p in Fifo(s)
    requires var o := Dispatch(SwitchOut(MarkDead(s, s.running), regs), rescue);
             o.Switched? ==> o.state.running != p
    ensures var o := Dispatch(SwitchOut(MarkDead(s, s.running), regs), rescue);
            && o.Switched? && p in o.state.used && p in Fifo(o.state)
            && Position(Fifo(o.state), p) + 1 <= Position(Fifo(s), p)
  {
    DyingOut(s, regs);
    var s1 := SwitchOut(MarkDead(s, s.running), regs);
    StillQueued(s1);
    SomeoneRuns(s1.(running := 0));
    DispatchFirst(s1, rescue);
    DropMoves(Fifo(s), s1.used, p);
  }

  lemma SpawnMoves(s: State, load: Load, p: nat)
    requires Shape(s) && p in s.used && p in Fifo(s)
    ensures var s' := SpawnStep(s, load);
            && p in s'.used && p in Fifo(s')
            && Position(Fifo(s'), p) <= Position(Fifo(s), p) + (if Spawns(s, Spawn(load)) then 1 else 0)
  {
    var s', pid := SpawnStep(s, load), NextPid(s);
    if s'.active != s.active {
      if p in s.active {
        PositionPrefix(s.active, s.expired, p);
        assert Fifo(s') == s.active + ([pid] + s.expired);
        PositionPrefix(s.active, [pid] + s.expired, p);
      } else {
        PositionShift(s.active, s.expired, p);
        PositionShift(s.active + [pid], s.expired, p);
      }
    } else {
      assert Fifo(s') == Fifo(s);
    }
  }

  predicate DispatchedOrKilled(states: seq<State>, steps: seq<Step>, p: nat)
    requires |states| == |steps| + 1
  {
    exists i :: 0 <= i < |steps| && Ends(states[i + 1], steps[i], p)
  }

  /** In every guarded run, a live process at position `k` of the queue is dispatched, unless
      it is killed, within `k + 1` switches plus one per root process spawned meanwhile. */
  lemma {:induction false} BoundedWaiting(states: seq<State>, steps: seq<Step>, p: nat)
    requires Trace(states, steps) && Inv(states[0])
    requires forall i :: 0 <= i < |steps| ==> Guard(states[i], steps[i])
    requires p in states[0].used && p in Fifo(states[0])
    requires CountSwitches(states, steps) >= Position(Fifo(states[0]), p) + 1 + CountSpawns(states, steps)
    ensures DispatchedOrKilled(states, steps, p)
    decreases |steps|
  {
    var s, step := states[0], steps[0];
    assert Moves(s, step, states[1]);
    if !Ends(states[1], step, p) {
      StepMoves(s, step, states[1], p);
      StepExact(s, step);
      forall i | 0 <= i < |steps[1..]| ensures Moves(states[1..][i], steps[1..][i], states[1..][i + 1]) {
        assert Moves(states[i + 1], steps[i + 1], states[i + 2]);
      }
      forall i | 0 <= i < |steps[1..]| ensures Guard(states[1..][i], steps[1..][i]) {
        assert Guard(states[i + 1], steps[i + 1]);
      }
      BoundedWaiting(states[1..], steps[1..], p);
      var i :| 0 <= i < |steps[1..]| && Ends(states[1..][i + 1], steps[1..][i], p);
      assert Ends(states[i + 2], steps[i + 1], p);
    }
  }
}
