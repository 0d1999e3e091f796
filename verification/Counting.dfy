/** The process counter and the pid bitmap agree along every run in which only live processes are
    halted, whatever else goes wrong: stale queue entries, lost processes, orphans. */
module Counting {
  import opened Limits
  import opened Lifecycle
  import opened Dispatching
  import opened Runs

  /** The counter is off by `d`, with every set bit a pid. */
  predicate OffBy(s: State, d: int) {
    PidsInRange(s) && s.nprocs - |s.used| == d
  }

  lemma SpawnOff(s: State, load: Load, d: int)
    requires Shape(s) && OffBy(s, d)
    ensures OffBy(SpawnStep(s, load), d)
  {
  }

  /** The scheduler's loop, rescue shells included, does not change what the counter is off by. */
  lemma {:induction false} DispatchOff(s: State, rescue: seq<Load>, d: int)
    requires Shape(s) && OffBy(s, d) && !Dispatch(s, rescue).Spinning?
    ensures OffBy(Dispatch(s, rescue).state, d)
    decreases |rescue|, |s.active| + |s.expired|
  {
    var s0 := if s.active == [] then s.(active := s.expired, expired := []) else s;
    if s0.active == [] {
      SpawnOff(s0, rescue[0], d);
      DispatchOff(SpawnStep(s0, rescue[0]), rescue[1..], d);
    } else {
      var pid, s1 := s0.active[0], s0.(active := s0.active[1..]);
      if pid <= MAX_PROCESSES && s1.pcbs[pid].dead {
        DispatchOff(s1, rescue, d);
      }
    }
  }

  lemma SwitchOff(s: State, regs: Ctx, rescue: seq<Load>, d: int)
    requires Shape(s) && OffBy(s, d) && !ContextSwitch(s, regs, rescue).Spinning?
    ensures OffBy(ContextSwitch(s, regs, rescue).state, d)
  {
    if !(s.running == 0 && s.nprocs == 0) {
      DispatchOff(SwitchOut(s, regs), rescue, d);
    }
  }

  lemma HaltOff(s: State, pid: nat, status: int, regs: Ctx, rescue: seq<Load>)
    requires Shape(s) && Counts(s) && IsPid(pid) && !HaltStep(s, pid, status, regs, rescue).Spinning?
    ensures var s' := HaltStep(s, pid, status, regs, rescue).state;
            OffBy(s', if pid in s.used then 0 else if s.nprocs > 0 then -1 else 255)
  {
    var s1, d := MarkDead(s, pid), if pid in s.used then 0 else if s.nprocs > 0 then -1 else 255;
    assert OffBy(s1, d) by {
      assert pid in s.used ==> |s1.used| == |s.used| - 1 && s.used != {};
      assert pid !in s.used ==> s1.used == s.used;
    }
    if s1.pcbs[pid].parent == 0 && pid == s.running && !Sleeps(s1) {
      SwitchOff(s1, regs, rescue, d);
    }
  }

  lemma {:induction false} AtMostTen(used: set<nat>)
    requires forall p :: p in used ==> IsPid(p)
    ensures |used| <= MAX_PROCESSES
  {
    var all := {1, 2, 3, 4, 5, 6, 7, 8, 9, 10};
    assert used <= all;
    Subset(used, all);
  }

  lemma {:induction false} Subset(a: set<nat>, b: set<nat>)
    requires a <= b
    ensures |a| <= |b|
  {
    if a != {} {
      var x :| x in a;
      Subset(a - {x}, b - {x});
    }
  }

  /** From any state in which they agree, a step keeps counter and bitmap in agreement if and only
      if it does not halt a pid that is not live. */
  lemma StepCounts(s: State, step: Step)
    requires Shape(s) && Counts(s) && Enabled(s, step) && !Next(s, step).Spinning?
    ensures Counts(Next(s, step).state) <==> HaltsLive(s, step)
  {
    var s' := Next(s, step).state;
    match step {
      case Tick(regs, rescue) => SwitchOff(s, regs, rescue, 0);
      case Yield(regs, rescue) =>
        if !Sleeps(s) {
          SwitchOff(s, regs, rescue, 0);
        }
      case Exec(regs, load) =>
      case Spawn(load) => SpawnOff(s, load, 0);
      case Halt(pid, status, regs, rescue) => HaltOff(s, pid, status, regs, rescue);
    }
    AtMostTen(s'.used);
  }

  predicate HaltsLive(s: State, step: Step) {
    step.Halt? ==> step.pid in s.used
  }

  /** Over every run, counter and bitmap agree up to state `n` if and only if no dead pid was halted
      before it. */
  lemma RunCounts(states: seq<State>, steps: seq<Step>, n: nat)
    requires Trace(states, steps) && Counts(states[0]) && n <= |steps|
    ensures (forall i :: 0 <= i <= n ==> Counts(states[i])) <==>
            (forall i :: 0 <= i < n ==> HaltsLive(states[i], steps[i]))
  {
    var good := seq(|states|, i requires 0 <= i < |states| => Counts(states[i]));
    var guarded := seq(|steps|, i requires 0 <= i < |steps| => HaltsLive(states[i], steps[i]));
    forall i | 0 <= i < n && good[i] ensures good[i + 1] <==> guarded[i] {
      assert Moves(states[i], steps[i], states[i + 1]);
      StepCounts(states[i], steps[i]);
    }
    Throughout(good, guarded, n);
    assert forall i :: 0 <= i <= n ==> good[i] == Counts(states[i]);
    assert forall i :: 0 <= i < n ==> guarded[i] == HaltsLive(states[i], steps[i]);
  }

  /** In every such run from boot the pid allocator never fails: an execute or spawn of a file that
      is there is refused exactly when ten processes live. */
  lemma AllocatorNeverFails(states: seq<State>, steps: seq<Step>, n: nat, load: Load)
    requires Trace(states, steps) && AtBoot(states[0]) && n <= |steps|
    requires forall i :: 0 <= i < n ==> HaltsLive(states[i], steps[i])
    ensures states[n].nprocs < MAX_PROCESSES ==> NextPid(states[n]) <= MAX_PROCESSES
    ensures Allocates(states[n], load) <==> !load.Missing? && |states[n].used| < MAX_PROCESSES
  {
    RunCounts(states, steps, n);
    assert Counts(states[n]);
    if states[n].nprocs < MAX_PROCESSES {
      PidAvailable(states[n]);
    }
  }
}
