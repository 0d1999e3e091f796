/** Every process resumes with the register frame it last gave up, whether it was preempted,
    yielded, or waited for a child; a parent finds its child's exit status in eax. */
module Contexts {
  import opened Limits
  import opened Options
  import opened Lifecycle
  import opened LifecycleProofs
  import opened Dispatching
  import opened Runs
  import opened Fairness
  import opened Effects

  /** For each pid, the frame it is owed. */
  type Owed = map<nat, Ctx>

  /** The frame a step makes somebody give up, as its specification: the caller's view of
      preemption, yield, execute, spawn and halt, without queues or PCBs. */
  function Record(owed: Owed, s: State, step: Step): Owed
    requires Shape(s)
  {
    match step
    case Tick(regs, _) => if s.running == 0 then owed else owed[s.running := regs]
    case Yield(regs, _) => if Fifo(s) == [] then owed else owed[s.running := regs]
    case Exec(regs, load) => if Allocates(s, load) && load.Loaded? then owed[s.running := regs] else owed
    case Spawn(load) =>
      if Allocates(s, load) && load.Loaded? then owed[NextPid(s) := Ctx(load.frame, 0)] else owed
    case Halt(pid, status, _, _) =>
      if IsPid(pid) && s.pcbs[pid].parent in owed then
        owed[s.pcbs[pid].parent := owed[s.pcbs[pid].parent].(eax := status)]
      else owed
  }

  /** The kernel's PCBs hold exactly the frames owed. */
  predicate Holds(s: State, owed: Owed, p: nat)
    requires PidsInRange(s) && p in s.used
  {
    && (p in Fifo(s) ==> p in owed && s.pcbs[p].ctx == Some(owed[p]))
    && (s.pcbs[p].parent != 0 ==>
          s.pcbs[p].parent in owed && s.pcbs[p].parentCtx == Some(owed[s.pcbs[p].parent]))
  }

  predicate Faithful(s: State, owed: Owed)
    requires PidsInRange(s)
  {
    0 !in owed && forall p {:trigger Holds(s, owed, p)} :: p in s.used ==> Holds(s, owed, p)
  }

  /** Whatever frame a step loads: the first frame of an executed program, that of the rescue shell
      when the last process halts, and otherwise the frame the resumed process is owed. */
  predicate Resumes(s: State, step: Step, s': State, owed: Owed)
    requires Shape(s) && Enabled(s, step)
  {
    if !Loads(s, step) then !Next(s, step).Switched? && s'.running == s.running && s'.entered == s.entered
    else
      Next(s, step).Switched? &&
      if step.Exec? then step.load.Loaded? && s'.entered == Ctx(step.load.frame, USER_DS)
      else if step.Halt? && s.used == {step.pid} then
        var i := FirstLoaded(step.rescue);
        i < |step.rescue| && s'.entered == Ctx(step.rescue[i].frame, 0)
      else s'.running in s.used && s'.running in owed && s'.entered == owed[s'.running]
  }

  /** A step keeps the PCBs faithful, and what it loads is what `Resumes` says. */
  lemma StepFaithful(s: State, step: Step, s': State, owed: Owed)
    requires Inv(s) && Moves(s, step, s') && Guard(s, step) && Inv(s') && Faithful(s, owed)
    ensures Faithful(s', Record(owed, s, step))
    ensures Resumes(s, step, s', Record(owed, s, step))
  {
    StepHands(s, step);
    match step
    case Tick(regs, rescue) => SwitchFaithful(s, regs, rescue, owed);
    case Yield(regs, rescue) =>
      if !Sleeps(s) {
        SwitchFaithful(s, regs, rescue, owed);
      }
    case Exec(regs, load) => ExecFaithful(s, regs, load, owed);
    case Spawn(load) => SpawnFaithful(s, load, owed);
    case Halt(pid, status, regs, rescue) =>
      if pid == s.running && s.pcbs[pid].parent == 0 {
        DyingRootSwitches(s, status, regs, rescue);
        DyingFaithful(s, status, regs, rescue, owed);
      } else if s.pcbs[pid].parent == 0 {
        QuietFaithful(s, s', owed);
      } else {
        HaltChildFaithful(s, pid, status, regs, rescue, owed);
      }
  }

  /** Nothing new is queued and no frame changes. */
  lemma QuietFaithful(s: State, s': State, owed: Owed)
    requires PidsInRange(s) && Faithful(s, owed) && s'.used <= s.used
    requires forall p :: p in s'.used ==>
               && (p in Fifo(s') ==> p in Fifo(s) && s'.pcbs[p].ctx == s.pcbs[p].ctx)
               && s'.pcbs[p].parent == s.pcbs[p].parent && s'.pcbs[p].parentCtx == s.pcbs[p].parentCtx
    ensures PidsInRange(s') && Faithful(s', owed)
  {
    assert PidsInRange(s');
    forall p | p in s'.used ensures Holds(s', owed, p) {
      assert Holds(s, owed, p);
    }
  }

  lemma SwitchFaithful(s: State, regs: Ctx, rescue: seq<Load>, owed: Owed)
    requires Inv(s) && (s.running == 0 || |s.expired| < QUEUE_CAPACITY) && Faithful(s, owed)
    requires var o := ContextSwitch(s, regs, rescue); !o.Spinning? && Inv(o.state)
    ensures var o := ContextSwitch(s, regs, rescue);
            var owed' := if s.running == 0 then owed else owed[s.running := regs];
            && Faithful(o.state, owed')
            && (o.Switched? ==>
                  o.state.running in s.used && o.state.running in owed' && o.state.entered == owed'[o.state.running])
  {
    if s.used != {} {
      SwitchIsFifo(s, regs, rescue);
      SwitchFrames(s, regs, rescue);
      var q, s' := Waiting(s), ContextSwitch(s, regs, rescue).state;
      var owed' := if s.running == 0 then owed else owed[s.running := regs];
      var k := FirstLive(q, s.used);
      assert forall p :: p in Fifo(s') ==> p in q;
      assert Holds(s, owed, q[k]);
      forall p | p in s'.used ensures Holds(s', owed', p) {
        assert Holds(s, owed, p);
        if s.pcbs[p].parent != 0 {
          ParentWaits(s, p);
        }
      }
    }
  }

  /** A switch changes no frame but that of the process it files, and consumes one. */
  lemma SwitchFrames(s: State, regs: Ctx, rescue: seq<Load>)
    requires Inv(s) && (s.running == 0 || |s.expired| < QUEUE_CAPACITY) && s.used != {}
    ensures var o := ContextSwitch(s, regs, rescue);
            && o.Switched?
            && forall p :: p in s.used ==>
                 o.state.pcbs[p] == s.pcbs[p].(ctx :=
                   if p == o.state.running then None else if p == s.running then Some(regs) else s.pcbs[p].ctx)
  {
    SwitchedOut(s, regs);
    var s1 := SwitchOut(s, regs);
    SomeoneRuns(s1.(running := 0));
    StillQueued(s1);
    DispatchFirst(s1, rescue);
    assert s.running != 0 ==> LiveProcess(s, s.running);
  }

  lemma DyingFaithful(s: State, status: int, regs: Ctx, rescue: seq<Load>, owed: Owed)
    requires Inv(s) && s.running != 0 && s.pcbs[s.running].parent == 0 && Faithful(s, owed)
    requires var o := HaltStep(s, s.running, status, regs, rescue); o.Switched? && Inv(o.state)
    ensures var o := HaltStep(s, s.running, status, regs, rescue);
            && Faithful(o.state, owed)
            && (if s.used == {s.running} then
                  var i := FirstLoaded(rescue);
                  i < |rescue| && o.state.entered == Ctx(rescue[i].frame, 0)
                else
                  o.state.running in s.used && o.state.running in owed && o.state.entered == owed[o.state.running])
  {
    DyingRootSwitches(s, status, regs, rescue);
    DyingOut(s, regs);
    var s', s1 := HaltStep(s, s.running, status, regs, rescue).state, SwitchOut(MarkDead(s, s.running), regs);
    StillQueued(s1);
    assert s' == Dispatch(s1, rescue).state;
    if s1.used != {} {
      SomeoneRuns(s1.(running := 0));
      DispatchFirst(s1, rescue);
      ResumedFaithful(s, s1, s', owed);
    } else {
      DispatchDrained(s1, rescue);
      DispatchRescue(s1.(active := [], expired := []), rescue);
      assert Holds(s', owed, s'.running);
    }
  }

  lemma ResumedFaithful(s: State, s1: State, s': State, owed: Owed)
    requires PidsInRange(s) && Faithful(s, owed) && Fifo(s1) == Fifo(s) && s1.used <= s.used
    requires forall p :: p in s1.used ==> s1.pcbs[p] == s.pcbs[p]
    requires var k := FirstLive(Fifo(s1), s1.used);
             && k < |Fifo(s1)| && Fifo(s') == Fifo(s1)[k + 1..] && IsPid(Fifo(s1)[k])
             && s'.used == s1.used && s'.running == Fifo(s1)[k]
             && s1.pcbs[s'.running].ctx == Some(s'.entered)
             && s'.pcbs == s1.pcbs[s'.running := s1.pcbs[s'.running].(ctx := None)]
             && s'.running !in Fifo(s')
    ensures PidsInRange(s') && Faithful(s', owed)
    ensures s'.running in owed && s'.entered == owed[s'.running]
  {
    assert Holds(s, owed, s'.running);
    QuietFaithful(s, s', owed);
  }

  lemma ExecFaithful(s: State, regs: Ctx, load: Load, owed: Owed)
    requires Inv(s) && s.running != 0 && Faithful(s, owed)
    requires Inv(ExecStep(s, regs, load).state)
    ensures Faithful(ExecStep(s, regs, load).state, Record(owed, s, Exec(regs, load)))
  {
    var s', owed' := ExecStep(s, regs, load).state, Record(owed, s, Exec(regs, load));
    assert LiveProcess(s, s.running);
    assert Fifo(s') == Fifo(s);
    forall p | p in s'.used ensures Holds(s', owed', p) {
      assert p in s.used ==> Holds(s, owed, p);
    }
  }

  lemma SpawnFaithful(s: State, load: Load, owed: Owed)
    requires Inv(s) && Faithful(s, owed) && Inv(SpawnStep(s, load))
    ensures Faithful(SpawnStep(s, load), Record(owed, s, Spawn(load)))
  {
    var s', owed', pid := SpawnStep(s, load), Record(owed, s, Spawn(load)), NextPid(s);
    FifoPushActive(s, pid);
    assert s'.active == s.active || Fifo(s') == Fifo(PushActive(s, pid));
    forall p | p in s'.used ensures Holds(s', owed', p) {
      if p in s.used {
        assert Holds(s, owed, p);
        if s.pcbs[p].parent != 0 {
          ParentWaits(s, p);
        }
      }
    }
  }

  lemma HaltChildFaithful(s: State, pid: nat, status: int, regs: Ctx, rescue: seq<Load>, owed: Owed)
    requires Inv(s) && Guard(s, Halt(pid, status, regs, rescue)) && s.pcbs[pid].parent != 0 && Faithful(s, owed)
    requires Inv(HaltStep(s, pid, status, regs, rescue).state)
    ensures var o := HaltStep(s, pid, status, regs, rescue);
            var owed' := Record(owed, s, Halt(pid, status, regs, rescue));
            && Faithful(o.state, owed')
            && s.pcbs[pid].parent in owed' && (o.Switched? <==> pid == s.running)
            && (o.Switched? ==>
                  o.state.running == s.pcbs[pid].parent && o.state.entered == owed'[o.state.running])
  {
    var s', parent := HaltStep(s, pid, status, regs, rescue).state, s.pcbs[pid].parent;
    var owed' := Record(owed, s, Halt(pid, status, regs, rescue));
    assert Holds(s, owed, pid);
    ParentWaits(s, pid);
    var links :| Linked(s, links);
    assert Edge(s, links, pid);
    if pid != s.running {
      WokenParent(s, pid, status, regs, rescue);
    }
    assert forall p :: p in Fifo(s') ==> p in Fifo(s) || (p == parent && pid != s.running);
    forall p | p in s'.used ensures Holds(s', owed', p) {
      assert Holds(s, owed, p);
      assert Edge(s, links, p);
    }
  }

  /** The frames owed after the first `n` steps of a run. */
  function Owing(states: seq<State>, steps: seq<Step>, owed: Owed, n: nat): Owed
    requires Trace(states, steps) && n <= |steps|
  {
    if n == 0 then owed else Record(Owing(states, steps, owed, n - 1), states[n - 1], steps[n - 1])
  }

  lemma {:induction false} FaithfulAt(states: seq<State>, steps: seq<Step>, owed: Owed, n: nat)
    requires Trace(states, steps) && Inv(states[0]) && Faithful(states[0], owed) && n <= |steps|
    requires forall i :: 0 <= i < |steps| ==> Guard(states[i], steps[i])
    ensures Inv(states[n]) && Faithful(states[n], Owing(states, steps, owed, n))
    ensures n > 0 ==> Moves(states[n - 1], steps[n - 1], states[n])
                      && Resumes(states[n - 1], steps[n - 1], states[n], Owing(states, steps, owed, n))
    decreases n
  {
    if n > 0 {
      FaithfulAt(states, steps, owed, n - 1);
      assert Moves(states[n - 1], steps[n - 1], states[n]) && Guard(states[n - 1], steps[n - 1]);
      StepExact(states[n - 1], steps[n - 1]);
      StepFaithful(states[n - 1], steps[n - 1], states[n], Owing(states, steps, owed, n - 1));
    }
  }

  /** Over every guarded run, the PCBs hold exactly the frames the processes gave up, and every
      process that is resumed on the way gets the one it is owed. */
  lemma RunFaithful(states: seq<State>, steps: seq<Step>, owed: Owed)
    requires Trace(states, steps) && Inv(states[0]) && Faithful(states[0], owed)
    requires forall i :: 0 <= i < |steps| ==> Guard(states[i], steps[i])
    ensures forall n :: 0 <= n <= |steps| ==> Inv(states[n]) && Faithful(states[n], Owing(states, steps, owed, n))
    ensures forall n :: 0 < n <= |steps| ==>
              Moves(states[n - 1], steps[n - 1], states[n])
              && Resumes(states[n - 1], steps[n - 1], states[n], Owing(states, steps, owed, n))
  {
    forall n | 0 <= n <= |steps|
      ensures Inv(states[n]) && Faithful(states[n], Owing(states, steps, owed, n))
      ensures n > 0 ==> Moves(states[n - 1], steps[n - 1], states[n])
                        && Resumes(states[n - 1], steps[n - 1], states[n], Owing(states, steps, owed, n))
    {
      FaithfulAt(states, steps, owed, n);
    }
  }
}
