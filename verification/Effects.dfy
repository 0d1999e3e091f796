/** What each step does, said without the code's own tests: who has the processor afterwards and
    with which frame, who is alive, and who is whose child. */
module Effects {
  import opened Limits
  import opened Options
  import opened Lifecycle
  import opened LifecycleProofs
  import opened Dispatching
  import opened Fairness

  /** A step that gives the processor to somebody: any switch while there are processes, an execute
      that succeeds, and a process that halts itself. */
  predicate Loads(s: State, step: Step) {
    match step
    case Tick(_, _) => s.used != {}
    case Yield(_, _) => Fifo(s) != []
    case Exec(_, load) => Starts(s, load)
    case Spawn(_) => false
    case Halt(pid, _, _, _) => pid == s.running
  }

  /** A program that is there and sound starts while fewer than ten processes live. */
  predicate Starts(s: State, load: Load) {
    load.Loaded? && |s.used| < MAX_PROCESSES
  }

  lemma StartsExact(s: State, load: Load)
    requires Counts(s)
    ensures Starts(s, load) <==> Allocates(s, load) && load.Loaded?
    ensures Starts(s, load) ==> IsPid(NextPid(s)) && NextPid(s) !in s.used
  {
    if s.nprocs < MAX_PROCESSES {
      PidAvailable(s);
    }
  }

  /** The first live pid of a queue. */
  function First(q: seq<nat>, used: set<nat>): nat {
    if FirstLive(q, used) < |q| then q[FirstLive(q, used)] else 0
  }

  // ---------- the processor ----------

  /** The process that has the processor after a step that gives it away, and its frame. */
  predicate Entered(s: State, step: Step, s': State)
    requires Shape(s) && Enabled(s, step)
  {
    match step
    case Tick(regs, _) => SwitchedTo(s, First(Waiting(s), s.used), regs, s')
    case Yield(regs, _) => SwitchedTo(s, First(Waiting(s), s.used), regs, s')
    case Exec(_, load) =>
      load.Loaded? && s'.running == NextPid(s) && s'.entered == Ctx(load.frame, USER_DS)
    case Spawn(_) => false
    case Halt(pid, status, _, rescue) =>
      if s.pcbs[pid].parent != 0 then
        // back in its call of execute, with the status as the result
        && s'.running == s.pcbs[pid].parent
        && s.pcbs[pid].parentCtx.Some? && s'.entered == s.pcbs[pid].parentCtx.value.(eax := status)
      else if s.used != {pid} then
        var p := First(Fifo(s), s.used - {pid});
        IsPid(p) && s'.running == p && s.pcbs[p].ctx == Some(s'.entered)
      else
        var i := FirstLoaded(rescue);
        i < |rescue| && s'.running == 1 && s'.entered == Ctx(rescue[i].frame, 0)
  }

  /** The process `p` runs with the frame it last gave up. */
  predicate SwitchedTo(s: State, p: nat, regs: Ctx, s': State) {
    && IsPid(p) && p in s.used && s'.running == p
    && if p == s.running then s'.entered == regs else s.pcbs[p].ctx == Some(s'.entered)
  }

  /** The processor changes hands exactly on the steps that should, to exactly the process that
      should have it, with exactly its frame. */
  predicate HandsOver(s: State, step: Step, o: Outcome)
    requires Shape(s) && Enabled(s, step) && !o.Spinning?
  {
    if Loads(s, step) then o.Switched? && Entered(s, step, o.state)
    else o.Returned? && o.state.running == s.running && o.state.entered == s.entered
  }

  lemma SwitchHands(s: State, regs: Ctx, rescue: seq<Load>)
    requires Inv(s) && (s.running == 0 || |s.expired| < QUEUE_CAPACITY)
    ensures var o := ContextSwitch(s, regs, rescue);
            if s.used == {} then o == Returned(s)
            else o.Switched? && SwitchedTo(s, First(Waiting(s), s.used), regs, o.state)
  {
    if s.used != {} {
      SwitchIsFifo(s, regs, rescue);
    }
  }

  /** Yielding: a process that is alone goes on at once, and otherwise the first live process of the
      one queue runs, which is the yielding one if all others in it are dead. */
  lemma YieldExact(s: State, regs: Ctx, rescue: seq<Load>)
    requires Inv(s) && s.running != 0
    ensures Fifo(s) == [] ==> YieldStep(s, regs, rescue) == Returned(s)
    ensures Fifo(s) != [] && |s.expired| < QUEUE_CAPACITY ==>
              var o := YieldStep(s, regs, rescue);
              o.Switched? && SwitchedTo(s, First(Waiting(s), s.used), regs, o.state)
  {
    assert s.nprocs > 0;
    if Fifo(s) != [] && |s.expired| < QUEUE_CAPACITY {
      SwitchHands(s, regs, rescue);
    }
  }

  /** A running child that halts is replaced by its parent, back in its call of execute with the
      status as the result. */
  lemma ChildReturns(s: State, pid: nat, status: int, regs: Ctx, rescue: seq<Load>)
    requires Inv(s) && Leaf(s, pid) && pid == s.running && s.pcbs[pid].parent != 0
    ensures var o := HaltStep(s, pid, status, regs, rescue);
            && o.Switched? && o.state.running == s.pcbs[pid].parent
            && o.state.entered == s.pcbs[pid].parentCtx.value.(eax := status)
  {
  }

  lemma DyingHands(s: State, status: int, regs: Ctx, rescue: seq<Load>)
    requires Inv(s) && s.running != 0 && s.pcbs[s.running].parent == 0
    requires !HaltStep(s, s.running, status, regs, rescue).Spinning?
    ensures HandsOver(s, Halt(s.running, status, regs, rescue), HaltStep(s, s.running, status, regs, rescue))
  {
    DyingRootSwitches(s, status, regs, rescue);
    DyingOut(s, regs);
    var s1 := SwitchOut(MarkDead(s, s.running), regs);
    StillQueued(s1);
    if s1.used != {} {
      SomeoneRuns(s1.(running := 0));
      DispatchFirst(s1, rescue);
    } else {
      DispatchDrained(s1, rescue);
      DispatchRescue(s1.(active := [], expired := []), rescue);
    }
  }

  lemma StepHands(s: State, step: Step)
    requires Inv(s) && Enabled(s, step) && Guard(s, step) && !Next(s, step).Spinning?
    ensures HandsOver(s, step, Next(s, step))
  {
    match step
    case Tick(regs, rescue) => SwitchHands(s, regs, rescue);
    case Yield(regs, rescue) => YieldExact(s, regs, rescue);
    case Exec(regs, load) => StartsExact(s, load);
    case Spawn(load) =>
    case Halt(pid, status, regs, rescue) =>
      if pid == s.running {
        if s.pcbs[pid].parent == 0 {
          DyingHands(s, status, regs, rescue);
        } else {
          ChildReturns(s, pid, status, regs, rescue);
        }
      }
  }

  // ---------- the processes ----------

  /** Who is alive after a step. */
  function Alive(s: State, step: Step): set<nat> {
    match step
    case Exec(_, load) => if Starts(s, load) then s.used + {NextPid(s)} else s.used
    case Spawn(load) => if Starts(s, load) then s.used + {NextPid(s)} else s.used
    // the rescue shell takes the place of the last process
    case Halt(pid, _, _, _) => if s.used == {pid} && pid == s.running then {1} else s.used - {pid}
    case _ => s.used
  }

  /** Whose child a process is after a step: a new one is the executing process's or nobody's. */
  function ParentOf(s: State, step: Step, p: nat): nat
    requires IsPid(p)
  {
    match step
    case Exec(_, load) => if Starts(s, load) && p == NextPid(s) then s.running else s.pcbs[p].parent
    case Spawn(load) => if Starts(s, load) && p == NextPid(s) then 0 else s.pcbs[p].parent
    case Halt(pid, _, _, _) => if s.used == {pid} && pid == s.running then 0 else s.pcbs[p].parent
    case _ => s.pcbs[p].parent
  }

  predicate Populates(s: State, step: Step, s': State) {
    && s'.used == Alive(s, step)
    && forall p :: p in s'.used && IsPid(p) ==> s'.pcbs[p].parent == ParentOf(s, step, p)
  }

  lemma SwitchPopulates(s: State, regs: Ctx, rescue: seq<Load>)
    requires Inv(s) && (s.running == 0 || |s.expired| < QUEUE_CAPACITY)
    ensures var o := ContextSwitch(s, regs, rescue);
            && !o.Spinning? && o.state.used == s.used
            && forall p :: p in s.used ==> o.state.pcbs[p].parent == s.pcbs[p].parent
  {
    if s.used != {} {
      SwitchedOut(s, regs);
      var s1 := SwitchOut(s, regs);
      SomeoneRuns(s1.(running := 0));
      StillQueued(s1);
      DispatchFirst(s1, rescue);
    }
  }

  lemma DyingPopulates(s: State, status: int, regs: Ctx, rescue: seq<Load>)
    requires Inv(s) && s.running != 0 && s.pcbs[s.running].parent == 0
    requires !HaltStep(s, s.running, status, regs, rescue).Spinning?
    ensures Populates(s, Halt(s.running, status, regs, rescue), HaltStep(s, s.running, status, regs, rescue).state)
  {
    DyingRootSwitches(s, status, regs, rescue);
    DyingOut(s, regs);
    var s1 := SwitchOut(MarkDead(s, s.running), regs);
    StillQueued(s1);
    if s1.used != {} {
      SomeoneRuns(s1.(running := 0));
      DispatchFirst(s1, rescue);
    } else {
      DispatchDrained(s1, rescue);
      DispatchRescue(s1.(active := [], expired := []), rescue);
    }
  }

  lemma StepPopulates(s: State, step: Step)
    requires Inv(s) && Enabled(s, step) && Guard(s, step) && !Next(s, step).Spinning?
    ensures Populates(s, step, Next(s, step).state)
  {
    match step
    case Tick(regs, rescue) => SwitchPopulates(s, regs, rescue);
    case Yield(regs, rescue) =>
      if !Sleeps(s) {
        SwitchPopulates(s, regs, rescue);
      }
    case Exec(regs, load) => ExecPopulates(s, regs, load);
    case Spawn(load) => SpawnPopulates(s, load);
    case Halt(pid, status, regs, rescue) =>
      if pid == s.running && s.pcbs[pid].parent == 0 {
        DyingPopulates(s, status, regs, rescue);
      } else {
        HaltPopulates(s, pid, status, regs, rescue);
      }
  }

  lemma HaltPopulates(s: State, pid: nat, status: int, regs: Ctx, rescue: seq<Load>)
    requires Inv(s) && Leaf(s, pid) && (pid != s.running || s.pcbs[pid].parent != 0)
    ensures Populates(s, Halt(pid, status, regs, rescue), HaltStep(s, pid, status, regs, rescue).state)
  {
    if s.pcbs[pid].parent != 0 {
      ParentWaits(s, pid);
    }
  }

  lemma ExecPopulates(s: State, regs: Ctx, load: Load)
    requires Inv(s) && s.running != 0
    ensures Populates(s, Exec(regs, load), ExecStep(s, regs, load).state)
  {
    StartsExact(s, load);
    hide Inv, FirstFree;
  }

  lemma SpawnPopulates(s: State, load: Load)
    requires Inv(s)
    ensures Populates(s, Spawn(load), SpawnStep(s, load))
  {
    StartsExact(s, load);
    hide Inv, FirstFree;
  }

  /** A root that starts is queued behind the active processes and in front of the expired ones,
      with its first frame; nobody else's place or frame changes. */
  lemma SpawnQueues(s: State, load: Load)
    requires Inv(s) && Starts(s, load) && |s.active| < QUEUE_CAPACITY
    ensures var s', p := SpawnStep(s, load), NextPid(s);
            && Fifo(s') == s.active + [p] + s.expired && s'.pcbs[p].ctx == Some(Ctx(load.frame, 0))
            && forall q :: q in s.used ==> s'.pcbs[q] == s.pcbs[q]
  {
    StartsExact(s, load);
  }

  /** The three together, for every guarded step. */
  lemma StepEffect(s: State, step: Step)
    requires Inv(s) && Enabled(s, step) && Guard(s, step) && !Next(s, step).Spinning?
    ensures HandsOver(s, step, Next(s, step)) && Populates(s, step, Next(s, step).state)
  {
    StepHands(s, step);
    StepPopulates(s, step);
  }
}
