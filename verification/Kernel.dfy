/** The kernel's process table and scheduler as the source keeps them: two rings reached through
    the pointers `active` and `expired`, a sequence of PCBs, the pid bitmap and a counter, all
    changed in place.  Every method is proved against the step function of `Lifecycle`. */
module Kernels {
  import opened Limits
  import opened Options
  import opened Rings
  import opened Lifecycle
  import opened Dispatching
  import Pids

  class Kernel {
    var active: Ring<nat>
    var expired: Ring<nat>
    var pcbs: Table
    var bits: nat
    var nprocs: nat
    var running: nat
    var entered: Ctx

    ghost function Repr(): set<object>
      reads this
    {
      {this, active, active.buf, expired, expired.buf}
    }

    ghost predicate Valid()
      reads this, active, active.buf, expired, expired.buf
    {
      && active != expired && active.buf != expired.buf
      && active.Valid() && active.Capacity() == QUEUE_CAPACITY
      && expired.Valid() && expired.Capacity() == QUEUE_CAPACITY
      && Shape(View())
    }

    ghost function View(): State
      reads this, active, expired
    {
      State(running, entered, active.contents, expired.contents, pcbs, Pids.Members(bits), nprocs)
    }

    /** `init_sched`, on a kernel with no processes. */
    constructor ()
      ensures Valid() && fresh(Repr()) && View() == BOOT
    {
      active := new Ring<nat>(MAX_PROCESSES);
      expired := new Ring<nat>(MAX_PROCESSES);
      pcbs, bits, nprocs := seq(MAX_PROCESSES + 1, _ => ZERO_PCB), 0, 0;
      running, entered := 0, Ctx(0, 0);
      new;
      Pids.NoMembers();
      assert pcbs == BOOT.pcbs;
    }

    /** `push_to_active`; 255 is the byte -1. */
    method PushToActive(pid: nat) returns (r: nat)
      requires Valid()
      modifies active, active.buf
      ensures Valid() && View() == PushActive(old(View()), pid)
      ensures r == if |old(View()).active| < QUEUE_CAPACITY then 0 else 255
    {
      var ok := active.Push(pid);
      r := if ok then 0 else 255;
    }

    /** `push_to_expired` */
    method PushToExpired(pid: nat) returns (r: nat)
      requires Valid()
      modifies expired, expired.buf
      ensures Valid() && View() == PushExpired(old(View()), pid)
      ensures r == if |old(View()).expired| < QUEUE_CAPACITY then 0 else 255
    {
      var ok := expired.Push(pid);
      r := if ok then 0 else 255;
    }

    /** `swap_queues` */
    method SwapQueues()
      requires Valid()
      modifies `active, `expired
      ensures Valid() && Repr() == old(Repr())
      ensures View() == old(View()).(active := old(View()).expired, expired := old(View()).active)
    {
      active, expired := expired, active;
    }

    /** `sys_exec_internal` on behalf of the running process, whose frame is `regs`. */
    method ExecChild(load: Load, regs: Ctx) returns (pid: int)
      requires Valid() && running != 0
      modifies `nprocs, `bits, `pcbs, `running, `entered
      ensures Valid() && View() == ExecStep(old(View()), regs, load).state
      ensures pid == if Allocates(old(View()), load) && load.Loaded? then NextPid(old(View())) else -1
    {
      pid, pcbs, bits, nprocs := Admit(pcbs, bits, nprocs, running, load, Some(regs));
      if pid != -1 {
        // the child enters user mode at once
        running, entered := pid, Ctx(load.frame, USER_DS);
      }
    }

    /** `sys_exec_internal` for the kernel itself, with a NULL context. */
    method ExecRoot(load: Load) returns (pid: int)
      requires Valid()
      modifies `nprocs, `bits, `pcbs, active, active.buf
      ensures Valid() && View() == SpawnStep(old(View()), load)
      ensures pid == if Allocates(old(View()), load) && load.Loaded? then NextPid(old(View())) else -1
    {
      hide Ring.Valid, Pids.Members, FirstFree;
      pid, pcbs, bits, nprocs := Admit(pcbs, bits, nprocs, 0, load, None);
      if pid != -1 {
        pcbs := pcbs[pid := pcbs[pid].(ctx := Some(Ctx(load.frame, 0)))];
        var _ := PushToActive(pid);
      }
    }

    method PopActive() returns (pid: nat, ok: bool)
      requires Valid()
      modifies active
      ensures Valid()
      ensures ok <==> old(View()).active != []
      ensures ok ==> pid == old(View()).active[0] && View() == old(View()).(active := old(View()).active[1..])
      ensures !ok ==> View() == old(View())
    {
      pid, ok := active.Pop(0);
    }

    /** Swap the queues if the active one is empty, then pop. */
    method TakeNext() returns (pid: nat, ok: bool)
      requires Valid()
      modifies `active, `expired, active, expired
      ensures Valid() && Repr() == old(Repr())
      ensures ok <==> Fifo(old(View())) != []
      ensures ok ==> pid == Fifo(old(View()))[0] && View() == Popped(old(View()))
      ensures !ok ==> View() == old(View())
    {
      hide Ring.Valid;
      if active.Empty() {
        SwapQueues();
      }
      pid, ok := PopActive();
    }

    /** Load the frame of a live process that was popped. */
    method Resume(pid: nat) returns (exit: Exit)
      requires Valid() && (pid <= MAX_PROCESSES ==> !pcbs[pid].dead)
      modifies `running, `entered, `pcbs, expired, expired.buf
      ensures Valid()
      ensures Agrees(exit, View(), Resumed(old(View()), pid))
    {
      if pid > MAX_PROCESSES {
        return Leaves;
      }
      if pcbs[pid].ctx.None? {
        var _ := PushToExpired(pid);
        return Leaves;
      }
      running, entered := pid, pcbs[pid].ctx.value;
      pcbs := pcbs[pid := pcbs[pid].(ctx := None)];
      return Resumes;
    }

    /** One pass from `next_process` to an exit or to the next `goto`; `rescue[k]` answers the
        rescue spawn, should there be one. */
    method Pass(rescue: seq<Load>, k: nat) returns (again: bool, exit: Exit, next: nat)
      requires Valid() && k <= |rescue|
      modifies Repr()
      ensures Valid() && Repr() == old(Repr()) && next <= |rescue|
      ensures !again ==> Agrees(exit, View(), Dispatch(old(View()), rescue[k..]))
      ensures again ==>
                && k <= next <= |rescue| && (next > k || |Fifo(View())| < |Fifo(old(View()))|)
                && Dispatch(View(), rescue[next..]) == Dispatch(old(View()), rescue[k..])
    {
      hide Ring.Valid;
      DispatchUnfolds(View(), rescue[k..]);
      var pid, ok := TakeNext();
      if ok {
        if pid <= MAX_PROCESSES && pcbs[pid].dead {
          return true, Leaves, k;
        }
        exit := Resume(pid);
        return false, exit, k;
      }
      // the queue just swapped out is empty as well, so the second swap is never reached
      if k == |rescue| {
        return false, Spins, k;
      }
      var _ := ExecRoot(rescue[k]);
      assert rescue[k..][1..] == rescue[k + 1..];
      return true, Leaves, k + 1;
    }

    /** The loop at `next_process`.  When the rescue answers run out the source would still be
        looping. */
    method NextProcess(rescue: seq<Load>) returns (exit: Exit)
      requires Valid()
      modifies Repr()
      ensures Valid() && Repr() == old(Repr())
      ensures Agrees(exit, View(), Dispatch(old(View()), rescue))
    {
      ghost var start := View();
      var again, k := true, 0;
      assert rescue[0..] == rescue;
      exit := Leaves;
      while again
        invariant Valid() && Repr() == old(Repr()) && k <= |rescue|
        invariant again ==> Dispatch(View(), rescue[k..]) == Dispatch(start, rescue)
        invariant !again ==> Agrees(exit, View(), Dispatch(start, rescue))
        decreases again, |rescue| - k, |Fifo(View())|
      {
        again, exit, k := Pass(rescue, k);
      }
    }

    /** The head of `context_switch`: file the running process. */
    method FileRunning(regs: Ctx)
      requires Valid() && running != 0
      modifies `pcbs, expired, expired.buf
      ensures Valid() && View() == SwitchOut(old(View()), regs)
    {
      if !pcbs[running].dead {
        var _ := PushToExpired(running);
      }
      pcbs := pcbs[running := pcbs[running].(dead := false, ctx := Some(regs))];
    }

    /** `context_switch` */
    method SwitchContext(regs: Ctx, rescue: seq<Load>) returns (exit: Exit)
      requires Valid()
      modifies Repr()
      ensures Valid() && Repr() == old(Repr())
      ensures Agrees(exit, View(), ContextSwitch(old(View()), regs, rescue))
    {
      if running == 0 && nprocs == 0 {
        return Leaves;
      }
      if running != 0 {
        FileRunning(regs);
      }
      exit := NextProcess(rescue);
    }

    /** `sys_sched` */
    method SysSched(regs: Ctx, rescue: seq<Load>) returns (exit: Exit)
      requires Valid()
      modifies Repr()
      ensures Valid() && Repr() == old(Repr())
      ensures Agrees(exit, View(), YieldStep(old(View()), regs, rescue))
    {
      if nprocs > 0 && active.Empty() && expired.Empty() {
        return Leaves;
      }
      exit := SwitchContext(regs, rescue);
    }

    /** What every halt does first: count down, free the pid, mark the PCB. */
    method Bury(pid: nat)
      requires Valid() && IsPid(pid)
      modifies `nprocs, `bits, `pcbs
      ensures Valid() && View() == MarkDead(old(View()), pid)
    {
      nprocs := (nprocs + 255) % 256;
      Pids.MembersOps(bits, pid);
      bits := Pids.WithoutBit(bits, pid);
      pcbs := pcbs[pid := pcbs[pid].(dead := true)];
    }

    /** `sys_halt_internal`, without closing files and the terminal's pid. */
    method HaltInternal(pid: nat, status: int, regs: Ctx, rescue: seq<Load>) returns (exit: Exit)
      requires Valid() && IsPid(pid)
      modifies Repr()
      ensures Valid() && Repr() == old(Repr())
      ensures Agrees(exit, View(), HaltStep(old(View()), pid, status, regs, rescue))
    {
      Bury(pid);
      var parent := pcbs[pid].parent;
      if parent == 0 {
        if pid == running {
          exit := SysSched(regs, rescue);
          return;
        }
        return Leaves;
      }
      exit := ReturnToParent(pid, status);
    }

    /** The tail of `sys_halt_internal` for a process that has a parent. */
    method ReturnToParent(pid: nat, status: int) returns (exit: Exit)
      requires Valid() && IsPid(pid) && pcbs[pid].parent != 0
      modifies `pcbs, `running, `entered, expired, expired.buf
      ensures Valid()
      ensures Agrees(exit, View(), ToParent(old(View()), pid, status))
    {
      var parent, ctx := pcbs[pid].parent, pcbs[pid].parentCtx.value.(eax := status);
      pcbs := pcbs[pid := pcbs[pid].(parentCtx := Some(ctx))];
      if pid == running {
        running, entered := parent, ctx;
        return Resumes;
      }
      var _ := PushToExpired(parent);
      pcbs := pcbs[parent := pcbs[parent].(ctx := Some(ctx))];
      return Leaves;
    }
  }

  /** What the loop does with a popped pid that is not marked dead. */
  function Resumed(s: State, pid: nat): Outcome
    requires Shape(s)
  {
    if pid > MAX_PROCESSES then Returned(s)
    else if s.pcbs[pid].ctx.None? then Returned(PushExpired(s, pid))
    else Switched(s.(running := pid, entered := s.pcbs[pid].ctx.value,
                     pcbs := s.pcbs[pid := s.pcbs[pid].(ctx := None)]))
  }

  lemma DispatchUnfolds(s: State, rescue: seq<Load>)
    requires Shape(s)
    ensures Fifo(s) == [] ==>
              Dispatch(s, rescue) == if rescue == [] then Spinning else Dispatch(SpawnStep(s, rescue[0]), rescue[1..])
    ensures Fifo(s) != [] ==>
              Dispatch(s, rescue) ==
                if Fifo(s)[0] <= MAX_PROCESSES && s.pcbs[Fifo(s)[0]].dead then Dispatch(Popped(s), rescue)
                else Resumed(Popped(s), Fifo(s)[0])
  {
    assert Fifo(s) == [] ==> s.active == [] && s.expired == [];
  }

  /** How the scheduler ends: it loads a frame, returns to its caller, or keeps spinning. */
  datatype Exit = Resumes | Leaves | Spins

  ghost predicate Agrees(exit: Exit, s: State, o: Outcome) {
    match o
    case Switched(s') => exit.Resumes? && s == s'
    case Returned(s') => exit.Leaves? && s == s'
    case Spinning => exit.Spins?
  }

  /** The first half of `sys_exec_internal`, on the fields it updates: take a pid, zero and fill
      its PCB, load the file, and give everything back if that fails. */
  method Admit(s: Table, b: nat, n: nat, running: nat, load: Load, regs: Option<Ctx>)
    returns (pid: int, pcbs: Table, bits: nat, nprocs: nat)
    ensures pid != -1 <==> load.Loaded? && n < MAX_PROCESSES && FirstFree(Pids.Members(b), 1) <= MAX_PROCESSES
    ensures pid != -1 ==> pid == FirstFree(Pids.Members(b), 1) && Pids.Members(bits) == Pids.Members(b) + {pid as nat}
    ensures pid == -1 ==> Pids.Members(bits) == Pids.Members(b)
    ensures nprocs == if pid == -1 then n else n + 1
    ensures var free := FirstFree(Pids.Members(b), 1);
            pcbs == if load.Missing? || n >= MAX_PROCESSES || free > MAX_PROCESSES then s
                    else s[free := Pcb(false, None, if regs.Some? then running else 0, regs)]
  {
    pcbs, bits, nprocs := s, b, n;
    if load.Missing? || nprocs >= MAX_PROCESSES {
      return -1, pcbs, bits, nprocs;
    }
    nprocs := nprocs + 1;
    pid, bits := Pids.GetFirstFreePid(bits);
    if pid == -1 {
      nprocs := nprocs - 1;
      return;
    }
    pcbs := pcbs[pid := Pcb(false, None, if regs.Some? then running else 0, regs)];
    if load.Broken? {
      Pids.MembersOps(bits, pid);
      bits := Pids.WithoutBit(bits, pid);
      nprocs := nprocs - 1;
      pid := -1;
    }
  }
}
