/** Process lifecycle and scheduling as steps on values: execute and halt
    (syscall_impl.c), yield, and the timer's context switch (sched.c).

    A pid is live while its bit of `proc_bitmap` is set; `used` is the set of those bits.
    Pid 0 stands for the boot kernel, whose PCB is NULL.  The two run queues are the
    contents of the two rings, oldest entry first. */
module Lifecycle {
  import opened Limits
  import opened Sequences
  import opened Options

  /** A ring declared with size `MAX_PROCESSES` holds one entry less. */
  const QUEUE_CAPACITY := 9
  /** What `enter_userland` leaves in eax. */
  const USER_DS := 0x2B

  /** A saved register frame; `frame` stands for every register but eax. */
  datatype Ctx = Ctx(frame: int, eax: int)

  /** The scheduling fields of a PCB.  `dead` is the EXIT_DEAD mask of `state`. */
  datatype Pcb = Pcb(dead: bool, ctx: Option<Ctx>, parent: nat, parentCtx: Option<Ctx>)

  const ZERO_PCB := Pcb(false, None, 0, None)

  type Table = t: seq<Pcb> | |t| == MAX_PROCESSES + 1
    witness seq(MAX_PROCESSES + 1, _ => ZERO_PCB)

  /** `entered` is the register frame the processor last loaded. */
  datatype State = State(
    running: nat, entered: Ctx,
    active: seq<nat>, expired: seq<nat>,
    pcbs: Table, used: set<nat>, nprocs: nat)

  /** How the file system answers an execute: no such file, a file whose entry point is
      rejected, or a program whose first frame is `frame`. */
  datatype Load = Missing | Broken | Loaded(frame: int)

  /** What the environment may do to the kernel.  `rescue` holds the answers to the rescue
      shells that a switch may have to spawn, one per attempt. */
  datatype Step =
    | Tick(regs: Ctx, rescue: seq<Load>)
    | Yield(regs: Ctx, rescue: seq<Load>)
    | Exec(regs: Ctx, load: Load)
    | Spawn(load: Load)
    | Halt(pid: nat, status: int, regs: Ctx, rescue: seq<Load>)

  /** `Switched`: another frame was loaded.  `Returned`: control goes back to the caller.
      `Spinning`: every rescue attempt failed and the loop is still trying. */
  datatype Outcome = Switched(state: State) | Returned(state: State) | Spinning

  predicate Shape(s: State) {
    && s.running <= MAX_PROCESSES
    && |s.active| <= QUEUE_CAPACITY && |s.expired| <= QUEUE_CAPACITY
    && forall i :: 0 <= i <= MAX_PROCESSES ==>
         s.pcbs[i].parent <= MAX_PROCESSES && (s.pcbs[i].parent != 0 <==> s.pcbs[i].parentCtx.Some?)
  }

  /** The state after `init_sched`, before the first shell. */
  const BOOT := State(0, Ctx(0, 0), [], [], seq(MAX_PROCESSES + 1, _ => ZERO_PCB), {}, 0)

  // ---------- helpers of the source ----------

  /** `get_first_free_pid`, scanning from `i`; 11 stands for -1. */
  function FirstFree(used: set<nat>, i: nat): (r: nat)
    requires i <= MAX_PROCESSES + 1
    ensures i <= r <= MAX_PROCESSES + 1
    ensures r <= MAX_PROCESSES ==> r !in used
    ensures forall j :: i <= j < r ==> j in used
    decreases MAX_PROCESSES + 1 - i
  {
    if i > MAX_PROCESSES || i !in used then i else FirstFree(used, i + 1)
  }

  function PushActive(s: State, pid: nat): State {
    if |s.active| < QUEUE_CAPACITY then s.(active := s.active + [pid]) else s
  }

  function PushExpired(s: State, pid: nat): State {
    if |s.expired| < QUEUE_CAPACITY then s.(expired := s.expired + [pid]) else s
  }

  // ---------- execute ----------

  /** The pid an execute would take, or 11. */
  function NextPid(s: State): nat {
    FirstFree(s.used, 1)
  }

  predicate Allocates(s: State, load: Load) {
    !load.Missing? && s.nprocs < MAX_PROCESSES && NextPid(s) <= MAX_PROCESSES
  }

  /** `sys_exec_internal` on behalf of the running process, which the child replaces. */
  function ExecStep(s: State, regs: Ctx, load: Load): (o: Outcome)
    requires Shape(s) && s.running != 0
    ensures !o.Spinning? && Shape(o.state)
  {
    if !Allocates(s, load) then Returned(s) else
      var pid := NextPid(s);
      var s1 := s.(pcbs := s.pcbs[pid := Pcb(false, None, s.running, Some(regs))]);
      if load.Broken? then Returned(s1)
      else Switched(s1.(running := pid, entered := Ctx(load.frame, USER_DS),
                        used := s.used + {pid}, nprocs := s.nprocs + 1))
  }

  /** `sys_exec_internal` with a NULL context: a root process, queued to run later. */
  function SpawnStep(s: State, load: Load): (s': State)
    requires Shape(s)
    ensures Shape(s')
  {
    if !Allocates(s, load) then s else
      var pid := NextPid(s);
      var s1 := s.(pcbs := s.pcbs[pid := ZERO_PCB]);
      if load.Broken? then s1
      else PushActive(s1.(pcbs := s1.pcbs[pid := ZERO_PCB.(ctx := Some(Ctx(load.frame, 0)))],
                          used := s.used + {pid}, nprocs := s.nprocs + 1), pid)
  }

  // ---------- the scheduler ----------

  /** The loop at `next_process`. */
  function Dispatch(s: State, rescue: seq<Load>): (o: Outcome)
    requires Shape(s)
    ensures !o.Spinning? ==> Shape(o.state)
    decreases |rescue|, |s.active| + |s.expired|
  {
    // an empty active queue is swapped with the expired one
    var s := if s.active == [] then s.(active := s.expired, expired := []) else s;
    if s.active == [] then
      // both are empty; a failed spawn answers -1, which the unsigned test takes for a pid
      if rescue == [] then Spinning else Dispatch(SpawnStep(s, rescue[0]), rescue[1..])
    else
      var pid, s := s.active[0], s.(active := s.active[1..]);
      if pid > MAX_PROCESSES then Returned(s)
      else if s.pcbs[pid].dead then Dispatch(s, rescue)
      else if s.pcbs[pid].ctx.None? then Returned(PushExpired(s, pid))
      else Switched(s.(running := pid, entered := s.pcbs[pid].ctx.value,
                       pcbs := s.pcbs[pid := s.pcbs[pid].(ctx := None)]))
  }

  /** The part of `context_switch` before the loop: file the running process. */
  function SwitchOut(s: State, regs: Ctx): (s': State)
    requires Shape(s)
    ensures Shape(s')
  {
    if s.running == 0 then s else
      var pcb := s.pcbs[s.running];
      var s1 := if pcb.dead then s else PushExpired(s, s.running);
      s1.(pcbs := s.pcbs[s.running := pcb.(dead := false, ctx := Some(regs))])
  }

  function ContextSwitch(s: State, regs: Ctx, rescue: seq<Load>): Outcome
    requires Shape(s)
  {
    if s.running == 0 && s.nprocs == 0 then Returned(s) else Dispatch(SwitchOut(s, regs), rescue)
  }

  /** `sys_sched` sleeps in place when there is nobody to switch to. */
  predicate Sleeps(s: State) {
    s.nprocs > 0 && s.active == [] && s.expired == []
  }

  function YieldStep(s: State, regs: Ctx, rescue: seq<Load>): Outcome
    requires Shape(s)
  {
    if Sleeps(s) then Returned(s) else ContextSwitch(s, regs, rescue)
  }

  // ---------- halt ----------

  /** The part of `sys_halt_internal` that every halt does; the counter is one byte wide. */
  function MarkDead(s: State, pid: nat): State
    requires Shape(s) && 1 <= pid <= MAX_PROCESSES
  {
    s.(nprocs := (s.nprocs + 255) % 256, used := s.used - {pid},
       pcbs := s.pcbs[pid := s.pcbs[pid].(dead := true)])
  }

  /** Wake the parent of a halted process with the status in its eax. */
  function ToParent(s: State, pid: nat, status: int): (o: Outcome)
    requires Shape(s) && 1 <= pid <= MAX_PROCESSES && s.pcbs[pid].parent != 0
    ensures !o.Spinning? && Shape(o.state)
  {
    var parent, ctx := s.pcbs[pid].parent, s.pcbs[pid].parentCtx.value.(eax := status);
    var s1 := s.(pcbs := s.pcbs[pid := s.pcbs[pid].(parentCtx := Some(ctx))]);
    if pid == s.running then Switched(s1.(running := parent, entered := ctx))
    else
      var s2 := PushExpired(s1, parent);
      Returned(s2.(pcbs := s2.pcbs[parent := s2.pcbs[parent].(ctx := Some(ctx))]))
  }

  function HaltStep(s: State, pid: nat, status: int, regs: Ctx, rescue: seq<Load>): Outcome
    requires Shape(s) && 1 <= pid <= MAX_PROCESSES
  {
    var s1 := MarkDead(s, pid);
    if s1.pcbs[pid].parent != 0 then ToParent(s1, pid, status)
    // a root that halts itself is left to the scheduler
    else if pid == s.running then YieldStep(s1, regs, rescue)
    else Returned(s1)
  }

  // ---------- steps ----------

  /** Only a process executes or yields; only pids 1 to 10 have a PCB to halt. */
  predicate Enabled(s: State, step: Step) {
    match step
    case Tick(_, _) => true
    case Yield(_, _) => s.running != 0
    case Exec(_, _) => s.running != 0
    case Spawn(_) => true
    case Halt(pid, _, _, _) => 1 <= pid <= MAX_PROCESSES
  }

  function Next(s: State, step: Step): (o: Outcome)
    requires Shape(s) && Enabled(s, step)
    ensures !o.Spinning? ==> Shape(o.state)
  {
    match step
    case Tick(regs, rescue) => ContextSwitch(s, regs, rescue)
    case Yield(regs, rescue) => YieldStep(s, regs, rescue)
    case Exec(regs, load) => ExecStep(s, regs, load)
    case Spawn(load) => Returned(SpawnStep(s, load))
    case Halt(pid, status, regs, rescue) => HaltStep(s, pid, status, regs, rescue)
  }

  // ---------- the invariant ----------

  /** All queue entries, in the order they will be popped. */
  function Fifo(s: State): seq<nat> {
    s.active + s.expired
  }

  predicate PidsInRange(s: State) {
    forall p :: p in s.used ==> IsPid(p)
  }

  /** A live process that no live process waits on. */
  predicate Leaf(s: State, p: nat)
    requires PidsInRange(s)
  {
    p in s.used && forall c :: c in s.used ==> s.pcbs[c].parent != p
  }

  /** The process counter is the number of set bits. */
  predicate Counts(s: State) {
    PidsInRange(s) && s.nprocs == |s.used| <= MAX_PROCESSES
  }

  predicate Accounting(s: State) {
    Counts(s) && (s.running != 0 ==> s.running in s.used)
  }

  /** Bookkeeping that shows the live processes form chains: `rank` grows along every
      parent-to-child edge, so there is no cycle, and `child` inverts those edges. */
  datatype Links = Links(rank: seq<nat>, child: seq<nat>)

  predicate Edge(s: State, links: Links, p: nat)
    requires PidsInRange(s) && p in s.used && |links.rank| == |links.child| == MAX_PROCESSES + 1
  {
    var parent := s.pcbs[p].parent;
    parent == 0 || (parent in s.used && links.child[parent] == p && links.rank[parent] < links.rank[p])
  }

  predicate Linked(s: State, links: Links)
    requires PidsInRange(s)
  {
    && |links.rank| == |links.child| == MAX_PROCESSES + 1
    && forall p {:trigger Edge(s, links, p)} :: p in s.used ==> Edge(s, links, p)
  }

  /** Every parent of a live process is live and has one live child, and there is no cycle. */
  ghost predicate Chains(s: State)
    requires PidsInRange(s)
  {
    exists links :: Linked(s, links)
  }

  /** What the scheduler's loop relies on: a queued pid is live with a context, or dead. */
  predicate Entry(s: State, p: nat) {
    && IsPid(p)
    && if p in s.used then !s.pcbs[p].dead && s.pcbs[p].ctx.Some? else s.pcbs[p].dead
  }

  predicate Queued(s: State) {
    forall p {:trigger Entry(s, p)} :: p in Fifo(s) ==> Entry(s, p)
  }

  /** A live process is runnable exactly when nobody waits on it, and has a saved context
      exactly when it is queued. */
  predicate LiveProcess(s: State, p: nat)
    requires PidsInRange(s) && p in s.used
  {
    && !s.pcbs[p].dead
    && (s.pcbs[p].ctx.Some? <==> p in Fifo(s))
    && (Leaf(s, p) <==> p == s.running || p in Fifo(s))
  }

  ghost predicate Inv(s: State) {
    && Shape(s) && Accounting(s) && Chains(s) && Queued(s)
    && NoDup(Fifo(s)) && s.running !in Fifo(s)
    && forall p {:trigger LiveProcess(s, p)} :: p in s.used ==> LiveProcess(s, p)
  }

  /** What a caller has to check before a step; each conjunct is a test on the state before. */
  predicate Guard(s: State, step: Step)
    requires Shape(s)
  {
    match step
    case Tick(_, _) => s.running == 0 || |s.expired| < QUEUE_CAPACITY
    case Yield(_, _) => |s.expired| < QUEUE_CAPACITY
    case Exec(_, load) => Allocates(s, load) ==> NextPid(s) !in Fifo(s)
    case Spawn(load) =>
      Allocates(s, load) ==>
        // a stale entry of the new pid is harmless only if it replaces a lost push
        (NextPid(s) in Fifo(s) <==> load.Loaded? && |s.active| == QUEUE_CAPACITY)
    case Halt(pid, _, _, _) =>
      && IsPid(pid) && PidsInRange(s) && Leaf(s, pid)
      && (pid != s.running && s.pcbs[pid].parent != 0 ==> |s.expired| < QUEUE_CAPACITY)
  }
}
