/** Whole runs of the kernel: the invariant holds exactly as long as every guard does, and runs from
    boot that break the guards on stale pids and on full queues. */
module Runs {
  import opened Limits
  import opened Sequences
  import opened Lifecycle
  import opened LifecycleProofs
  import opened Dispatching

  // ---------- one step ----------

  lemma HaltExact(s: State, pid: nat, status: int, regs: Ctx, rescue: seq<Load>)
    requires Inv(s) && IsPid(pid)
    ensures var o := HaltStep(s, pid, status, regs, rescue);
            o.Spinning? || (Inv(o.state) <==> Guard(s, Halt(pid, status, regs, rescue)))
  {
    var parent := s.pcbs[pid].parent;
    if pid !in s.used {
      DeadHalts(s, pid, status, regs, rescue);
    } else if !Leaf(s, pid) {
      assert LiveProcess(s, pid);
      OrphanBreaks(s, pid, status, regs, rescue);
    } else if pid == s.running {
      if parent == 0 {
        DyingRootSwitches(s, status, regs, rescue);
      } else {
        HaltRunningChild(s, pid, status, regs, rescue);
      }
    } else if parent == 0 {
      HaltOtherRoot(s, pid, status, regs, rescue);
    } else if |s.expired| < QUEUE_CAPACITY {
      HaltOtherChild(s, pid, status, regs, rescue);
    } else {
      WakeLost(s, pid, status, regs, rescue);
    }
  }

  /** A pid that is not live is not running, and its halt leaves the count one short. */
  lemma DeadHalts(s: State, pid: nat, status: int, regs: Ctx, rescue: seq<Load>)
    requires Inv(s) && IsPid(pid) && pid !in s.used
    ensures !HaltStep(s, pid, status, regs, rescue).Spinning?
    ensures !Inv(HaltStep(s, pid, status, regs, rescue).state)
  {
    assert HaltStep(s, pid, status, regs, rescue).state.used == s.used;
  }

  /** Killing a child while the expired queue is full loses its parent. */
  lemma WakeLost(s: State, pid: nat, status: int, regs: Ctx, rescue: seq<Load>)
    requires Inv(s) && Leaf(s, pid) && pid != s.running && s.pcbs[pid].parent != 0
    requires |s.expired| == QUEUE_CAPACITY
    ensures !Inv(HaltStep(s, pid, status, regs, rescue).state)
  {
    var s', parent := HaltStep(s, pid, status, regs, rescue).state, s.pcbs[pid].parent;
    ParentWaits(s, pid);
    ChainsShrink(s, s', pid);
    assert Fifo(s') == Fifo(s);
    assert Leaf(s', parent) && !LiveProcess(s', parent);
  }

  lemma OrphanBreaks(s: State, pid: nat, status: int, regs: Ctx, rescue: seq<Load>)
    requires Inv(s) && pid in s.used && !Leaf(s, pid) && pid != s.running
    ensures !Inv(HaltStep(s, pid, status, regs, rescue).state)
  {
    var s' := HaltStep(s, pid, status, regs, rescue).state;
    var c :| c in s.used && s.pcbs[c].parent == pid;
    ParentWaits(s, c);
    assert c in s'.used && s'.pcbs[c].parent == pid && pid !in s'.used;
    if PidsInRange(s') {
      forall links: Links | |links.rank| == |links.child| == MAX_PROCESSES + 1 ensures !Linked(s', links) {
        assert !Edge(s', links, c);
      }
    }
  }

  /** Every step from a good state leads to a good state exactly when its guard holds. */
  lemma StepExact(s: State, step: Step)
    requires Inv(s) && Enabled(s, step) && !Next(s, step).Spinning?
    ensures Inv(Next(s, step).state) <==> Guard(s, step)
  {
    match step
    case Tick(regs, rescue) =>
      SwitchExact(s, regs, rescue);
    case Yield(regs, rescue) =>
      if !Sleeps(s) {
        SwitchExact(s, regs, rescue);
      }
    case Exec(regs, load) => ExecExact(s, regs, load);
    case Spawn(load) => SpawnExact(s, load);
    case Halt(pid, status, regs, rescue) => HaltExact(s, pid, status, regs, rescue);
  }

  lemma SwitchExact(s: State, regs: Ctx, rescue: seq<Load>)
    requires Inv(s)
    ensures var o := ContextSwitch(s, regs, rescue);
            o.Spinning? || (Inv(o.state) <==> s.running == 0 || |s.expired| < QUEUE_CAPACITY)
  {
    if s.running == 0 || |s.expired| < QUEUE_CAPACITY {
      ContextSwitchKeeps(s, regs, rescue);
    } else {
      FullQueueLoses(s, regs, rescue);
    }
  }

  /** A guarded step gets stuck in exactly one way: the last process halts and no rescue
      shell loads. */
  lemma OnlyRescueSpins(s: State, step: Step)
    requires Inv(s) && Enabled(s, step) && Guard(s, step)
    ensures Next(s, step).Spinning? <==>
              && step.Halt? && step.pid == s.running && s.used == {s.running}
              && forall i :: 0 <= i < |step.rescue| ==> !step.rescue[i].Loaded?
  {
    match step
    case Tick(regs, rescue) => ContextSwitchKeeps(s, regs, rescue);
    case Yield(regs, rescue) =>
      if !Sleeps(s) {
        ContextSwitchKeeps(s, regs, rescue);
      }
    case Exec(regs, load) =>
    case Spawn(load) =>
    case Halt(pid, status, regs, rescue) =>
      if pid == s.running {
        if s.pcbs[pid].parent == 0 {
          DyingRootSwitches(s, status, regs, rescue);
        } else {
          ParentWaits(s, pid);
        }
      }
  }

  // ---------- runs ----------

  /** `states` are the states the kernel goes through on `steps`. */
  predicate Trace(states: seq<State>, steps: seq<Step>) {
    && |states| == |steps| + 1
    && (forall i :: 0 <= i < |states| ==> Shape(states[i]))
    && forall i :: 0 <= i < |steps| ==> Moves(states[i], steps[i], states[i + 1])
  }

  predicate Moves(s: State, step: Step, s': State)
    requires Shape(s)
  {
    Enabled(s, step) && !Next(s, step).Spinning? && s' == Next(s, step).state
  }

  lemma BootIsGood()
    ensures Inv(BOOT)
  {
    assert Linked(BOOT, Links(seq(MAX_PROCESSES + 1, _ => 0), seq(MAX_PROCESSES + 1, _ => 0)));
  }

  /** One step of a run. */
  lemma TraceStep(states: seq<State>, steps: seq<Step>, i: nat)
    requires Trace(states, steps) && i < |steps| && Inv(states[i])
    ensures Inv(states[i + 1]) <==> Guard(states[i], steps[i])
  {
    assert Moves(states[i], steps[i], states[i + 1]);
    StepExact(states[i], steps[i]);
  }

  /** What holds at the start and survives exactly the guarded steps holds throughout exactly
      when every step is guarded. */
  lemma {:induction false} Throughout(good: seq<bool>, guarded: seq<bool>, n: nat)
    requires n <= |guarded| < |good| && good[0]
    requires forall i :: 0 <= i < n && good[i] ==> (good[i + 1] <==> guarded[i])
    ensures (forall i :: 0 <= i <= n ==> good[i]) <==> (forall i :: 0 <= i < n ==> guarded[i])
  {
    if n > 0 {
      Throughout(good, guarded, n - 1);
      assert good[n - 1] ==> (good[n] <==> guarded[n - 1]);
    }
  }

  /** Over a whole run the invariant holds up to state `n` exactly when the first `n` guards do. */
  lemma RunExact(states: seq<State>, steps: seq<Step>, n: nat)
    requires Trace(states, steps) && Inv(states[0]) && n <= |steps|
    ensures (forall i :: 0 <= i <= n ==> Inv(states[i])) <==>
            (forall i :: 0 <= i < n ==> Guard(states[i], steps[i]))
  {
    var good := seq(|states|, i requires 0 <= i < |states| => Inv(states[i]));
    var guarded := seq(|steps|, i requires 0 <= i < |steps| => Guard(states[i], steps[i]));
    forall i | 0 <= i < n && good[i] ensures good[i + 1] <==> guarded[i] {
      TraceStep(states, steps, i);
    }
    Throughout(good, guarded, n);
    assert forall i :: 0 <= i <= n ==> good[i] == Inv(states[i]);
    assert forall i :: 0 <= i < n ==> guarded[i] == Guard(states[i], steps[i]);
  }

  // ---------- what the guards exclude ----------

  lemma {:induction false} NoDupBound(q: seq<nat>, bound: set<nat>)
    requires NoDup(q) && forall p :: p in q ==> p in bound
    ensures |q| <= |bound|
    ensures |q| == |bound| ==> forall p :: p in bound ==> p in q
  {
    if q != [] {
      var rest := q[1..];
      assert q == [q[0]] + rest;
      forall i | 0 <= i < |rest| ensures rest[i] != q[0] {
      }
      NoDupBound(rest, bound - {q[0]});
    }
  }

  lemma OtherPids(r: nat) returns (others: set<nat>)
    requires IsPid(r)
    ensures |others| == MAX_PROCESSES - 1 && forall p: nat :: p in others <==> IsPid(p) && p != r
  {
    others := {1, 2, 3, 4, 5, 6, 7, 8, 9, 10} - {r};
  }

  /** While a process runs, the queues overflow only if all nine other pids are in the expired
      queue, and waking a parent never overflows. */
  lemma OverflowNeedsEveryPid(s: State)
    requires Inv(s) && s.running != 0
    ensures |Fifo(s)| < MAX_PROCESSES
    ensures |s.expired| == QUEUE_CAPACITY ==>
              s.active == [] && forall p :: IsPid(p) && p != s.running ==> p in s.expired
    ensures forall pid :: pid in s.used && pid != s.running && s.pcbs[pid].parent != 0 ==> |s.expired| < QUEUE_CAPACITY
  {
    var others := OtherPids(s.running);
    forall p | p in Fifo(s) ensures p in others {
      assert Entry(s, p);
    }
    NoDupBound(Fifo(s), others);
    if |s.expired| == QUEUE_CAPACITY {
      assert Fifo(s) == s.expired;
      forall p | IsPid(p) && p != s.running ensures p in s.expired {
        assert p in others;
      }
    }
    forall pid | pid in s.used && pid != s.running && s.pcbs[pid].parent != 0 ensures |s.expired| < QUEUE_CAPACITY {
      ParentWaits(s, pid);
    }
  }

  /** A spawn onto a stale entry of the pid it takes leaves that pid queued twice. */
  lemma StaleSpawn(s: State, frame: int)
    requires Shape(s) && s.used == {} && s.nprocs == 0 && s.active == [1] && s.expired == []
    ensures !Inv(SpawnStep(s, Loaded(frame)))
  {
    var s' := SpawnStep(s, Loaded(frame));
    assert Fifo(s') == [1, 1] && Fifo(s')[0] == Fifo(s')[1];
  }

  lemma FirstShell(frame: int)
    ensures var s' := SpawnStep(BOOT, Loaded(frame));
            && Shape(s') && s'.active == [1] && s'.expired == [] && s'.used == {1} && s'.nprocs == 1
            && s'.running == 0 && s'.pcbs[1].parent == 0
  {
  }

  lemma SpawnMoved(s: State, load: Load)
    requires Shape(s)
    ensures Moves(s, Spawn(load), SpawnStep(s, load)) && Shape(SpawnStep(s, load))
  {
  }

  /** Some run from boot leads there. */
  ghost predicate Reachable(s: State) {
    exists states, steps :: Trace(states, steps) && AtBoot(states[0]) && states[|steps|] == s
  }

  predicate AtBoot(s: State) {
    && s.running == 0 && s.entered == Ctx(0, 0) && s.active == s.expired == [] && s.used == {} && s.nprocs == 0
    && forall i :: 0 <= i <= MAX_PROCESSES ==> s.pcbs[i] == ZERO_PCB
  }

  lemma BootReachable()
    ensures forall s :: AtBoot(s) <==> s == BOOT
    ensures Reachable(BOOT)
  {
    assert Trace([BOOT], []) && AtBoot([BOOT][0]);
  }

  lemma ReachStep(s: State, step: Step, s': State)
    requires Reachable(s) && Shape(s) && Moves(s, step, s') && Shape(s')
    ensures Reachable(s')
  {
    var states, steps :| Trace(states, steps) && AtBoot(states[0]) && states[|steps|] == s;
    var more, on := states + [s'], steps + [step];
    forall i | 0 <= i < |on| ensures Moves(more[i], on[i], more[i + 1]) {
      assert i < |steps| ==> Moves(states[i], steps[i], states[i + 1]);
    }
    assert Trace(more, on);
  }

  /** The guard on stale pids is needed: a shell killed before its first turn, followed by a
      shell that takes its pid, breaks the invariant, though not the count. */
  lemma StalePidReachable() returns (s: State)
    ensures Reachable(s) && Counts(s) && !Inv(s)
  {
    hide Reachable;
    BootReachable();
    var s1 := SpawnStep(BOOT, Loaded(0));
    FirstShell(0);
    SpawnMoved(BOOT, Loaded(0));
    ReachStep(BOOT, Spawn(Loaded(0)), s1);
    var s2 := KilledShell(s1);
    s := SpawnStep(s2, Loaded(0));
    SpawnMoved(s2, Loaded(0));
    ReachStep(s2, Spawn(Loaded(0)), s);
    StaleSpawn(s2, 0);
  }

  lemma KilledShell(s1: State) returns (s2: State)
    requires Reachable(s1) && Shape(s1) && s1.active == [1] && s1.expired == [] && s1.used == {1} && s1.nprocs == 1
    requires s1.running == 0 && s1.pcbs[1].parent == 0
    ensures Reachable(s2) && Shape(s2) && s2.used == {} && s2.nprocs == 0 && s2.active == [1] && s2.expired == []
  {
    s2 := MarkDead(s1, 1);
    assert s2.used == {};
    assert Moves(s1, Halt(1, 256, Ctx(0, 0), []), s2);
    ReachStep(s1, Halt(1, 256, Ctx(0, 0), []), s2);
  }

  // ---------- a full queue ----------

  /** The pids from `a` up to but not including `b`. */
  function Pids(a: nat, b: nat): (q: seq<nat>)
    ensures |q| == (if a < b then b - a else 0) && forall i :: 0 <= i < |q| ==> q[i] == a + i
  {
    seq(if a < b then b - a else 0, i => a + i)
  }

  lemma PidsMore(a: nat, b: nat)
    requires a <= b
    ensures Pids(a, b + 1) == Pids(a, b) + [b] == [a] + Pids(a + 1, b + 1)
  {
  }

  predicate Ready(s: State, a: nat, b: nat) {
    forall p :: a <= p < b ==> IsPid(p) ==> !s.pcbs[p].dead && s.pcbs[p].ctx.Some?
  }

  /** Shells 1 to `n` are live: `r` runs, those before it have expired, those behind it wait. */
  ghost predicate Lined(s: State, r: nat, n: nat) {
    && Shape(s) && s.running == r <= n <= MAX_PROCESSES
    && s.expired == Pids(1, r) && s.active == Pids(r + 1, n + 1)
    && s.nprocs == n && (forall p :: p in s.used <==> 1 <= p <= n)
    && (r > 0 ==> IsPid(r) && !s.pcbs[r].dead) && Ready(s, 1, r) && Ready(s, r + 1, n + 1)
  }

  lemma OneMoreShell(s: State, r: nat, n: nat)
    requires Lined(s, r, n) && r <= 1 && n < MAX_PROCESSES && n - r < QUEUE_CAPACITY
    ensures Lined(SpawnStep(s, Loaded(0)), r, n + 1)
  {
    assert NextPid(s) == n + 1;
    PidsMore(r + 1, n + 1);
    hide Pids;
  }

  lemma OneMoreTick(s: State, r: nat, n: nat)
    requires Lined(s, r, n) && r < n
    ensures var o := ContextSwitch(s, Ctx(0, 0), []); o.Switched? && Lined(o.state, r + 1, n)
  {
    var s1 := SwitchOut(s, Ctx(0, 0));
    PidsMore(r + 1, n);
    assert s1.active == [r + 1] + Pids(r + 2, n + 1);
    if r > 0 {
      PidsMore(1, r);
    }
    assert Pids(1, 1) == [] == Pids(1, 0);
    hide Pids;
  }

  lemma ShellReach(s: State, r: nat, n: nat) returns (s': State)
    requires Reachable(s) && Inv(s) && Lined(s, r, n) && r <= 1 && n < MAX_PROCESSES && n - r < QUEUE_CAPACITY
    ensures Reachable(s') && Inv(s') && Lined(s', r, n + 1)
  {
    hide Reachable;
    OneMoreShell(s, r, n);
    s' := SpawnStep(s, Loaded(0));
    SpawnMoved(s, Loaded(0));
    ReachStep(s, Spawn(Loaded(0)), s');
    SpawnExact(s, Loaded(0));
  }

  lemma TickReach(s: State, r: nat, n: nat) returns (s': State)
    requires Reachable(s) && Inv(s) && Lined(s, r, n) && r < n
    ensures Reachable(s') && Inv(s') && Lined(s', r + 1, n)
  {
    hide Reachable;
    OneMoreTick(s, r, n);
    s' := ContextSwitch(s, Ctx(0, 0), []).state;
    assert Moves(s, Tick(Ctx(0, 0), []), s');
    ReachStep(s, Tick(Ctx(0, 0), []), s');
    ContextSwitchKeeps(s, Ctx(0, 0), []);
  }

  lemma {:induction false} ManyShells(n: nat) returns (s: State)
    requires n < MAX_PROCESSES
    ensures Reachable(s) && Inv(s) && Lined(s, 0, n)
  {
    if n == 0 {
      s := BOOT;
      BootReachable();
      BootIsGood();
    } else {
      s := ManyShells(n - 1);
      s := ShellReach(s, 0, n - 1);
    }
  }

  lemma {:induction false} ManyTicks(r: nat) returns (s: State)
    requires 1 <= r <= MAX_PROCESSES
    ensures Reachable(s) && Inv(s) && Lined(s, r, MAX_PROCESSES)
  {
    if r == 1 {
      s := ManyShells(9);
      s := TickReach(s, 0, 9);
      s := ShellReach(s, 1, 9);
    } else {
      s := ManyTicks(r - 1);
      s := TickReach(s, r - 1, MAX_PROCESSES);
    }
  }

  /** The guard on full queues is needed: ten shells, nine of which have had their turn, and the
      tenth is lost at the next tick. */
  lemma FullQueueReachable(regs: Ctx, rescue: seq<Load>) returns (s: State)
    ensures Reachable(s) && s.running == 10 && |s.expired| == QUEUE_CAPACITY
    ensures Inv(s) && !Guard(s, Tick(regs, rescue))
    ensures var o := ContextSwitch(s, regs, rescue); o.Switched? && !Inv(o.state)
  {
    s := ManyTicks(10);
    FullQueueLoses(s, regs, rescue);
  }
}
