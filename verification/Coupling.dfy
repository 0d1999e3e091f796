/** The scheduler's processes are the terminals' processes.  Both models keep the parent pointers and
    the bitmap; where they agree, the condition that the scheduler puts on a halt is met by what the
    terminals do. */
module Coupling {
  import opened Limits
  import opened Paging
  import opened Dispatching
  import opened Contexts
  import opened Fairness
  import opened MultiplexProofs
  import K = Lifecycle
  import M = Multiplex

  /** The same bits are set and the same parents recorded. */
  predicate Coupled(k: K.State, s: M.State) {
    && K.PidsInRange(k) && M.Sized(s) && k.used == s.live
    && forall p :: p in k.used ==> s.procs[p].parent == k.pcbs[p].parent
  }

  /** In a line of parents, the parent of every process but the last is the next one. */
  lemma {:induction false} LineageParent(procs: seq<M.Proc>, pid: int, c: seq<nat>, i: nat)
    requires |procs| == MAX_PROCESSES + 1 && M.Lineage(procs, pid, c) && i < |c|
    ensures procs[c[i]].parent == if i == |c| - 1 then 0 else c[i + 1]
    decreases i
  {
    if i > 0 {
      LineageParent(procs, c[1], c[1..], i - 1);
    }
  }

  /** A live process is a leaf if and only if it is the newest of its terminal. */
  lemma LeafIsNewest(k: K.State, s: M.State, g: M.Groups, p: nat)
    requires M.Inv(s, g) && Coupled(k, s) && p in k.used
    ensures M.TermOf(g, p) < NUM_TERMS
    ensures K.Leaf(k, p) <==> g[M.TermOf(g, p)][0] == p
  {
    assert M.Counted(s, g, p);
    var t := M.TermOf(g, p);
    assert M.WiredAt(s, g, t);
    var i :| 0 <= i < |g[t]| && g[t][i] == p;
    if i > 0 {
      LineageParent(s.procs, s.termPids[t], g[t], i - 1);
      var c := g[t][i - 1];
      assert c in g[t];
      assert M.Counted(s, g, c);
      LineageNoDup(s.procs, s.termPids[t], g[t]);
      assert g[t][i] == g[t][1..][i - 1];
    } else {
      forall c | c in k.used ensures k.pcbs[c].parent != p {
        ChildAhead(s, g, c, t);
      }
    }
  }

  /** The newest process of a terminal is nobody's parent. */
  lemma ChildAhead(s: M.State, g: M.Groups, c: nat, t: nat)
    requires M.Inv(s, g) && c in s.live && IsPid(c) && t < NUM_TERMS && g[t] != []
    ensures s.procs[c].parent != g[t][0]
  {
    assert M.Counted(s, g, c);
    var u := M.TermOf(g, c);
    assert M.WiredAt(s, g, u) && M.WiredAt(s, g, t);
    var j :| 0 <= j < |g[u]| && g[u][j] == c;
    LineageParent(s.procs, s.termPids[u], g[u], j);
    if s.procs[c].parent == g[t][0] {
      assert g[u][j + 1] in g[u] && g[t][0] in g[t];
      assert u == t;
      assert g[t][j + 1] == g[t][1..][j];
      LineageNoDup(s.procs, s.termPids[t], g[t]);
    }
  }

  /** Ctrl-C kills the process recorded for the foreground terminal, which is always a leaf. */
  lemma CtrlCKillsLeaf(k: K.State, s: M.State, g: M.Groups)
    requires M.Inv(s, g) && Coupled(k, s) && s.termPids[s.fg] > 0
    ensures IsPid(s.termPids[s.fg]) && K.Leaf(k, s.termPids[s.fg])
    ensures M.Enabled(s, g, M.Exit(s.termPids[s.fg])) && M.Guard(s, g, M.Exit(s.termPids[s.fg]))
  {
    var p := s.termPids[s.fg];
    assert M.WiredAt(s, g, s.fg);
    assert p == g[s.fg][0] && p in g[s.fg];
    Grouped(g, s.fg, p);
    assert M.Counted(s, g, p);
    LeafIsNewest(k, s, g, p);
  }

  lemma Grouped(g: M.Groups, t: nat, p: nat)
    requires M.Disjoint(g) && t < NUM_TERMS && p in g[t]
    ensures M.TermOf(g, p) == t
  {
  }

  /** A rescue shell is spawned when no process is left, and then finds its terminal empty. */
  lemma RescueFindsRoom(k: K.State, s: M.State, g: M.Groups, start: M.Start)
    requires M.Inv(s, g) && Coupled(k, s) && k.used == {} && M.Startable(s, start) && !start.Failed?
    ensures forall t :: 0 <= t < NUM_TERMS ==> g[t] == []
    ensures M.Enabled(s, g, M.Spawn(start)) && M.Guard(s, g, M.Spawn(start))
  {
    forall t | 0 <= t < NUM_TERMS ensures g[t] == [] {
      if g[t] != [] {
        assert g[t][0] in g[t];
        assert M.Counted(s, g, g[t][0]);
        Grouped(g, t, g[t][0]);
      }
    }
  }

  // ---------- the two move together ----------

  /** How the terminals see the answer to an execute. */
  function StartOf(k: K.State, load: K.Load): M.Start {
    if !K.Allocates(k, load) then M.Refused
    else if load.Broken? then M.Failed(K.NextPid(k))
    else M.Started(K.NextPid(k))
  }

  lemma StartOk(k: K.State, s: M.State, load: K.Load)
    requires Coupled(k, s)
    ensures M.Startable(s, StartOf(k, load))
  {
  }

  /** Execute by the running process is enabled on its terminal and keeps the two coupled. */
  lemma ExecCoupled(k: K.State, s: M.State, g: M.Groups, regs: K.Ctx, load: K.Load)
    requires K.Inv(k) && M.Inv(s, g) && Coupled(k, s) && k.running != 0
    ensures M.Enabled(s, g, M.Exec(k.running, StartOf(k, load)))
    ensures Coupled(K.ExecStep(k, regs, load).state, M.Next(s, g, M.Exec(k.running, StartOf(k, load))).value)
  {
    assert K.LiveProcess(k, k.running);
    LeafIsNewest(k, s, g, k.running);
    StartOk(k, s, load);
  }

  lemma SpawnCoupled(k: K.State, s: M.State, g: M.Groups, load: K.Load)
    requires K.Shape(k) && M.Inv(s, g) && Coupled(k, s)
    ensures M.Enabled(s, g, M.Spawn(StartOf(k, load)))
    ensures Coupled(K.SpawnStep(k, load), M.Next(s, g, M.Spawn(StartOf(k, load))).value)
  {
    StartOk(k, s, load);
  }

  /** A halt that the scheduler's guard allows is an exit that the terminals allow, and the two stay
      coupled unless the scheduler goes on to rescue, which is a spawn of its own. */
  lemma HaltCoupled(k: K.State, s: M.State, g: M.Groups, pid: nat, status: int, regs: K.Ctx, rescue: seq<K.Load>)
    requires K.Inv(k) && M.Inv(s, g) && Coupled(k, s) && K.Guard(k, K.Halt(pid, status, regs, rescue))
    ensures M.Enabled(s, g, M.Exit(pid))
    ensures Coupled(K.MarkDead(k, pid), M.Next(s, g, M.Exit(pid)).value)
    ensures k.pcbs[pid].parent != 0 || pid != k.running ==>
              Coupled(K.HaltStep(k, pid, status, regs, rescue).state, M.Next(s, g, M.Exit(pid)).value)
  {
    LeafIsNewest(k, s, g, pid);
  }

  /** A switch is nothing to the terminals. */
  lemma SwitchCoupled(k: K.State, s: M.State, regs: K.Ctx, rescue: seq<K.Load>)
    requires K.Inv(k) && (k.running == 0 || |k.expired| < K.QUEUE_CAPACITY) && Coupled(k, s)
    ensures var o := K.ContextSwitch(k, regs, rescue); !o.Spinning? && Coupled(o.state, s)
  {
    ContextSwitchKeeps(k, regs, rescue);
    if k.used != {} {
      SwitchIsFifo(k, regs, rescue);
      SwitchFrames(k, regs, rescue);
    }
  }

  /** A root that halts itself is an exit, followed by a spawn if it was the last process. */
  lemma DyingCoupled(k: K.State, s: M.State, status: int, regs: K.Ctx, rescue: seq<K.Load>)
    requires K.Inv(k) && k.running != 0 && k.pcbs[k.running].parent == 0
    requires K.HaltStep(k, k.running, status, regs, rescue).Switched? && Coupled(K.MarkDead(k, k.running), s)
    ensures var k' := K.HaltStep(k, k.running, status, regs, rescue).state;
            if k.used != {k.running} then Coupled(k', s)
            else IsPid(k'.running) && k'.running !in s.live && Coupled(k', M.Begin(s, M.Started(k'.running), 0))
  {
    DyingRootSwitches(k, status, regs, rescue);
    DyingOut(k, regs);
    var k', k1 := K.HaltStep(k, k.running, status, regs, rescue).state, K.SwitchOut(K.MarkDead(k, k.running), regs);
    StillQueued(k1);
    assert k' == K.Dispatch(k1, rescue).state;
    if k1.used != {} {
      SomeoneRuns(k1.(running := 0));
      DispatchFirst(k1, rescue);
    } else {
      DispatchDrained(k1, rescue);
      DispatchRescue(k1.(active := [], expired := []), rescue);
    }
  }
}
