/** What the scheduler's loop does to the queues, and what that means for the invariant. */
module Dispatching {
  import opened Limits
  import opened Sequences
  import opened Options
  import opened Lifecycle
  import opened LifecycleProofs

  /** The index of the first live entry of `q`, or `|q|`. */
  function FirstLive(q: seq<nat>, used: set<nat>): (k: nat)
    ensures k <= |q|
    ensures forall i :: 0 <= i < k ==> q[i] !in used
    ensures k < |q| ==> q[k] in used
  {
    if q == [] || q[0] in used then 0 else 1 + FirstLive(q[1..], used)
  }

  /** The state after one pass of the loop popped the entry `Fifo(s)[0]`. */
  function Popped(s: State): (s': State)
    requires Fifo(s) != []
    ensures Fifo(s') == Fifo(s)[1..]
  {
    if s.active == [] then s.(active := s.expired[1..], expired := []) else s.(active := s.active[1..])
  }

  /** The two queues behave as one first-in first-out queue: the loop drops the dead entries
      in front and resumes the first live one with the context saved for it. */
  lemma {:induction false} DispatchFirst(s: State, rescue: seq<Load>)
    requires Shape(s) && Queued(s) && FirstLive(Fifo(s), s.used) < |Fifo(s)|
    ensures var k := FirstLive(Fifo(s), s.used); var p := Fifo(s)[k]; var o := Dispatch(s, rescue);
            && o.Switched? && IsPid(p)
            && Fifo(o.state) == Fifo(s)[k + 1..]
            && s.pcbs[p].ctx.Some?
            && o.state == s.(running := p, entered := s.pcbs[p].ctx.value,
                             pcbs := s.pcbs[p := s.pcbs[p].(ctx := None)],
                             active := o.state.active, expired := o.state.expired)
    decreases |Fifo(s)|
  {
    var p := Fifo(s)[0];
    assert Entry(s, p);
    var s1 := Popped(s);
    if p !in s.used {
      forall q | q in Fifo(s1) ensures Entry(s1, q) {
        assert Entry(s, q);
      }
      DispatchFirst(s1, rescue);
      assert Dispatch(s, rescue) == Dispatch(s1, rescue);
    }
  }

  /** With no live entry the loop drains both queues and falls through to the rescue. */
  lemma {:induction false} DispatchDrained(s: State, rescue: seq<Load>)
    requires Shape(s) && Queued(s) && FirstLive(Fifo(s), s.used) == |Fifo(s)|
    ensures Dispatch(s, rescue) == Dispatch(s.(active := [], expired := []), rescue)
    decreases |Fifo(s)|
  {
    if Fifo(s) != [] {
      var p, s1 := Fifo(s)[0], Popped(s);
      assert Entry(s, p);
      forall q | q in Fifo(s1) ensures Entry(s1, q) {
        assert Entry(s, q);
      }
      assert Dispatch(s, rescue) == Dispatch(s1, rescue);
      DispatchDrained(s1, rescue);
      assert s1.(active := [], expired := []) == s.(active := [], expired := []);
    }
  }

  /** The first rescue attempt that loads. */
  function FirstLoaded(rescue: seq<Load>): (i: nat)
    ensures i <= |rescue| && (i < |rescue| ==> rescue[i].Loaded?)
    ensures forall j :: 0 <= j < i ==> !rescue[j].Loaded?
  {
    if rescue == [] || rescue[0].Loaded? then 0 else 1 + FirstLoaded(rescue[1..])
  }

  /** On empty queues the loop retries until a rescue shell loads, then enters it. */
  lemma {:induction false} DispatchRescue(s: State, rescue: seq<Load>)
    requires Shape(s) && s.active == s.expired == []
    ensures var o := Dispatch(s, rescue); var p, i := NextPid(s), FirstLoaded(rescue);
            if Allocates(s, Broken) && i < |rescue| then
              && o.Switched?
              && o.state == s.(running := p, entered := Ctx(rescue[i].frame, 0), pcbs := s.pcbs[p := ZERO_PCB],
                               used := s.used + {p}, nprocs := s.nprocs + 1)
            else o.Spinning?
    decreases |rescue|
  {
    if rescue != [] {
      var s1, p := SpawnStep(s, rescue[0]), NextPid(s);
      assert Dispatch(s, rescue) == Dispatch(s1, rescue[1..]);
      if Allocates(s, rescue[0]) && rescue[0].Loaded? {
        assert s1.active == [p] && !s1.pcbs[p].dead && s1.pcbs[p].ctx.Some?;
        assert Dispatch(s1, rescue[1..]).state.pcbs == s.pcbs[p := ZERO_PCB];
      } else {
        DispatchRescue(s1, rescue[1..]);
        assert Allocates(s, Broken) ==> s1.pcbs[p := ZERO_PCB] == s.pcbs[p := ZERO_PCB];
      }
    }
  }

  // ---------- leaves ----------

  /** Following children upwards in rank finds a leaf. */
  lemma {:induction false} LeafAbove(s: State, links: Links, p: nat) returns (leaf: nat)
    requires PidsInRange(s) && Linked(s, links) && p in s.used
    ensures Leaf(s, leaf)
    decreases set q | q in s.used && links.rank[q] > links.rank[p]
  {
    if Leaf(s, p) {
      leaf := p;
    } else {
      var c :| c in s.used && s.pcbs[c].parent == p;
      assert Edge(s, links, c);
      var above := set q | q in s.used && links.rank[q] > links.rank[c];
      var below := set q | q in s.used && links.rank[q] > links.rank[p];
      assert c in below && c !in above && above <= below;
      leaf := LeafAbove(s, links, c);
    }
  }

  /** While anything lives, somebody is running or queued. */
  lemma SomeoneRuns(s: State)
    requires Inv(s) && s.used != {}
    ensures s.running != 0 || FirstLive(Fifo(s), s.used) < |Fifo(s)|
  {
    var links :| Linked(s, links);
    var p :| p in s.used;
    var leaf := LeafAbove(s, links, p);
    assert LiveProcess(s, leaf);
    var k := FirstLive(Fifo(s), s.used);
  }

  /** A process counter below the maximum means a pid is free, so the allocator's failure
      path is never taken. */
  lemma PidAvailable(s: State)
    requires Counts(s) && s.nprocs < MAX_PROCESSES
    ensures NextPid(s) <= MAX_PROCESSES
  {
    assert NextPid(s) > MAX_PROCESSES ==> s.used == {1, 2, 3, 4, 5, 6, 7, 8, 9, 10};
  }

  // ---------- switching ----------

  lemma StillQueued(s: State)
    requires Inv(s.(running := 0))
    ensures Queued(s)
  {
    forall p | p in Fifo(s) ensures Entry(s, p) {
      assert Entry(s.(running := 0), p);
    }
  }

  /** From a state whose queues are in order once nobody runs, the loop never takes the
      no-context or null-PCB exits; it resumes a live process or rescues an empty system. */
  lemma DispatchKeeps(s: State, rescue: seq<Load>)
    requires Shape(s) && Inv(s.(running := 0))
    ensures var o := Dispatch(s, rescue);
            && !o.Returned?
            && (o.Switched? ==> Inv(o.state))
            && (o.Spinning? <==> s.used == {} && forall i :: 0 <= i < |rescue| ==> !rescue[i].Loaded?)
  {
    var s0 := s.(running := 0);
    assert Fifo(s0) == Fifo(s);
    StillQueued(s);
    if s.used != {} {
      SomeoneRuns(s0);
      DispatchFirst(s, rescue);
      ResumedKeeps(s, Dispatch(s, rescue).state);
    } else {
      PidAvailable(s0);
      DispatchDrained(s, rescue);
      DispatchRescue(s.(active := [], expired := []), rescue);
      if Dispatch(s, rescue).Switched? {
        RescuedKeeps(s, Dispatch(s, rescue).state);
      }
    }
  }

  /** A state in which a queued process was resumed. */
  predicate IsResumed(s: State, s': State)
    requires Shape(s)
  {
    var k := FirstLive(Fifo(s), s.used);
    && k < |Fifo(s)| && Fifo(s') == Fifo(s)[k + 1..] && IsPid(Fifo(s)[k])
    && s'.running == Fifo(s)[k] && s'.used == s.used && s'.nprocs == s.nprocs
    && s'.pcbs == s.pcbs[Fifo(s)[k] := s.pcbs[Fifo(s)[k]].(ctx := None)]
  }

  lemma ResumedChains(s: State, s': State)
    requires Shape(s) && Inv(s.(running := 0)) && Shape(s') && IsResumed(s, s')
    ensures PidsInRange(s') && Chains(s')
  {
    var s0 := s.(running := 0);
    var links :| Linked(s0, links);
    forall r | r in s'.used ensures Edge(s', links, r) {
      assert Edge(s0, links, r);
    }
    assert Linked(s', links);
  }

  lemma NoDupDrop(q: seq<nat>, k: nat)
    requires NoDup(q) && k < |q|
    ensures NoDup(q[k + 1..]) && q[k] !in q[k + 1..]
    ensures forall r :: r in q <==> r in q[..k] || r == q[k] || r in q[k + 1..]
  {
    assert q == q[..k] + [q[k]] + q[k + 1..];
  }

  lemma ResumedQueue(s: State, s': State)
    requires Shape(s) && Inv(s.(running := 0)) && Shape(s') && IsResumed(s, s')
    ensures NoDup(Fifo(s')) && Queued(s') && s'.running !in Fifo(s') && s'.running in s'.used
    ensures forall r :: r in s'.used ==> (r in Fifo(s) <==> r == s'.running || r in Fifo(s'))
  {
    var s0, q, k := s.(running := 0), Fifo(s), FirstLive(Fifo(s), s.used);
    assert Fifo(s0) == q;
    NoDupDrop(q, k);
    hide NoDup;
    forall r | r in Fifo(s') ensures Entry(s', r) {
      assert Entry(s0, r);
    }
  }

  lemma ResumedKeeps(s: State, s': State)
    requires Shape(s) && Inv(s.(running := 0)) && Shape(s') && IsResumed(s, s')
    ensures Inv(s')
  {
    var s0 := s.(running := 0);
    ResumedChains(s, s');
    ResumedQueue(s, s');
    forall r | r in s'.used ensures LiveProcess(s', r) {
      assert LiveProcess(s0, r);
      assert Leaf(s', r) <==> Leaf(s0, r);
    }
  }

  lemma RescuedKeeps(s: State, s': State)
    requires Inv(s.(running := 0)) && s.used == {}
    requires s'.active == s'.expired == [] && s'.running == 1 && s'.used == {1} && s'.nprocs == 1
    requires s'.pcbs == s.pcbs[1 := ZERO_PCB]
    ensures Inv(s')
  {
    assert Shape(s.(running := 0));
    assert Linked(s', Links(seq(MAX_PROCESSES + 1, _ => 0), seq(MAX_PROCESSES + 1, _ => 0)));
    assert LiveProcess(s', 1);
  }

  /** Filing the running process leaves queues that are in order with nobody running. */
  lemma SwitchedOut(s: State, regs: Ctx)
    requires Inv(s) && (s.running == 0 || |s.expired| < QUEUE_CAPACITY)
    ensures Inv(SwitchOut(s, regs).(running := 0))
    ensures Fifo(SwitchOut(s, regs)) == if s.running == 0 then Fifo(s) else Fifo(s) + [s.running]
  {
    var p := s.running;
    if p == 0 {
      assert s.(running := 0) == s;
    } else {
      assert LiveProcess(s, p);
      FifoPushExpired(s, p);
      var s' := SwitchOut(s, regs).(running := 0);
      assert Fifo(s') == Fifo(s) + [p];
      var links :| Linked(s, links);
      forall q | q in s'.used ensures Edge(s', links, q) {
        assert Edge(s, links, q);
      }
      assert Linked(s', links);
      forall q | q in s'.used ensures LiveProcess(s', q) {
        assert LiveProcess(s, q);
        assert Leaf(s', q) <==> Leaf(s, q);
      }
      forall q | q in Fifo(s') ensures Entry(s', q) {
        assert q in Fifo(s) ==> Entry(s, q);
      }
    }
  }

  /** The same for a root that is halting itself, which is not queued again. */
  lemma DyingOut(s: State, regs: Ctx)
    requires Inv(s) && s.running != 0 && s.pcbs[s.running].parent == 0
    ensures var s1 := MarkDead(s, s.running);
            Inv(SwitchOut(s1, regs).(running := 0)) && Fifo(SwitchOut(s1, regs)) == Fifo(s)
  {
    var p := s.running;
    assert LiveProcess(s, p);
    var s' := SwitchOut(MarkDead(s, p), regs).(running := 0);
    var pcb := s.pcbs[p].(dead := false, ctx := Some(regs));
    assert s'.pcbs == s.pcbs[p := pcb];
    assert s' == s.(running := 0, used := s.used - {p}, nprocs := s.nprocs - 1, pcbs := s.pcbs[p := pcb]);
    assert Fifo(s') == Fifo(s);
    ChainsShrink(s, s', p);
    forall q | q in s'.used ensures LiveProcess(s', q) {
      assert LiveProcess(s, q);
    }
    forall q | q in Fifo(s') ensures Entry(s', q) {
      assert Entry(s, q);
    }
  }

  lemma ContextSwitchKeeps(s: State, regs: Ctx, rescue: seq<Load>)
    requires Inv(s) && (s.running == 0 || |s.expired| < QUEUE_CAPACITY)
    ensures var o := ContextSwitch(s, regs, rescue);
            && !o.Spinning? && Inv(o.state)
            && (o.Returned? <==> s.used == {})
  {
    if s.running != 0 || s.nprocs != 0 {
      SwitchedOut(s, regs);
      DispatchKeeps(SwitchOut(s, regs), rescue);
    }
  }

  /** A root that halts itself never sleeps in `sys_sched`: if anything else lives, something
      else is queued. */
  lemma DyingRootSwitches(s: State, status: int, regs: Ctx, rescue: seq<Load>)
    requires Inv(s) && s.running != 0 && s.pcbs[s.running].parent == 0
    ensures !Sleeps(MarkDead(s, s.running))
    ensures var o := HaltStep(s, s.running, status, regs, rescue);
            && !o.Returned?
            && (o.Switched? ==> Inv(o.state))
            && (o.Spinning? <==> s.used == {s.running} && forall i :: 0 <= i < |rescue| ==> !rescue[i].Loaded?)
  {
    DyingOut(s, regs);
    var s1 := MarkDead(s, s.running);
    var s2 := SwitchOut(s1, regs);
    if s1.used != {} {
      SomeoneRuns(s2.(running := 0));
    }
    DispatchKeeps(s2, rescue);
  }

  /** With the expired queue full, the running process is lost. */
  lemma FullQueueLoses(s: State, regs: Ctx, rescue: seq<Load>)
    requires Inv(s) && s.running != 0 && |s.expired| == QUEUE_CAPACITY
    ensures var o := ContextSwitch(s, regs, rescue); o.Spinning? || !Inv(o.state)
  {
    var p, s1 := s.running, SwitchOut(s, regs);
    assert LiveProcess(s, p);
    assert Fifo(s1) == Fifo(s);
    forall q | q in Fifo(s1) ensures Entry(s1, q) {
      assert Entry(s, q);
    }
    var k := FirstLive(Fifo(s1), s1.used);
    if k < |Fifo(s1)| {
      DispatchFirst(s1, rescue);
    } else {
      DispatchDrained(s1, rescue);
      DispatchRescue(s1.(active := [], expired := []), rescue);
    }
    var o := ContextSwitch(s, regs, rescue);
    if o.Switched? {
      Lost(s, o.state, p);
    }
  }

  lemma Lost(s: State, s': State, p: nat)
    requires Inv(s) && Leaf(s, p)
    requires PidsInRange(s') && p in s'.used && s'.running != p && p !in Fifo(s')
    requires s'.used <= s.used || exists n: nat :: n !in s.used && s'.used == s.used + {n} && s'.pcbs[n].parent == 0
    requires forall q :: q in s.used ==> s'.pcbs[q].parent == s.pcbs[q].parent
    ensures !Inv(s')
  {
    assert Leaf(s', p);
    assert !LiveProcess(s', p);
  }
}
