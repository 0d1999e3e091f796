/** The lifecycle invariant: a step from a good state leads to a good state exactly when its
    guard holds, so every guarded run keeps it. */
module LifecycleProofs {
  import opened Limits
  import opened Sequences
  import opened Lifecycle

  // ---------- queues ----------

  lemma FifoPushActive(s: State, p: nat)
    requires Shape(s)
    ensures forall q :: q in Fifo(PushActive(s, p)) <==> q in Fifo(s) || (q == p && |s.active| < QUEUE_CAPACITY)
    ensures |s.active| < QUEUE_CAPACITY ==>
              (NoDup(Fifo(PushActive(s, p))) <==> NoDup(Fifo(s)) && p !in Fifo(s))
  {
    if |s.active| < QUEUE_CAPACITY {
      NoDupInsert(s.active, p, s.expired);
      InsertMembers(s.active, p, s.expired);
    }
  }

  lemma FifoPushExpired(s: State, p: nat)
    requires Shape(s)
    ensures |s.expired| < QUEUE_CAPACITY ==>
              && Fifo(PushExpired(s, p)) == Fifo(s) + [p]
              && (NoDup(Fifo(PushExpired(s, p))) <==> NoDup(Fifo(s)) && p !in Fifo(s))
  {
    if |s.expired| < QUEUE_CAPACITY {
      assert s.active + (s.expired + [p]) == s.active + s.expired + [p];
      NoDupInsert(Fifo(s), p, []);
      assert Fifo(s) + [p] + [] == Fifo(s) + [p];
      assert Fifo(s) + [] == Fifo(s);
    }
  }

  lemma InsertMembers(a: seq<nat>, p: nat, b: seq<nat>)
    ensures forall q :: q in a + [p] + b <==> q in a + b || q == p
  {
  }

  lemma NoDupInsert(a: seq<nat>, p: nat, b: seq<nat>)
    ensures NoDup(a + [p] + b) <==> NoDup(a + b) && p !in a + b
  {
    var q, r := a + [p] + b, a + b;
    assert forall i :: 0 <= i < |r| ==> r[i] == q[if i < |a| then i else i + 1];
    assert forall i :: 0 <= i < |q| && i != |a| ==> q[i] == r[if i < |a| then i else i - 1];
    assert q[|a|] == p;
    if NoDup(q) {
      forall i, j | 0 <= i < j < |r| ensures r[i] != r[j] {
        assert q[if i < |a| then i else i + 1] != q[if j < |a| then j else j + 1];
      }
    }
    if NoDup(r) && p !in r {
      forall i, j | 0 <= i < j < |q| ensures q[i] != q[j] {
      }
    }
  }

  // ---------- execute and spawn ----------

  /** A fresh child of the running process, or a fresh root, extends the chains. */
  lemma ChainsGrow(s: State, s': State, pid: nat)
    requires PidsInRange(s) && Chains(s) && PidsInRange(s')
    requires IsPid(pid) && pid !in s.used && s'.used == s.used + {pid}
    requires forall p :: p in s.used ==> s'.pcbs[p].parent == s.pcbs[p].parent
    requires var parent := s'.pcbs[pid].parent; parent == 0 || Leaf(s, parent)
    ensures Chains(s')
    ensures Leaf(s', pid)
  {
    var links :| Linked(s, links);
    var parent := s'.pcbs[pid].parent;
    var links' := Links(links.rank[pid := links.rank[parent] + 1], links.child[parent := pid]);
    forall p | p in s'.used ensures Edge(s', links', p) {
      assert p in s.used ==> Edge(s, links, p);
    }
    assert Linked(s', links');
    forall c | c in s'.used ensures s'.pcbs[c].parent != pid {
      assert c in s.used ==> Edge(s, links, c);
    }
  }

  lemma ExecKeeps(s: State, regs: Ctx, load: Load)
    requires Inv(s) && s.running != 0 && Allocates(s, load) && load.Loaded?
    requires NextPid(s) !in Fifo(s)
    ensures Inv(ExecStep(s, regs, load).state)
  {
    var s', pid := ExecStep(s, regs, load).state, NextPid(s);
    assert Fifo(s') == Fifo(s);
    assert LiveProcess(s, s.running);
    ChainsGrow(s, s', pid);
    forall p | p in s'.used ensures LiveProcess(s', p) {
      assert p in s.used ==> LiveProcess(s, p);
      assert s'.pcbs[pid].parent == s.running;
    }
    forall p | p in Fifo(s') ensures Entry(s', p) {
      assert Entry(s, p);
    }
  }

  lemma SpawnEntries(s: State, load: Load)
    requires Inv(s) && Allocates(s, load) && load.Loaded?
    requires NextPid(s) in Fifo(s) <==> |s.active| == QUEUE_CAPACITY
    ensures var s' := SpawnStep(s, load);
            && NoDup(Fifo(s')) && Queued(s')
            && forall q :: q in Fifo(s') <==> q in Fifo(s) || q == NextPid(s)
  {
    var s', pid := SpawnStep(s, load), NextPid(s);
    FifoPushActive(s, pid);
    assert Fifo(s') == Fifo(PushActive(s, pid));
    forall p | p in Fifo(s') ensures Entry(s', p) {
      assert p in Fifo(s) ==> Entry(s, p);
    }
  }

  lemma SpawnKeeps(s: State, load: Load)
    requires Inv(s) && Allocates(s, load) && load.Loaded?
    requires NextPid(s) in Fifo(s) <==> |s.active| == QUEUE_CAPACITY
    ensures Inv(SpawnStep(s, load))
  {
    var s', pid := SpawnStep(s, load), NextPid(s);
    SpawnEntries(s, load);
    ChainsGrow(s, s', pid);
    forall p | p in s'.used ensures LiveProcess(s', p) {
      assert p in s.used ==> LiveProcess(s, p);
      assert s'.pcbs[pid].parent == 0;
    }
  }

  /** Changing the PCB of a pid that is neither live nor queued changes nothing. */
  lemma SameLive(s: State, pid: nat, pcb: Pcb)
    requires Inv(s) && IsPid(pid) && pid !in s.used && pid !in Fifo(s)
    requires Shape(s.(pcbs := s.pcbs[pid := pcb]))
    ensures Inv(s.(pcbs := s.pcbs[pid := pcb]))
  {
    var s' := s.(pcbs := s.pcbs[pid := pcb]);
    var links :| Linked(s, links);
    forall p | p in s'.used ensures Edge(s', links, p) && LiveProcess(s', p) {
      assert Edge(s, links, p) && LiveProcess(s, p);
    }
    assert Linked(s', links);
    forall p | p in Fifo(s') ensures Entry(s', p) {
      assert Entry(s, p);
    }
  }

  lemma ExecExact(s: State, regs: Ctx, load: Load)
    requires Inv(s) && s.running != 0
    ensures Inv(ExecStep(s, regs, load).state) <==> Guard(s, Exec(regs, load))
  {
    if Allocates(s, load) {
      var s', pid := ExecStep(s, regs, load).state, NextPid(s);
      assert Fifo(s') == Fifo(s);
      if pid in Fifo(s) {
        assert load.Broken? ==> !Entry(s', pid);
      } else if load.Loaded? {
        ExecKeeps(s, regs, load);
      } else {
        SameLive(s, pid, s'.pcbs[pid]);
      }
    }
  }

  lemma SpawnExact(s: State, load: Load)
    requires Inv(s)
    ensures Inv(SpawnStep(s, load)) <==> Guard(s, Spawn(load))
  {
    if Allocates(s, load) {
      var s', pid := SpawnStep(s, load), NextPid(s);
      FifoPushActive(s, pid);
      if load.Broken? {
        if pid in Fifo(s) {
          assert Fifo(s') == Fifo(s) && !Entry(s', pid);
        } else {
          SameLive(s, pid, s'.pcbs[pid]);
        }
      } else if Guard(s, Spawn(load)) {
        SpawnKeeps(s, load);
      } else {
        assert Fifo(s') == Fifo(PushActive(s, pid));
        if |s.active| == QUEUE_CAPACITY {
          ChainsGrow(s, s', pid);
          assert !LiveProcess(s', pid);
        }
      }
    }
  }

  // ---------- halt ----------

  /** Without the leaf `pid` the chains stay, and its parent becomes a leaf. */
  lemma ChainsShrink(s: State, s': State, pid: nat)
    requires PidsInRange(s) && Chains(s) && Leaf(s, pid)
    requires s'.used == s.used - {pid}
    requires forall p :: p in s'.used ==> s'.pcbs[p].parent == s.pcbs[p].parent
    ensures PidsInRange(s') && Chains(s')
    ensures forall p :: p in s'.used ==> (Leaf(s', p) <==> Leaf(s, p) || p == s.pcbs[pid].parent)
  {
    assert PidsInRange(s');
    var links :| Linked(s, links);
    assert Edge(s, links, pid);
    forall p | p in s'.used ensures Edge(s', links, p) {
      assert Edge(s, links, p);
    }
    assert Linked(s', links);
    forall p, c | p in s'.used && c in s'.used && p == s.pcbs[pid].parent ensures s'.pcbs[c].parent != p {
      assert Edge(s, links, c);
    }
  }

  lemma ParentWaits(s: State, pid: nat)
    requires Inv(s) && pid in s.used && s.pcbs[pid].parent != 0
    ensures var q := s.pcbs[pid].parent;
            q in s.used && q != pid && q != s.running && q !in Fifo(s) && s.pcbs[q].ctx.None?
  {
    var links :| Linked(s, links);
    assert Edge(s, links, pid);
    assert LiveProcess(s, s.pcbs[pid].parent);
  }

  /** A process after the halt of `pid`: its parent is the same, and it is runnable if it was
      before or waited for `pid`. */
  predicate Stays(s: State, s': State, pid: nat, p: nat)
    requires IsPid(pid) && IsPid(p)
  {
    && s'.pcbs[p].parent == s.pcbs[p].parent && !s'.pcbs[p].dead
    && (s'.pcbs[p].ctx.Some? <==> p in Fifo(s'))
    && (p == s'.running || p in Fifo(s') <==> p == s.running || p in Fifo(s) || p == s.pcbs[pid].parent)
  }

  lemma OneLess(s: State, pid: nat)
    requires Accounting(s) && pid in s.used
    ensures (s.nprocs + 255) % 256 == |s.used - {pid}| == s.nprocs - 1
  {
    assert s.nprocs > 0;
  }

  /** Any state that a leaf has left, with the others staying, satisfies the invariant. */
  lemma LeafGone(s: State, s': State, pid: nat)
    requires Inv(s) && Leaf(s, pid) && Shape(s')
    requires s'.used == s.used - {pid} && s'.nprocs == (s.nprocs + 255) % 256
    requires forall p {:trigger Stays(s, s', pid, p)} :: p in s'.used ==> Stays(s, s', pid, p)
    requires Queued(s') && NoDup(Fifo(s')) && s'.running !in Fifo(s')
    requires s'.running != 0 ==> s'.running in s'.used
    ensures Inv(s')
  {
    OneLess(s, pid);
    forall p | p in s'.used ensures s'.pcbs[p].parent == s.pcbs[p].parent {
      assert Stays(s, s', pid, p);
    }
    ChainsShrink(s, s', pid);
    forall p | p in s'.used ensures LiveProcess(s', p) {
      assert LiveProcess(s, p) && Stays(s, s', pid, p);
    }
  }

  lemma HaltRunningChild(s: State, pid: nat, status: int, regs: Ctx, rescue: seq<Load>)
    requires Inv(s) && Leaf(s, pid) && pid == s.running && s.pcbs[pid].parent != 0
    ensures Inv(HaltStep(s, pid, status, regs, rescue).state)
  {
    var s' := HaltStep(s, pid, status, regs, rescue).state;
    ParentWaits(s, pid);
    assert Fifo(s') == Fifo(s);
    forall p | p in s'.used ensures Stays(s, s', pid, p) {
      assert LiveProcess(s, p);
    }
    forall p | p in Fifo(s') ensures Entry(s', p) {
      assert Entry(s, p);
    }
    LeafGone(s, s', pid);
  }

  lemma HaltOtherRoot(s: State, pid: nat, status: int, regs: Ctx, rescue: seq<Load>)
    requires Inv(s) && Leaf(s, pid) && pid != s.running && s.pcbs[pid].parent == 0
    ensures Inv(HaltStep(s, pid, status, regs, rescue).state)
  {
    var s' := HaltStep(s, pid, status, regs, rescue).state;
    assert Fifo(s') == Fifo(s);
    forall p | p in s'.used ensures Stays(s, s', pid, p) {
      assert LiveProcess(s, p);
    }
    forall p | p in Fifo(s') ensures Entry(s', p) {
      assert Entry(s, p);
    }
    LeafGone(s, s', pid);
  }

  /** The queue after the parent of a killed process was woken. */
  lemma WokenParent(s: State, pid: nat, status: int, regs: Ctx, rescue: seq<Load>)
    requires Inv(s) && Leaf(s, pid) && pid != s.running && s.pcbs[pid].parent != 0
    requires |s.expired| < QUEUE_CAPACITY
    ensures var s' := HaltStep(s, pid, status, regs, rescue).state;
            && Shape(s') && s'.used == s.used - {pid} && Fifo(s') == Fifo(s) + [s.pcbs[pid].parent]
            && Queued(s') && NoDup(Fifo(s'))
  {
    var s', parent := HaltStep(s, pid, status, regs, rescue).state, s.pcbs[pid].parent;
    ParentWaits(s, pid);
    FifoPushExpired(s, parent);
    forall p | p in Fifo(s') ensures Entry(s', p) {
      if p == parent {
        assert LiveProcess(s, p);
      } else {
        assert Entry(s, p);
      }
    }
  }

  lemma HaltOtherChild(s: State, pid: nat, status: int, regs: Ctx, rescue: seq<Load>)
    requires Inv(s) && Leaf(s, pid) && pid != s.running && s.pcbs[pid].parent != 0
    requires |s.expired| < QUEUE_CAPACITY
    ensures Inv(HaltStep(s, pid, status, regs, rescue).state)
  {
    var s' := HaltStep(s, pid, status, regs, rescue).state;
    ParentWaits(s, pid);
    WokenParent(s, pid, status, regs, rescue);
    forall p | p in s'.used ensures Stays(s, s', pid, p) {
      assert LiveProcess(s, p);
    }
    LeafGone(s, s', pid);
  }
}
