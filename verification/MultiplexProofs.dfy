/** One video memory refines four independent screens. */
module MultiplexProofs {
  import opened Limits
  import opened Options
  import opened Paging
  import opened Multiplex

  /** What is on terminal `t`'s screen. */
  function Shown(s: State, t: nat): Contents
    requires Sized(s) && t < NUM_TERMS
  {
    Get(s, Screen(s, t))
  }

  /** Remapping a group changes that group's directories ... */
  lemma {:induction false} RemapDirs(g: Config, procs: seq<Proc>, c: seq<nat>, t: nat, b: Buffer)
    requires Proper(g) && |procs| == MAX_PROCESSES + 1 && t < NUM_TERMS && GoodBuffer(b)
    requires forall i :: 0 <= i < |c| ==> IsPid(c[i])
    ensures var g' := RemapAll(g, procs, c, t, b);
            && (forall p :: 0 <= p <= MAX_PROCESSES ==> g'.fakeDir[p] == if p in c then Some(t) else g.fakeDir[p])
            && (forall p :: 0 <= p <= MAX_PROCESSES ==>
                  g'.userDir[p] == if p in c && procs[p].hasVideo then Some(t) else g.userDir[p])
    decreases |c|
  {
    if c != [] {
      var p, rest := c[0], c[1..];
      assert IsPid(p) && c == [p] + rest;
      var g1 := MapFake(g, p, t, b);
      RemapDirs(if procs[p].hasVideo then MapUser(g1, p, t, b) else g1, procs, rest, t, b);
    }
  }

  /** ... and its terminal's tables ... */
  lemma {:induction false} RemapTables(g: Config, procs: seq<Proc>, c: seq<nat>, t: nat, b: Buffer)
    requires Proper(g) && |procs| == MAX_PROCESSES + 1 && t < NUM_TERMS && GoodBuffer(b)
    requires forall i :: 0 <= i < |c| ==> IsPid(c[i])
    ensures var g' := RemapAll(g, procs, c, t, b);
            && g'.fake == (if c == [] then g.fake else g.fake[t := Some(b)])
            && g'.user == g.user[t := g'.user[t]]
            && (forall p :: p in c && IsPid(p) && procs[p].hasVideo ==> g'.user[t] == Some(b))
            && (g'.user[t] == Some(b) || g'.user[t] == g.user[t])
    decreases |c|
  {
    if c != [] {
      var p, rest := c[0], c[1..];
      assert IsPid(p) && c == [p] + rest;
      var g1 := MapFake(g, p, t, b);
      RemapTables(if procs[p].hasVideo then MapUser(g1, p, t, b) else g1, procs, rest, t, b);
    }
  }

  /** ... and nothing else. */
  lemma RemapEffect(g: Config, procs: seq<Proc>, c: seq<nat>, t: nat, b: Buffer)
    requires Proper(g) && |procs| == MAX_PROCESSES + 1 && t < NUM_TERMS && GoodBuffer(b)
    requires forall i :: 0 <= i < |c| ==> IsPid(c[i])
    ensures var g' := RemapAll(g, procs, c, t, b);
            && (forall p :: 0 <= p <= MAX_PROCESSES ==> g'.fakeDir[p] == if p in c then Some(t) else g.fakeDir[p])
            && (forall p :: 0 <= p <= MAX_PROCESSES ==>
                  g'.userDir[p] == if p in c && procs[p].hasVideo then Some(t) else g.userDir[p])
            && g'.fake == (if c == [] then g.fake else g.fake[t := Some(b)])
            && g'.user == g.user[t := g'.user[t]]
            && (forall p :: p in c && IsPid(p) && procs[p].hasVideo ==> g'.user[t] == Some(b))
            && (g'.user[t] == Some(b) || g'.user[t] == g.user[t])
  {
    RemapDirs(g, procs, c, t, b);
    RemapTables(g, procs, c, t, b);
  }

  // ---------- writes ----------

  /** Storing into one screen leaves the other three alone. */
  lemma PutShown(s: State, t: nat, c: Contents)
    requires Sized(s) && t < NUM_TERMS
    ensures var s' := Put(s, Screen(s, t), c);
            forall u :: 0 <= u < NUM_TERMS ==> Shown(s', u) == if u == t then c else Shown(s, u)
  {
  }

  lemma PutKeeps(s: State, g: Groups, b: Buffer, c: Contents)
    requires Inv(s, g) && GoodBuffer(b)
    ensures Inv(Put(s, b, c), g)
  {
    var s' := Put(s, b, c);
    forall t | 0 <= t < NUM_TERMS ensures WiredAt(s', g, t) {
      assert WiredAt(s, g, t);
    }
    forall t | 0 <= t < NUM_TERMS ensures TermOk(s', g, t) {
      assert TermOk(s, g, t);
      forall p | p in g[t] ensures Mapped(s', t, p) {
        assert Mapped(s, t, p);
      }
    }
    SameCount(s, s', g);
  }

  lemma SameCount(s: State, s': State, g: Groups)
    requires Inv(s, g) && s'.live == s.live
    ensures forall p: nat {:trigger Counted(s', g, p)} :: Counted(s', g, p)
  {
    forall p: nat ensures Counted(s', g, p) {
      assert Counted(s, g, p);
    }
  }

  /** Every write, by the kernel for a process or on the foreground under any directory, or by user
      code through a window that leads to its own screen, lands at that place of its own terminal's
      screen and nowhere else. */
  lemma WriteRefines(s: State, g: Groups, step: Step)
    requires Inv(s, g) && Enabled(s, g, step) && (step.Print? || step.Poke?) && Guard(s, g, step)
    ensures var r := Next(s, g, step); var t := if step.Print? then step.term else TermOf(g, step.pid);
            && r.Some? && Inv(r.value, g)
            && forall u :: 0 <= u < NUM_TERMS ==>
                 Shown(r.value, u) == if u == t then Shown(s, u)[step.at := step.b] else Shown(s, u)
  {
    var t := if step.Print? then step.term else TermOf(g, step.pid);
    assert TermOk(s, g, t);
    assert step.pid in g[t] ==> Mapped(s, t, step.pid);
    var c := Shown(s, t)[step.at := step.b];
    PutShown(s, t, c);
    PutKeeps(s, g, Screen(s, t), c);
  }

  // ---------- processes come and go ----------

  lemma VidmapKeeps(s: State, g: Groups, pid: nat)
    requires Inv(s, g) && Enabled(s, g, Vidmap(pid)) && TermOf(g, pid) == s.fg
    ensures Inv(Next(s, g, Vidmap(pid)).value, g)
  {
    var s' := Next(s, g, Vidmap(pid)).value;
    forall t | 0 <= t < NUM_TERMS ensures WiredAt(s', g, t) {
      assert WiredAt(s, g, t);
      if g[t] != [] {
        LineageFrame(s.procs, s'.procs, s.termPids[t], g[t]);
      }
    }
    forall t | 0 <= t < NUM_TERMS ensures TermOk(s', g, t) {
      assert TermOk(s, g, t);
      forall p | p in g[t] ensures Mapped(s', t, p) {
        assert Mapped(s, t, p);
        if t != s.fg {
          assert p != pid;
        }
      }
    }
    SameCount(s, s', g);
  }

  /** What vidmap is for: it opens a window onto the caller's own screen. */
  lemma VidmapOpens(s: State, g: Groups, pid: nat)
    requires Inv(s, g) && Enabled(s, g, Vidmap(pid)) && TermOf(g, pid) == s.fg
    ensures var s' := Next(s, g, Vidmap(pid)).value;
            && s'.procs[pid].hasVideo && s'.fg == s.fg
            && Behind(s'.config, pid, AtUserVid) == Some(Screen(s', TermOf(g, pid)))
  {
  }

  /** On the page tables: USER_VID + k is VIDEO + k, for user code to write. */
  lemma VidmapWalk(s: State, g: Groups, pid: nat, frames: seq<nat>, k: nat)
    requires Inv(s, g) && Enabled(s, g, Vidmap(pid)) && TermOf(g, pid) == s.fg && Frames(frames) && k < SIZE_64K
    ensures var s' := Next(s, g, Vidmap(pid)).value;
            Walk(Build(s'.config, frames), frames, pid, USER_VID + k) == Some(Hit(VIDEO + k, true, true))
  {
    VidmapOpens(s, g, pid);
    BehindIsWalk(Next(s, g, Vidmap(pid)).value.config, frames, pid, AtUserVid, k);
  }

  /** A pid that is not live is in no group. */
  lemma NotGrouped(s: State, g: Groups, pid: nat)
    requires Inv(s, g) && pid !in s.live
    ensures forall t :: 0 <= t < NUM_TERMS ==> pid !in g[t]
  {
    assert Counted(s, g, pid);
  }

  /** A new process on the foreground terminal: a child of its newest one, or its first root. */
  lemma BeginKeeps(s: State, g: Groups, pid: nat, parent: nat)
    requires Inv(s, g) && IsPid(pid) && pid !in s.live
    requires if parent == 0 then g[s.fg] == [] else g[s.fg] != [] && g[s.fg][0] == parent
    ensures Inv(Begin(s, Started(pid), parent), g[s.fg := [pid] + g[s.fg]])
  {
    var s', g' := Begin(s, Started(pid), parent), g[s.fg := [pid] + g[s.fg]];
    NotGrouped(s, g, pid);
    forall t | 0 <= t < NUM_TERMS ensures WiredAt(s', g', t) {
      BeginWired(s, g, pid, parent, t);
    }
    forall t | 0 <= t < NUM_TERMS ensures TermOk(s', g', t) {
      assert TermOk(s, g, t);
      forall p | p in g'[t] ensures Mapped(s', t, p) {
        assert p != pid ==> p in g[t] && Mapped(s, t, p);
      }
    }
    forall p: nat ensures Counted(s', g', p) {
      assert Counted(s, g, p);
    }
  }

  lemma BeginWired(s: State, g: Groups, pid: nat, parent: nat, t: nat)
    requires Inv(s, g) && IsPid(pid) && t < NUM_TERMS && forall u :: 0 <= u < NUM_TERMS ==> pid !in g[u]
    requires if parent == 0 then g[s.fg] == [] else g[s.fg] != [] && g[s.fg][0] == parent
    ensures WiredAt(Begin(s, Started(pid), parent), g[s.fg := [pid] + g[s.fg]], t)
  {
    var s', g' := Begin(s, Started(pid), parent), g[s.fg := [pid] + g[s.fg]];
    assert WiredAt(s, g, t);
    if g[t] != [] {
      LineageFrame(s.procs, s'.procs, s.termPids[t], g[t]);
    }
    if t == s.fg {
      assert g'[t][1..] == g[t];
    }
  }

  lemma ExecKeeps(s: State, g: Groups, step: Step)
    requires Inv(s, g) && Enabled(s, g, step) && Guard(s, g, step) && (step.Exec? || step.Spawn?)
    ensures Inv(Next(s, g, step).value, NextGroups(s, g, step))
  {
    if step.start.Started? {
      BeginKeeps(s, g, step.start.pid, if step.Exec? then step.parent else 0);
      assert step.Spawn? ==> [step.start.pid] + g[s.fg] == [step.start.pid];
    }
  }

  lemma ExitKeeps(s: State, g: Groups, pid: nat)
    requires Inv(s, g) && Enabled(s, g, Exit(pid)) && Guard(s, g, Exit(pid))
    ensures Inv(Next(s, g, Exit(pid)).value, NextGroups(s, g, Exit(pid)))
  {
    var s', g' := Next(s, g, Exit(pid)).value, NextGroups(s, g, Exit(pid));
    var x := TermOf(g, pid);
    assert WiredAt(s, g, x);
    LineageNoDup(s.procs, pid, g[x]);
    forall t | 0 <= t < NUM_TERMS ensures WiredAt(s', g', t) {
      assert WiredAt(s, g, t);
    }
    forall t | 0 <= t < NUM_TERMS ensures TermOk(s', g', t) {
      assert TermOk(s, g, t);
      forall p | p in g'[t] ensures Mapped(s', t, p) {
        assert p in g[t] && Mapped(s, t, p);
      }
    }
    assert g[x] == [pid] + g'[x];
    forall p: nat ensures Counted(s', g', p) {
      assert Counted(s, g, p);
    }
  }

  /** Parent pointers that end do not come back. */
  lemma {:induction false} LineageNoDup(procs: seq<Proc>, pid: int, c: seq<nat>)
    requires |procs| == MAX_PROCESSES + 1 && Lineage(procs, pid, c)
    ensures pid !in c[1..]
  {
    if k :| 1 <= k < |c| && c[k] == pid {
      LineageTail(procs, pid, c, k);
      LineageUnique(procs, pid, c, c[k..]);
    }
  }

  lemma {:induction false} LineageTail(procs: seq<Proc>, pid: int, c: seq<nat>, k: nat)
    requires |procs| == MAX_PROCESSES + 1 && Lineage(procs, pid, c) && k < |c|
    ensures Lineage(procs, c[k], c[k..])
    decreases k
  {
    if k > 0 {
      LineageTail(procs, c[1], c[1..], k - 1);
      assert c[1..][k - 1..] == c[k..];
    } else {
      assert c[0..] == c;
    }
  }

  lemma {:induction false} LineageUnique(procs: seq<Proc>, pid: int, c: seq<nat>, d: seq<nat>)
    requires |procs| == MAX_PROCESSES + 1 && Lineage(procs, pid, c) && Lineage(procs, pid, d)
    ensures c == d
    decreases |c|
  {
    if |c| > 1 && |d| > 1 {
      LineageUnique(procs, c[1], c[1..], d[1..]);
      assert c == [c[0]] + c[1..] && d == [d[0]] + d[1..];
    }
  }

  // ---------- switching ----------

  /** The directories and tables of the processes of all terminals but `t` are the same. */
  predicate OthersSame(s: State, s': State, g: Groups, t: nat)
    requires Sized(s) && Sized(s') && t < NUM_TERMS
  {
    && s'.procs == s.procs && s'.termPids == s.termPids && s'.live == s.live
    && forall u :: 0 <= u < NUM_TERMS && u != t ==>
         && s'.pointers[u] == s.pointers[u]
         && s'.config.fake[u] == s.config.fake[u] && s'.config.user[u] == s.config.user[u]
         && forall p :: p in g[u] && IsPid(p) ==>
              s'.config.fakeDir[p] == s.config.fakeDir[p] && s'.config.userDir[p] == s.config.userDir[p]
  }

  /** Every process of terminal `t` is mapped to buffer `b` in both windows. */
  predicate GroupAt(s: State, g: Groups, t: nat, b: Buffer)
    requires Sized(s) && t < NUM_TERMS
  {
    forall p :: p in g[t] ==>
      && IsPid(p) && s.config.fakeDir[p] == Some(t) && s.config.fake[t] == Some(b)
      && (s.procs[p].hasVideo ==> s.config.userDir[p] == Some(t) && s.config.user[t] == Some(b))
  }

  lemma RemapGroup(s: State, s': State, g: Groups, t: nat, b: Buffer)
    requires Wired(s, g) && Disjoint(g) && Sized(s') && t < NUM_TERMS && g[t] != [] && GoodBuffer(b)
    requires WiredAt(s, g, t) && s'.config == RemapAll(s.config, s.procs, g[t], t, b)
    requires s'.procs == s.procs && s'.termPids == s.termPids && s'.live == s.live
    requires forall u :: 0 <= u < NUM_TERMS && u != t ==> s'.pointers[u] == s.pointers[u]
    ensures OthersSame(s, s', g, t) && GroupAt(s', g, t, b)
  {
    RemapEffect(s.config, s.procs, g[t], t, b);
    assert forall u, p :: 0 <= u < NUM_TERMS && u != t && p in g[u] ==> p !in g[t];
  }

  /** Leaving the foreground saves its screen in the terminal's fake memory. */
  lemma LeaveForeground(s: State, g: Groups)
    requires Inv(s, g) && g[s.fg] != []
    ensures var t := s.fg; WiredAt(s, g, t)
    ensures var t := s.fg; var r := ToFake(s, g[t]);
            && r.Some? && r.value.fg == t && OthersSame(s, r.value, g, t) && GroupAt(r.value, g, t, Fake(t))
            && !r.value.pointers[t] && r.value.video == s.video && r.value.fakes == s.fakes[t := s.video]
  {
    var t := s.fg;
    assert WiredAt(s, g, t);
    var s1 := s.(config := RemapAll(s.config, s.procs, g[t], t, Fake(t)), pointers := s.pointers[t := false]);
    RemapGroup(s, s1, g, t, Fake(t));
    assert Root(g[t]) in g[t];
    assert ToFake(s, g[t]) == Some(Put(s1, Fake(t), s1.video));
  }

  /** Entering a terminal whose processes draw into its fake memory shows that memory. */
  lemma EnterForeground(s: State, g: Groups, t: nat)
    requires Wired(s, g) && Disjoint(g) && t < NUM_TERMS && g[t] != [] && IsPid(g[t][0])
    requires !s.pointers[t] && s.config.fakeDir[g[t][0]] == Some(t) && s.config.fake[t] == Some(Fake(t))
    ensures WiredAt(s, g, t)
    ensures var r := FromFake(s, g[t]);
            && r.Some? && r.value.fg == s.fg && OthersSame(s, r.value, g, t) && GroupAt(r.value, g, t, Real)
            && r.value.pointers[t] && r.value.video == s.fakes[t] && r.value.fakes == s.fakes
  {
    assert WiredAt(s, g, t);
    assert Behind(s.config, g[t][0], Pointed(s, t)) == Some(Fake(t));
    RemapGroup(s, FromFake(s, g[t]).value, g, t, Real);
  }

  /** The state between the two halves of a switch: terminal `n` is in the foreground, but its own
      processes have not been remapped yet. */
  ghost predicate Between(s: State, s1: State, g: Groups, n: nat)
    requires Inv(s, g) && n < NUM_TERMS
  {
    && Wired(s1, g) && s1.fg == n != s.fg
    && s1.procs == s.procs && s1.termPids == s.termPids && s1.live == s.live && s1.video == s.video
    && s1.fakes == (if g[s.fg] == [] then s.fakes else s.fakes[s.fg := s.video])
    && forall t {:trigger Settled(s1, g, t)} :: 0 <= t < NUM_TERMS ==> Settled(s1, g, t)
  }

  /** A terminal as it must be in the background. */
  predicate Settled(s: State, g: Groups, t: nat)
    requires Sized(s) && t < NUM_TERMS
  {
    && (s.pointers[t] <==> g[t] == [])
    && (g[t] != [] ==> GroupAt(s, g, t, Fake(t)))
  }

  lemma HalfSwitched(s: State, g: Groups, n: nat)
    requires Inv(s, g) && n < NUM_TERMS && n != s.fg
    ensures WiredAt(s, g, s.fg)
    ensures var r := if s.termPids[s.fg] < 0 then Some(s) else ToFake(s, g[s.fg]);
            r.Some? && Between(s, r.value.(fg := n), g, n)
  {
    assert WiredAt(s, g, s.fg);
    if g[s.fg] != [] {
      LeaveForeground(s, g);
    }
    var s0 := if s.termPids[s.fg] < 0 then s else ToFake(s, g[s.fg]).value;
    var s1 := s0.(fg := n);
    forall t | 0 <= t < NUM_TERMS ensures WiredAt(s1, g, t) && Settled(s1, g, t) {
      assert WiredAt(s, g, t) && TermOk(s, g, t);
      if t != s.fg {
        forall p | p in g[t] ensures Mapped(s, t, p) {
        }
      }
    }
  }

  /** Settled terminals are in order in the background, whichever terminal is in front. */
  lemma SettledOk(s: State, g: Groups, t: nat)
    requires Sized(s) && t < NUM_TERMS && t != s.fg && WiredAt(s, g, t) && Settled(s, g, t)
    ensures TermOk(s, g, t)
  {
    forall p | p in g[t] ensures Mapped(s, t, p) {
    }
  }

  lemma SettledSame(s: State, s': State, g: Groups, n: nat, t: nat)
    requires Sized(s) && Sized(s') && n < NUM_TERMS && OthersSame(s, s', g, n)
    requires t < NUM_TERMS && t != n && Settled(s, g, t)
    ensures Settled(s', g, t)
  {
  }

  lemma SwitchToLive(s: State, s1: State, g: Groups, n: nat)
    requires Inv(s, g) && n < NUM_TERMS && Between(s, s1, g, n) && g[n] != []
    ensures WiredAt(s1, g, n)
    ensures var r := FromFake(s1, g[n]);
            && r.Some? && Inv(r.value, g)
            && forall t :: 0 <= t < NUM_TERMS && g[t] != [] ==> Shown(r.value, t) == Shown(s, t)
  {
    assert WiredAt(s1, g, n) && Settled(s1, g, n);
    assert g[n][0] in g[n];
    EnterForeground(s1, g, n);
    var s' := FromFake(s1, g[n]).value;
    forall t | 0 <= t < NUM_TERMS ensures WiredAt(s', g, t) && TermOk(s', g, t) {
      assert WiredAt(s1, g, t) && Settled(s1, g, t);
      if t != n {
        SettledSame(s1, s', g, n, t);
        SettledOk(s', g, t);
      } else {
        forall p | p in g[t] ensures Mapped(s', t, p) {
        }
      }
    }
    SameCount(s, s', g);
  }

  /** A switch to an empty terminal, before anything is spawned there. */
  lemma SwitchToEmpty(s: State, s1: State, g: Groups, n: nat)
    requires Inv(s, g) && n < NUM_TERMS && Between(s, s1, g, n) && g[n] == []
    ensures Inv(s1, g) && Pointed(s1, n) == AtVideo
    ensures forall t :: 0 <= t < NUM_TERMS && g[t] != [] ==> Shown(s1, t) == Shown(s, t)
  {
    assert Settled(s1, g, n);
    forall t | 0 <= t < NUM_TERMS ensures TermOk(s1, g, t) {
      assert WiredAt(s1, g, t) && Settled(s1, g, t);
      if t != n {
        SettledOk(s1, g, t);
      }
    }
    SameCount(s, s1, g);
  }
}
