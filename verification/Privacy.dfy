/** Whether a process can reach the screen of a terminal other than its own.  Execute clears a
    PCB but not the page directory of its pid, so a process inherits the windows of the one that
    had its pid before. */
module Privacy {
  import opened Limits
  import opened Options
  import opened Bytes
  import opened Paging
  import opened Multiplex
  import opened MultiplexProofs
  import opened MultiplexRuns

  // ---------- what a directory lets through ----------

  /** What user code finds at address `a`, if it is screen memory, is in buffer `own`. */
  predicate Confined(c: Config, frames: seq<nat>, pid: nat, own: Buffer, a: nat)
    requires Proper(c) && Frames(frames) && pid <= MAX_PROCESSES && a < SPACE
  {
    var hit := Walk(Build(c, frames), frames, pid, a);
    hit.Some? && hit.value.user && ScreenMemory(hit.value.phys) ==> Within(hit.value.phys, Base(own), SIZE_64K)
  }

  /** The two windows of a directory are closed or lead to buffer `own`. */
  predicate Private(c: Config, pid: nat, own: Buffer)
    requires Proper(c) && pid <= MAX_PROCESSES
  {
    && (c.fakeDir[pid].Some? ==> c.fake[c.fakeDir[pid].value] in {None, Some(own)})
    && (c.userDir[pid].Some? ==> c.user[c.userDir[pid].value] in {None, Some(own)})
  }

  lemma MapConfined(c: Config, pid: nat, own: Buffer, a: nat)
    requires Proper(c) && IsPid(pid) && GoodBuffer(own) && Private(c, pid, own)
    ensures var hit := MemoryMap(c, pid, a);
            hit.Some? && hit.value.user && ScreenMemory(hit.value.phys) ==> Within(hit.value.phys, Base(own), SIZE_64K)
  {
  }

  lemma Leak(c: Config, frames: seq<nat>, pid: nat, own: Buffer) returns (a: nat)
    requires Proper(c) && Frames(frames) && IsPid(pid) && GoodBuffer(own) && !Private(c, pid, own)
    ensures a < SPACE && !Confined(c, frames, pid, own, a)
  {
    hide Walk, Build;
    if c.fakeDir[pid].Some? && c.fake[c.fakeDir[pid].value] !in {None, Some(own)} {
      a := FAKE_MEM + c.fakeDir[pid].value * SIZE_64K;
    } else {
      a := USER_VID;
    }
    WalkIsMap(c, frames, pid, a);
  }

  /** Of all addresses, none lets a process reach a screen that is not in `own` if and only if both
      its windows are closed or lead there. */
  lemma ReachExact(c: Config, frames: seq<nat>, pid: nat, own: Buffer)
    requires Proper(c) && Frames(frames) && IsPid(pid) && GoodBuffer(own)
    ensures (forall a: nat :: a < SPACE ==> Confined(c, frames, pid, own, a)) <==> Private(c, pid, own)
  {
    if Private(c, pid, own) {
      forall a: nat | a < SPACE ensures Confined(c, frames, pid, own, a) {
        WalkIsMap(c, frames, pid, a);
        MapConfined(c, pid, own, a);
      }
    } else {
      var _ := Leak(c, frames, pid, own);
    }
  }

  /** In any consistent state a process is confined to its own screen if its terminal is in the
      background and its user window is closed or its own, or if it asked for the user window and its
      fake one is closed. */
  lemma OwnWindows(s: State, g: Groups, p: nat)
    requires Inv(s, g) && TermOf(g, p) < NUM_TERMS
    ensures IsPid(p)
    ensures var t := TermOf(g, p);
            && (t != s.fg && (s.procs[p].hasVideo || s.config.userDir[p].None?) ==> Private(s.config, p, Screen(s, t)))
            && (s.procs[p].hasVideo && s.config.fakeDir[p].None? ==> Private(s.config, p, Screen(s, t)))
  {
    var t := TermOf(g, p);
    assert TermOk(s, g, t);
    assert Mapped(s, t, p);
  }

  // ---------- inherited windows ----------

  /** A guarded step. */
  predicate Arrives(s: State, g: Groups, step: Step, s': State, g': Groups) {
    Moves(s, g, step, s', g') && Guard(s, g, step)
  }

  /** Where a background terminal has more than one process: when its newest exits and the
      foreground terminal's newest executes a program that gets the pid, that program reaches the
      background terminal's screen. */
  lemma PidChangesTerminal(s: State, g: Groups, p: nat, parent: nat)
    returns (s1: State, g1: Groups, s2: State, g2: Groups)
    requires Inv(s, g) && Enabled(s, g, Exit(p)) && TermOf(g, p) != s.fg && |g[TermOf(g, p)]| > 1
    requires g[s.fg] != [] && g[s.fg][0] == parent
    ensures Arrives(s, g, Exit(p), s1, g1) && Arrives(s1, g1, Exec(parent, Started(p)), s2, g2) && Inv(s2, g2)
    ensures s2.fg == s.fg && p in g2[s.fg] && g2[TermOf(g, p)] != []
    ensures Behind(s2.config, p, AtFake(TermOf(g, p))) == Some(Screen(s2, TermOf(g, p)))
  {
    var u := TermOf(g, p);
    assert TermOk(s, g, u) && WiredAt(s, g, s.fg);
    assert Mapped(s, u, p);
    ExitKeeps(s, g, p);
    s1, g1 := Next(s, g, Exit(p)).value, NextGroups(s, g, Exit(p));
    assert g1[s.fg] == g[s.fg] && parent in g1[s.fg];
    InForeground(g1, s.fg, parent);
    ExecKeeps(s1, g1, Exec(parent, Started(p)));
    s2, g2 := Next(s1, g1, Exec(parent, Started(p))).value, NextGroups(s1, g1, Exec(parent, Started(p)));
  }

  lemma InForeground(g: Groups, t: nat, p: nat)
    requires Disjoint(g) && t < NUM_TERMS && p in g[t]
    ensures TermOf(g, p) == t
  {
  }

  // ---------- from boot ----------

  predicate ArrivesAt(states: seq<State>, groups: seq<Groups>, steps: seq<Step>, i: nat)
    requires |states| == |groups| == |steps| + 1 && i < |steps|
  {
    Arrives(states[i], groups[i], steps[i], states[i + 1], groups[i + 1])
  }

  predicate GuardedSession(states: seq<State>, groups: seq<Groups>, steps: seq<Step>) {
    && |states| == |groups| == |steps| + 1
    && forall i {:trigger ArrivesAt(states, groups, steps, i)} :: 0 <= i < |steps| ==>
         ArrivesAt(states, groups, steps, i)
  }

  /** The kernel can get there from boot by `n` guarded steps. */
  ghost predicate Reached(s: State, g: Groups, n: nat) {
    exists states, groups, steps ::
      && GuardedSession(states, groups, steps) && Booted(states[0], groups[0])
      && |steps| == n && states[n] == s && groups[n] == g
  }

  lemma BootReached(s: State, g: Groups)
    requires Booted(s, g)
    ensures Reached(s, g, 0)
  {
    assert GuardedSession([s], [g], []) && Booted([s][0], [g][0]);
  }

  lemma ReachOn(s: State, g: Groups, n: nat, step: Step, s': State, g': Groups)
    requires Reached(s, g, n) && Arrives(s, g, step, s', g')
    ensures Reached(s', g', n + 1)
  {
    var states, groups, steps :|
      && GuardedSession(states, groups, steps) && Booted(states[0], groups[0])
      && |steps| == n && states[n] == s && groups[n] == g;
    hide Arrives, Booted;
    var ss, gs, more := states + [s'], groups + [g'], steps + [step];
    forall i | 0 <= i < |more| ensures ArrivesAt(ss, gs, more, i) {
      assert i < n ==> ArrivesAt(states, groups, steps, i);
    }
    assert ss[0] == states[0] && gs[0] == groups[0] && GuardedSession(ss, gs, more);
  }

  lemma Onward(s: State, g: Groups, n: nat, step: Step)
    requires Reached(s, g, n) && Inv(s, g) && Enabled(s, g, step) && Guard(s, g, step)
    ensures Next(s, g, step).Some? && Inv(Next(s, g, step).value, NextGroups(s, g, step))
    ensures Reached(Next(s, g, step).value, NextGroups(s, g, step), n + 1)
  {
    assert Wired(s, g);
    hide Inv, Shows, Guard, Enabled, Next, NextGroups, NextViews, ViewsOf, Reached;
    StepRefines(s, g, step, ViewsOf(s));
    ReachOn(s, g, n, step, Next(s, g, step).value, NextGroups(s, g, step));
  }

  lemma SomeBoot() returns (s: State, g: Groups)
    ensures Reached(s, g, 0) && Inv(s, g) && g == [[], [], [], []] && s.fg == 0
  {
    var blank: Contents := seq(SIZE_64K, _ => 0);
    g := [[], [], [], []];
    s := State(0, [-1, -1, -1, -1], seq(MAX_PROCESSES + 1, _ => Proc(0, 0, false)), [true, true, true, true],
               INITIAL, blank, [blank, blank, blank, blank], {});
    FreshIsGood(s, g);
    BootReached(s, g);
  }

  lemma FirstShell() returns (s: State, g: Groups)
    ensures Reached(s, g, 1) && Inv(s, g) && g == [[1], [], [], []] && s.fg == 0
  {
    hide Reached;
    var s0, g0 := SomeBoot();
    assert Counted(s0, g0, 1);
    Onward(s0, g0, 0, Spawn(Started(1)));
    s, g := Next(s0, g0, Spawn(Started(1))).value, NextGroups(s0, g0, Spawn(Started(1)));
  }

  lemma SecondShell() returns (s: State, g: Groups)
    ensures Reached(s, g, 2) && Inv(s, g) && g == [[1], [2], [], []] && s.fg == 1
  {
    hide Reached, SwitchStep;
    var s0, g0 := FirstShell();
    assert Counted(s0, g0, 2);
    Onward(s0, g0, 1, Switch(1, Started(2), 0));
    SwitchRefines(s0, g0, 1, Started(2), 0);
    s, g := Next(s0, g0, Switch(1, Started(2), 0)).value, NextGroups(s0, g0, Switch(1, Started(2), 0));
  }

  lemma Child() returns (s: State, g: Groups)
    ensures Reached(s, g, 3) && Inv(s, g) && g == [[1], [3, 2], [], []] && s.fg == 1
  {
    hide Reached;
    var s0, g0 := SecondShell();
    assert Counted(s0, g0, 3);
    Onward(s0, g0, 2, Exec(2, Started(3)));
    s, g := Next(s0, g0, Exec(2, Started(3))).value, NextGroups(s0, g0, Exec(2, Started(3)));
    assert [3] + [2] == [3, 2];
  }

  lemma BackInFront() returns (s: State, g: Groups)
    ensures Reached(s, g, 4) && Inv(s, g) && s.fg == 0
    ensures TermOf(g, 3) == 1 && g[1] == [3, 2] && g[0] == [1] && Enabled(s, g, Exit(3))
  {
    hide Reached, SwitchStep;
    var s0, g0 := Child();
    Onward(s0, g0, 3, Switch(0, Refused, 0));
    SwitchRefines(s0, g0, 0, Refused, 0);
    s, g := Next(s0, g0, Switch(0, Refused, 0)).value, NextGroups(s0, g0, Switch(0, Refused, 0));
    ThirdBehind(g);
  }

  lemma ThirdBehind(g: Groups)
    requires g == [[1], [3, 2], [], []]
    ensures TermOf(g, 3) == 1 && g[1][0] == 3
  {
    assert 3 !in g[0];
  }

  lemma ReusedPid() returns (s: State, g: Groups)
    ensures Reached(s, g, 6) && Inv(s, g) && s.fg == 0 && 3 in g[0] && g[1] != []
    ensures Behind(s.config, 3, AtFake(1)) == Some(Screen(s, 1))
  {
    hide Inv, Arrives, Behind, TermOf, Enabled, Reached;
    var s0, g0 := BackInFront();
    var s1, g1;
    s1, g1, s, g := PidChangesTerminal(s0, g0, 3, 1);
    ReachOn(s0, g0, 4, Exit(3), s1, g1);
    ReachOn(s1, g1, 5, Exec(1, Started(3)), s, g);
  }

  /** Guarded steps from boot lead to a process of the foreground terminal that reaches the screen
      of another, and a store of any byte there shows on it. */
  lemma OtherScreenReached(b: byte) returns (s: State, g: Groups)
    ensures Reached(s, g, 6) && Inv(s, g) && TermOf(g, 3) == s.fg == 0 && !Private(s.config, 3, Screen(s, 0))
    ensures g[1] != [] && Enabled(s, g, Poke(3, AtFake(1), 0, b)) && !Guard(s, g, Poke(3, AtFake(1), 0, b))
    ensures var s' := Next(s, g, Poke(3, AtFake(1), 0, b)).value;
            Inv(s', g) && Shown(s', 1)[0] == b && Shown(s', 0) == Shown(s, 0)
  {
    hide Reached;
    s, g := ReusedPid();
    StepExact(s, g, Poke(3, AtFake(1), 0, b));
  }
}
