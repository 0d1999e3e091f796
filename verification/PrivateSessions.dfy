/** Sessions in which no process inherits a window: every process then reaches its own screen only,
    so that nothing its user code does can spoil the four screens. */
module PrivateSessions {
  import opened Limits
  import opened Options
  import opened Paging
  import opened Multiplex
  import opened MultiplexProofs
  import opened MultiplexRuns
  import opened Privacy

  // ---------- tidy states ----------

  /** A process's fake window is closed or its own terminal's, and its user window is closed unless it
      asked for it. */
  predicate TidyProc(s: State, t: nat, p: nat)
    requires Sized(s) && IsPid(p)
  {
    s.config.fakeDir[p] in {None, Some(t)} && (s.config.userDir[p].Some? ==> s.procs[p].hasVideo)
  }

  predicate TidyProcs(s: State, g: Groups, t: nat)
    requires Sized(s) && t < NUM_TERMS
  {
    forall p {:trigger TidyProc(s, t, p)} :: p in g[t] && IsPid(p) ==> TidyProc(s, t, p)
  }

  /** The fake memory of a terminal that is in front or empty is not mapped to itself. */
  predicate TidyAt(s: State, g: Groups, t: nat)
    requires Sized(s) && t < NUM_TERMS
  {
    TidyProcs(s, g, t) && (t == s.fg || g[t] == [] ==> s.config.fake[t] in {None, Some(Real)})
  }

  predicate Tidy(s: State, g: Groups)
    requires Sized(s)
  {
    forall t {:trigger TidyAt(s, g, t)} :: 0 <= t < NUM_TERMS ==> TidyAt(s, g, t)
  }

  /** In a tidy state every process is confined to its own screen. */
  lemma TidyIsPrivate(s: State, g: Groups, p: nat)
    requires Inv(s, g) && Tidy(s, g) && TermOf(g, p) < NUM_TERMS
    ensures IsPid(p) && Private(s.config, p, Screen(s, TermOf(g, p)))
  {
    var t := TermOf(g, p);
    assert TermOk(s, g, t) && TidyAt(s, g, t);
    assert Mapped(s, t, p) && TidyProc(s, t, p);
  }

  /** So whatever its user code can store to is its own screen. */
  lemma TidyStores(s: State, g: Groups, step: Step)
    requires Inv(s, g) && Tidy(s, g) && Enabled(s, g, step) && step.Poke?
    ensures Guard(s, g, step)
  {
    TidyIsPrivate(s, g, step.pid);
  }

  /** No window of the pid that is handed out for a program on terminal `t` leads elsewhere. */
  predicate Clean(s: State, pid: nat, t: nat)
    requires Sized(s) && IsPid(pid)
  {
    s.config.fakeDir[pid] in {None, Some(t)} && s.config.userDir[pid].None?
  }

  predicate CleanStart(s: State, g: Groups, step: Step)
    requires Sized(s) && Enabled(s, g, step)
  {
    match step
    case Exec(_, start) => start.Started? ==> Clean(s, start.pid, s.fg)
    case Spawn(start) => start.Started? ==> Clean(s, start.pid, s.fg)
    case Switch(t, start, _) => t != s.fg && g[t] == [] && start.Started? ==> Clean(s, start.pid, t)
    case _ => true
  }

  lemma BeginTidy(s: State, g: Groups, pid: nat, parent: nat)
    requires Inv(s, g) && Tidy(s, g) && IsPid(pid) && pid !in s.live
    ensures Tidy(Begin(s, Started(pid), parent), g[s.fg := [pid] + g[s.fg]]) <==> Clean(s, pid, s.fg)
  {
    var s', g' := Begin(s, Started(pid), parent), g[s.fg := [pid] + g[s.fg]];
    NotGrouped(s, g, pid);
    assert pid in g'[s.fg];
    if Tidy(s', g') {
      assert TidyAt(s', g', s.fg) && TidyProc(s', s.fg, pid);
    }
    if Clean(s, pid, s.fg) {
      forall t | 0 <= t < NUM_TERMS ensures TidyAt(s', g', t) {
        assert TidyAt(s, g, t);
        forall p | p in g'[t] && IsPid(p) ensures TidyProc(s', t, p) {
          assert p != pid ==> p in g[t] && TidyProc(s, t, p);
        }
      }
    }
  }

  /** Steps that start no process and do not switch. */
  lemma QuietTidy(s: State, g: Groups, step: Step)
    requires Inv(s, g) && Tidy(s, g) && Enabled(s, g, step) && (step.Poke? || Guard(s, g, step))
    requires step.Print? || step.Poke? || step.Vidmap? || step.Exit?
    ensures var r := Next(s, g, step); r.Some? && Tidy(r.value, NextGroups(s, g, step))
  {
    StepExact(s, g, step);
    var s', g' := Next(s, g, step).value, NextGroups(s, g, step);
    forall t | 0 <= t < NUM_TERMS ensures TidyAt(s', g', t) {
      assert TidyAt(s, g, t);
      forall p | p in g'[t] && IsPid(p) ensures TidyProc(s', t, p) {
        assert p in g[t] && TidyProc(s, t, p);
      }
    }
  }

  /** The state of a switch to `n` before its own processes are remapped. */
  function Left(s: State, g: Groups, n: nat): (r: Option<State>)
    requires Wired(s, g) && n < NUM_TERMS
    ensures r.Some? ==> Sized(r.value)
  {
    assert WiredAt(s, g, s.fg);
    match (if s.termPids[s.fg] < 0 then Some(s) else ToFake(s, g[s.fg]))
    case None => None
    case Some(s0) => Some(s0.(fg := n))
  }

  lemma LeftConfig(s: State, g: Groups, n: nat)
    requires Inv(s, g) && n < NUM_TERMS && n != s.fg
    ensures var r := Left(s, g, n);
            && r.Some? && r.value.fg == n && r.value.procs == s.procs && Between(s, r.value, g, n)
            && (forall p :: 0 <= p <= MAX_PROCESSES ==>
                  r.value.config.fakeDir[p] == if p in g[s.fg] then Some(s.fg) else s.config.fakeDir[p])
            && (forall p :: 0 <= p <= MAX_PROCESSES ==>
                  r.value.config.userDir[p] ==
                  if p in g[s.fg] && s.procs[p].hasVideo then Some(s.fg) else s.config.userDir[p])
            && (forall t :: 0 <= t < NUM_TERMS && (t != s.fg || g[t] == []) ==>
                  r.value.config.fake[t] == s.config.fake[t])
  {
    HalfSwitched(s, g, n);
    assert WiredAt(s, g, s.fg);
    if g[s.fg] != [] {
      RemapEffect(s.config, s.procs, g[s.fg], s.fg, Fake(s.fg));
    }
  }

  lemma LeaveTidy(s: State, g: Groups, n: nat)
    requires Inv(s, g) && Tidy(s, g) && n < NUM_TERMS && n != s.fg
    ensures Left(s, g, n).Some?
    ensures forall t :: 0 <= t < NUM_TERMS && t != n ==> TidyAt(Left(s, g, n).value, g, t)
    ensures TidyProcs(Left(s, g, n).value, g, n)
    ensures g[n] == [] ==> TidyAt(Left(s, g, n).value, g, n)
  {
    LeftConfig(s, g, n);
    var s1 := Left(s, g, n).value;
    hide Left, Between;
    forall t | 0 <= t < NUM_TERMS
      ensures TidyProcs(s1, g, t) && ((t != n || g[n] == []) ==> TidyAt(s1, g, t))
    {
      assert TidyAt(s, g, t);
      forall p | p in g[t] && IsPid(p) ensures TidyProc(s1, t, p) {
        assert TidyProc(s, t, p);
        assert p in g[s.fg] ==> t == s.fg;
      }
    }
  }

  lemma EnterTidy(s: State, g: Groups, n: nat)
    requires Inv(s, g) && Tidy(s, g) && n < NUM_TERMS && n != s.fg && g[n] != []
    ensures Left(s, g, n).Some? && WiredAt(Left(s, g, n).value, g, n)
    ensures var r := FromFake(Left(s, g, n).value, g[n]); r.Some? && Tidy(r.value, g)
  {
    LeaveTidy(s, g, n);
    LeftConfig(s, g, n);
    var s1 := Left(s, g, n).value;
    assert WiredAt(s, g, s.fg) && WiredAt(s, g, n) && WiredAt(s1, g, n);
    SwitchToLive(s, s1, g, n);
    RemapTidy(s1, FromFake(s1, g[n]).value, g, n);
  }

  lemma RemapTidy(s: State, s': State, g: Groups, n: nat)
    requires Wired(s, g) && Disjoint(g) && Sized(s') && n < NUM_TERMS && n == s.fg == s'.fg && g[n] != []
    requires WiredAt(s, g, n) && s'.config == RemapAll(s.config, s.procs, g[n], n, Real) && s'.procs == s.procs
    requires TidyProcs(s, g, n) && forall t :: 0 <= t < NUM_TERMS && t != n ==> TidyAt(s, g, t)
    ensures Tidy(s', g)
  {
    RemapEffect(s.config, s.procs, g[n], n, Real);
    hide Wired, RemapAll;
    forall t | 0 <= t < NUM_TERMS ensures TidyAt(s', g, t) {
      assert t != n ==> TidyAt(s, g, t);
      forall p | p in g[t] && IsPid(p) ensures TidyProc(s', t, p) {
        assert TidyProc(s, t, p);
        assert p in g[n] ==> t == n;
      }
    }
  }

  lemma EmptyTidy(s: State, g: Groups, n: nat, pid: nat)
    requires Inv(s, g) && Tidy(s, g) && n < NUM_TERMS && n != s.fg && g[n] == []
    ensures Left(s, g, n).Some? && Inv(Left(s, g, n).value, g) && Tidy(Left(s, g, n).value, g)
    ensures Pointed(Left(s, g, n).value, n) == AtVideo && Left(s, g, n).value.live == s.live
    ensures IsPid(pid) && pid !in s.live ==> (Clean(Left(s, g, n).value, pid, n) <==> Clean(s, pid, n))
  {
    LeaveTidy(s, g, n);
    LeftConfig(s, g, n);
    var s1 := Left(s, g, n).value;
    SwitchToEmpty(s, s1, g, n);
    forall t | 0 <= t < NUM_TERMS ensures TidyAt(s1, g, t) {
    }
    if pid !in s.live {
      NotGrouped(s, g, pid);
    }
  }

  lemma SwitchTidy(s: State, g: Groups, n: nat, start: Start, dir: nat)
    requires Inv(s, g) && Tidy(s, g) && Enabled(s, g, Switch(n, start, dir)) && Guard(s, g, Switch(n, start, dir))
    ensures var step := Switch(n, start, dir); var r := Next(s, g, step);
            r.Some? && (Tidy(r.value, NextGroups(s, g, step)) <==> CleanStart(s, g, step))
  {
    if n != s.fg {
      assert WiredAt(s, g, s.fg) && WiredAt(s, g, n);
      if g[n] != [] {
        LeftConfig(s, g, n);
        EnterTidy(s, g, n);
      } else {
        EmptyTidy(s, g, n, if start.Started? then start.pid else 0);
        if start.Started? {
          SpawnTidy(Left(s, g, n).value, g, start.pid);
        }
      }
    }
  }

  lemma SpawnTidy(s: State, g: Groups, pid: nat)
    requires Inv(s, g) && Tidy(s, g) && IsPid(pid) && pid !in s.live && g[s.fg] == []
    ensures var s2 := Begin(s, Started(pid), 0);
            forall c: Contents :: Tidy(s2.(video := c), g[s.fg := [pid]]) <==> Clean(s, pid, s.fg)
  {
    BeginTidy(s, g, pid, 0);
    assert [pid] + g[s.fg] == [pid];
    var s2, g2 := Begin(s, Started(pid), 0), g[s.fg := [pid]];
    forall c: Contents ensures Tidy(s2.(video := c), g2) <==> Tidy(s2, g2) {
      SameTidy(s2, s2.(video := c), g2);
      SameTidy(s2.(video := c), s2, g2);
    }
  }

  lemma SameTidy(s: State, s': State, g: Groups)
    requires Sized(s) && Sized(s') && s'.config == s.config && s'.procs == s.procs && s'.fg == s.fg
    ensures Tidy(s, g) ==> Tidy(s', g)
  {
    forall t | 0 <= t < NUM_TERMS && TidyAt(s, g, t) ensures TidyAt(s', g, t) {
      forall p | p in g[t] && IsPid(p) ensures TidyProc(s', t, p) {
        assert TidyProc(s, t, p);
      }
    }
  }

  // ---------- steps and sessions ----------

  /** A guarded call, or any store, leads from a tidy state to a tidy one if and only if the pid it
      hands out, if it does, has no window that leads elsewhere. */
  lemma StepTidy(s: State, g: Groups, step: Step)
    requires Inv(s, g) && Tidy(s, g) && Enabled(s, g, step) && (step.Poke? || Guard(s, g, step))
    ensures var r := Next(s, g, step);
            r.Some? && (Tidy(r.value, NextGroups(s, g, step)) <==> CleanStart(s, g, step))
  {
    match step
    case Exec(parent, start) =>
      if start.Started? {
        BeginTidy(s, g, start.pid, parent);
      }
    case Spawn(start) =>
      if start.Started? {
        BeginTidy(s, g, start.pid, 0);
        assert [start.pid] + g[s.fg] == [start.pid];
      }
    case Switch(n, start, dir) => SwitchTidy(s, g, n, start, dir);
    case _ => QuietTidy(s, g, step);
  }

  /** The kernel calls of the session are guarded and hand out clean pids; user code stores wherever
      it can. */
  predicate Permitted(s: State, g: Groups, step: Step)
    requires Sized(s) && Enabled(s, g, step)
  {
    step.Poke? || (Guard(s, g, step) && CleanStart(s, g, step))
  }

  predicate AllPermitted(states: seq<State>, groups: seq<Groups>, steps: seq<Step>)
    requires Session(states, groups, steps)
  {
    forall i :: 0 <= i < |steps| ==>
      Moves(states[i], groups[i], steps[i], states[i + 1], groups[i + 1]) && Permitted(states[i], groups[i], steps[i])
  }

  lemma {:induction false} TidyUpTo(states: seq<State>, groups: seq<Groups>, steps: seq<Step>, n: nat)
    requires Session(states, groups, steps) && AllPermitted(states, groups, steps) && n <= |steps|
    requires Inv(states[0], groups[0]) && Tidy(states[0], groups[0])
    ensures Inv(states[n], groups[n]) && Tidy(states[n], groups[n])
    ensures n > 0 ==> Moves(states[n - 1], groups[n - 1], steps[n - 1], states[n], groups[n])
                      && Guard(states[n - 1], groups[n - 1], steps[n - 1])
    decreases n
  {
    if n > 0 {
      TidyUpTo(states, groups, steps, n - 1);
      var s, g, step := states[n - 1], groups[n - 1], steps[n - 1];
      assert Moves(s, g, step, states[n], groups[n]) && Permitted(s, g, step);
      StepTidy(s, g, step);
      if step.Poke? {
        TidyStores(s, g, step);
      }
      StepRefines(s, g, step, ViewsOf(s));
    }
  }

  /** Every process is confined to its own screen. */
  ghost predicate AllPrivate(s: State, g: Groups) {
    Sized(s) && forall p: nat :: TermOf(g, p) < NUM_TERMS ==>
      IsPid(p) && Private(s.config, p, Screen(s, TermOf(g, p)))
  }

  lemma PrivateAt(states: seq<State>, groups: seq<Groups>, steps: seq<Step>, n: nat)
    requires Session(states, groups, steps) && AllPermitted(states, groups, steps) && n <= |steps|
    requires Booted(states[0], groups[0])
    ensures AllPrivate(states[n], groups[n])
  {
    BootTidy(states[0], groups[0]);
    TidyUpTo(states, groups, steps, n);
    forall p: nat | TermOf(groups[n], p) < NUM_TERMS
      ensures IsPid(p) && Private(states[n].config, p, Screen(states[n], TermOf(groups[n], p)))
    {
      TidyIsPrivate(states[n], groups[n], p);
    }
  }

  lemma PermittedGuarded(states: seq<State>, groups: seq<Groups>, steps: seq<Step>)
    requires Session(states, groups, steps) && AllPermitted(states, groups, steps) && Booted(states[0], groups[0])
    ensures AllGuarded(states, groups, steps)
  {
    BootTidy(states[0], groups[0]);
    forall i | 0 <= i < |steps|
      ensures Moves(states[i], groups[i], steps[i], states[i + 1], groups[i + 1])
      ensures Guard(states[i], groups[i], steps[i])
    {
      TidyUpTo(states, groups, steps, i + 1);
    }
  }

  /** From boot on, in every session whose kernel calls are guarded and hand out clean pids, every
      process is at every time confined to its own screen, and the four screens are independent
      whatever user code stores. */
  lemma PrivateSession(states: seq<State>, groups: seq<Groups>, steps: seq<Step>, v: Views)
    requires Session(states, groups, steps) && AllPermitted(states, groups, steps)
    requires Booted(states[0], groups[0]) && Shows(states[0], groups[0], v)
    ensures forall n :: 0 <= n <= |steps| ==> AllPrivate(states[n], groups[n])
    ensures AllGuarded(states, groups, steps) && Inv(states[|steps|], groups[|steps|])
    ensures Shows(states[|steps|], groups[|steps|], ViewsAfter(v, states, groups, steps))
  {
    PermittedGuarded(states, groups, steps);
    BootRefines(states, groups, steps, v);
    hide AllGuarded, AllPermitted, AllPrivate, Inv, Shows, Booted;
    forall n | 0 <= n <= |steps| ensures AllPrivate(states[n], groups[n]) {
      PrivateAt(states, groups, steps, n);
    }
  }

  lemma BootTidy(s: State, g: Groups)
    requires Booted(s, g)
    ensures Inv(s, g) && Tidy(s, g)
  {
    FreshIsGood(s, g);
    forall t | 0 <= t < NUM_TERMS ensures TidyAt(s, g, t) {
    }
  }
}
