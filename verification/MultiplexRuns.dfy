/** Whole sessions: the four terminals behave as four screens of their own, exactly as long as the
    calls that the source books on the foreground terminal come from there, every program that
    gets a terminal loads, and user code stores to its own screen. */
module MultiplexRuns {
  import opened Limits
  import opened Options
  import opened Bytes
  import opened Paging
  import opened Multiplex
  import opened MultiplexProofs

  // ---------- four screens ----------

  /** The visible part of four independent screens. */
  type Views = v: seq<seq<byte>> | |v| == NUM_TERMS && forall t :: 0 <= t < NUM_TERMS ==> |v[t]| == VISIBLE
    witness seq(NUM_TERMS, _ => seq(VISIBLE, _ => 0))

  function PokeView(v: Views, t: nat, at: nat, b: byte): Views
    requires t < NUM_TERMS
  {
    if at < VISIBLE then PutView(v, t, v[t][at := b]) else v
  }

  function PutView(v: Views, t: nat, view: seq<byte>): Views
    requires t < NUM_TERMS && |view| == VISIBLE
  {
    v[t := view]
  }

  /** What a step does to four screens that have nothing to do with each other: a write changes the
      writer's screen; a switch to an empty terminal gives it a blank one with a shell, and without
      one leaves on it what was there to see. */
  function NextViews(v: Views, fg: nat, g: Groups, step: Step): Views {
    match step
    case Print(t, _, at, b) => if t < NUM_TERMS then PokeView(v, t, at, b) else v
    case Poke(pid, _, at, b) => if TermOf(g, pid) < NUM_TERMS then PokeView(v, TermOf(g, pid), at, b) else v
    case Switch(t, start, _) =>
      if !(t < NUM_TERMS && fg < NUM_TERMS && t != fg && g[t] == []) then v
      else PutView(v, t, if start.Started? then BlankBytes() else v[fg])
    case _ => v
  }

  /** The foreground terminal and every terminal that has processes show their own screens. */
  predicate Shows(s: State, g: Groups, v: Views)
    requires Sized(s)
  {
    forall t :: 0 <= t < NUM_TERMS && (t == s.fg || g[t] != []) ==> Shown(s, t)[..VISIBLE] == v[t]
  }

  /** The screens as they are. */
  function ViewsOf(s: State): (v: Views)
    requires Sized(s)
    ensures forall g: Groups :: Shows(s, g, v)
  {
    seq(NUM_TERMS, t requires 0 <= t < NUM_TERMS => Shown(s, t)[..VISIBLE])
  }

  lemma SwitchRefines(s: State, g: Groups, n: nat, start: Start, dir: nat)
    requires Inv(s, g) && Enabled(s, g, Switch(n, start, dir)) && Guard(s, g, Switch(n, start, dir))
    ensures var r := Next(s, g, Switch(n, start, dir)); var g' := NextGroups(s, g, Switch(n, start, dir));
            && r.Some? && Inv(r.value, g') && r.value.fg == n
            && (forall t :: 0 <= t < NUM_TERMS && g[t] != [] ==> Shown(r.value, t) == Shown(s, t))
            && (n == s.fg ==> Shown(r.value, n) == Shown(s, n))
            && (g[n] == [] && n != s.fg ==>
                  Shown(r.value, n) == if start.Started? then Clear(Shown(s, s.fg)) else Shown(s, s.fg))
  {
    if n != s.fg {
      HalfSwitched(s, g, n);
      assert WiredAt(s, g, s.fg) && WiredAt(s, g, n);
      var s1 := (if s.termPids[s.fg] < 0 then s else ToFake(s, g[s.fg]).value).(fg := n);
      if g[n] != [] {
        SwitchToLive(s, s1, g, n);
      } else {
        SwitchToEmpty(s, s1, g, n);
        if start.Started? {
          SpawnOnEmpty(s1, g, start.pid);
        }
      }
    }
  }

  /** A shell spawned on the empty foreground terminal gets it, and a cleared screen is a write. */
  lemma SpawnOnEmpty(s: State, g: Groups, pid: nat)
    requires Inv(s, g) && g[s.fg] == [] && IsPid(pid) && pid !in s.live
    ensures var s2 := Begin(s, Started(pid), 0);
            && Pointed(s2, s.fg) == AtVideo
            && Inv(s2.(video := Clear(s2.video)), g[s.fg := [pid]])
  {
    var s2 := Begin(s, Started(pid), 0);
    assert TermOk(s, g, s.fg);
    BeginKeeps(s, g, pid, 0);
    assert [pid] + g[s.fg] == [pid];
    PutKeeps(s2, g[s.fg := [pid]], Real, Clear(s2.video));
  }

  lemma PokeShows(s: State, s': State, g: Groups, v: Views, t: nat, at: nat, b: byte)
    requires Sized(s) && Sized(s') && s'.fg == s.fg && t < NUM_TERMS && at < SIZE_64K && Shows(s, g, v)
    requires forall u :: 0 <= u < NUM_TERMS ==> Shown(s', u) == if u == t then Shown(s, u)[at := b] else Shown(s, u)
    ensures Shows(s', g, PokeView(v, t, at, b))
  {
    hide Shown;
    forall u | 0 <= u < NUM_TERMS && (u == s'.fg || g[u] != [])
      ensures Shown(s', u)[..VISIBLE] == PokeView(v, t, at, b)[u]
    {
      assert Shown(s, u)[..VISIBLE] == v[u];
    }
  }

  lemma WriteShows(s: State, g: Groups, step: Step, v: Views)
    requires Inv(s, g) && Enabled(s, g, step) && (step.Print? || step.Poke?) && Guard(s, g, step) && Shows(s, g, v)
    ensures var r := Next(s, g, step);
            r.Some? && Inv(r.value, g) && r.value.fg == s.fg && Shows(r.value, g, NextViews(v, s.fg, g, step))
  {
    WriteRefines(s, g, step);
    var s', t := Next(s, g, step).value, if step.Print? then step.term else TermOf(g, step.pid);
    assert s'.fg == s.fg;
    hide Inv, Next, Shows, Shown;
    PokeShows(s, s', g, v, t, step.at, step.b);
  }

  lemma SwitchShows(s: State, g: Groups, n: nat, start: Start, dir: nat, v: Views)
    requires Inv(s, g) && Enabled(s, g, Switch(n, start, dir)) && Guard(s, g, Switch(n, start, dir)) && Shows(s, g, v)
    ensures var step := Switch(n, start, dir); var r := Next(s, g, step);
            && r.Some? && Inv(r.value, NextGroups(s, g, step))
            && Shows(r.value, NextGroups(s, g, step), NextViews(v, s.fg, g, step))
  {
    SwitchRefines(s, g, n, start, dir);
    hide Inv, Next, SwitchStep;
    var s', g' := Next(s, g, Switch(n, start, dir)).value, NextGroups(s, g, Switch(n, start, dir));
    var v' := NextViews(v, s.fg, g, Switch(n, start, dir));
    assert Shown(s, s.fg)[..VISIBLE] == v[s.fg];
    forall t | 0 <= t < NUM_TERMS && (t == s'.fg || g'[t] != []) ensures Shown(s', t)[..VISIBLE] == v'[t] {
      if g[t] != [] || t == s.fg {
        assert Shown(s, t)[..VISIBLE] == v[t];
      }
    }
  }

  /** A guarded step does not fault, keeps the invariant, and does to the four screens what it would
      do to independent ones. */
  lemma StepRefines(s: State, g: Groups, step: Step, v: Views)
    requires Inv(s, g) && Enabled(s, g, step) && Guard(s, g, step) && Shows(s, g, v)
    ensures var r := Next(s, g, step);
            r.Some? && Inv(r.value, NextGroups(s, g, step))
            && Shows(r.value, NextGroups(s, g, step), NextViews(v, s.fg, g, step))
  {
    match step
    case Print(_, _, _, _) => WriteShows(s, g, step, v);
    case Poke(_, _, _, _) => WriteShows(s, g, step, v);
    case Vidmap(pid) => VidmapKeeps(s, g, pid);
    case Exec(_, _) => ExecKeeps(s, g, step);
    case Spawn(_) => ExecKeeps(s, g, step);
    case Exit(pid) => ExitKeeps(s, g, pid);
    case Switch(n, start, dir) => SwitchShows(s, g, n, start, dir, v);
  }

  // ---------- the guards are exact ----------

  /** The step keeps the invariant and does to the four screens what it would do to independent
      ones. */
  ghost predicate Refines(s: State, g: Groups, step: Step)
    requires Inv(s, g) && Enabled(s, g, step)
  {
    var r, g' := Next(s, g, step), NextGroups(s, g, step);
    r.Some? && Inv(r.value, g') && Shows(r.value, g', NextViews(ViewsOf(s), s.fg, g, step))
  }

  /** The same call; of a store, the same process and window, but any place and byte. */
  predicate SameCall(step: Step, other: Step) {
    other == step || (step.Poke? && other.Poke? && other.pid == step.pid && other.window == step.window)
  }

  /** No step faults.  A call leads to a state with an invariant, whatever groups one looks for,
      exactly when its guard holds; a store always does.  And a step refines four screens, a store
      for every place and byte, exactly when its guard holds. */
  lemma StepExact(s: State, g: Groups, step: Step)
    requires Inv(s, g) && Enabled(s, g, step)
    ensures Next(s, g, step).Some?
    ensures !step.Poke? ==> ((exists g' :: Inv(Next(s, g, step).value, g')) <==> Guard(s, g, step))
    ensures step.Poke? ==> Inv(Next(s, g, step).value, g)
    ensures (forall other :: SameCall(step, other) && Enabled(s, g, other) ==> Refines(s, g, other)) <==>
            Guard(s, g, step)
  {
    assert Wired(s, g);
    hide Inv, Shows, NextViews, ViewsOf, Next, NextGroups;
    if Guard(s, g, step) {
      forall other | SameCall(step, other) && Enabled(s, g, other) ensures Refines(s, g, other) {
        StepRefines(s, g, other, ViewsOf(s));
      }
    } else if step.Poke? {
      StrayStore(s, g, step);
    } else {
      BehindBreaks(s, g, step, g);
      forall g': Groups ensures !Inv(Next(s, g, step).value, g') {
        BehindBreaks(s, g, step, g');
      }
      assert SameCall(step, step) && !Refines(s, g, step);
    }
    if step.Poke? {
      StoreKeeps(s, g, step);
    }
  }

  lemma StoreKeeps(s: State, g: Groups, step: Step)
    requires Inv(s, g) && Enabled(s, g, step) && step.Poke?
    ensures Next(s, g, step).Some? && Inv(Next(s, g, step).value, g)
  {
    var buf := Behind(s.config, step.pid, step.window).value;
    PutKeeps(s, g, buf, Get(s, buf)[step.at := step.b]);
  }

  /** A store through a window that leads elsewhere is missing from the writer's own screen. */
  lemma StrayStore(s: State, g: Groups, step: Step)
    requires Inv(s, g) && Enabled(s, g, step) && step.Poke? && !Guard(s, g, step)
    ensures exists other :: SameCall(step, other) && Enabled(s, g, other) && !Refines(s, g, other)
  {
    var t := TermOf(g, step.pid);
    var b: byte := if Shown(s, t)[0] == 0 then 1 else 0;
    var other := Poke(step.pid, step.window, 0, b);
    var s', v' := Next(s, g, other).value, NextViews(ViewsOf(s), s.fg, g, other);
    assert Shown(s', t)[..VISIBLE][0] == Shown(s, t)[0];
    assert v'[t][0] == b;
    assert SameCall(step, other) && !Refines(s, g, other);
  }

  lemma VidmapBehind(s: State, g: Groups, pid: nat, g': Groups)
    requires Inv(s, g) && Enabled(s, g, Vidmap(pid)) && TermOf(g, pid) != s.fg
    ensures !Inv(Next(s, g, Vidmap(pid)).value, g')
  {
    var s', t := Next(s, g, Vidmap(pid)).value, TermOf(g, pid);
    assert WiredAt(s, g, t);
    LineageFrame(s.procs, s'.procs, s.termPids[t], g[t]);
    if Wired(s', g') {
      assert WiredAt(s', g', t);
      LineageUnique(s'.procs, s'.termPids[t], g[t], g'[t]);
      assert !Mapped(s', t, pid);
      assert !TermOk(s', g', t);
    }
  }

  lemma ExecBehind(s: State, g: Groups, parent: nat, start: Start, g': Groups)
    requires Inv(s, g) && Enabled(s, g, Exec(parent, start)) && start.Started? && TermOf(g, parent) != s.fg
    ensures !Inv(Next(s, g, Exec(parent, start)).value, g')
  {
    var s', t := Next(s, g, Exec(parent, start)).value, TermOf(g, parent);
    NotGrouped(s, g, start.pid);
    assert WiredAt(s, g, t);
    LineageFrame(s.procs, s'.procs, s.termPids[t], g[t]);
    var c := [start.pid] + g[t];
    assert c[1..] == g[t] && Root(c) == Root(g[t]);
    if Wired(s', g') {
      assert WiredAt(s', g', s.fg);
      LineageUnique(s'.procs, start.pid, c, g'[s.fg]);
    }
  }

  /** A program that does not load leaves its terminal to a pid that is not live. */
  lemma FailedBreaks(s': State, g': Groups)
    requires Sized(s') && s'.termPids[s'.fg] >= 0 && (s'.termPids[s'.fg] as nat) !in s'.live
    ensures !Inv(s', g')
  {
    if Wired(s', g') {
      assert WiredAt(s', g', s'.fg);
      assert g'[s'.fg][0] == s'.termPids[s'.fg];
      assert !Counted(s', g', s'.termPids[s'.fg]);
    }
  }

  /** A root spawned on a terminal that has processes cuts them off. */
  lemma SpawnOnTop(s: State, g: Groups, pid: nat, g': Groups)
    requires Inv(s, g) && IsPid(pid) && pid !in s.live && g[s.fg] != []
    ensures !Inv(Begin(s, Started(pid), 0), g')
  {
    var s', elder := Begin(s, Started(pid), 0), g[s.fg][0];
    NotGrouped(s, g, pid);
    assert elder in g[s.fg];
    assert Counted(s, g, elder);
    if Inv(s', g') {
      assert WiredAt(s', g', s.fg);
      LineageUnique(s'.procs, pid, [pid], g'[s.fg]);
      assert Counted(s', g', elder);
      var u := TermOf(g', elder);
      assert u != s.fg;
      SameLine(s, s', g, g', pid, u);
    }
  }

  lemma SameLine(s: State, s': State, g: Groups, g': Groups, pid: nat, u: nat)
    requires Inv(s, g) && Wired(s', g') && u < NUM_TERMS && u != s.fg && pid !in g[u]
    requires s'.termPids[u] == s.termPids[u] && forall p :: IsPid(p) && p != pid ==> s'.procs[p] == s.procs[p]
    ensures g'[u] == g[u]
  {
    assert WiredAt(s, g, u) && WiredAt(s', g', u);
    if g[u] != [] {
      LineageFrame(s.procs, s'.procs, s.termPids[u], g[u]);
      LineageUnique(s'.procs, s.termPids[u], g[u], g'[u]);
    }
  }

  /** Every call outside its guard breaks the invariant. */
  lemma BehindBreaks(s: State, g: Groups, step: Step, g': Groups)
    requires Inv(s, g) && Enabled(s, g, step) && !Guard(s, g, step) && !step.Poke?
    ensures Next(s, g, step).Some? && !Inv(Next(s, g, step).value, g')
  {
    match step
    case Vidmap(pid) => VidmapBehind(s, g, pid, g');
    case Exec(parent, start) =>
      if start.Started? {
        ExecBehind(s, g, parent, start, g');
      } else {
        FailedBreaks(Begin(s, start, parent), g');
      }
    case Spawn(start) =>
      if start.Started? {
        SpawnOnTop(s, g, start.pid, g');
      } else {
        FailedBreaks(Begin(s, start, 0), g');
      }
    case Exit(pid) =>
      var s', t := Next(s, g, step).value, TermOf(g, pid);
      assert WiredAt(s, g, t) && TermOk(s, g, t);
      if Wired(s', g') {
        assert WiredAt(s', g', t);
        assert !TermOk(s', g', t);
      }
    case Switch(n, start, dir) => FailedSwitch(s, g, n, start, dir, g');
    case _ =>
  }

  lemma FailedSwitch(s: State, g: Groups, n: nat, start: Start, dir: nat, g': Groups)
    requires Inv(s, g) && Enabled(s, g, Switch(n, start, dir)) && start.Failed? && n != s.fg && g[n] == []
    ensures var r := Next(s, g, Switch(n, start, dir)); r.Some? && !Inv(r.value, g')
  {
    HalfSwitched(s, g, n);
    assert WiredAt(s, g, s.fg) && WiredAt(s, g, n);
    var s1 := (if s.termPids[s.fg] < 0 then s else ToFake(s, g[s.fg]).value).(fg := n);
    FailedBreaks(Begin(s1, start, 0), g');
  }

  // ---------- sessions ----------

  predicate Moves(s: State, g: Groups, step: Step, s': State, g': Groups) {
    Wired(s, g) && Enabled(s, g, step) && Next(s, g, step) == Some(s') && g' == NextGroups(s, g, step)
  }

  predicate Session(states: seq<State>, groups: seq<Groups>, steps: seq<Step>) {
    && |states| == |groups| == |steps| + 1
    && forall i :: 0 <= i < |steps| ==> Moves(states[i], groups[i], steps[i], states[i + 1], groups[i + 1])
  }

  predicate AllGuarded(states: seq<State>, groups: seq<Groups>, steps: seq<Step>)
    requires Session(states, groups, steps)
  {
    forall i :: 0 <= i < |steps| ==>
      Moves(states[i], groups[i], steps[i], states[i + 1], groups[i + 1]) && Guard(states[i], groups[i], steps[i])
  }

  function ViewsAfter(v: Views, states: seq<State>, groups: seq<Groups>, steps: seq<Step>): Views
    requires |states| == |groups| == |steps| + 1
    decreases |steps|
  {
    if steps == [] then v
    else ViewsAfter(NextViews(v, states[0].fg, groups[0], steps[0]), states[1..], groups[1..], steps[1..])
  }

  /** In every guarded session, each terminal that has processes shows what an independent screen
      written by its processes alone would show. */
  lemma {:induction false} SessionRefines(states: seq<State>, groups: seq<Groups>, steps: seq<Step>, v: Views)
    requires Session(states, groups, steps) && AllGuarded(states, groups, steps)
    requires Inv(states[0], groups[0]) && Shows(states[0], groups[0], v)
    ensures Inv(states[|steps|], groups[|steps|])
    ensures Shows(states[|steps|], groups[|steps|], ViewsAfter(v, states, groups, steps))
    decreases |steps|
  {
    if steps != [] {
      assert Moves(states[0], groups[0], steps[0], states[1], groups[1]);
      StepRefines(states[0], groups[0], steps[0], v);
      forall i | 0 <= i < |steps[1..]|
        ensures Moves(states[1..][i], groups[1..][i], steps[1..][i], states[1..][i + 1], groups[1..][i + 1])
        ensures Guard(states[1..][i], groups[1..][i], steps[1..][i])
      {
        assert Moves(states[i + 1], groups[i + 1], steps[i + 1], states[i + 2], groups[i + 2]);
      }
      SessionRefines(states[1..], groups[1..], steps[1..], NextViews(v, states[0].fg, groups[0], steps[0]));
    }
  }

  lemma {:induction false} GoodAt(states: seq<State>, groups: seq<Groups>, steps: seq<Step>, n: nat)
    requires Session(states, groups, steps) && AllGuarded(states, groups, steps) && Inv(states[0], groups[0])
    requires n <= |steps|
    ensures Inv(states[n], groups[n])
    decreases n
  {
    if n > 0 {
      GoodAt(states, groups, steps, n - 1);
      var s, g, step := states[n - 1], groups[n - 1], steps[n - 1];
      assert Moves(s, g, step, states[n], groups[n]) && Guard(s, g, step);
      StepRefines(s, g, step, ViewsOf(s));
    }
  }

  /** After `term_init_global_ctx` and `install_pages`, before the first shell. */
  predicate Booted(s: State, g: Groups) {
    && Sized(s) && s.fg == 0 && Unmapped(s.config) && s.live == {}
    && forall t :: 0 <= t < NUM_TERMS ==> s.termPids[t] == -1 && s.pointers[t] && g[t] == []
  }

  /** No directory has a window yet. */
  predicate Unmapped(c: Config)
    requires Proper(c)
  {
    && (forall p :: 0 <= p <= MAX_PROCESSES ==> c.fakeDir[p].None? && c.userDir[p].None?)
    && forall t :: 0 <= t < NUM_TERMS ==> c.fake[t].None? && c.user[t].None?
  }

  lemma FreshIsGood(s: State, g: Groups)
    requires Booted(s, g)
    ensures Inv(s, g)
  {
    forall t | 0 <= t < NUM_TERMS ensures WiredAt(s, g, t) && TermOk(s, g, t) {
    }
    forall p: nat ensures Counted(s, g, p) {
    }
  }

  /** The boot shell takes the foreground terminal, with the boot messages still on its screen. */
  lemma BootShell(s: State, g: Groups, pid: nat)
    requires Booted(s, g) && IsPid(pid)
    ensures Inv(s, g) && Enabled(s, g, Spawn(Started(pid))) && Guard(s, g, Spawn(Started(pid)))
    ensures var s' := Next(s, g, Spawn(Started(pid))).value;
            Inv(s', [[pid], [], [], []]) && Shown(s', 0) == s.video
  {
    FreshIsGood(s, g);
    ExecKeeps(s, g, Spawn(Started(pid)));
    assert g[0 := [pid]] == [[pid], [], [], []];
  }

  /** From boot on, every guarded session shows four independent screens. */
  lemma BootRefines(states: seq<State>, groups: seq<Groups>, steps: seq<Step>, v: Views)
    requires Session(states, groups, steps) && AllGuarded(states, groups, steps) && Booted(states[0], groups[0])
    requires Shows(states[0], groups[0], v)
    ensures Inv(states[|steps|], groups[|steps|])
    ensures Shows(states[|steps|], groups[|steps|], ViewsAfter(v, states, groups, steps))
  {
    FreshIsGood(states[0], groups[0]);
    SessionRefines(states, groups, steps, v);
  }
}
