/** What vidmap promises a program (syscall_impl.c, paging.c): from the call until it exits it has a
    window onto its own terminal's screen, wherever that screen is. */
module VideoWindows {
  import opened Limits
  import opened Options
  import opened Paging
  import opened Multiplex
  import opened MultiplexProofs
  import opened MultiplexRuns

  /** The process `p` has asked for the user window, and it shows its own terminal's screen. */
  predicate HasWindow(s: State, g: Groups, p: nat) {
    && Sized(s) && IsPid(p) && TermOf(g, p) < NUM_TERMS && s.procs[p].hasVideo
    && Behind(s.config, p, AtUserVid) == Some(Screen(s, TermOf(g, p)))
  }

  /** Remapping works on the page tables, not on the marks. */
  lemma SwitchKeepsMark(s: State, g: Groups, term: nat, start: Start, dir: nat, p: nat)
    requires Inv(s, g) && Enabled(s, g, Switch(term, start, dir)) && Next(s, g, Switch(term, start, dir)).Some?
    requires IsPid(p) && p in s.live && s.procs[p].hasVideo
    ensures Next(s, g, Switch(term, start, dir)).value.procs[p].hasVideo
  {
    if term != s.fg {
      assert WiredAt(s, g, s.fg) && WiredAt(s, g, term);
      hide Inv, RemapAll;
    }
  }

  /** Only vidmap and the start of a process with that pid touch the mark. */
  lemma MarkStays(s: State, g: Groups, step: Step, p: nat)
    requires Inv(s, g) && Enabled(s, g, step) && Next(s, g, step).Some?
    requires IsPid(p) && p in s.live && s.procs[p].hasVideo
    ensures Next(s, g, step).value.procs[p].hasVideo
  {
    match step
    case Switch(term, start, dir) => SwitchKeepsMark(s, g, term, start, dir, p);
    case _ =>
  }

  /** A process stays where it is until it exits. */
  lemma TerminalStays(s: State, g: Groups, step: Step, p: nat)
    requires Inv(s, g) && Enabled(s, g, step) && Guard(s, g, step)
    requires TermOf(g, p) < NUM_TERMS && step != Exit(p)
    ensures TermOf(NextGroups(s, g, step), p) == TermOf(g, p)
  {
    var t, g' := TermOf(g, p), NextGroups(s, g, step);
    assert p in g'[t] by {
      if step.Exit? {
        var x := TermOf(g, step.pid);
        assert g[x] == [step.pid] + g[x][1..];
      }
    }
    forall u | 0 <= u < NUM_TERMS && u != t ensures p !in g'[u] {
      assert p !in g[u];
      assert Counted(s, g, p);
    }
  }

  lemma Marked(s: State, g: Groups, p: nat)
    requires Inv(s, g) && IsPid(p) && TermOf(g, p) < NUM_TERMS && s.procs[p].hasVideo
    ensures HasWindow(s, g, p)
  {
    var t := TermOf(g, p);
    assert TermOk(s, g, t);
    assert Mapped(s, t, p);
  }

  lemma WindowStays(s: State, g: Groups, step: Step, p: nat)
    requires Inv(s, g) && Enabled(s, g, step) && Guard(s, g, step) && HasWindow(s, g, p) && step != Exit(p)
    ensures Next(s, g, step).Some? && HasWindow(Next(s, g, step).value, NextGroups(s, g, step), p)
    ensures TermOf(NextGroups(s, g, step), p) == TermOf(g, p)
  {
    assert Counted(s, g, p);
    StepRefines(s, g, step, ViewsOf(s));
    MarkStays(s, g, step, p);
    TerminalStays(s, g, step, p);
    hide Next, NextGroups;
    Marked(Next(s, g, step).value, NextGroups(s, g, step), p);
  }

  /** In every guarded session, from its vidmap until its exit a process has a window onto its own
      terminal's screen, in the foreground and behind. */
  lemma {:induction false} WindowLasts(states: seq<State>, groups: seq<Groups>, steps: seq<Step>,
                                       p: nat, i: nat, j: nat)
    requires Session(states, groups, steps) && AllGuarded(states, groups, steps) && Inv(states[0], groups[0])
    requires i < j <= |steps| && steps[i] == Vidmap(p) && forall k :: i < k < j ==> steps[k] != Exit(p)
    ensures HasWindow(states[j], groups[j], p)
    decreases j
  {
    hide AllGuarded, Session, Inv, HasWindow, Enabled, Guard;
    StepAt(states, groups, steps, j - 1);
    if i == j - 1 {
      VidmapWindow(states[i], groups[i], p);
    } else {
      WindowLasts(states, groups, steps, p, i, j - 1);
      WindowStays(states[j - 1], groups[j - 1], steps[j - 1], p);
    }
  }

  lemma StepAt(states: seq<State>, groups: seq<Groups>, steps: seq<Step>, n: nat)
    requires Session(states, groups, steps) && AllGuarded(states, groups, steps) && Inv(states[0], groups[0])
    requires n < |steps|
    ensures |states| == |groups| == |steps| + 1 && Inv(states[n], groups[n])
    ensures Moves(states[n], groups[n], steps[n], states[n + 1], groups[n + 1])
    ensures Guard(states[n], groups[n], steps[n])
  {
    GoodAt(states, groups, steps, n);
    assert Moves(states[n], groups[n], steps[n], states[n + 1], groups[n + 1]);
  }

  lemma VidmapWindow(s: State, g: Groups, p: nat)
    requires Inv(s, g) && Enabled(s, g, Vidmap(p)) && Guard(s, g, Vidmap(p))
    ensures HasWindow(Next(s, g, Vidmap(p)).value, NextGroups(s, g, Vidmap(p)), p)
  {
    VidmapOpens(s, g, p);
  }
}
