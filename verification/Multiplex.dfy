/** Four terminals on one video memory.  The foreground terminal's screen is VIDEO; every other
    terminal draws into a fake video memory, which the page tables of its processes and the
    terminal's screen pointer both lead to.  A switch copies the screens and remaps every process
    of the two terminals (term.c, paging.c, vga.c). */
module Multiplex {
  import opened Limits
  import opened Options
  import opened Bytes
  import opened Paging

  /** The 4000 bytes of a 64 KB video memory that are visible. */
  const VISIBLE := 4000

  type Contents = c: seq<byte> | |c| == SIZE_64K witness seq(SIZE_64K, _ => 0)

  /** The fields of a PCB that matter here; `term` is the terminal of a root process. */
  datatype Proc = Proc(parent: nat, term: nat, hasVideo: bool)

  /** `pointers[t]` tells whether `term_terms[t].screen.video` is VIDEO rather than the terminal's
      fake video memory; `live` is the set of bits of `proc_bitmap`. */
  datatype State = State(
    fg: nat, termPids: seq<int>, procs: seq<Proc>, pointers: seq<bool>,
    config: Config, video: Contents, fakes: seq<Contents>, live: set<nat>)

  predicate Sized(s: State) {
    && s.fg < NUM_TERMS && |s.termPids| == |s.pointers| == |s.fakes| == NUM_TERMS
    && |s.procs| == MAX_PROCESSES + 1 && Proper(s.config)
  }

  // ---------- memory ----------

  function Get(s: State, b: Buffer): Contents
    requires Sized(s) && GoodBuffer(b)
  {
    match b
    case Real => s.video
    case Fake(t) => s.fakes[t]
  }

  function Put(s: State, b: Buffer, c: Contents): (s': State)
    requires Sized(s) && GoodBuffer(b)
    ensures Sized(s')
  {
    match b
    case Real => s.(video := c)
    case Fake(t) => s.(fakes := s.fakes[t := c])
  }

  /** The three kinds of 64 KB windows through which screens are written. */
  datatype Window = AtVideo | AtFake(term: nat) | AtUserVid

  function Address(w: Window): nat {
    match w
    case AtVideo => VIDEO
    case AtFake(t) => FAKE_MEM + t * SIZE_64K
    case AtUserVid => USER_VID
  }

  /** The buffer behind a window under the directory of `pid`. */
  function Behind(c: Config, pid: nat, w: Window): (b: Option<Buffer>)
    requires Proper(c) && pid <= MAX_PROCESSES
    ensures b.Some? ==> GoodBuffer(b.value)
  {
    match w
    case AtVideo => Some(Real)
    case AtFake(t) => if c.fakeDir[pid] == Some(t) then c.fake[t] else None
    case AtUserVid => if c.userDir[pid].Some? then c.user[c.userDir[pid].value] else None
  }

  /** That is what the page tables do with all of the window's addresses. */
  lemma BehindIsWalk(c: Config, frames: seq<nat>, pid: nat, w: Window, k: nat)
    requires Proper(c) && Frames(frames) && pid <= MAX_PROCESSES && k < SIZE_64K && (w.AtFake? ==> w.term < NUM_TERMS)
    ensures Walk(Build(c, frames), frames, pid, Address(w) + k) ==
            match Behind(c, pid, w)
            case None => None
            case Some(b) => Some(Hit(Base(b) + k, !w.AtVideo?, true))
  {
    hide Walk, Build;
    WalkIsMap(c, frames, pid, Address(w) + k);
  }

  /** Two windows lead to the same physical byte only if they show the same place of the same
      buffer, so that the buffers can be told apart by what is stored in them. */
  lemma WindowsApart(c: Config, frames: seq<nat>, p: nat, q: nat, w: Window, x: Window, k: nat, j: nat)
    requires Proper(c) && Frames(frames) && p <= MAX_PROCESSES && q <= MAX_PROCESSES && k < SIZE_64K && j < SIZE_64K
    requires (w.AtFake? ==> w.term < NUM_TERMS) && (x.AtFake? ==> x.term < NUM_TERMS)
    requires Behind(c, p, w).Some? && Behind(c, q, x).Some?
    ensures var h := Walk(Build(c, frames), frames, p, Address(w) + k);
            var i := Walk(Build(c, frames), frames, q, Address(x) + j);
            && h.Some? && i.Some?
            && (h.value.phys == i.value.phys <==> Behind(c, p, w) == Behind(c, q, x) && k == j)
  {
    BehindIsWalk(c, frames, p, w, k);
    BehindIsWalk(c, frames, q, x, j);
    hide Walk, Build;
    BuffersApart(Behind(c, p, w).value, Behind(c, q, x).value, k, j);
  }

  // ---------- the source ----------

  /** The window a terminal's screen pointer names. */
  function Pointed(s: State, t: nat): Window
    requires Sized(s) && t < NUM_TERMS
  {
    if s.pointers[t] then AtVideo else AtFake(t)
  }

  /** `c` is the process `pid` followed by its parent, its parent's parent, up to a root. */
  predicate Lineage(procs: seq<Proc>, pid: int, c: seq<nat>)
    requires |procs| == MAX_PROCESSES + 1
    ensures Lineage(procs, pid, c) ==> c != [] && c[0] == pid && forall i :: 0 <= i < |c| ==> IsPid(c[i])
    decreases |c|
  {
    && c != [] && c[0] == pid && IsPid(pid)
    && if |c| == 1 then procs[pid].parent == 0
       else procs[pid].parent == c[1] && Lineage(procs, c[1], c[1..])
  }

  lemma {:induction false} LineageFrame(procs: seq<Proc>, procs': seq<Proc>, pid: int, c: seq<nat>)
    requires |procs| == |procs'| == MAX_PROCESSES + 1 && Lineage(procs, pid, c)
    requires forall p :: p in c && IsPid(p) ==> procs'[p].parent == procs[p].parent
    ensures Lineage(procs', pid, c)
    decreases |c|
  {
    if |c| > 1 {
      LineageFrame(procs, procs', c[1], c[1..]);
    }
  }

  function Root(c: seq<nat>): nat
    requires c != []
  {
    c[|c| - 1]
  }

  /** The loop over a terminal's processes in the two switch functions. */
  function RemapAll(g: Config, procs: seq<Proc>, c: seq<nat>, t: nat, b: Buffer): (g': Config)
    requires Proper(g) && |procs| == MAX_PROCESSES + 1 && t < NUM_TERMS && GoodBuffer(b)
    requires forall i :: 0 <= i < |c| ==> IsPid(c[i])
    ensures Proper(g')
    decreases |c|
  {
    if c == [] then g else
      assert IsPid(c[0]);
      var g1 := MapFake(g, c[0], t, b);
      RemapAll(if procs[c[0]].hasVideo then MapUser(g1, c[0], t, b) else g1, procs, c[1..], t, b)
  }

  /** The calls of `map_video_mem` that this loop makes. */
  function Windows(procs: seq<Proc>, c: seq<nat>, t: nat, b: Buffer): (rs: seq<Remap>)
    requires |procs| == MAX_PROCESSES + 1 && t < NUM_TERMS && GoodBuffer(b)
    requires forall i :: 0 <= i < |c| ==> IsPid(c[i])
    ensures forall i :: 0 <= i < |rs| ==> Possible(rs[i])
    decreases |c|
  {
    if c == [] then [] else
      assert IsPid(c[0]);
      [FakeWindow(c[0], t, b)] + ((if procs[c[0]].hasVideo then [UserWindow(c[0], t, b)] else [])
      + Windows(procs, c[1..], t, b))
  }

  /** On the page tables they do what the loop does to the configuration. */
  lemma {:induction false} ChainRemapped(g: Config, frames: seq<nat>, procs: seq<Proc>, c: seq<nat>, t: nat, b: Buffer)
    requires Proper(g) && Frames(frames) && |procs| == MAX_PROCESSES + 1 && t < NUM_TERMS && GoodBuffer(b)
    requires forall i :: 0 <= i < |c| ==> IsPid(c[i])
    ensures Remapped(Build(g, frames), frames, Windows(procs, c, t, b)) == Build(RemapAll(g, procs, c, t, b), frames)
    decreases |c|
  {
    if c != [] {
      var p, rest := c[0], Windows(procs, c[1..], t, b);
      assert IsPid(p);
      hide Build, RemapOne;
      FirstWindow(g, frames, FakeWindow(p, t, b),
                  (if procs[p].hasVideo then [UserWindow(p, t, b)] else []) + rest);
      if procs[p].hasVideo {
        FirstWindow(MapFake(g, p, t, b), frames, UserWindow(p, t, b), rest);
        ChainRemapped(MapUser(MapFake(g, p, t, b), p, t, b), frames, procs, c[1..], t, b);
      } else {
        ChainRemapped(MapFake(g, p, t, b), frames, procs, c[1..], t, b);
        assert [] + rest == rest;
      }
    }
  }

  lemma FirstWindow(g: Config, frames: seq<nat>, r: Remap, rest: seq<Remap>)
    requires Proper(g) && Frames(frames) && Possible(r) && forall i :: 0 <= i < |rest| ==> Possible(rest[i])
    ensures Remapped(Build(g, frames), frames, [r] + rest) == Remapped(Build(Configured(g, r), frames), frames, rest)
  {
    OneRemapped(g, frames, r);
    assert ([r] + rest)[1..] == rest;
  }

  /** `switch_to_fake_video_memory` on the processes `c`; None is a page fault. */
  function ToFake(s: State, c: seq<nat>): (r: Option<State>)
    requires Sized(s) && c != [] && Lineage(s.procs, c[0], c) && s.procs[Root(c)].term < NUM_TERMS
    ensures r.Some? ==> Sized(r.value)
  {
    var t := s.procs[Root(c)].term;
    var s1 := s.(config := RemapAll(s.config, s.procs, c, t, Fake(t)), pointers := s.pointers[t := false]);
    // `screen_save`, under the root's directory
    match Behind(s1.config, Root(c), Pointed(s1, t))
    case None => None
    case Some(b) => Some(Put(s1, b, s1.video))
  }

  /** `switch_from_fake_video_memory` */
  function FromFake(s: State, c: seq<nat>): (r: Option<State>)
    requires Sized(s) && c != [] && Lineage(s.procs, c[0], c) && s.procs[Root(c)].term < NUM_TERMS
    ensures r.Some? ==> Sized(r.value)
  {
    var t := s.procs[Root(c)].term;
    // `screen_restore`, under the directory of the process itself
    match Behind(s.config, c[0], Pointed(s, t))
    case None => None
    case Some(b) =>
      Some(s.(video := Get(s, b), config := RemapAll(s.config, s.procs, c, t, Real), pointers := s.pointers[t := true]))
  }

  /** `screen_clear` on a video memory. */
  function Clear(c: Contents): Contents {
    BlankBytes() + c[VISIBLE..]
  }

  function BlankBytes(): seq<byte> {
    seq(VISIBLE, i => if i % 2 == 0 then 32 else 7)
  }

  /** The processes of the four terminals, each terminal's newest first. */
  type Groups = g: seq<seq<nat>> | |g| == NUM_TERMS witness [[], [], [], []]

  /** What becomes of a program: it is not found or there is no pid, it does not load once its PCB
      is set up, or it runs. */
  datatype Start = Refused | Failed(pid: nat) | Started(pid: nat)

  /** A write through the screen pointer of a terminal, under the directory of `pid`; a store by user
      code through a window that its directory opens; and the calls that change processes or
      terminals.  A root is spawned by the boot code, by the scheduler's rescue, or by a switch to an
      empty terminal, where `dir` is the directory loaded. */
  datatype Step =
    | Print(term: nat, pid: nat, at: nat, b: byte)
    | Poke(pid: nat, window: Window, at: nat, b: byte)
    | Vidmap(pid: nat)
    | Exec(parent: nat, start: Start)
    | Spawn(start: Start)
    | Exit(pid: nat)
    | Switch(term: nat, start: Start, dir: nat)

  function StoreAt(s: State, pid: nat, w: Window, at: nat, b: byte): (r: Option<State>)
    requires Sized(s) && pid <= MAX_PROCESSES && at < SIZE_64K
    ensures r.Some? ==> Sized(r.value)
  {
    match Behind(s.config, pid, w)
    case None => None
    case Some(buf) => Some(Put(s, buf, Get(s, buf)[at := b]))
  }

  /** `term_pids` and the parent pointers describe the groups `g`. */
  predicate Wired(s: State, g: Groups) {
    Sized(s) && forall t :: 0 <= t < NUM_TERMS ==> WiredAt(s, g, t)
  }

  predicate WiredAt(s: State, g: Groups, t: nat)
    requires Sized(s) && t < NUM_TERMS
  {
    if g[t] == [] then s.termPids[t] < 0
    else Lineage(s.procs, s.termPids[t], g[t]) && s.procs[Root(g[t])].term == t
  }

  /** The terminal a process belongs to: `get_term_ctx` follows the parents to the root. */
  function TermOf(g: Groups, pid: nat): (t: nat)
    ensures t <= NUM_TERMS
    ensures t < NUM_TERMS ==> pid in g[t]
  {
    if pid in g[0] then 0
    else if pid in g[1] then 1
    else if pid in g[2] then 2
    else if pid in g[3] then 3
    else NUM_TERMS
  }

  predicate Enabled(s: State, g: Groups, step: Step)
    requires Sized(s)
  {
    match step
    // the keyboard's echo and the kernel's messages go to the foreground whoever runs
    case Print(t, pid, at, _) =>
      t < NUM_TERMS && pid <= MAX_PROCESSES && (pid in g[t] || t == s.fg) && at < SIZE_64K
    // a store through a closed window is a page fault, and the end of the process
    case Poke(pid, w, at, _) =>
      TermOf(g, pid) < NUM_TERMS && IsPid(pid) && ForUsers(w) && Behind(s.config, pid, w).Some? && at < SIZE_64K
    case Vidmap(pid) => TermOf(g, pid) < NUM_TERMS && IsPid(pid)
    case Exec(parent, start) =>
      TermOf(g, parent) < NUM_TERMS && IsPid(parent) && g[TermOf(g, parent)][0] == parent && Startable(s, start)
    case Spawn(start) => Startable(s, start)
    case Exit(pid) => TermOf(g, pid) < NUM_TERMS && g[TermOf(g, pid)][0] == pid
    case Switch(t, start, dir) => t < NUM_TERMS && dir <= MAX_PROCESSES && Startable(s, start)
  }

  /** A window that user code may use; VIDEO itself is the kernel's. */
  predicate ForUsers(w: Window) {
    !w.AtVideo? && (w.AtFake? ==> w.term < NUM_TERMS)
  }

  /** The pid is one the allocator can give out. */
  predicate Startable(s: State, start: Start) {
    start.Refused? || (IsPid(start.pid) && start.pid !in s.live)
  }

  /** The calls that the source attributes to the foreground terminal whoever makes them, and the
      exit of a terminal's last process, happen in the foreground; no root is spawned on top of
      other processes; no program fails to load once its terminal is open; and user code stores
      through windows that lead to its own terminal's screen. */
  predicate Guard(s: State, g: Groups, step: Step)
    requires Sized(s) && Enabled(s, g, step)
  {
    match step
    case Poke(pid, w, _, _) => Behind(s.config, pid, w) == Some(Screen(s, TermOf(g, pid)))
    case Vidmap(pid) => TermOf(g, pid) == s.fg
    case Exec(parent, start) => start.Refused? || (start.Started? && TermOf(g, parent) == s.fg)
    case Spawn(start) => start.Refused? || (start.Started? && g[s.fg] == [])
    case Exit(pid) => |g[TermOf(g, pid)]| > 1 || TermOf(g, pid) == s.fg
    case Switch(t, start, _) => start.Failed? ==> t == s.fg || g[t] != []
    case _ => true
  }

  /** What `sys_exec_internal` does here: `term_open` records the new process under the foreground
      terminal, and a load that then fails takes back the pid only.  A root has no parent. */
  function Begin(s: State, start: Start, parent: nat): (s': State)
    requires Sized(s) && (start.Refused? || IsPid(start.pid))
    ensures Sized(s')
  {
    if start.Refused? then s else
      s.(procs := s.procs[start.pid := Proc(parent, if parent == 0 then s.fg else 0, false)],
         termPids := s.termPids[s.fg := start.pid],
         live := if start.Started? then s.live + {start.pid} else s.live)
  }

  /** `switch_terminals` */
  function SwitchStep(s: State, g: Groups, n: nat, start: Start, dir: nat): (r: Option<State>)
    requires Wired(s, g) && n < NUM_TERMS && dir <= MAX_PROCESSES && (start.Refused? || IsPid(start.pid))
    ensures r.Some? ==> Sized(r.value)
  {
    if n == s.fg then Some(s) else
      assert WiredAt(s, g, s.fg) && WiredAt(s, g, n);
      match (if s.termPids[s.fg] < 0 then Some(s) else ToFake(s, g[s.fg]))
      case None => None
      case Some(s0) =>
        var s1 := s0.(fg := n);
        if s1.termPids[n] >= 0 then FromFake(s1, g[n])
        else
          var s2 := Begin(s1, start, 0);
          if !start.Started? then Some(s2) else
          match Behind(s2.config, dir, Pointed(s2, n))
          case None => None
          case Some(b) => Some(Put(s2, b, Clear(Get(s2, b))))
  }

  function Next(s: State, g: Groups, step: Step): (r: Option<State>)
    requires Wired(s, g) && Enabled(s, g, step)
    ensures r.Some? ==> Sized(r.value)
  {
    match step
    case Print(t, pid, at, b) =>
      assert WiredAt(s, g, t);
      StoreAt(s, pid, Pointed(s, t), at, b)
    case Poke(pid, w, at, b) => StoreAt(s, pid, w, at, b)
    case Vidmap(pid) =>
      // `sys_vidmap` takes the foreground terminal's table
      Some(s.(config := MapUser(s.config, pid, s.fg, Real), procs := s.procs[pid := s.procs[pid].(hasVideo := true)]))
    case Exec(parent, start) => Some(Begin(s, start, parent))
    case Spawn(start) => Some(Begin(s, start, 0))
    case Exit(pid) =>
      var t := TermOf(g, pid);
      assert WiredAt(s, g, t);
      Some(s.(termPids := s.termPids[t := if s.procs[pid].parent == 0 then -1 else s.procs[pid].parent],
              live := s.live - {pid}))
    case Switch(t, start, dir) => SwitchStep(s, g, t, start, dir)
  }

  function NextGroups(s: State, g: Groups, step: Step): Groups
    requires Wired(s, g) && Enabled(s, g, step)
  {
    match step
    case Exec(parent, start) => if start.Started? then g[s.fg := [start.pid] + g[s.fg]] else g
    case Spawn(start) => if start.Started? then g[s.fg := [start.pid]] else g
    case Exit(pid) => g[TermOf(g, pid) := g[TermOf(g, pid)][1..]]
    case Switch(t, start, _) => if t != s.fg && g[t] == [] && start.Started? then g[t := [start.pid]] else g
    case _ => g
  }

  // ---------- the invariant ----------

  predicate Disjoint(g: Groups) {
    forall t, u :: 0 <= t < u < NUM_TERMS ==> forall p :: p in g[t] ==> p !in g[u]
  }

  /** The buffer that holds a terminal's screen. */
  function Screen(s: State, t: nat): Buffer {
    if t == s.fg then Real else Fake(t)
  }

  /** Both ways a process of terminal `t` has to its screen lead there. */
  predicate Mapped(s: State, t: nat, p: nat)
    requires Sized(s) && t < NUM_TERMS
  {
    && IsPid(p)
    && (t != s.fg ==> s.config.fakeDir[p] == Some(t) && s.config.fake[t] == Some(Fake(t)))
    && (s.procs[p].hasVideo ==> s.config.userDir[p] == Some(t) && s.config.user[t] == Some(Screen(s, t)))
  }

  predicate TermOk(s: State, g: Groups, t: nat)
    requires Sized(s) && t < NUM_TERMS && WiredAt(s, g, t)
  {
    && (s.pointers[t] <==> t == s.fg || g[t] == [])
    && forall p {:trigger Mapped(s, t, p)} :: p in g[t] ==> Mapped(s, t, p)
  }

  /** The live processes are those of the four terminals. */
  predicate Counted(s: State, g: Groups, p: nat) {
    p in s.live <==> TermOf(g, p) < NUM_TERMS
  }

  ghost predicate Inv(s: State, g: Groups) {
    && Wired(s, g) && Disjoint(g)
    && (forall p: nat {:trigger Counted(s, g, p)} :: Counted(s, g, p))
    && forall t {:trigger TermOk(s, g, t)} :: 0 <= t < NUM_TERMS ==> TermOk(s, g, t)
  }
}
