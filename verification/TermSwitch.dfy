/** Terminal switching as the source runs it: loops up the parent pointers that remap one process
    after the other, and the copies between the screen memories. */
module TermSwitch {
  import opened Limits
  import opened Paging
  import opened Multiplex

  class Terminals {
    var fg: nat
    var termPids: seq<int>
    var procs: seq<Proc>
    var pointers: seq<bool>
    var config: Config
    var video: Contents
    var fakes: seq<Contents>
    var live: set<nat>

    ghost function View(): State
      reads this
    {
      State(fg, termPids, procs, pointers, config, video, fakes, live)
    }

    /** `get_term_ctx`: the terminal of the root of a process's line of parents, `c`. */
    method GetTermCtx(pid: nat, ghost c: seq<nat>) returns (t: nat)
      requires Sized(View()) && Lineage(procs, pid, c)
      ensures t == procs[Root(c)].term
    {
      var p := pid;
      ghost var k := 0;
      while procs[p].parent != 0
        invariant 0 <= k < |c| && Lineage(procs, p, c[k..])
        decreases |c| - k
      {
        assert c[k..][1..] == c[k + 1..];
        p := procs[p].parent;
        k := k + 1;
      }
      t := procs[p].term;
    }

    /** The loop of both switch functions: remap a process, its parent, and so on. */
    method RemapUpwards(pid: nat, t: nat, b: Buffer, ghost c: seq<nat>) returns (last: nat)
      requires Sized(View()) && Lineage(procs, pid, c) && t < NUM_TERMS && GoodBuffer(b)
      modifies `config
      ensures Sized(View()) && config == RemapAll(old(config), procs, c, t, b) && last == Root(c)
    {
      var p := pid;
      last := pid;
      ghost var k := 0;
      assert c[0..] == c;
      while p != 0
        invariant 0 <= k <= |c| && Sized(View()) && (if k < |c| then Lineage(procs, p, c[k..]) else p == 0)
        invariant RemapAll(config, procs, c[k..], t, b) == RemapAll(old(config), procs, c, t, b)
        invariant k > 0 ==> last == c[k - 1]
        decreases |c| - k
      {
        assert c[k..][1..] == c[k + 1..];
        config := MapFake(config, p, t, b);
        if procs[p].hasVideo {
          config := MapUser(config, p, t, b);
        }
        last, p := p, procs[p].parent;
        k := k + 1;
      }
    }

    /** `switch_to_fake_video_memory`; false is a page fault. */
    method SwitchToFake(pid: nat, ghost c: seq<nat>) returns (ok: bool)
      requires Sized(View()) && Lineage(procs, pid, c) && procs[Root(c)].term < NUM_TERMS
      modifies `config, `pointers, `fakes, `video
      ensures ok <==> ToFake(old(View()), c).Some?
      ensures ok ==> View() == ToFake(old(View()), c).value
    {
      var t := GetTermCtx(pid, c);
      var root := RemapUpwards(pid, t, Fake(t), c);
      pointers := pointers[t := false];
      // `screen_save`, with the directory of the last process in the loop
      var b := Behind(config, root, AtFake(t));
      if b.None? {
        return false;
      }
      Store(b.value, video);
      return true;
    }

    method Store(b: Buffer, c: Contents)
      requires Sized(View()) && GoodBuffer(b)
      modifies `video, `fakes
      ensures View() == Put(old(View()), b, c)
    {
      match b
      case Real => video := c;
      case Fake(t) => fakes := fakes[t := c];
    }

    method Fetch(b: Buffer) returns (c: Contents)
      requires Sized(View()) && GoodBuffer(b)
      ensures c == Get(View(), b)
    {
      match b
      case Real => c := video;
      case Fake(t) => c := fakes[t];
    }

    /** `switch_from_fake_video_memory`; false is a page fault. */
    method SwitchFromFake(pid: nat, ghost c: seq<nat>) returns (ok: bool)
      requires Sized(View()) && Lineage(procs, pid, c) && procs[Root(c)].term < NUM_TERMS
      modifies `config, `pointers, `video
      ensures ok <==> FromFake(old(View()), c).Some?
      ensures ok ==> View() == FromFake(old(View()), c).value
    {
      var t := GetTermCtx(pid, c);
      // `screen_restore`, with the directory of the process itself
      var b := Behind(config, pid, if pointers[t] then AtVideo else AtFake(t));
      if b.None? {
        return false;
      }
      video := Fetch(b.value);
      var _ := RemapUpwards(pid, t, Real, c);
      pointers := pointers[t := true];
      return true;
    }

    /** The part of `sys_exec_internal` for a root that concerns terminals: `term_open`, and the
        pid, which a failed load gives back. */
    method StartRoot(start: Start)
      requires Sized(View()) && (start.Refused? || IsPid(start.pid))
      modifies `procs, `termPids, `live
      ensures View() == Begin(old(View()), start, 0)
    {
      if start.Refused? {
        return;
      }
      procs := procs[start.pid := Proc(0, fg, false)];
      termPids := termPids[fg := start.pid];
      if start.Started? {
        live := live + {start.pid};
      }
    }

    /** `switch_terminals`.  `start` is what becomes of the shell it spawns on an empty terminal,
        `dir` the directory loaded when it runs. */
    method SwitchTerminals(n: nat, start: Start, dir: nat, ghost g: Groups) returns (ok: bool)
      requires Wired(View(), g) && n < NUM_TERMS && dir <= MAX_PROCESSES && (start.Refused? || IsPid(start.pid))
      modifies this
      ensures ok <==> SwitchStep(old(View()), g, n, start, dir).Some?
      ensures ok ==> View() == SwitchStep(old(View()), g, n, start, dir).value
    {
      hide ToFake, FromFake, Lineage;
      if n == fg {
        return true;
      }
      assert WiredAt(View(), g, fg) && WiredAt(View(), g, n);
      ok := true;
      if termPids[fg] >= 0 {
        ok := SwitchToFake(termPids[fg], g[fg]);
        if !ok {
          return;
        }
      }
      fg := n;
      if termPids[n] >= 0 {
        ok := SwitchFromFake(termPids[n], g[n]);
      } else {
        StartRoot(start);
        if start.Started? {
          ok := ClearScreen(n, dir);
        }
      }
    }

    /** `screen_clear` on a terminal's screen. */
    method ClearScreen(t: nat, dir: nat) returns (ok: bool)
      requires Sized(View()) && t < NUM_TERMS && dir <= MAX_PROCESSES
      modifies `video, `fakes
      ensures ok <==> Behind(config, dir, Pointed(old(View()), t)).Some?
      ensures ok ==>
                var b := Behind(config, dir, Pointed(old(View()), t)).value;
                View() == Put(old(View()), b, Clear(Get(old(View()), b)))
    {
      var b := Behind(config, dir, if pointers[t] then AtVideo else AtFake(t));
      if b.None? {
        return false;
      }
      var c := Fetch(b.value);
      for i := 0 to VISIBLE / 2
        invariant |c| == SIZE_64K && c[2 * i..] == Get(View(), b.value)[2 * i..] && c[..2 * i] == BlankBytes()[..2 * i]
      {
        c := c[2 * i := 32][2 * i + 1 := 7];
      }
      assert c == Clear(Get(View(), b.value));
      Store(b.value, c);
      return true;
    }
  }
}
