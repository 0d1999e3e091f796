/** The four terminals' buffers as bytes of physical memory: a store through a window of the page
    tables is the store into the buffer, and copying a screen is copying its bytes. */
module VideoMemory {
  import opened Limits
  import opened Bytes
  import opened Paging
  import opened Multiplex
  import Screens

  /** Physical memory, a byte at every address. */
  type Physical = nat -> byte

  /** The screen memories hold what the state says. */
  ghost predicate Holding(mem: Physical, s: State)
    requires Sized(s)
  {
    forall b: Buffer, k: nat {:trigger Held(mem, s, b, k)} :: GoodBuffer(b) && k < SIZE_64K ==> Held(mem, s, b, k)
  }

  predicate Held(mem: Physical, s: State, b: Buffer, k: nat)
    requires Sized(s) && GoodBuffer(b) && k < SIZE_64K
  {
    mem(Base(b) + k) == Get(s, b)[k]
  }

  function Stored(mem: Physical, a: nat, x: byte): Physical {
    (i: nat) => if i == a then x else mem(i)
  }

  lemma PutInMemory(mem: Physical, s: State, buf: Buffer, at: nat, x: byte)
    requires Sized(s) && Holding(mem, s) && GoodBuffer(buf) && at < SIZE_64K
    ensures Holding(Stored(mem, Base(buf) + at, x), Put(s, buf, Get(s, buf)[at := x]))
  {
    var s', mem' := Put(s, buf, Get(s, buf)[at := x]), Stored(mem, Base(buf) + at, x);
    forall b: Buffer, k: nat | GoodBuffer(b) && k < SIZE_64K ensures Held(mem', s', b, k) {
      assert Held(mem, s, b, k);
      BuffersApart(b, buf, k, at);
    }
  }

  /** A store through a window changes the byte of memory that the page walk finds, and memory then
      holds exactly the state after the step. */
  lemma StoreInMemory(mem: Physical, s: State, frames: seq<nat>, pid: nat, w: Window, at: nat, x: byte)
    requires Sized(s) && Holding(mem, s) && Frames(frames) && pid <= MAX_PROCESSES && at < SIZE_64K
    requires (w.AtFake? ==> w.term < NUM_TERMS) && StoreAt(s, pid, w, at, x).Some?
    ensures var hit := Walk(Build(s.config, frames), frames, pid, Address(w) + at);
            && hit.Some? && hit.value.write
            && Holding(Stored(mem, hit.value.phys, x), StoreAt(s, pid, w, at, x).value)
  {
    BehindIsWalk(s.config, frames, pid, w, at);
    PutInMemory(mem, s, Behind(s.config, pid, w).value, at, x);
    hide Walk, Build, Holding;
  }

  /** `memcpy` of a whole screen memory. */
  function Copied(mem: Physical, from: nat, to: nat): Physical {
    (i: nat) => if Within(i, to, SIZE_64K) then mem(from + (i - to)) else mem(i)
  }

  /** Saving or restoring a screen overwrites its own destination and no other buffer. */
  lemma CopyInMemory(mem: Physical, s: State, from: Buffer, to: Buffer)
    requires Sized(s) && Holding(mem, s) && GoodBuffer(from) && GoodBuffer(to)
    ensures Holding(Copied(mem, Base(from), Base(to)), Put(s, to, Get(s, from)))
  {
    var s', mem' := Put(s, to, Get(s, from)), Copied(mem, Base(from), Base(to));
    forall b: Buffer, k: nat | GoodBuffer(b) && k < SIZE_64K ensures Held(mem', s', b, k) {
      assert Held(mem, s, b, k);
      if b == to {
        assert Held(mem, s, from, k);
      } else if Within(Base(b) + k, Base(to), SIZE_64K) {
        BuffersApart(b, to, k, Base(b) + k - Base(to));
      }
    }
  }

  /** A cleared video memory is a screen of blank cells, whatever it held. */
  lemma ClearIsBlank(c: Contents)
    ensures |Clear(c)| >= 2 * Screens.SIZE && VISIBLE == 2 * Screens.SIZE
    ensures Screens.Cells(Clear(c)) == Screens.Blanks(Screens.SIZE) && Clear(c)[VISIBLE..] == c[VISIBLE..]
  {
  }
}
