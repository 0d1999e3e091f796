/** Two-level page tables (paging.c, paging.h; 32-bit paging, section 4.3 of the Intel SDM Volume
    3A), and the plain memory map that every table the kernel ever builds amounts to. */
module Paging {
  import opened Limits
  import opened Options

  const PAGE_SIZE := 4096
  const NUM_ENTRIES := 1024
  const SIZE_4MB := 0x400000
  const KERNEL_MEM := 0x400000
  const USER_MEM := 0x8000000
  const USER_VID := 0x88B8000
  const VIDEO := 0xB8000
  /** The fake video memories start behind the last process's page. */
  const FAKE_MEM := 0x3000000
  const SIZE_64K := 0x10000
  const NUM_TERMS := 4
  const SPACE := 0x1_0000_0000

  // ---------- tables ----------

  /** A directory or table entry by its bit fields.  `base` counts 4 MB frames in a directory
      entry for a large page, 4 KB frames otherwise. */
  datatype Entry = Entry(present: bool, user: bool, write: bool, large: bool, base: nat)

  const EMPTY := Entry(false, false, false, false, 0)

  type Table = t: seq<Entry> | |t| == NUM_ENTRIES witness seq(NUM_ENTRIES, _ => EMPTY)

  function Cleared(): Table {
    seq(NUM_ENTRIES, _ => EMPTY)
  }

  /** Page directories 0 to 10 and the nine page tables: the one for VIDEO, one per terminal for
      its fake memory, one per terminal for USER_VID. */
  datatype Tables = Tables(dirs: seq<Table>, tables: seq<Table>)

  predicate Complete(m: Tables) {
    |m.dirs| == MAX_PROCESSES + 1 && |m.tables| == 1 + 2 * NUM_TERMS
  }

  /** The 4 KB frames of the nine tables.  Where the linker put them does not matter, as long as
      they are different. */
  predicate Frames(frames: seq<nat>) {
    |frames| == 1 + 2 * NUM_TERMS && forall i, j :: 0 <= i < j < |frames| ==> frames[i] != frames[j]
  }

  function FakeTable(t: nat): nat {
    1 + t
  }

  function UserTable(t: nat): nat {
    1 + NUM_TERMS + t
  }

  // `PAGE_DIR_IDX` and `PAGE_TABLE_IDX`

  function DirIdx(a: nat): (i: nat)
    requires a < SPACE
    ensures i < NUM_ENTRIES
  {
    a / SIZE_4MB
  }

  function TableIdx(a: nat): (i: nat)
    ensures i < NUM_ENTRIES
  {
    a / PAGE_SIZE % NUM_ENTRIES
  }

  /** The masks and shifts of the index and base macros are these quotients. */
  lemma IndexMacros(a: bv32)
    ensures (a & 0x003FF000) >> 12 == a / 4096 % 1024
    ensures (a & 0xFFC00000) >> 22 == a / 0x400000
    ensures (a & 0xFFFFF000) >> 12 == a / 4096
    ensures (a & 0xFFFFF000) >> 22 == a / 0x400000
  {
  }

  // ---------- the page walk ----------

  /** A physical address, whether user code may use it, and whether it may be written. */
  datatype Hit = Hit(phys: nat, user: bool, write: bool)

  /** The table a directory entry points at. */
  function TableOf(frames: seq<nat>, base: nat, k: nat): (r: Option<nat>)
    requires k <= |frames|
    ensures r.Some? ==> r.value < |frames| && frames[r.value] == base
    ensures r.None? ==> base !in frames[k..]
    decreases |frames| - k
  {
    if k == |frames| then None else if frames[k] == base then Some(k) else TableOf(frames, base, k + 1)
  }

  /** What the processor makes of an address under the directory of `pid`. */
  function Walk(m: Tables, frames: seq<nat>, pid: nat, a: nat): Option<Hit>
    requires Complete(m) && Frames(frames) && pid <= MAX_PROCESSES && a < SPACE
  {
    var pde := m.dirs[pid][DirIdx(a)];
    if !pde.present then None
    else if pde.large then Some(Hit(pde.base * SIZE_4MB + a % SIZE_4MB, pde.user, pde.write))
    else match TableOf(frames, pde.base, 0)
      case None => None
      case Some(k) =>
        var pte := m.tables[k][TableIdx(a)];
        if !pte.present then None
        else Some(Hit(pte.base * PAGE_SIZE + a % PAGE_SIZE, pde.user && pte.user, pde.write && pte.write))
  }

  // ---------- building the tables ----------

  function Pointer(frame: nat, user: bool): Entry {
    Entry(true, user, true, false, frame)
  }

  /** A table that maps the 64 KB at entry `first` to the 64 KB at `phys`. */
  function VideoTable(phys: nat, first: nat, user: bool): Table {
    seq(NUM_ENTRIES, j requires 0 <= j < NUM_ENTRIES => VideoEntry(phys, first, user, j))
  }

  function VideoEntry(phys: nat, first: nat, user: bool, j: nat): Entry {
    if first <= j < first + 16 then Pointer(phys / PAGE_SIZE + (j - first), user) else EMPTY
  }

  /** `map_video_mem`, for page directory `pid` and page table number `k`. */
  function MapVideo(m: Tables, frames: seq<nat>, phys: nat, virt: nat, pid: nat, k: nat, user: bool): (m': Tables)
    requires Complete(m) && Frames(frames) && virt < SPACE && pid <= MAX_PROCESSES && k < |m.tables|
    ensures Complete(m')
  {
    Tables(m.dirs[pid := m.dirs[pid][DirIdx(virt) := Pointer(frames[k], user)]],
           m.tables[k := VideoTable(phys, TableIdx(virt), user)])
  }

  // ---------- the memory map ----------

  /** A screen's memory: the real one or a terminal's fake one. */
  datatype Buffer = Real | Fake(term: nat)

  function Base(b: Buffer): nat {
    match b
    case Real => VIDEO
    case Fake(t) => FAKE_MEM + t * SIZE_64K
  }

  /** Which terminal's tables each directory uses for the fake memories and for USER_VID, and
      where those tables lead.  This is all that ever changes. */
  datatype Config = Config(
    fakeDir: seq<Option<nat>>, userDir: seq<Option<nat>>,
    fake: seq<Option<Buffer>>, user: seq<Option<Buffer>>)

  predicate Proper(c: Config) {
    && |c.fakeDir| == |c.userDir| == MAX_PROCESSES + 1 && |c.fake| == |c.user| == NUM_TERMS
    && (forall p :: 0 <= p <= MAX_PROCESSES && c.fakeDir[p].Some? ==> c.fakeDir[p].value < NUM_TERMS)
    && (forall p :: 0 <= p <= MAX_PROCESSES && c.userDir[p].Some? ==> c.userDir[p].value < NUM_TERMS)
    && (forall t :: 0 <= t < NUM_TERMS && c.fake[t].Some? ==> GoodBuffer(c.fake[t].value))
    && (forall t :: 0 <= t < NUM_TERMS && c.user[t].Some? ==> GoodBuffer(c.user[t].value))
  }

  predicate GoodBuffer(b: Buffer) {
    b.Fake? ==> b.term < NUM_TERMS
  }

  /** After `install_pages`. */
  const INITIAL := Config(seq(MAX_PROCESSES + 1, _ => None), seq(MAX_PROCESSES + 1, _ => None),
                          seq(NUM_TERMS, _ => None), seq(NUM_TERMS, _ => None))

  function DirEntry(c: Config, frames: seq<nat>, pid: nat, i: nat): Entry
    requires Proper(c) && Frames(frames) && pid <= MAX_PROCESSES
  {
    if i == 0 then Pointer(frames[0], false)
    else if i == 1 then Entry(true, false, true, true, 1)
    else if i == 12 && c.fakeDir[pid].Some? then Pointer(frames[FakeTable(c.fakeDir[pid].value)], true)
    else if i == 32 && pid > 0 then Entry(true, true, true, true, 1 + pid)
    else if i == 34 && c.userDir[pid].Some? then Pointer(frames[UserTable(c.userDir[pid].value)], true)
    else EMPTY
  }

  function BufferTable(b: Option<Buffer>, first: nat): Table {
    if b.None? then Cleared() else VideoTable(Base(b.value), first, true)
  }

  function Directory(c: Config, frames: seq<nat>, pid: nat): Table
    requires Proper(c) && Frames(frames) && pid <= MAX_PROCESSES
  {
    seq(NUM_ENTRIES, i requires 0 <= i < NUM_ENTRIES => DirEntry(c, frames, pid, i))
  }

  function TableNo(c: Config, k: nat): Table
    requires Proper(c) && k < 1 + 2 * NUM_TERMS
  {
    if k == 0 then VideoTable(VIDEO, 0xB8, false)
    else if k <= NUM_TERMS then BufferTable(c.fake[k - 1], 16 * (k - 1))
    else BufferTable(c.user[k - 1 - NUM_TERMS], 0xB8)
  }

  /** The tables a configuration stands for. */
  function Build(c: Config, frames: seq<nat>): (m: Tables)
    requires Proper(c) && Frames(frames)
    ensures Complete(m)
  {
    Tables(seq(MAX_PROCESSES + 1, p requires 0 <= p <= MAX_PROCESSES => Directory(c, frames, p)),
           seq(1 + 2 * NUM_TERMS, k requires 0 <= k < 1 + 2 * NUM_TERMS => TableNo(c, k)))
  }

  predicate Within(a: nat, start: nat, size: nat) {
    start <= a < start + size
  }

  /** The memory map of `pid`, region by region. */
  function MemoryMap(c: Config, pid: nat, a: nat): Option<Hit>
    requires Proper(c) && pid <= MAX_PROCESSES
  {
    if Within(a, VIDEO, SIZE_64K) then Some(Hit(a, false, true))
    else if Within(a, KERNEL_MEM, SIZE_4MB) then Some(Hit(a, false, true))
    else if Within(a, USER_MEM, SIZE_4MB) then
      if pid > 0 then Some(Hit(KERNEL_MEM + pid * SIZE_4MB + (a - USER_MEM), true, true)) else None
    else match c.fakeDir[pid]
      case Some(t) =>
        if Within(a, FAKE_MEM + t * SIZE_64K, SIZE_64K) then InBuffer(c.fake[t], a - (FAKE_MEM + t * SIZE_64K))
        else UserVideo(c, pid, a)
      case None => UserVideo(c, pid, a)
  }

  function UserVideo(c: Config, pid: nat, a: nat): Option<Hit>
    requires Proper(c) && pid <= MAX_PROCESSES
  {
    match c.userDir[pid]
    case Some(t) => if Within(a, USER_VID, SIZE_64K) then InBuffer(c.user[t], a - USER_VID) else None
    case None => None
  }

  function InBuffer(b: Option<Buffer>, k: nat): Option<Hit> {
    if b.None? then None else Some(Hit(Base(b.value) + k, true, true))
  }

  // ---------- the tables are the map ----------

  lemma TableFound(frames: seq<nat>, k: nat)
    requires Frames(frames) && k < |frames|
    ensures TableOf(frames, frames[k], 0) == Some(k)
  {
    assert frames[0..] == frames;
  }

  /** An address inside a 64 KB window that starts on entry `first` of a table hits the same place
      in the 64 KB at `phys`. */
  lemma WindowHit(phys: nat, first: nat, user: bool, start: nat, a: nat)
    requires phys % PAGE_SIZE == 0 && start % PAGE_SIZE == 0 && first == TableIdx(start) <= NUM_ENTRIES - 16
    requires a / SIZE_4MB == start / SIZE_4MB
    ensures var pte := VideoTable(phys, first, user)[TableIdx(a)];
            if Within(a, start, SIZE_64K) then
              pte.present && pte.user == user && pte.write && pte.base * PAGE_SIZE + a % PAGE_SIZE == phys + (a - start)
            else !pte.present
  {
    var p, q := a / PAGE_SIZE, start / PAGE_SIZE;
    assert p / NUM_ENTRIES == a / SIZE_4MB && q / NUM_ENTRIES == start / SIZE_4MB;
    assert TableIdx(a) - first == p - q;
    assert Within(a, start, SIZE_64K) <==> 0 <= p - q < 16;
  }

  lemma WalkVideo(c: Config, frames: seq<nat>, pid: nat, a: nat)
    requires Proper(c) && Frames(frames) && pid <= MAX_PROCESSES && a < SPACE && DirIdx(a) == 0
    ensures Walk(Build(c, frames), frames, pid, a) == MemoryMap(c, pid, a)
  {
    assert Build(c, frames).dirs[pid][0] == DirEntry(c, frames, pid, 0);
    TableFound(frames, 0);
    WindowHit(VIDEO, 0xB8, false, VIDEO, a);
  }

  lemma WalkFake(c: Config, frames: seq<nat>, pid: nat, a: nat)
    requires Proper(c) && Frames(frames) && pid <= MAX_PROCESSES && a < SPACE && DirIdx(a) == 12
    ensures Walk(Build(c, frames), frames, pid, a) == MemoryMap(c, pid, a)
  {
    assert Build(c, frames).dirs[pid][12] == DirEntry(c, frames, pid, 12);
    if c.fakeDir[pid].Some? {
      var t := c.fakeDir[pid].value;
      TableFound(frames, FakeTable(t));
      if c.fake[t].Some? {
        WindowHit(Base(c.fake[t].value), 16 * t, true, FAKE_MEM + t * SIZE_64K, a);
      }
    }
  }

  lemma WalkUser(c: Config, frames: seq<nat>, pid: nat, a: nat)
    requires Proper(c) && Frames(frames) && pid <= MAX_PROCESSES && a < SPACE && DirIdx(a) == 34
    ensures Walk(Build(c, frames), frames, pid, a) == MemoryMap(c, pid, a)
  {
    assert Build(c, frames).dirs[pid][34] == DirEntry(c, frames, pid, 34);
    if c.userDir[pid].Some? {
      var t := c.userDir[pid].value;
      TableFound(frames, UserTable(t));
      if c.user[t].Some? {
        WindowHit(Base(c.user[t].value), 0xB8, true, USER_VID, a);
      }
    }
  }

  /** For every configuration, process and 32-bit address, the page walk of the tables gives
      exactly what the memory map says. */
  lemma WalkIsMap(c: Config, frames: seq<nat>, pid: nat, a: nat)
    requires Proper(c) && Frames(frames) && pid <= MAX_PROCESSES && a < SPACE
    ensures Walk(Build(c, frames), frames, pid, a) == MemoryMap(c, pid, a)
  {
    var i := DirIdx(a);
    if i == 0 {
      WalkVideo(c, frames, pid, a);
    } else if i == 12 {
      WalkFake(c, frames, pid, a);
    } else if i == 34 {
      WalkUser(c, frames, pid, a);
    } else {
      assert Build(c, frames).dirs[pid][i] == DirEntry(c, frames, pid, i);
    }
  }

  // ---------- remapping ----------

  /** Map a terminal's fake window, in one directory, to a buffer. */
  function MapFake(c: Config, pid: nat, t: nat, b: Buffer): (c': Config)
    requires Proper(c) && pid <= MAX_PROCESSES && t < NUM_TERMS && GoodBuffer(b)
    ensures Proper(c')
  {
    c.(fakeDir := c.fakeDir[pid := Some(t)], fake := c.fake[t := Some(b)])
  }

  /** The same for USER_VID. */
  function MapUser(c: Config, pid: nat, t: nat, b: Buffer): (c': Config)
    requires Proper(c) && pid <= MAX_PROCESSES && t < NUM_TERMS && GoodBuffer(b)
    ensures Proper(c')
  {
    c.(userDir := c.userDir[pid := Some(t)], user := c.user[t := Some(b)])
  }

  lemma SameDirectory(c: Config, d: Config, frames: seq<nat>, pid: nat)
    requires Proper(c) && Proper(d) && Frames(frames) && pid <= MAX_PROCESSES
    requires c.fakeDir[pid] == d.fakeDir[pid] && c.userDir[pid] == d.userDir[pid]
    ensures Directory(c, frames, pid) == Directory(d, frames, pid)
  {
    forall i | 0 <= i < NUM_ENTRIES ensures Directory(c, frames, pid)[i] == Directory(d, frames, pid)[i] {
      assert DirEntry(c, frames, pid, i) == DirEntry(d, frames, pid, i);
    }
  }

  /** `map_video_mem` on a terminal's fake window. */
  lemma FakeRemapped(c: Config, frames: seq<nat>, pid: nat, t: nat, b: Buffer)
    requires Proper(c) && Frames(frames) && pid <= MAX_PROCESSES && t < NUM_TERMS && GoodBuffer(b)
    ensures MapVideo(Build(c, frames), frames, Base(b), FAKE_MEM + t * SIZE_64K, pid, FakeTable(t), true)
            == Build(MapFake(c, pid, t, b), frames)
  {
    var m, m' := Build(c, frames), Build(MapFake(c, pid, t, b), frames);
    var virt := FAKE_MEM + t * SIZE_64K;
    assert DirIdx(virt) == 12 && TableIdx(virt) == 16 * t;
    assert m.dirs[pid][12 := Pointer(frames[FakeTable(t)], true)] == m'.dirs[pid];
    forall q | 0 <= q <= MAX_PROCESSES && q != pid ensures m.dirs[q] == m'.dirs[q] {
      SameDirectory(c, MapFake(c, pid, t, b), frames, q);
    }
    assert m.dirs[pid := m'.dirs[pid]] == m'.dirs;
    assert m.tables[FakeTable(t) := VideoTable(Base(b), 16 * t, true)] == m'.tables;
  }

  /** `map_video_mem` on USER_VID. */
  lemma UserRemapped(c: Config, frames: seq<nat>, pid: nat, t: nat, b: Buffer)
    requires Proper(c) && Frames(frames) && pid <= MAX_PROCESSES && t < NUM_TERMS && GoodBuffer(b)
    ensures MapVideo(Build(c, frames), frames, Base(b), USER_VID, pid, UserTable(t), true)
            == Build(MapUser(c, pid, t, b), frames)
  {
    var m, m' := Build(c, frames), Build(MapUser(c, pid, t, b), frames);
    assert DirIdx(USER_VID) == 34 && TableIdx(USER_VID) == 0xB8;
    assert m.dirs[pid][34 := Pointer(frames[UserTable(t)], true)] == m'.dirs[pid];
    forall q | 0 <= q <= MAX_PROCESSES && q != pid ensures m.dirs[q] == m'.dirs[q] {
      SameDirectory(c, MapUser(c, pid, t, b), frames, q);
    }
    assert m.dirs[pid := m'.dirs[pid]] == m'.dirs;
    assert m.tables[UserTable(t) := VideoTable(Base(b), 0xB8, true)] == m'.tables;
  }

  /** Every remapping the kernel performs. */
  datatype Remap = FakeWindow(pid: nat, term: nat, buffer: Buffer) | UserWindow(pid: nat, term: nat, buffer: Buffer)

  predicate Possible(r: Remap) {
    r.pid <= MAX_PROCESSES && r.term < NUM_TERMS && GoodBuffer(r.buffer)
  }

  function RemapOne(m: Tables, frames: seq<nat>, r: Remap): (m': Tables)
    requires Complete(m) && Frames(frames) && Possible(r)
    ensures Complete(m')
  {
    if r.FakeWindow? then
      MapVideo(m, frames, Base(r.buffer), FAKE_MEM + r.term * SIZE_64K, r.pid, FakeTable(r.term), true)
    else MapVideo(m, frames, Base(r.buffer), USER_VID, r.pid, UserTable(r.term), true)
  }

  function Remapped(m: Tables, frames: seq<nat>, rs: seq<Remap>): (m': Tables)
    requires Complete(m) && Frames(frames) && forall i :: 0 <= i < |rs| ==> Possible(rs[i])
    ensures Complete(m')
    decreases |rs|
  {
    if rs == [] then m else
      assert Possible(rs[0]);
      Remapped(RemapOne(m, frames, rs[0]), frames, rs[1..])
  }

  /** The configuration after a remapping. */
  function Configured(c: Config, r: Remap): (c': Config)
    requires Proper(c) && Possible(r)
    ensures Proper(c')
  {
    if r.FakeWindow? then MapFake(c, r.pid, r.term, r.buffer) else MapUser(c, r.pid, r.term, r.buffer)
  }

  lemma OneRemapped(c: Config, frames: seq<nat>, r: Remap)
    requires Proper(c) && Frames(frames) && Possible(r)
    ensures RemapOne(Build(c, frames), frames, r) == Build(Configured(c, r), frames)
  {
    if r.FakeWindow? {
      FakeRemapped(c, frames, r.pid, r.term, r.buffer);
    } else {
      UserRemapped(c, frames, r.pid, r.term, r.buffer);
    }
  }

  /** Whatever the kernel remaps, the tables remain those of some configuration. */
  lemma {:induction false} AlwaysBuilt(c: Config, frames: seq<nat>, rs: seq<Remap>) returns (c': Config)
    requires Proper(c) && Frames(frames) && forall i :: 0 <= i < |rs| ==> Possible(rs[i])
    ensures Proper(c') && Remapped(Build(c, frames), frames, rs) == Build(c', frames)
    decreases |rs|
  {
    c' := c;
    if rs != [] {
      assert Possible(rs[0]);
      OneRemapped(c, frames, rs[0]);
      c' := AlwaysBuilt(Configured(c, rs[0]), frames, rs[1..]);
    }
  }

  // ---------- isolation ----------

  /** The physical page of a process. */
  predicate OwnPage(pid: nat, phys: nat) {
    Within(phys, KERNEL_MEM + pid * SIZE_4MB, SIZE_4MB)
  }

  predicate ScreenMemory(phys: nat) {
    Within(phys, VIDEO, SIZE_64K) || Within(phys, FAKE_MEM, NUM_TERMS * SIZE_64K)
  }

  /** After `install_pages` and any remappings, user code reaches nothing but its own page and the
      screen memories: not the kernel, and not another process. */
  lemma UserIsolation(frames: seq<nat>, rs: seq<Remap>, pid: nat, a: nat)
    requires Frames(frames) && (forall i :: 0 <= i < |rs| ==> Possible(rs[i]))
    requires 1 <= pid <= MAX_PROCESSES && a < SPACE
    ensures var hit := Walk(Remapped(Build(INITIAL, frames), frames, rs), frames, pid, a);
            hit.Some? && hit.value.user ==>
              && (OwnPage(pid, hit.value.phys) || ScreenMemory(hit.value.phys))
              && !Within(hit.value.phys, KERNEL_MEM, SIZE_4MB)
              && (forall q :: 1 <= q <= MAX_PROCESSES && q != pid ==> !OwnPage(q, hit.value.phys))
    ensures Within(a, USER_MEM, SIZE_4MB) ==>
              Walk(Remapped(Build(INITIAL, frames), frames, rs), frames, pid, a) ==
              Some(Hit(KERNEL_MEM + pid * SIZE_4MB + (a - USER_MEM), true, true))
  {
    var c := AlwaysBuilt(INITIAL, frames, rs);
    WalkIsMap(c, frames, pid, a);
    MapIsolates(c, pid, a);
  }

  /** Whatever is remapped, the kernel finds its own page and the video memory where they are, under
      every directory; user code finds neither. */
  lemma KernelStays(frames: seq<nat>, rs: seq<Remap>, pid: nat, a: nat)
    requires Frames(frames) && (forall i :: 0 <= i < |rs| ==> Possible(rs[i]))
    requires pid <= MAX_PROCESSES && (Within(a, KERNEL_MEM, SIZE_4MB) || Within(a, VIDEO, SIZE_64K))
    ensures Walk(Remapped(Build(INITIAL, frames), frames, rs), frames, pid, a) == Some(Hit(a, false, true))
  {
    var c := AlwaysBuilt(INITIAL, frames, rs);
    WalkIsMap(c, frames, pid, a);
  }

  /** Different screen memories have no byte in common. */
  lemma BuffersApart(b: Buffer, c: Buffer, k: nat, j: nat)
    requires GoodBuffer(b) && GoodBuffer(c) && k < SIZE_64K && j < SIZE_64K
    ensures Base(b) + k == Base(c) + j <==> b == c && k == j
  {
  }

  /** Nor do they touch the kernel's page or a process's. */
  lemma BuffersOutside(b: Buffer, k: nat, pid: nat)
    requires GoodBuffer(b) && k < SIZE_64K && pid <= MAX_PROCESSES
    ensures !OwnPage(pid, Base(b) + k)
  {
  }

  lemma MapIsolates(c: Config, pid: nat, a: nat)
    requires Proper(c) && 1 <= pid <= MAX_PROCESSES
    ensures var hit := MemoryMap(c, pid, a);
            hit.Some? && hit.value.user ==>
              && (OwnPage(pid, hit.value.phys) || ScreenMemory(hit.value.phys))
              && !Within(hit.value.phys, KERNEL_MEM, SIZE_4MB)
              && (forall q :: 1 <= q <= MAX_PROCESSES && q != pid ==> !OwnPage(q, hit.value.phys))
  {
  }
}
