/** The loops of paging.c that write directories and tables in place. */
module PageTables {
  import opened Limits
  import opened Paging

  class Memory {
    var dirs: seq<Table>
    var tables: seq<Table>
    const frames: seq<nat>

    ghost predicate Valid()
      reads this
    {
      Complete(View()) && Frames(frames)
    }

    ghost function View(): Tables
      reads this
    {
      Tables(dirs, tables)
    }

    /** `clear_page_dir` */
    method ClearPageDir(pid: nat)
      requires Valid() && pid <= MAX_PROCESSES
      modifies `dirs
      ensures Valid() && dirs == old(dirs)[pid := Cleared()]
    {
      for i := 0 to NUM_ENTRIES
        invariant Valid() && dirs == old(dirs)[pid := dirs[pid]]
        invariant forall j :: 0 <= j < i ==> dirs[pid][j] == EMPTY
      {
        dirs := dirs[pid := dirs[pid][i := EMPTY]];
      }
      assert dirs[pid] == Cleared();
    }

    /** `clear_page_table` */
    method ClearPageTable(k: nat)
      requires Valid() && k < |tables|
      modifies `tables
      ensures Valid() && tables == old(tables)[k := Cleared()]
    {
      for i := 0 to NUM_ENTRIES
        invariant Valid() && tables == old(tables)[k := tables[k]]
        invariant forall j :: 0 <= j < i ==> tables[k][j] == EMPTY
      {
        tables := tables[k := tables[k][i := EMPTY]];
      }
      assert tables[k] == Cleared();
    }

    /** `map_video_mem`, for a window that does not run past the end of a page table. */
    method MapVideoMem(phys: nat, virt: nat, pid: nat, k: nat, user: bool)
      requires Valid() && pid <= MAX_PROCESSES && k < |tables|
      requires phys % PAGE_SIZE == 0 && virt % PAGE_SIZE == 0 && virt + SIZE_64K <= SPACE
      requires TableIdx(virt) + 16 <= NUM_ENTRIES
      modifies `dirs, `tables
      ensures Valid() && View() == MapVideo(old(View()), frames, phys, virt, pid, k, user)
    {
      ClearPageTable(k);
      ghost var first := TableIdx(virt);
      for i := 0 to SIZE_64K / PAGE_SIZE
        invariant Valid() && dirs == old(dirs) && tables == old(tables)[k := tables[k]]
        invariant forall j :: 0 <= j < NUM_ENTRIES ==>
                    tables[k][j] == if j < first + i then VideoEntry(phys, first, user, j) else EMPTY
      {
        WindowEntry(virt, i);
        WindowFrame(phys, i);
        var entry := Pointer((phys + i * PAGE_SIZE) / PAGE_SIZE, user);
        tables := tables[k := tables[k][TableIdx(virt + i * PAGE_SIZE) := entry]];
      }
      assert tables[k] == VideoTable(phys, first, user);
      dirs := dirs[pid := dirs[pid][DirIdx(virt) := Pointer(frames[k], user)]];
    }

    /** The first loop body of `install_pages`: everything one directory starts with. */
    method InstallDirectory(pid: nat)
      requires Valid() && pid <= MAX_PROCESSES
      modifies `dirs, `tables
      ensures Valid() && dirs == old(dirs)[pid := Directory(INITIAL, frames, pid)]
      ensures tables == old(tables)[0 := VideoTable(VIDEO, 0xB8, false)]
    {
      ClearPageDir(pid);
      // `install_kernel_page`
      dirs := dirs[pid := dirs[pid][DirIdx(KERNEL_MEM) := Entry(true, false, true, true, KERNEL_MEM / SIZE_4MB)]];
      MapVideoMem(VIDEO, VIDEO, pid, 0, false);
      if pid > 0 {
        // `install_user_page`
        var entry := Entry(true, true, true, true, (KERNEL_MEM + pid * SIZE_4MB) / SIZE_4MB);
        dirs := dirs[pid := dirs[pid][DirIdx(USER_MEM) := entry]];
      }
      assert dirs[pid] == Directory(INITIAL, frames, pid);
    }

    /** `install_pages`, on page tables the loader zeroed. */
    method InstallPages()
      requires Valid() && forall t :: 0 <= t < NUM_TERMS ==> tables[UserTable(t)] == Cleared()
      modifies `dirs, `tables
      ensures Valid() && View() == Build(INITIAL, frames)
    {
      for pid := 0 to MAX_PROCESSES + 1
        invariant Valid() && (forall q :: 0 <= q < pid ==> dirs[q] == Directory(INITIAL, frames, q))
        invariant pid > 0 ==> tables[0] == VideoTable(VIDEO, 0xB8, false)
        invariant forall t :: 0 <= t < NUM_TERMS ==> tables[UserTable(t)] == Cleared()
      {
        InstallDirectory(pid);
      }
      for t := 0 to NUM_TERMS
        invariant Valid() && (forall q :: 0 <= q <= MAX_PROCESSES ==> dirs[q] == Directory(INITIAL, frames, q))
        invariant tables[0] == VideoTable(VIDEO, 0xB8, false)
        invariant forall u :: 0 <= u < t ==> tables[FakeTable(u)] == Cleared()
        invariant forall u :: 0 <= u < NUM_TERMS ==> tables[UserTable(u)] == Cleared()
      {
        ClearPageTable(FakeTable(t));
      }
      forall k | 0 <= k < |tables| ensures tables[k] == TableNo(INITIAL, k) {
        if 0 < k <= NUM_TERMS {
          assert tables[FakeTable(k - 1)] == Cleared();
        } else if k > NUM_TERMS {
          assert tables[UserTable(k - 1 - NUM_TERMS)] == Cleared();
        }
      }
    }
  }

  lemma WindowEntry(virt: nat, i: nat)
    requires virt % PAGE_SIZE == 0 && i < 16 && TableIdx(virt) + 16 <= NUM_ENTRIES
    ensures TableIdx(virt + i * PAGE_SIZE) == TableIdx(virt) + i
  {
    assert (virt + i * PAGE_SIZE) / PAGE_SIZE == virt / PAGE_SIZE + i;
  }

  lemma WindowFrame(phys: nat, i: nat)
    requires phys % PAGE_SIZE == 0
    ensures (phys + i * PAGE_SIZE) / PAGE_SIZE == phys / PAGE_SIZE + i
  {
  }
}
