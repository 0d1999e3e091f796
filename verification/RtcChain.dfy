/** The chain of open virtual RTCs, threaded through the file descriptors of all processes by
    their `reserved` word (rtc.c, proc.h, and the closing loop of `sys_halt_internal`). */
module RtcChains {
  import opened Limits
  import opened Sequences
  import opened RtcFields
  import opened RtcDevice

  const MAX_FILES := 8
  const SLOTS := 88

  /** Who owns a descriptor, which is what its file-layer flags and its operations table say.
      Closing a terminal descriptor fails and leaves it as it is. */
  datatype Kind = Free | Regular | Terminal | Rtc

  class File {
    var kind: Kind
    /** `flags` and `file_pos` */
    var dev: Fields
    /** `reserved` */
    var next: File?
  }

  /** What `release_fd` leaves of the two words: the flags are zero, the position is not. */
  function Released(f: Fields): (g: Fields)
    requires InWidth(f)
    ensures InWidth(g) && FlagsOf(g) == 0 && PosOf(g) == PosOf(f)
  {
    f.(file := 0, freq := 0, spare := 0, ticked := false)
  }

  /** The place of a process's descriptor among all descriptors. */
  function Slot(pid: nat, fd: nat): (i: nat)
    requires pid <= MAX_PROCESSES && fd < MAX_FILES
    ensures i < SLOTS && i / MAX_FILES == pid
  {
    pid * MAX_FILES + fd
  }

  /** `q` without `x`, in the same order. */
  function Without(q: seq<nat>, x: nat): seq<nat> {
    if q == [] then [] else (if q[0] == x then [] else [q[0]]) + Without(q[1..], x)
  }

  lemma {:induction false} WithoutMembers(q: seq<nat>, x: nat)
    ensures forall y :: y in Without(q, x) <==> y in q && y != x
    ensures x !in q ==> Without(q, x) == q
  {
    if q != [] {
      WithoutMembers(q[1..], x);
      assert q == [q[0]] + q[1..];
    }
  }

  lemma {:induction false} WithoutAt(q: seq<nat>, k: nat)
    requires NoDup(q) && k < |q|
    ensures Without(q, q[k]) == q[..k] + q[k + 1..]
  {
    if k == 0 {
      WithoutMembers(q[1..], q[0]);
    } else {
      WithoutAt(q[1..], k - 1);
      assert q[..k] + q[k + 1..] == [q[0]] + (q[1..][..k - 1] + q[1..][k..]);
    }
  }

  class Descriptors {
    /** The file arrays of PCBs 0 to 10, one after the other. */
    const files: seq<File>
    var openRtcs: File?
    /** The slots of the chain's devices, in chain order. */
    ghost var chain: seq<nat>
    ghost var live: set<nat>

    ghost predicate Distinct() {
      |files| == SLOTS && forall i, j :: 0 <= i < j < SLOTS ==> files[i] != files[j]
    }

    ghost predicate LinkAt(k: nat)
      requires Distinct() && k < |chain|
      reads this, files
    {
      chain[k] < SLOTS && files[chain[k]].next == At(k + 1)
    }

    /** The device at place `k` of the chain, or null behind its end. */
    ghost function At(k: nat): File?
      requires Distinct()
      reads this
    {
      if k < |chain| && chain[k] < SLOTS then files[chain[k]] else null
    }

    ghost predicate Linked()
      reads this, files
    {
      && Distinct() && NoDup(chain) && openRtcs == At(0)
      && forall k {:trigger LinkAt(k)} :: 0 <= k < |chain| ==> LinkAt(k)
    }

    ghost predicate InPlace(i: nat)
      requires Distinct() && i < SLOTS
      reads this, files
    {
      && InWidth(files[i].dev)
      && (files[i].kind == Rtc <==> i in chain)
      && (i in chain ==> i / MAX_FILES in live)
    }

    /** The chain is a proper list, without repetition, of exactly the open RTC descriptors, and
        all of them belong to live processes. */
    ghost predicate Valid()
      reads this, files
    {
      Linked() && forall i {:trigger InPlace(i)} :: 0 <= i < SLOTS ==> InPlace(i)
    }

    /** `rtc_init`, with no file open anywhere. */
    constructor (fs: seq<File>)
      requires |fs| == SLOTS && forall i, j :: 0 <= i < j < SLOTS ==> fs[i] != fs[j]
      requires forall i :: 0 <= i < SLOTS ==> fs[i].kind == Free && InWidth(fs[i].dev)
      ensures Valid() && chain == [] && live == {} && files == fs
    {
      files, openRtcs, chain, live := fs, null, [], {};
    }

    /** `get_unused_fd`, without the mark: the first free descriptor of a process, or -1.  The
        source scans past the array when all are taken, and then fails as well. */
    method GetUnusedFd(pid: nat) returns (fd: int)
      requires Valid() && pid <= MAX_PROCESSES
      ensures -1 <= fd < MAX_FILES
      ensures fd == -1 ==> forall i :: 0 <= i < MAX_FILES ==> files[Slot(pid, i)].kind != Free
      ensures fd != -1 ==>
                && files[Slot(pid, fd)].kind == Free
                && forall i :: 0 <= i < fd ==> files[Slot(pid, i)].kind != Free
    {
      fd := 0;
      while fd < MAX_FILES && files[Slot(pid, fd)].kind != Free
        invariant 0 <= fd <= MAX_FILES
        invariant forall i :: 0 <= i < fd ==> files[Slot(pid, i)].kind != Free
      {
        fd := fd + 1;
      }
      if fd == MAX_FILES {
        fd := -1;
      }
    }

    /** `rtc_open`: the new device goes to the front of the chain, at 2 Hz. */
    method RtcOpen(pid: nat) returns (fd: int)
      requires Valid() && pid in live && pid <= MAX_PROCESSES
      modifies `openRtcs, `chain, files
      ensures Valid()
      ensures fd == -1 <==> forall i :: 0 <= i < MAX_FILES ==> old(files[Slot(pid, i)].kind) != Free
      ensures fd < MAX_FILES && forall i :: 0 <= i < fd ==> old(files[Slot(pid, i)].kind) != Free
      ensures fd == -1 ==> chain == old(chain) && forall i :: 0 <= i < SLOTS ==> unchanged(files[i])
      ensures fd != -1 ==>
                && 0 <= fd < MAX_FILES && old(files[Slot(pid, fd)].kind) == Free
                && chain == [Slot(pid, fd)] + old(chain)
                && InWidth(old(files[Slot(pid, fd)].dev))
                && files[Slot(pid, fd)].dev == Program(old(files[Slot(pid, fd)].dev), 1)
                && forall i :: 0 <= i < SLOTS && i != Slot(pid, fd) ==> unchanged(files[i])
    {
      fd := GetUnusedFd(pid);
      if fd == -1 {
        return;
      }
      var slot := Slot(pid, fd);
      var file := files[slot];
      assert InPlace(slot);
      file.kind := Rtc;
      file.dev := Program(file.dev, 1);
      file.next := openRtcs;
      openRtcs := file;
      chain := [slot] + chain;
      forall k | 0 <= k < |chain| ensures LinkAt(k) {
        assert k > 0 ==> old(LinkAt(k - 1));
      }
      forall i | 0 <= i < SLOTS ensures InPlace(i) {
        assert old(InPlace(i));
      }
    }

    /** The walk of `rtc_close`: find the link to a device in the chain and skip it. */
    method Unlink(slot: nat)
      requires Linked() && slot in chain && slot < SLOTS
      modifies `openRtcs, `chain, files`next
      ensures Linked() && chain == Without(old(chain), slot)
    {
      hide Without;
      // `last_rtc` points at the link to `el`: the head when `prev` is null
      var prev: File?, el := null, openRtcs;
      ghost var k := 0;
      while el != null && el != files[slot]
        invariant k <= |chain| && el == At(k) && (k == 0 ==> prev == null)
        invariant k > 0 ==> chain[k - 1] < SLOTS && prev == files[chain[k - 1]]
        invariant forall i :: 0 <= i < k ==> chain[i] != slot
        decreases |chain| - k
      {
        assert LinkAt(k);
        prev, el := el, el.next;
        k := k + 1;
      }
      assert k < |chain| && LinkAt(k);
      WithoutAt(chain, k);
      if prev == null {
        openRtcs := el.next;
      } else {
        prev.next := el.next;
      }
      chain := chain[..k] + chain[k + 1..];
      forall i | 0 <= i < |chain| ensures LinkAt(i) {
        assert old(LinkAt(if i < k then i else i + 1));
      }
    }

    /** `rtc_close`: unlinks the device, whatever is in front of or behind it. */
    method RtcClose(slot: nat)
      requires Valid() && slot < SLOTS && files[slot].kind == Rtc
      modifies `openRtcs, `chain, files
      ensures Valid() && chain == Without(old(chain), slot) && files[slot].kind == Free
      ensures InWidth(old(files[slot].dev)) && files[slot].dev == Released(old(files[slot].dev))
      ensures OthersSame(slot)
    {
      assert InPlace(slot);
      Unlink(slot);
      WithoutMembers(old(chain), slot);
      forall i | 0 <= i < SLOTS && i != slot ensures InPlace(i) {
        assert old(InPlace(i));
      }
      Release(slot);
    }

    /** No other descriptor changes what it is used for, or its words. */
    twostate predicate OthersSame(slot: nat)
      requires |files| == SLOTS
      reads files
    {
      forall i :: 0 <= i < SLOTS && i != slot ==>
        files[i].kind == old(files[i].kind) && files[i].dev == old(files[i].dev)
    }

    /** `release_fd`, for a descriptor that is not in the chain. */
    method Release(slot: nat)
      requires Linked() && slot < SLOTS && slot !in chain && InWidth(files[slot].dev)
      requires forall i {:trigger InPlace(i)} :: 0 <= i < SLOTS && i != slot ==> InPlace(i)
      modifies files`kind, files`dev
      ensures Valid() && files[slot].kind == Free && files[slot].dev == Released(old(files[slot].dev))
      ensures OthersSame(slot)
    {
      files[slot].kind, files[slot].dev := Free, Released(files[slot].dev);
      forall k | 0 <= k < |chain| ensures LinkAt(k) {
        assert old(LinkAt(k));
      }
      forall i | 0 <= i < SLOTS ensures InPlace(i) {
        assert i != slot ==> old(InPlace(i));
      }
    }

    /** The loop of `sys_halt_internal` that closes every open file of a process; the process is
        dead afterwards. */
    method CloseFiles(pid: nat)
      requires Valid() && pid <= MAX_PROCESSES
      modifies `openRtcs, `chain, `live, files
      ensures Valid() && live == old(live) - {pid}
      ensures chain == WithoutProcess(old(chain), pid, MAX_FILES)
      ensures forall i :: 0 <= i < SLOTS && i / MAX_FILES != pid ==>
                files[i].kind == old(files[i].kind) && files[i].dev == old(files[i].dev)
      ensures forall j :: pid * MAX_FILES <= j < pid * MAX_FILES + MAX_FILES ==>
                files[j].kind == if old(files[j].kind) == Terminal then Terminal else Free
    {
      var fd := 0;
      while fd < MAX_FILES
        invariant 0 <= fd <= MAX_FILES && Valid() && live == old(live)
        invariant chain == WithoutProcess(old(chain), pid, fd)
        invariant forall i :: 0 <= i < SLOTS && !(pid * MAX_FILES <= i < pid * MAX_FILES + fd) ==>
                    files[i].kind == old(files[i].kind) && files[i].dev == old(files[i].dev)
        invariant forall j :: pid * MAX_FILES <= j < pid * MAX_FILES + fd ==>
                    files[j].kind == if old(files[j].kind) == Terminal then Terminal else Free
      {
        CloseOne(Slot(pid, fd));
        fd := fd + 1;
      }
      SetLive(live - {pid});
    }

    /** The set of live processes changes, but no process with an open RTC leaves it. */
    ghost method SetLive(s: set<nat>)
      requires Valid()
      requires forall i :: 0 <= i < SLOTS && files[i].kind == Rtc && i / MAX_FILES in live ==> i / MAX_FILES in s
      modifies `live
      ensures Valid() && live == s
    {
      live := s;
      forall k | 0 <= k < |chain| ensures LinkAt(k) {
        assert old(LinkAt(k));
      }
      forall i | 0 <= i < SLOTS ensures InPlace(i) {
        assert old(InPlace(i));
      }
    }

    /** One turn of that loop: the descriptor's own close operation. */
    method CloseOne(slot: nat)
      requires Valid() && slot < SLOTS
      modifies `openRtcs, `chain, files
      ensures Valid() && chain == Without(old(chain), slot) && OthersSame(slot)
      ensures files[slot].kind == if old(files[slot].kind) == Terminal then Terminal else Free
      ensures InWidth(old(files[slot].dev))
      ensures files[slot].dev ==
              if old(files[slot].kind) in {Rtc, Regular} then Released(old(files[slot].dev)) else old(files[slot].dev)
    {
      assert InPlace(slot);
      if files[slot].kind == Rtc {
        RtcClose(slot);
      } else {
        WithoutMembers(chain, slot);
        if files[slot].kind == Regular {
          Release(slot);
        }
      }
    }

    /** The part of `sys_exec_internal` that zeroes the PCB of a pid that is not live, and sets up
        its two terminal descriptors.  `runs` tells whether the load succeeds. */
    method ClearFiles(pid: nat, runs: bool)
      requires Valid() && 1 <= pid <= MAX_PROCESSES && pid !in live
      modifies `live, files
      ensures Valid() && chain == old(chain) && live == if runs then old(live) + {pid} else old(live)
      ensures forall fd :: 0 <= fd < MAX_FILES ==> files[Slot(pid, fd)].kind == if fd < 2 then Terminal else Free
      ensures forall i :: 0 <= i < SLOTS && i / MAX_FILES != pid ==> unchanged(files[i])
    {
      var fd := 0;
      while fd < MAX_FILES
        invariant 0 <= fd <= MAX_FILES && Valid() && chain == old(chain) && live == old(live)
        invariant forall j :: 0 <= j < fd ==> files[Slot(pid, j)].kind == if j < 2 then Terminal else Free
        invariant forall i :: 0 <= i < SLOTS && i / MAX_FILES != pid ==> unchanged(files[i])
      {
        Zero(Slot(pid, fd), if fd < 2 then Terminal else Free);
        fd := fd + 1;
      }
      if runs {
        SetLive(live + {pid});
      }
    }

    method Zero(slot: nat, kind: Kind)
      requires Valid() && slot < SLOTS && slot / MAX_FILES !in live && kind != Rtc
      modifies files
      ensures Valid() && files[slot].kind == kind
      ensures forall i :: 0 <= i < SLOTS && i != slot ==> unchanged(files[i])
    {
      assert InPlace(slot);
      var file := files[slot];
      file.kind, file.dev, file.next := kind, Fields(0, 0, 0, false, 0, 0), null;
      forall k | 0 <= k < |chain| ensures LinkAt(k) {
        assert old(LinkAt(k));
      }
      forall i | 0 <= i < SLOTS ensures InPlace(i) {
        assert old(InPlace(i));
      }
    }

    /** `rtc_handle_interrupt`: every open device sees the interrupt, once. */
    method HandleInterrupt()
      requires Valid()
      modifies files`dev
      ensures Valid()
      ensures forall i :: 0 <= i < SLOTS ==>
                InWidth(old(files[i].dev)) &&
                files[i].dev == if i in chain then Interrupt(old(files[i].dev)) else old(files[i].dev)
    {
      forall i | 0 <= i < SLOTS ensures InWidth(files[i].dev) {
        assert InPlace(i);
      }
      var rtc := openRtcs;
      ghost var k := 0;
      while rtc != null
        invariant k <= |chain| && rtc == At(k) && Valid()
        invariant forall i :: 0 <= i < SLOTS ==>
                    InWidth(old(files[i].dev)) &&
                    files[i].dev == if i in chain[..k] then Interrupt(old(files[i].dev)) else old(files[i].dev)
        decreases |chain| - k
      {
        assert LinkAt(k);
        Serve(chain[k], rtc);
        rtc := rtc.next;
        k := k + 1;
      }
      assert k < |chain| ==> LinkAt(k);
      assert chain[..k] == chain;
    }

    /** One turn of that loop. */
    method Serve(ghost slot: nat, rtc: File)
      requires Valid() && slot < SLOTS && rtc == files[slot]
      modifies rtc`dev
      ensures Valid() && InWidth(old(rtc.dev)) && rtc.dev == Interrupt(old(rtc.dev))
    {
      assert InPlace(slot);
      SetDev(slot, rtc, Interrupt(rtc.dev));
    }

    /** The counters of a descriptor change; the chain does not. */
    method SetDev(ghost slot: nat, rtc: File, dev: Fields)
      requires Valid() && slot < SLOTS && rtc == files[slot] && InWidth(dev)
      modifies rtc`dev
      ensures Valid() && rtc.dev == dev
    {
      rtc.dev := dev;
      forall k | 0 <= k < |chain| ensures LinkAt(k) {
        assert old(LinkAt(k));
      }
      forall i | 0 <= i < SLOTS ensures InPlace(i) {
        assert old(InPlace(i));
      }
    }

    /** `rtc_read` once the wait is over: the pending ticks, which are then cleared. */
    method RtcRead(slot: nat) returns (ticks: nat)
      requires Valid() && slot < SLOTS && files[slot].kind == Rtc && files[slot].dev.ticked
      modifies files[slot]
      ensures Valid() && ticks == old(files[slot].dev).ticks
      ensures InWidth(old(files[slot].dev)) && files[slot].dev == Collect(old(files[slot].dev))
      ensures !files[slot].dev.ticked && files[slot].dev.ticks == 0
    {
      assert InPlace(slot);
      var rtc := files[slot];
      ticks := rtc.dev.ticks;
      SetDev(slot, rtc, Collect(rtc.dev));
    }

    /** `rtc_write` of a 32-bit request: 4, or -1 when it is no power of two. */
    method RtcWrite(slot: nat, req: word) returns (r: int)
      requires Valid() && slot < SLOTS && files[slot].kind == Rtc
      modifies files[slot]
      ensures Valid()
      ensures r == 4 <==> exists s :: Pow2(s) == req
      ensures r == -1 <==> r != 4
      ensures r != 4 ==> files[slot].dev == old(files[slot].dev)
      ensures forall s :: Pow2(s) == req ==>
                InWidth(old(files[slot].dev)) && files[slot].dev == Program(old(files[slot].dev), s)
    {
      assert InPlace(slot);
      var rtc := files[slot];
      var ok, sc := Exponent(req);
      if !ok {
        return -1;
      }
      forall s: nat | Pow2(s) == req ensures s == sc {
        if s < sc {
          Pow2Grows(s, sc);
        } else if sc < s {
          Pow2Grows(sc, s);
        }
      }
      SetDev(slot, rtc, Program(rtc.dev, sc));
      return 4;
    }
  }

  /** The chain without the first `n` descriptors of a process. */
  function WithoutProcess(q: seq<nat>, pid: nat, n: nat): seq<nat>
    requires pid <= MAX_PROCESSES && n <= MAX_FILES
  {
    if n == 0 then q else Without(WithoutProcess(q, pid, n - 1), Slot(pid, n - 1))
  }
}
