/** Process ids: the allocator over the bits of `proc_bitmap`, and the 8 KB slot at the top of
    the kernel page that holds the PCB and the kernel stack of a pid (proc.h). */
module Pids {
  import opened Limits
  import Lifecycle

  /** Bit `i` of a word, that is `(1 << i) & b`, on the word's binary digits. */
  predicate Bit(b: nat, i: nat) {
    if i == 0 then b % 2 == 1 else Bit(b / 2, i - 1)
  }

  /** `b | (1 << i)` */
  function WithBit(b: nat, i: nat): (r: nat) {
    if i == 0 then b - b % 2 + 1 else 2 * WithBit(b / 2, i - 1) + b % 2
  }

  /** `b & ~(1 << i)` */
  function WithoutBit(b: nat, i: nat): (r: nat) {
    if i == 0 then b - b % 2 else 2 * WithoutBit(b / 2, i - 1) + b % 2
  }

  lemma {:induction false} BitOfWith(b: nat, i: nat, j: nat)
    ensures Bit(WithBit(b, i), j) <==> j == i || Bit(b, j)
  {
    if i > 0 && j > 0 {
      BitOfWith(b / 2, i - 1, j - 1);
    }
  }

  lemma {:induction false} BitOfWithout(b: nat, i: nat, j: nat)
    ensures Bit(WithoutBit(b, i), j) <==> j != i && Bit(b, j)
  {
    if i > 0 && j > 0 {
      BitOfWithout(b / 2, i - 1, j - 1);
    }
  }

  /** The pids whose bits are set. */
  function Members(b: nat): (s: set<nat>)
    ensures forall i :: i in s <==> 1 <= i <= MAX_PROCESSES && Bit(b, i)
  {
    set i: nat | 1 <= i <= MAX_PROCESSES && Bit(b, i)
  }

  lemma {:induction false} NoBits(i: nat)
    ensures !Bit(0, i)
  {
    if i > 0 {
      NoBits(i - 1);
    }
  }

  lemma NoMembers()
    ensures Members(0) == {}
  {
    forall i ensures !Bit(0, i) {
      NoBits(i);
    }
  }

  lemma MembersOps(b: nat, i: nat)
    requires 1 <= i <= MAX_PROCESSES
    ensures Members(WithBit(b, i)) == Members(b) + {i}
    ensures Members(WithoutBit(b, i)) == Members(b) - {i}
  {
    forall j ensures Bit(WithBit(b, i), j) <==> j == i || Bit(b, j) {
      BitOfWith(b, i, j);
    }
    forall j ensures Bit(WithoutBit(b, i), j) <==> j != i && Bit(b, j) {
      BitOfWithout(b, i, j);
    }
  }

  /** `get_first_free_pid`: the least clear bit from 1 to 10 is set and returned, -1 if none. */
  method GetFirstFreePid(bits: nat) returns (pid: int, bits': nat)
    ensures pid == -1 <==> Lifecycle.FirstFree(Members(bits), 1) > MAX_PROCESSES
    ensures pid != -1 ==>
              pid == Lifecycle.FirstFree(Members(bits), 1) && Members(bits') == Members(bits) + {pid as nat}
    ensures pid == -1 ==> bits' == bits
  {
    var index: nat := 1;
    // the source tests the bit before the bound; bit 11 is never set
    while index <= MAX_PROCESSES && Bit(bits, index)
      invariant 1 <= index <= MAX_PROCESSES + 1
      invariant Lifecycle.FirstFree(Members(bits), 1) == Lifecycle.FirstFree(Members(bits), index)
    {
      index := index + 1;
    }
    if index > MAX_PROCESSES {
      return -1, bits;
    }
    MembersOps(bits, index);
    return index, WithBit(bits, index);
  }

  // ---------- PCB slots ----------

  const KERNEL_MEM: bv32 := 0x400000
  const OFFSET_4MB: bv32 := 0x400000
  const SLOT_SIZE: bv32 := 0x2000
  const ALIGN_8KB: bv32 := 0xFFFFE000
  const ALIGN_4B: bv32 := 0xFFFFFFFC

  /** `get_pcb_from_pid`, for a pid as a 32-bit word. */
  function PcbOf(pid: bv32): bv32 {
    (KERNEL_MEM + OFFSET_4MB - SLOT_SIZE * pid - 1) & ALIGN_8KB
  }

  /** The initial kernel stack pointer of a pid in `sys_exec_internal`. */
  function KernEsp(pid: bv32): bv32 {
    (KERNEL_MEM + OFFSET_4MB - SLOT_SIZE * pid - 1) & ALIGN_4B
  }

  /** `get_proc_pcb`: the PCB found by masking the stack pointer; 0 is NULL. */
  function ProcPcb(esp: bv32): bv32 {
    var pcb := esp & ALIGN_8KB;
    if pcb == KERNEL_MEM + OFFSET_4MB - SLOT_SIZE then 0 else pcb
  }

  /** Every stack pointer inside the slot of a process finds the PCB of exactly that process. */
  lemma StackFindsPcb(pid: bv32, esp: bv32)
    requires 1 <= pid <= 10
    ensures PcbOf(pid) <= esp <= KernEsp(pid) ==> ProcPcb(esp) == PcbOf(pid)
    ensures ProcPcb(esp) == PcbOf(pid) ==> PcbOf(pid) <= esp < PcbOf(pid) + SLOT_SIZE
  {
  }

  /** Slots of different pids do not overlap and all lie in the kernel page. */
  lemma SlotsDisjoint(p: bv32, q: bv32)
    requires p <= 10 && q <= 10 && p < q
    ensures PcbOf(q) + SLOT_SIZE <= PcbOf(p)
    ensures KERNEL_MEM <= PcbOf(q) && PcbOf(p) + SLOT_SIZE <= KERNEL_MEM + OFFSET_4MB
  {
  }
}
