/** The circular buffer macros of queue.h.

    `CIRC_BUF_TYPE(type, size)` declares `size + 1` slots and two pointers, `head` and `tail`,
    which are slot indices here.  The buffer refines a deque that holds at most `size - 1`
    elements: `CIRC_BUF_FULL` already answers true two slots short of the array length. */
module Rings {

  /** The slot after `p`. */
  function Inc(p: nat, n: nat): nat
    requires p < n
  {
    if p + 1 == n then 0 else p + 1
  }

  /** The slot before `p`. */
  function Dec(p: nat, n: nat): nat
    requires p < n
  {
    if p == 0 then n - 1 else p - 1
  }

  /** How many steps lead from slot `b` to slot `a`. */
  function Diff(a: nat, b: nat, n: nat): nat
    requires a < n && b < n
  {
    if b <= a then a - b else a - b + n
  }

  /** `BUF_PTR_INC`, `BUF_PTR_DEC` and `BUF_PTR_DIFF` compute these by remainders. */
  lemma PointerMacros(p: nat, q: nat, n: nat)
    requires p < n && q < n
    ensures (p + 1) % n == Inc(p, n)
    ensures (p - 1 + n) % n == Dec(p, n)
    ensures (p - q + n) % n == Diff(p, q, n)
  {
    ModOnce(p + 1, n);
    ModOnce(p - 1 + n, n);
    ModOnce(p - q + n, n);
  }

  lemma ModOnce(x: nat, n: nat)
    requires 0 < n && x < 2 * n
    ensures x % n == if x < n then x else x - n
  {
    if n <= x {
      assert x == n * 1 + (x - n);
    }
  }

  class Ring<T(0)> {
    const buf: array<T>
    var head: nat
    var tail: nat

    /** The queued elements, oldest first. */
    ghost var contents: seq<T>

    ghost predicate Valid()
      reads this, buf
    {
      && 2 <= buf.Length
      && head < buf.Length && tail < buf.Length
      && |contents| == Diff(tail, head, buf.Length) <= buf.Length - 2
      && contents == if head <= tail then buf[head..tail] else buf[head..] + buf[..tail]
    }

    ghost function Capacity(): int {
      buf.Length - 2
    }

    /** A ring declared with `size`, after `CIRC_BUF_INIT`. */
    constructor (size: nat)
      requires 1 <= size
      ensures Valid() && fresh(buf)
      ensures contents == [] && Capacity() == size - 1 && tail == 0
    {
      buf := new T[size + 1];
      head, tail, contents := 0, 0, [];
    }

    /** `CIRC_BUF_INIT` */
    method Init()
      requires Valid()
      modifies this
      ensures Valid() && contents == [] && tail == 0
    {
      head, tail, contents := 0, 0, [];
    }

    /** `CIRC_BUF_FULL` */
    predicate Full()
      requires Valid()
      reads this, buf
      ensures Full() <==> |contents| == Capacity()
    {
      Diff(tail, head, buf.Length) == buf.Length - 2
    }

    /** `CIRC_BUF_EMPTY` */
    predicate Empty()
      requires Valid()
      reads this, buf
      ensures Empty() <==> contents == []
    {
      Diff(tail, head, buf.Length) == 0
    }

    /** `CIRC_BUF_PUSH` */
    method Push(val: T) returns (ok: bool)
      requires Valid()
      modifies this, buf
      ensures Valid()
      ensures ok <==> |old(contents)| < Capacity()
      ensures contents == if ok then old(contents) + [val] else old(contents)
      ensures tail == if ok then Inc(old(tail), buf.Length) else old(tail)
    {
      if Full() {
        return false;
      }
      buf[tail] := val;
      tail := Inc(tail, buf.Length);
      contents := contents + [val];
      ok := true;
    }

    /** `CIRC_BUF_POP`; `cur` is the target's value before the macro runs. */
    method Pop(cur: T) returns (val: T, ok: bool)
      requires Valid()
      modifies this
      ensures Valid()
      ensures ok <==> old(contents) != []
      ensures ok ==> val == old(contents)[0] && contents == old(contents)[1..]
      ensures !ok ==> val == cur && contents == []
      ensures tail == old(tail)
    {
      if Empty() {
        return cur, false;
      }
      val := buf[head];
      head := Inc(head, buf.Length);
      contents := contents[1..];
      ok := true;
    }

    /** `CIRC_BUF_POP_TAIL` */
    method PopTail(cur: T) returns (val: T, ok: bool)
      requires Valid()
      modifies this
      ensures Valid()
      ensures ok <==> old(contents) != []
      ensures ok ==>
                val == old(contents)[|old(contents)| - 1] && contents == old(contents)[..|old(contents)| - 1]
      ensures !ok ==> val == cur && contents == []
      ensures tail == if ok then Dec(old(tail), buf.Length) else old(tail)
    {
      if Empty() {
        return cur, false;
      }
      tail := Dec(tail, buf.Length);
      val := buf[tail];
      contents := contents[..|contents| - 1];
      ok := true;
    }

    /** `CIRC_BUF_PEEK` */
    method Peek(cur: T) returns (val: T, ok: bool)
      requires Valid()
      ensures ok <==> contents != []
      ensures val == if ok then contents[0] else cur
    {
      if Empty() {
        return cur, false;
      }
      return buf[head], true;
    }

    /** `CIRC_BUF_PEEK_TAIL`.  The macro reads `*(tail - 1)` without wrapping, so with the tail
        at slot 0 it reads `before`, the element-sized bytes that precede the array. */
    method PeekTail(cur: T, before: T) returns (val: T, ok: bool)
      requires Valid()
      ensures ok <==> contents != []
      ensures val == if !ok then cur else if tail == 0 then before else contents[|contents| - 1]
    {
      if Empty() {
        return cur, false;
      }
      return if tail == 0 then before else buf[tail - 1], true;
    }
  }
}
