/** The terminal driver's two sides as the source runs them: the keyboard interrupt that fills
    the key ring, and the loop of `term_read` that empties it into the caller's buffer. */
module Terminals {
  import opened Bytes
  import opened Rings
  import opened LineDiscipline

  class Terminal {
    const keyBuf: Ring<byte>
    /** What the reader has collected of its current line, and the lines returned so far. */
    ghost var prefix: seq<byte>
    ghost var lines: seq<seq<byte>>

    ghost predicate Valid()
      reads this, keyBuf, keyBuf.buf
    {
      keyBuf.Valid() && keyBuf.buf.Length == SLOTS && WellQueued(View())
    }

    ghost function View(): Term
      reads this, keyBuf
    {
      Term(keyBuf.contents, keyBuf.tail, prefix, lines)
    }

    /** `init_ctx` */
    constructor ()
      ensures Valid() && fresh(keyBuf) && fresh(keyBuf.buf) && View() == FRESH
    {
      keyBuf := new Ring<byte>(128);
      prefix, lines := [], [];
    }

    method Enqueue(key: byte) returns (ok: bool)
      requires Valid() && (Printing(key) || View().pending == [])
      modifies keyBuf, keyBuf.buf
      ensures Valid() && View() == Push(old(View()), key)
      ensures ok <==> |old(View()).pending| < KEY_CAPACITY
    {
      ok := keyBuf.Push(key);
    }

    method Dequeue(cur: byte) returns (c: byte, ok: bool)
      requires Valid()
      modifies keyBuf
      ensures Valid() && (ok <==> old(View()).pending != [])
      ensures ok ==> c == old(View()).pending[0] && View() == old(View()).(pending := old(View()).pending[1..])
      ensures !ok ==> c == cur && View() == old(View())
    {
      c, ok := keyBuf.Pop(cur);
    }

    method TakeBack()
      requires Valid() && View().pending != []
      modifies keyBuf
      ensures Valid() && View() == PopTail(old(View()))
    {
      var _, _ := keyBuf.PopTail(0);
    }

    /** A printing key in `term_handle_keypress`; `echo` is what it prints. */
    method TypeKey(key: byte) returns (echo: seq<Out>)
      requires Valid() && Printing(key)
      modifies keyBuf, keyBuf.buf
      ensures Valid() && View() == Next(old(View()), Type(key)) && echo == Echo(old(View()), Type(key))
    {
      var ok := Enqueue(key);
      echo := if ok then [Char(key)] else [];
    }

    /** A backspace */
    method EraseKey(before: byte) returns (echo: seq<Out>)
      requires Valid()
      modifies keyBuf, keyBuf.buf
      ensures Valid() && View() == Next(old(View()), Erase(before)) && echo == Echo(old(View()), Erase(before))
    {
      echo := [];
      var c, ok := keyBuf.PeekTail(0, before);
      if !ok {
        ok := Enqueue(BACKSPACE);
      } else if c == MARK {
        TakeBack();
      } else if c != NEWLINE && c != BACKSPACE {
        TakeBack();
        echo := [Char(BACKSPACE)];
      }
    }

    /** Ctrl-L */
    method ClearKeys() returns (echo: seq<Out>)
      requires Valid()
      modifies keyBuf, keyBuf.buf
      ensures Valid() && View() == Next(old(View()), Clear) && echo == Echo(old(View()), Clear)
    {
      hide Ring.Valid;
      keyBuf.Init();
      var _ := keyBuf.Push(MARK);
      echo := [Wipe];
    }

    /** One keystroke, as an interrupt delivers it. */
    method Keystroke(step: Step) returns (echo: seq<Out>)
      requires Valid() && !step.Read? && Enabled(View(), step)
      modifies keyBuf, keyBuf.buf
      ensures Valid() && View() == Next(old(View()), step) && echo == Echo(old(View()), step)
    {
      match step
      case Type(key) => echo := TypeKey(key);
      case Erase(before) => echo := EraseKey(before);
      case Clear => echo := ClearKeys();
    }

    /** The keystrokes that interrupts deliver while the reader is between two turns. */
    method Deliver(batch: seq<Step>) returns (echo: seq<Out>)
      requires Valid() && Keystrokes(batch)
      modifies keyBuf, keyBuf.buf
      ensures Valid() && View() == Run(old(View()), batch) && echo == Echoes(old(View()), batch)
    {
      hide Ring.Valid, Next, Echo;
      echo := [];
      for i := 0 to |batch|
        invariant Valid() && View() == Run(old(View()), batch[..i]) && echo == Echoes(old(View()), batch[..i])
      {
        RunConcat(old(View()), batch[..i], [batch[i]]);
        EchoConcat(old(View()), batch[..i], [batch[i]]);
        assert batch[..i + 1] == batch[..i] + [batch[i]];
        var more := Keystroke(batch[i]);
        echo := echo + more;
      }
      assert batch[..|batch|] == batch;
    }

    /** What `term_read` does with a key: `buf[..idx]` is the line so far. */
    static method Gather(buf: array<byte>, idx: nat, c: byte) returns (next: nat, echo: seq<Out>)
      requires idx < buf.Length
      modifies buf
      ensures next <= idx + 1 && buf[..next] == Collect(old(buf[..idx]), c)
      ensures echo == if c == BACKSPACE && idx > 0 then [Char(BACKSPACE)] else []
    {
      echo := [];
      if c == BACKSPACE {
        next := idx;
        if idx > 0 {
          next := idx - 1;
          echo := [Char(BACKSPACE)];
        }
      } else if c == MARK {
        next := 0;
      } else {
        buf[idx] := c;
        next := idx + 1;
      }
    }

    /** Record the line so far, as returned if it is `done`. */
    ghost method Record(line: seq<byte>, done: bool)
      requires Valid()
      modifies `prefix, `lines
      ensures Valid() && prefix == (if done then [] else line)
      ensures View() == old(View()).(prefix := prefix, lines := lines)
      ensures lines == if done then old(lines) + [line] else old(lines)
    {
      if done {
        prefix, lines := [], lines + [line];
      } else {
        prefix := line;
      }
    }

    /** One turn of the loop in `term_read`. */
    method Turn(buf: array<byte>, idx: nat, nbytes: nat, cur: byte) returns (c: byte, next: nat, echo: seq<Out>)
      requires Valid() && buf != keyBuf.buf && idx < nbytes <= buf.Length && buf[..idx] == prefix && cur != NEWLINE
      modifies this, keyBuf, buf
      ensures Valid() && View() == Next(old(View()), Read(nbytes)) && echo == Echo(old(View()), Read(nbytes))
      ensures next <= nbytes
      ensures if c == NEWLINE || next == nbytes then lines == old(lines) + [buf[..next]] && prefix == []
              else lines == old(lines) && buf[..next] == prefix
    {
      var ok;
      c, ok := Dequeue(cur);
      next, echo := idx, [];
      if ok {
        next, echo := Gather(buf, idx, c);
      }
      Record(buf[..next], c == NEWLINE || next >= nbytes);
    }

    /** `term_read`, interrupted before turn `k` by the keystrokes `arrivals[k]`.  It runs until
        the line is complete or the arrivals end with the reader still asleep. */
    method TermRead(buf: array<byte>, nbytes: nat, arrivals: seq<seq<Step>>)
      returns (n: nat, turns: nat, complete: bool, echo: seq<Out>)
      requires Valid() && prefix == [] && buf != keyBuf.buf && 1 <= nbytes <= buf.Length
      requires forall k :: 0 <= k < |arrivals| ==> Keystrokes(arrivals[k])
      modifies this, keyBuf, keyBuf.buf, buf
      ensures Valid() && turns <= |arrivals| && n <= nbytes
      ensures View() == Run(old(View()), Interleaved(arrivals[..turns], nbytes))
      ensures echo == Echoes(old(View()), Interleaved(arrivals[..turns], nbytes))
      ensures complete ==> lines == old(lines) + [buf[..n]] && prefix == []
      ensures !complete ==> lines == old(lines) && buf[..n] == prefix && turns == |arrivals|
    {
      var c: byte := 0;
      n, turns, complete, echo := 0, 0, false, [];
      while !complete && turns < |arrivals|
        invariant Valid() && turns <= |arrivals| && n <= nbytes && (!complete ==> n < nbytes && c != NEWLINE)
        invariant View() == Run(old(View()), Interleaved(arrivals[..turns], nbytes))
        invariant echo == Echoes(old(View()), Interleaved(arrivals[..turns], nbytes))
        invariant complete ==> lines == old(lines) + [buf[..n]] && prefix == []
        invariant !complete ==> lines == old(lines) && buf[..n] == prefix
      {
        ghost var t := View();
        var keys := Deliver(arrivals[turns]);
        DeliverKeeps(t, arrivals[turns]);
        var reader;
        c, n, reader := Turn(buf, n, nbytes, c);
        echo := echo + keys + reader;
        complete := c == NEWLINE || n >= nbytes;
        InterleaveTurn(old(View()), arrivals, turns, nbytes);
        turns := turns + 1;
      }
    }
  }

  predicate Keystrokes(batch: seq<Step>) {
    forall i :: 0 <= i < |batch| ==> !batch[i].Read? && (batch[i].Type? ==> Printing(batch[i].key))
  }

  /** The steps of a read: before each turn of the reader, the keystrokes that arrived. */
  function Interleaved(arrivals: seq<seq<Step>>, nbytes: nat): seq<Step> {
    if arrivals == [] then []
    else Interleaved(arrivals[..|arrivals| - 1], nbytes) + arrivals[|arrivals| - 1] + [Read(nbytes)]
  }

  lemma InterleaveTurn(t: Term, arrivals: seq<seq<Step>>, k: nat, nbytes: nat)
    requires t.tail < SLOTS && k < |arrivals|
    ensures Run(t, Interleaved(arrivals[..k + 1], nbytes)) ==
            Next(Run(Run(t, Interleaved(arrivals[..k], nbytes)), arrivals[k]), Read(nbytes))
    ensures var t1 := Run(t, Interleaved(arrivals[..k], nbytes));
            Echoes(t, Interleaved(arrivals[..k + 1], nbytes)) ==
            Echoes(t, Interleaved(arrivals[..k], nbytes)) + Echoes(t1, arrivals[k])
            + Echo(Run(t1, arrivals[k]), Read(nbytes))
  {
    assert arrivals[..k + 1][..k] == arrivals[..k];
    var steps := Interleaved(arrivals[..k], nbytes);
    RunConcat(t, steps + arrivals[k], [Read(nbytes)]);
    RunConcat(t, steps, arrivals[k]);
    EchoConcat(t, steps + arrivals[k], [Read(nbytes)]);
    EchoConcat(t, steps, arrivals[k]);
  }

  /** Keystrokes do not touch what the reader has collected or returned. */
  lemma {:induction false} DeliverKeeps(t: Term, batch: seq<Step>)
    requires t.tail < SLOTS && Keystrokes(batch)
    ensures Run(t, batch).prefix == t.prefix && Run(t, batch).lines == t.lines
    decreases |batch|
  {
    if batch != [] {
      DeliverKeeps(Next(t, batch[0]), batch[1..]);
    }
  }
}
