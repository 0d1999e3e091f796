/** What the echo leaves on the screen (term.c): the line since the last newline or clear, as typed
    keys and the reader's backspaces leave it, against the line that the keys mean. */
module Echoing {
  import opened Options
  import opened Bytes
  import opened LineDiscipline

  /** The line the cursor is on after one character; None once a backspace has left it. */
  function Show(line: Option<seq<byte>>, out: Out): Option<seq<byte>> {
    if out.Wipe? then Some([])
    else if line.None? then None
    else if out.c == NEWLINE then Some([])
    else if out.c != BACKSPACE then Some(line.value + [out.c])
    else if line.value == [] then None
    else Some(DropLast(line.value))
  }

  function ShowAll(line: Option<seq<byte>>, outs: seq<Out>): Option<seq<byte>>
    decreases |outs|
  {
    if outs == [] then line else ShowAll(Show(line, outs[0]), outs[1..])
  }

  /** What should be there: the pending keys typed behind the reader's line, without a queued
      backspace, which the reader has still to echo. */
  function OnScreen(t: Term): seq<byte> {
    EditAll(Text(t.lines, t.prefix), Typable(t.pending)).cur
  }

  function Typable(pending: seq<byte>): seq<byte> {
    if pending != [] && pending[0] == BACKSPACE then pending[1..] else pending
  }

  predicate Plain(q: seq<byte>) {
    forall i :: 0 <= i < |q| ==> Printing(q[i])
  }

  /** Keys without a newline lengthen the line; with one, what was there before does not matter. */
  lemma {:induction false} LineOf(e: Text, f: Text, q: seq<byte>)
    requires Plain(q)
    ensures NEWLINE !in q ==> EditAll(e, q).cur == e.cur + q
    ensures NEWLINE in q ==> EditAll(e, q).cur == EditAll(f, q).cur
    decreases |q|
  {
    if q == [] {
      assert e.cur + q == e.cur;
    } else if q[0] == NEWLINE && NEWLINE !in q[1..] {
      LineOf(Edit(e, q[0]), Edit(f, q[0]), q[1..]);
      LineOf(Edit(f, q[0]), Edit(e, q[0]), q[1..]);
      assert Edit(e, q[0]).cur == Edit(f, q[0]).cur;
    } else {
      LineOf(Edit(e, q[0]), Edit(f, q[0]), q[1..]);
      assert q == [q[0]] + q[1..];
      assert e.cur + q == e.cur + [q[0]] + q[1..];
    }
  }

  // ---------- guards ----------

  /** Where the echo keeps up with the keys; each case is a test on the state before. */
  predicate EchoGuard(t: Term, step: Step)
    requires t.tail < SLOTS
  {
    match step
    case Erase(before) =>
      t.pending != [] && Retracts(t, before) ==>
        var last := t.pending[|t.pending| - 1];
        if Printing(last) && last != NEWLINE then Seen(t, before) != MARK
        else
          // the key taken back had no place on the line
          && Seen(t, before) == MARK
          && (last == MARK ==> t.prefix == [])
          && (last == NEWLINE ==> OnScreen(PopTail(t)) == [])
    case Read(nbytes) =>
      t.pending != [] ==>
        var c, rest := t.pending[0], t.pending[1..];
        if c == BACKSPACE then
          // the reader's echo erases the last key on the screen, not the one before the backspace
          t.prefix != [] ==> forall i :: 0 <= i < |rest| ==> rest[i] == t.prefix[|t.prefix| - 1] && rest[i] != NEWLINE
        else Printing(c) && c != NEWLINE && |t.prefix| + 1 >= nbytes ==> NEWLINE in rest
    case _ => true
  }

  // ---------- proofs ----------

  lemma TypeEcho(t: Term, key: byte)
    requires WellQueued(t) && Printing(key)
    ensures ShowAll(Some(OnScreen(t)), Echo(t, Type(key))) == Some(OnScreen(Next(t, Type(key))))
  {
    if |t.pending| < KEY_CAPACITY {
      EditAppend(Text(t.lines, t.prefix), Typable(t.pending), key);
      assert Typable(t.pending + [key]) == Typable(t.pending) + [key];
    }
  }

  lemma EraseEcho(t: Term, before: byte)
    requires WellQueued(t)
    ensures ShowAll(Some(OnScreen(t)), Echo(t, Erase(before))) == Some(OnScreen(Next(t, Erase(before)))) <==>
            EchoGuard(t, Erase(before))
  {
    if t.pending == [] {
      assert Typable([BACKSPACE]) == [];
    } else if Retracts(t, before) {
      var n, e := |t.pending|, Text(t.lines, t.prefix);
      var front, last := t.pending[..n - 1], t.pending[n - 1];
      assert t.pending == front + [last];
      if n > 1 || last != BACKSPACE {
        assert Typable(t.pending) == Typable(front) + [last];
        EditAppend(e, Typable(front), last);
      } else {
        assert Typable(t.pending) == [] == Typable(front);
      }
    }
  }

  lemma ReadEcho(t: Term, nbytes: nat)
    requires WellQueued(t) && |t.prefix| < nbytes
    ensures ShowAll(Some(OnScreen(t)), Echo(t, Read(nbytes))) == Some(OnScreen(Next(t, Read(nbytes)))) <==>
            EchoGuard(t, Read(nbytes))
  {
    if t.pending != [] {
      var c, rest, e := t.pending[0], t.pending[1..], Text(t.lines, t.prefix);
      assert Plain(rest) && Typable(rest) == rest;
      if c == BACKSPACE {
        QueuedErase(t, nbytes);
      } else if Printing(c) && c != NEWLINE {
        var cut := Text(t.lines + [t.prefix + [c]], []);
        LineOf(Edit(e, c), cut, rest);
        LineOf(cut, Edit(e, c), rest);
      }
    }
  }

  /** The reader takes out a queued backspace. */
  lemma QueuedErase(t: Term, nbytes: nat)
    requires WellQueued(t) && |t.prefix| < nbytes && t.pending != [] && t.pending[0] == BACKSPACE
    ensures ShowAll(Some(OnScreen(t)), Echo(t, Read(nbytes))) == Some(OnScreen(Next(t, Read(nbytes)))) <==>
            EchoGuard(t, Read(nbytes))
  {
    var rest := t.pending[1..];
    var e, f := Text(t.lines, t.prefix), Text(t.lines, DropLast(t.prefix));
    LineOf(e, f, rest);
    LineOf(f, e, rest);
    if t.prefix != [] && NEWLINE !in rest {
      Slides(t.prefix, rest);
    }
  }

  /** Erasing the end of a text and erasing a letter further in come to the same exactly when all
      letters from there on are equal. */
  lemma Slides(prefix: seq<byte>, rest: seq<byte>)
    requires prefix != []
    ensures DropLast(prefix + rest) == DropLast(prefix) + rest <==>
            forall i :: 0 <= i < |rest| ==> rest[i] == prefix[|prefix| - 1]
  {
    var p, a, b := |prefix|, DropLast(prefix + rest), DropLast(prefix) + rest;
    if a == b {
      AllSame(prefix, rest, |rest|);
    }
  }

  lemma {:induction false} AllSame(prefix: seq<byte>, rest: seq<byte>, n: nat)
    requires prefix != [] && DropLast(prefix + rest) == DropLast(prefix) + rest && n <= |rest|
    ensures forall i :: 0 <= i < n ==> rest[i] == prefix[|prefix| - 1]
  {
    if n > 0 {
      AllSame(prefix, rest, n - 1);
      var at := |prefix| - 1 + (n - 1);
      assert DropLast(prefix + rest)[at] == (prefix + rest)[at];
      assert (DropLast(prefix) + rest)[at] == rest[n - 1];
    }
  }

  /** After a step the line on the screen is again what the terminal stands for if and only if the
      step's guard holds. */
  lemma EchoExact(t: Term, step: Step)
    requires WellQueued(t) && Enabled(t, step)
    ensures ShowAll(Some(OnScreen(t)), Echo(t, step)) == Some(OnScreen(Next(t, step))) <==> EchoGuard(t, step)
  {
    match step
    case Type(key) => TypeEcho(t, key);
    case Erase(before) => EraseEcho(t, before);
    case Clear =>
      assert [MARK][1..] == [];
      assert EditAll(Text(t.lines, t.prefix), [MARK]) == EditAll(Text(t.lines, []), []);
    case Read(nbytes) => ReadEcho(t, nbytes);
  }

  // ---------- runs ----------

  predicate EchoGuarded(t: Term, steps: seq<Step>)
    requires t.tail < SLOTS
    decreases |steps|
  {
    steps == [] || (EchoGuard(t, steps[0]) && EchoGuarded(Next(t, steps[0]), steps[1..]))
  }

  /** The line on the screen is what the terminal stands for, after every step of the run. */
  predicate ShownThroughout(t: Term, line: Option<seq<byte>>, steps: seq<Step>)
    requires t.tail < SLOTS
    decreases |steps|
  {
    && line == Some(OnScreen(t))
    && (steps == [] || ShownThroughout(Next(t, steps[0]), ShowAll(line, Echo(t, steps[0])), steps[1..]))
  }

  /** For every interleaving, the echo keeps up throughout if and only if every step's guard holds. */
  lemma {:induction false} EchoRun(t: Term, steps: seq<Step>)
    requires WellQueued(t) && AllEnabled(t, steps)
    ensures ShownThroughout(t, Some(OnScreen(t)), steps) <==> EchoGuarded(t, steps)
    decreases |steps|
  {
    if steps != [] {
      EchoExact(t, steps[0]);
      QueuedStep(t, steps[0]);
      EchoRun(Next(t, steps[0]), steps[1..]);
    }
  }

  lemma {:induction false} ShownAfter(t: Term, line: Option<seq<byte>>, steps: seq<Step>)
    requires t.tail < SLOTS && ShownThroughout(t, line, steps)
    ensures ShowAll(line, Echoes(t, steps)) == Some(OnScreen(Run(t, steps)))
    decreases |steps|
  {
    if steps != [] {
      ShowConcat(line, Echo(t, steps[0]), Echoes(Next(t, steps[0]), steps[1..]));
      ShownAfter(Next(t, steps[0]), ShowAll(line, Echo(t, steps[0])), steps[1..]);
    }
  }

  lemma {:induction false} ShowConcat(line: Option<seq<byte>>, a: seq<Out>, b: seq<Out>)
    ensures ShowAll(line, a + b) == ShowAll(ShowAll(line, a), b)
    decreases |a|
  {
    if a == [] {
      assert a + b == b;
    } else {
      assert (a + b)[1..] == a[1..] + b;
      ShowConcat(Show(line, a[0]), a[1..], b);
    }
  }

  lemma {:induction false} GuardedEnabled(t: Term, steps: seq<Step>)
    requires t.tail < SLOTS && Guarded(t, steps)
    ensures AllEnabled(t, steps)
    decreases |steps|
  {
    if steps != [] {
      GuardedEnabled(Next(t, steps[0]), steps[1..]);
    }
  }

  /** In a session within both kinds of guards, once nothing is pending, what stands on the screen
      since the last newline is the line the reader has collected, which is the edited line. */
  lemma WhatYouSee(steps: seq<Step>)
    requires Guarded(FRESH, steps) && EchoGuarded(FRESH, steps)
    ensures var t := Run(FRESH, steps);
            t.pending == [] ==>
              && ShowAll(Some([]), Echoes(FRESH, steps)) == Some(t.prefix)
              && t.prefix == EditAll(Text([], []), Typed(FRESH, steps)).cur
  {
    GuardedEnabled(FRESH, steps);
    assert OnScreen(FRESH) == [];
    EchoRun(FRESH, steps);
    ShownAfter(FRESH, Some([]), steps);
    ReturnedLines(steps);
  }

  /** The guard is needed: a backspace queued behind a letter the reader has, then another letter
      typed before the reader's turn.  The line is the second letter; the screen shows the first. */
  lemma WrongLetterErased()
    ensures var steps := [Type(97), Read(8), Erase(0), Type(98), Read(8), Read(8)];
            && Guarded(FRESH, steps) && Run(FRESH, steps).pending == [] && Run(FRESH, steps).prefix == [98]
            && ShowAll(Some([]), Echoes(FRESH, steps)) == Some([97])
  {
    hide Run, Echoes, Guarded;
    var r2, r4 := [Erase(0), Type(98), Read(8), Read(8)], [Read(8), Read(8)];
    LetterRead(r2);
    assert [Type(97)] + ([Read(8)] + r2) == [Type(97), Read(8), Erase(0), Type(98), Read(8), Read(8)];
    BackspaceQueued(r4);
    assert [Erase(0)] + ([Type(98)] + r4) == r2;
    BothRead();
    ThreeEchoes();
  }

  const ONE_READ := Term([], 1, [97], [])
  const BOTH_QUEUED := Term([BACKSPACE, 98], 3, [97], [])

  lemma LetterRead(rest: seq<Step>)
    ensures var steps := [Type(97)] + ([Read(8)] + rest);
            && Run(FRESH, steps) == Run(ONE_READ, rest)
            && Echoes(FRESH, steps) == [Char(97)] + Echoes(ONE_READ, rest)
            && (Guarded(FRESH, steps) <==> Guarded(ONE_READ, rest))
  {
    var t1 := Term([97], 1, [], []);
    OneStep(FRESH, Type(97), t1, [Read(8)] + rest);
    OneStep(t1, Read(8), ONE_READ, rest);
    assert Echo(t1, Read(8)) == [];
  }

  lemma BackspaceQueued(rest: seq<Step>)
    ensures var steps := [Erase(0)] + ([Type(98)] + rest);
            && Run(ONE_READ, steps) == Run(BOTH_QUEUED, rest)
            && Echoes(ONE_READ, steps) == [Char(98)] + Echoes(BOTH_QUEUED, rest)
            && (Guarded(ONE_READ, steps) <==> Guarded(BOTH_QUEUED, rest))
  {
    var t3 := Term([BACKSPACE], 2, [97], []);
    OneStep(ONE_READ, Erase(0), t3, [Type(98)] + rest);
    OneStep(t3, Type(98), BOTH_QUEUED, rest);
    assert Echo(ONE_READ, Erase(0)) == [];
  }

  lemma BothRead()
    ensures var steps := [Read(8), Read(8)];
            && Run(BOTH_QUEUED, steps) == Term([], 3, [98], [])
            && Echoes(BOTH_QUEUED, steps) == [Char(BACKSPACE)] && Guarded(BOTH_QUEUED, steps)
  {
    var t5 := Term([98], 3, [], []);
    OneStep(BOTH_QUEUED, Read(8), t5, [Read(8)]);
    OneStep(t5, Read(8), Term([], 3, [98], []), []);
    assert [Read(8)] + [Read(8)] == [Read(8), Read(8)] && [Read(8)] + [] == [Read(8)];
    assert Echo(t5, Read(8)) == [];
  }

  lemma OneStep(t: Term, step: Step, t': Term, rest: seq<Step>)
    requires t.tail < SLOTS && Next(t, step) == t' && Enabled(t, step) && Guard(t, step)
    ensures t'.tail < SLOTS && Run(t, [step] + rest) == Run(t', rest)
    ensures Echoes(t, [step] + rest) == Echo(t, step) + Echoes(t', rest)
    ensures Guarded(t, [step] + rest) <==> Guarded(t', rest)
  {
    assert ([step] + rest)[1..] == rest;
  }

  lemma ThreeEchoes()
    ensures ShowAll(Some([]), [Char(97), Char(98), Char(BACKSPACE)]) == Some([97])
  {
    var outs := [Char(97), Char(98), Char(BACKSPACE)];
    assert outs[1..] == [Char(98), Char(BACKSPACE)] && outs[1..][1..] == [Char(BACKSPACE)];
    assert ShowAll(Some([97, 98]), [Char(BACKSPACE)]) == Some([97]) by {
      assert DropLast([97, 98]) == [97] && [Char(BACKSPACE)][1..] == [];
    }
    var none: seq<byte> := [];
    assert none + [97] == [97] && Show(Some(none), outs[0]) == Some([97]);
    assert ShowAll(Some([97]), outs[1..]) == ShowAll(Some([97, 98]), [Char(BACKSPACE)]) by {
      assert [97] + [98] == [97, 98];
    }
  }
}
