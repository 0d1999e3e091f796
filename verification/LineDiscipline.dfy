/** The terminal's line discipline: keystrokes enter a ring in interrupt context, `term_read`
    takes them out one at a time (term.c).  The ring, the reader's unfinished line and the lines
    it has returned together mean what a plain left-to-right edit of the keystrokes means,
    exactly as long as the guards below hold. */
module LineDiscipline {
  import opened Bytes
  import Rings

  /** `KBD_KEY_NULL`, queued by a screen clear. */
  const MARK: byte := 0
  /** A ring declared with `KBD_BUF_SIZE` = 128 has 129 slots and holds 127 keys. */
  const SLOTS := 129
  const KEY_CAPACITY := 127

  /** `pending` and `tail` are the ring's contents and tail slot, `prefix` what the reader has
      collected of its current line, `lines` what it has returned. */
  datatype Term = Term(pending: seq<byte>, tail: nat, prefix: seq<byte>, lines: seq<seq<byte>>)

  const FRESH := Term([], 0, [], [])

  /** A printing key or newline, a backspace, Ctrl-L, and one turn of the reader's loop.
      `before` is the byte in front of the ring's array, which a peek at slot 0 reads. */
  datatype Step = Type(key: byte) | Erase(before: byte) | Clear | Read(nbytes: nat)

  predicate Printing(key: byte) {
    key != BACKSPACE && key != MARK
  }

  predicate Enabled(t: Term, step: Step) {
    match step
    case Type(key) => Printing(key)
    case Read(nbytes) => |t.prefix| < nbytes
    case _ => true
  }

  // ---------- the source ----------

  function Push(t: Term, key: byte): Term
    requires t.tail < SLOTS
  {
    if |t.pending| == KEY_CAPACITY then t
    else t.(pending := t.pending + [key], tail := Rings.Inc(t.tail, SLOTS))
  }

  function PopTail(t: Term): Term
    requires t.tail < SLOTS && t.pending != []
  {
    t.(pending := t.pending[..|t.pending| - 1], tail := Rings.Dec(t.tail, SLOTS))
  }

  /** What `CIRC_BUF_PEEK_TAIL` sees. */
  function Seen(t: Term, before: byte): byte
    requires t.pending != []
  {
    if t.tail == 0 then before else t.pending[|t.pending| - 1]
  }

  /** Whether a backspace takes a key back out of the ring. */
  predicate Retracts(t: Term, before: byte)
    requires t.pending != []
  {
    Seen(t, before) != NEWLINE && Seen(t, before) != BACKSPACE
  }

  /** The reader's buffer after one character. */
  function Collect(prefix: seq<byte>, c: byte): seq<byte> {
    if c == BACKSPACE then DropLast(prefix) else if c == MARK then [] else prefix + [c]
  }

  function DropLast(s: seq<byte>): seq<byte> {
    if s == [] then [] else s[..|s| - 1]
  }

  /** One turn of the loop in `term_read`; an empty ring makes it sleep. */
  function ReadStep(t: Term, nbytes: nat): Term {
    if t.pending == [] then t else
      var c, prefix := t.pending[0], Collect(t.prefix, t.pending[0]);
      var t1 := t.(pending := t.pending[1..]);
      if c == NEWLINE || |prefix| >= nbytes then t1.(prefix := [], lines := t.lines + [prefix])
      else t1.(prefix := prefix)
  }

  function Next(t: Term, step: Step): (t': Term)
    requires t.tail < SLOTS
    ensures t'.tail < SLOTS
  {
    match step
    case Type(key) => Push(t, key)
    case Erase(before) =>
      if t.pending == [] then Push(t, BACKSPACE) else if Retracts(t, before) then PopTail(t) else t
    case Clear => t.(pending := [MARK], tail := 1)
    case Read(nbytes) => ReadStep(t, nbytes)
  }

  /** What goes to the screen: a character for `term_putc`, or Ctrl-L's clear. */
  datatype Out = Char(c: byte) | Wipe

  /** What a step echoes: an accepted key, a backspace for a key that is taken back, and the reader's
      own backspace when it takes a queued one out. */
  function Echo(t: Term, step: Step): seq<Out> {
    match step
    case Type(key) => if |t.pending| == KEY_CAPACITY then [] else [Char(key)]
    case Erase(before) =>
      if t.pending != [] && Retracts(t, before) && Seen(t, before) != MARK then [Char(BACKSPACE)] else []
    case Clear => [Wipe]
    case Read(_) => if t.pending != [] && t.pending[0] == BACKSPACE && t.prefix != [] then [Char(BACKSPACE)] else []
  }

  // ---------- the plain editor ----------

  datatype Text = Text(done: seq<seq<byte>>, cur: seq<byte>)

  function Edit(e: Text, key: byte): Text {
    if key == NEWLINE then Text(e.done + [e.cur + [NEWLINE]], []) else e.(cur := Collect(e.cur, key))
  }

  /** The keystroke a step contributes: a key the full ring refuses is not one, nor is a read. */
  function Keys(t: Term, step: Step): seq<byte> {
    match step
    case Type(key) => if |t.pending| == KEY_CAPACITY then [] else [key]
    case Erase(_) => [BACKSPACE]
    case Clear => [MARK]
    case Read(_) => []
  }

  function EditAll(e: Text, keys: seq<byte>): Text
    decreases |keys|
  {
    if keys == [] then e else EditAll(Edit(e, keys[0]), keys[1..])
  }

  /** The text a terminal stands for: the pending keys edit the reader's line. */
  function Meaning(t: Term): Text {
    EditAll(Text(t.lines, t.prefix), t.pending)
  }

  // ---------- guards ----------

  /** Backspaces and clear marks are queued only into an empty ring. */
  predicate WellQueued(t: Term) {
    t.tail < SLOTS && |t.pending| <= KEY_CAPACITY && forall i :: 0 < i < |t.pending| ==> Printing(t.pending[i])
  }

  predicate EraseGuard(t: Term, before: byte) {
    t.pending == [] ||
    var last := t.pending[|t.pending| - 1];
    if last == NEWLINE then !Retracts(t, before)
    else if last == BACKSPACE then |t.prefix| <= if Retracts(t, before) then 0 else 1
    else if last == MARK then Retracts(t, before) ==> t.prefix == []
    else Retracts(t, before)
  }

  predicate Guard(t: Term, step: Step) {
    match step
    case Type(_) => true
    case Erase(before) => EraseGuard(t, before)
    case Clear => NEWLINE !in t.pending
    case Read(nbytes) =>
      t.pending != [] && Printing(t.pending[0]) && t.pending[0] != NEWLINE ==> |t.prefix| + 1 < nbytes
  }

  // ---------- proofs ----------

  lemma {:induction false} EditAppend(e: Text, q: seq<byte>, c: byte)
    ensures EditAll(e, q + [c]) == Edit(EditAll(e, q), c)
    decreases |q|
  {
    if q != [] {
      assert (q + [c])[1..] == q[1..] + [c];
      EditAppend(Edit(e, q[0]), q[1..], c);
    }
  }

  /** Editing only ever appends finished lines, one per newline. */
  lemma {:induction false} EditGrows(e: Text, q: seq<byte>)
    ensures e.done <= EditAll(e, q).done
    ensures |EditAll(e, q).done| == |e.done| <==> NEWLINE !in q
    decreases |q|
  {
    if q != [] {
      assert q == [q[0]] + q[1..];
      EditGrows(Edit(e, q[0]), q[1..]);
    }
  }

  /** Finishing a line early shows: the number of finished lines differs for good. */
  lemma {:induction false} EditCounts(e: Text, f: Text, q: seq<byte>)
    ensures |EditAll(e, q).done| - |EditAll(f, q).done| == |e.done| - |f.done|
    decreases |q|
  {
    if q != [] {
      EditCounts(Edit(e, q[0]), Edit(f, q[0]), q[1..]);
    }
  }

  lemma QueuedStep(t: Term, step: Step)
    requires WellQueued(t) && Enabled(t, step)
    ensures WellQueued(Next(t, step))
  {
  }

  lemma EraseExact(t: Term, before: byte)
    requires WellQueued(t)
    ensures Meaning(Next(t, Erase(before))) == Edit(Meaning(t), BACKSPACE) <==> EraseGuard(t, before)
  {
    var e := Text(t.lines, t.prefix);
    if t.pending == [] {
      EditAppend(e, [], BACKSPACE);
    } else {
      var front, last := t.pending[..|t.pending| - 1], t.pending[|t.pending| - 1];
      assert t.pending == front + [last];
      EditAppend(e, front, last);
      if !Printing(last) {
        assert front == [];
      }
    }
  }

  lemma ClearExact(t: Term)
    requires WellQueued(t)
    ensures Meaning(Next(t, Clear)) == Edit(Meaning(t), MARK) <==> NEWLINE !in t.pending
  {
    EditGrows(Text(t.lines, t.prefix), t.pending);
    assert EditAll(Text(t.lines, t.prefix), [MARK]) == Text(t.lines, []);
  }

  lemma ReadExact(t: Term, nbytes: nat)
    requires WellQueued(t) && |t.prefix| < nbytes
    ensures Meaning(Next(t, Read(nbytes))) == Meaning(t) <==> Guard(t, Read(nbytes))
  {
    if t.pending != [] {
      var t' := Next(t, Read(nbytes));
      EditCounts(Text(t'.lines, t'.prefix), Edit(Text(t.lines, t.prefix), t.pending[0]), t.pending[1..]);
    }
  }

  /** A step means what its keystrokes mean to the editor exactly when its guard holds. */
  lemma StepExact(t: Term, step: Step)
    requires WellQueued(t) && Enabled(t, step)
    ensures Meaning(Next(t, step)) == EditAll(Meaning(t), Keys(t, step)) <==> Guard(t, step)
  {
    match step
    case Type(key) => EditAppend(Text(t.lines, t.prefix), t.pending, key);
    case Erase(before) => EraseExact(t, before);
    case Clear => ClearExact(t);
    case Read(nbytes) => ReadExact(t, nbytes);
  }

  // ---------- runs ----------

  function Run(t: Term, steps: seq<Step>): (t': Term)
    requires t.tail < SLOTS
    ensures t'.tail < SLOTS
    decreases |steps|
  {
    if steps == [] then t else Run(Next(t, steps[0]), steps[1..])
  }

  /** What a run echoes, in order. */
  function Echoes(t: Term, steps: seq<Step>): seq<Out>
    requires t.tail < SLOTS
    decreases |steps|
  {
    if steps == [] then [] else Echo(t, steps[0]) + Echoes(Next(t, steps[0]), steps[1..])
  }

  /** The accepted keystrokes of a run, in order. */
  function Typed(t: Term, steps: seq<Step>): seq<byte>
    requires t.tail < SLOTS
    decreases |steps|
  {
    if steps == [] then [] else Keys(t, steps[0]) + Typed(Next(t, steps[0]), steps[1..])
  }

  predicate Guarded(t: Term, steps: seq<Step>)
    requires t.tail < SLOTS
    decreases |steps|
  {
    steps == [] || (Enabled(t, steps[0]) && Guard(t, steps[0]) && Guarded(Next(t, steps[0]), steps[1..]))
  }

  lemma {:induction false} RunConcat(t: Term, a: seq<Step>, b: seq<Step>)
    requires t.tail < SLOTS
    ensures Run(t, a + b) == Run(Run(t, a), b)
    decreases |a|
  {
    if a == [] {
      assert a + b == b;
    } else {
      assert (a + b)[1..] == a[1..] + b;
      RunConcat(Next(t, a[0]), a[1..], b);
    }
  }

  lemma {:induction false} EchoConcat(t: Term, a: seq<Step>, b: seq<Step>)
    requires t.tail < SLOTS
    ensures Echoes(t, a + b) == Echoes(t, a) + Echoes(Run(t, a), b)
    decreases |a|
  {
    if a == [] {
      assert a + b == b;
    } else {
      assert (a + b)[1..] == a[1..] + b;
      EchoConcat(Next(t, a[0]), a[1..], b);
    }
  }

  lemma {:induction false} EditConcat(e: Text, p: seq<byte>, q: seq<byte>)
    ensures EditAll(e, p + q) == EditAll(EditAll(e, p), q)
    decreases |p|
  {
    if p == [] {
      assert p + q == q;
    } else {
      assert (p + q)[1..] == p[1..] + q;
      EditConcat(Edit(e, p[0]), p[1..], q);
    }
  }

  predicate AllEnabled(t: Term, steps: seq<Step>)
    requires t.tail < SLOTS
    decreases |steps|
  {
    steps == [] || (Enabled(t, steps[0]) && AllEnabled(Next(t, steps[0]), steps[1..]))
  }

  /** The terminal stands for the text `e`, and goes on standing for what the keystrokes make
      of it, after every step of the run. */
  predicate MeansThroughout(t: Term, e: Text, steps: seq<Step>)
    requires t.tail < SLOTS
    decreases |steps|
  {
    && Meaning(t) == e
    && (steps == [] || MeansThroughout(Next(t, steps[0]), EditAll(e, Keys(t, steps[0])), steps[1..]))
  }

  /** Over a whole run, the terminal means the plain edit throughout exactly when every guard
      holds: the first step whose guard fails loses or gains text. */
  lemma {:induction false} RunExact(t: Term, steps: seq<Step>)
    requires WellQueued(t) && AllEnabled(t, steps)
    ensures MeansThroughout(t, Meaning(t), steps) <==> Guarded(t, steps)
    decreases |steps|
  {
    if steps != [] {
      QueuedStep(t, steps[0]);
      StepExact(t, steps[0]);
      if Guard(t, steps[0]) {
        RunExact(Next(t, steps[0]), steps[1..]);
      }
    }
  }

  /** For every interleaving of keystrokes and reader turns whose guards hold, the terminal
      stands for the plain edit of the keystrokes. */
  lemma {:induction false} RunMeans(t: Term, steps: seq<Step>)
    requires WellQueued(t) && Guarded(t, steps)
    ensures WellQueued(Run(t, steps))
    ensures Meaning(Run(t, steps)) == EditAll(Meaning(t), Typed(t, steps))
    decreases |steps|
  {
    if steps != [] {
      var t' := Next(t, steps[0]);
      QueuedStep(t, steps[0]);
      StepExact(t, steps[0]);
      RunMeans(t', steps[1..]);
      EditConcat(Meaning(t), Keys(t, steps[0]), Typed(t', steps[1..]));
    }
  }

  /** The lines `term_read` has returned are the first lines of the plain edit, and all of them
      once the ring has been read empty. */
  lemma ReturnedLines(steps: seq<Step>)
    requires Guarded(FRESH, steps)
    ensures var t, text := Run(FRESH, steps), EditAll(Text([], []), Typed(FRESH, steps));
            && t.lines <= text.done
            && (t.pending == [] ==> t.lines == text.done && t.prefix == text.cur)
  {
    RunMeans(FRESH, steps);
    var t := Run(FRESH, steps);
    EditGrows(Text(t.lines, t.prefix), t.pending);
  }

  /** The guards are needed: a backspace after Ctrl-L takes the clear mark back out of the ring,
      and the cleared line returns. */
  lemma ClearUndone()
    ensures var steps := [Type(97), Read(8), Clear, Erase(0)];
            AllEnabled(FRESH, steps) && !MeansThroughout(FRESH, Text([], []), steps)
  {
    var steps := [Type(97), Read(8), Clear, Erase(0)];
    var t1, t2, t3 := Term([97], 1, [], []), Term([], 1, [97], []), Term([MARK], 1, [97], []);
    assert Next(FRESH, steps[0]) == t1 && Next(t1, steps[1]) == t2 && Next(t2, steps[2]) == t3;
    assert steps[1..][1..][1..] == [Erase(0)] && !Guard(t3, Erase(0));
    RunExact(FRESH, steps);
  }
}
