/** The 80x25 text screen of `term_putc` (term.c) as a window onto an unbounded sheet. */
module Screens {
  import opened Options
  import opened Bytes

  const COLS := 80
  const ROWS := 25
  const SIZE := 2000
  const RETURN: byte := 13
  const SPACE: byte := 32
  const ATTRIB: byte := 7

  datatype Cell = Cell(code: byte, attr: byte)

  const BLANK := Cell(SPACE, ATTRIB)

  // ---------- the screen ----------

  /** Video memory as cells, with the cursor. */
  datatype Screen = Screen(cells: seq<Cell>, x: int, y: int)

  predicate OnScreen(s: Screen) {
    |s.cells| == SIZE && 0 <= s.x < COLS && 0 <= s.y < ROWS
  }

  function Blanks(n: nat): seq<Cell> {
    seq(n, _ => BLANK)
  }

  /** Shift up by one row when the cursor has left the last one. */
  function Scroll(s: Screen): Screen
    requires |s.cells| == SIZE
  {
    if s.y >= ROWS then Screen(s.cells[COLS..] + Blanks(COLS), s.x, ROWS - 1) else s
  }

  predicate Control(c: byte) {
    c == NEWLINE || c == RETURN || c == BACKSPACE || c == 0
  }

  /** `term_putc`; None when it writes in front of the video memory. */
  function Putc(s: Screen, c: byte): Option<Screen>
    requires OnScreen(s)
  {
    if c == NEWLINE || c == RETURN then Some(Scroll(Screen(s.cells, 0, s.y + 1)))
    else if c == BACKSPACE then
      var x, y := if s.x == 0 then COLS - 1 else s.x - 1, if s.x == 0 then s.y - 1 else s.y;
      if y < 0 then None else Some(Scroll(Screen(s.cells[COLS * y + x := BLANK], x, y)))
    else if c == 0 then Some(s)
    else Some(Scroll(Screen(s.cells[COLS * s.y + s.x := Cell(c, ATTRIB)], (s.x + 1) % COLS, s.y + (s.x + 1) / COLS)))
  }

  // ---------- the sheet ----------

  /** An endless roll of paper, wrapped at column 80: cells in reading order and the cursor's
      place among them.  Rows are only ever added, blank, at the end. */
  datatype Sheet = Sheet(cells: seq<Cell>, pos: nat)

  function Grow(s: Sheet): Sheet {
    if s.pos >= |s.cells| then s.(cells := s.cells + Blanks(COLS)) else s
  }

  function Write(s: Sheet, c: byte): Sheet
    requires s.pos < |s.cells|
  {
    if c == NEWLINE || c == RETURN then Grow(s.(pos := (s.pos / COLS + 1) * COLS))
    else if c == BACKSPACE then
      if s.pos == 0 then s else Sheet(s.cells[s.pos - 1 := BLANK], s.pos - 1)
    else if c == 0 then s
    else Grow(Sheet(s.cells[s.pos := Cell(c, ATTRIB)], s.pos + 1))
  }

  /** The screen shows the last 25 rows of the sheet, and its cursor is the sheet's. */
  predicate Shows(s: Screen, p: Sheet) {
    && OnScreen(s)
    && |p.cells| >= SIZE && |p.cells| % COLS == 0
    && s.cells == p.cells[|p.cells| - SIZE..]
    && p.pos == |p.cells| - SIZE + COLS * s.y + s.x
  }

  predicate AtHome(s: Screen) {
    s.x == 0 && s.y == 0
  }

  /** Any screen is the window onto a sheet that starts with it. */
  lemma FirstSheet(s: Screen)
    requires OnScreen(s)
    ensures Shows(s, Sheet(s.cells, COLS * s.y + s.x))
  {
  }

  lemma WriteWindow(s: Screen, p: Sheet, i: nat, cell: Cell)
    requires Shows(s, p) && i < SIZE
    ensures var q := p.cells[|p.cells| - SIZE + i := cell]; q[|q| - SIZE..] == s.cells[i := cell]
  {
  }

  lemma ScrollShows(s: Screen, p: Sheet)
    requires |s.cells| == SIZE && |p.cells| >= SIZE && |p.cells| % COLS == 0
    requires 0 <= s.x < COLS && 0 <= s.y <= ROWS && (s.y == ROWS ==> s.x == 0)
    requires s.cells == p.cells[|p.cells| - SIZE..] && p.pos == |p.cells| - SIZE + COLS * s.y + s.x
    ensures Shows(Scroll(s), Grow(p))
  {
    if s.y == ROWS {
      var q := p.cells + Blanks(COLS);
      assert q[|q| - SIZE..] == s.cells[COLS..] + Blanks(COLS);
    }
  }

  lemma NewlineShows(s: Screen, p: Sheet, c: byte)
    requires Shows(s, p) && (c == NEWLINE || c == RETURN)
    ensures Shows(Putc(s, c).value, Write(p, c))
  {
    hide Scroll, Grow;
    RowStart(p, s.x, s.y);
    ScrollShows(Screen(s.cells, 0, s.y + 1), p.(pos := (p.pos / COLS + 1) * COLS));
  }

  /** The start of the next row. */
  lemma RowStart(p: Sheet, x: int, y: int)
    requires |p.cells| >= SIZE && |p.cells| % COLS == 0 && 0 <= x < COLS && 0 <= y
    requires p.pos == |p.cells| - SIZE + COLS * y + x
    ensures (p.pos / COLS + 1) * COLS == |p.cells| - SIZE + COLS * (y + 1)
  {
  }

  lemma EraseShows(s: Screen, p: Sheet)
    requires Shows(s, p) && !AtHome(s)
    ensures Putc(s, BACKSPACE).Some? && Shows(Putc(s, BACKSPACE).value, Write(p, BACKSPACE))
  {
    WriteWindow(s, p, COLS * s.y + s.x - 1, BLANK);
  }

  lemma WrapColumn(x: int)
    requires 0 <= x <= COLS
    ensures x % COLS == (if x == COLS then 0 else x) && x / COLS == (if x == COLS then 1 else 0)
  {
  }

  lemma PrintShows(s: Screen, p: Sheet, c: byte)
    requires Shows(s, p) && !Control(c)
    ensures Shows(Putc(s, c).value, Write(p, c))
  {
    hide Scroll, Grow;
    var i, cell := COLS * s.y + s.x, Cell(c, ATTRIB);
    WriteWindow(s, p, i, cell);
    WrapColumn(s.x + 1);
    ScrollShows(Screen(s.cells[i := cell], (s.x + 1) % COLS, s.y + (s.x + 1) / COLS),
                Sheet(p.cells[p.pos := cell], p.pos + 1));
  }

  /** Printing a character keeps the screen a window onto the sheet exactly when it is not a
      backspace at the home cell. */
  lemma PutcExact(s: Screen, p: Sheet, c: byte)
    requires Shows(s, p)
    ensures (Putc(s, c).Some? && Shows(Putc(s, c).value, Write(p, c))) <==> !(c == BACKSPACE && AtHome(s))
  {
    if c == NEWLINE || c == RETURN {
      NewlineShows(s, p, c);
    } else if c == BACKSPACE {
      if !AtHome(s) {
        EraseShows(s, p);
      }
    } else if c != 0 {
      PrintShows(s, p, c);
    }
  }

  /** A printed character followed by a backspace restores the cursor and leaves one blank cell,
      across a line wrap and across a scroll. */
  lemma EraseUndoesPrint(s: Screen, p: Sheet, c: byte)
    requires Shows(s, p) && !Control(c)
    ensures var q := Write(Write(p, c), BACKSPACE);
            q.pos == p.pos && q.cells[..|p.cells|] == p.cells[p.pos := BLANK]
    ensures Putc(Putc(s, c).value, BACKSPACE).Some?
    ensures Shows(Putc(Putc(s, c).value, BACKSPACE).value, Write(Write(p, c), BACKSPACE))
  {
    PutcExact(s, p, c);
    PutcExact(Putc(s, c).value, Write(p, c), BACKSPACE);
  }

  // ---------- runs ----------

  function PutAll(s: Screen, text: seq<byte>): Option<Screen>
    requires OnScreen(s)
    ensures PutAll(s, text).Some? ==> OnScreen(PutAll(s, text).value)
    decreases |text|
  {
    if text == [] then Some(s)
    else var s1 := Putc(s, text[0]); if s1.None? then None else PutAll(s1.value, text[1..])
  }

  function WriteAll(p: Sheet, text: seq<byte>): Sheet
    requires p.pos < |p.cells|
    decreases |text|
  {
    if text == [] then p else WriteAll(Write(p, text[0]), text[1..])
  }

  /** No backspace reaches the home cell, judged on the sheet alone. */
  predicate StaysBelow(p: Sheet, text: seq<byte>)
    requires p.pos < |p.cells|
    decreases |text|
  {
    text == [] ||
    ((text[0] == BACKSPACE ==> p.pos + SIZE != |p.cells|) && StaysBelow(Write(p, text[0]), text[1..]))
  }

  /** For every text, the screen stays a window onto the sheet written with that text exactly
      when no backspace is printed at the home cell. */
  lemma {:induction false} RunExact(s: Screen, p: Sheet, text: seq<byte>)
    requires Shows(s, p)
    ensures PutAll(s, text).Some? <==> StaysBelow(p, text)
    ensures PutAll(s, text).Some? ==> Shows(PutAll(s, text).value, WriteAll(p, text))
    decreases |text|
  {
    if text != [] {
      PutcExact(s, p, text[0]);
      if Putc(s, text[0]).Some? {
        RunExact(Putc(s, text[0]).value, Write(p, text[0]), text[1..]);
      }
    }
  }

  // ---------- video memory ----------

  /** The screen's part of a 64 KB video memory: a character and an attribute byte per cell. */
  function Cells(data: seq<byte>): (cells: seq<Cell>)
    requires |data| >= 2 * SIZE
    ensures |cells| == SIZE
  {
    seq(SIZE, i requires 0 <= i < SIZE => Cell(data[2 * i], data[2 * i + 1]))
  }

  method Poke(data: array<byte>, i: nat, cell: Cell)
    requires data.Length >= 2 * SIZE && i < SIZE
    modifies data
    ensures Cells(data[..]) == Cells(old(data[..]))[i := cell]
    ensures data[2 * SIZE..] == old(data[2 * SIZE..])
  {
    data[2 * i] := cell.code;
    data[2 * i + 1] := cell.attr;
  }

  /** The loop that copies each row over the one above it. */
  method MoveRows(data: array<byte>)
    requires data.Length >= 2 * SIZE
    modifies data
    ensures forall j :: 0 <= j < 2 * (SIZE - COLS) ==> data[j] == old(data[j + 2 * COLS])
    ensures forall j :: 2 * (SIZE - COLS) <= j < data.Length ==> data[j] == old(data[j])
  {
    var i := 0;
    while i < (ROWS - 1) * COLS
      invariant 0 <= i <= SIZE - COLS
      invariant forall j :: 0 <= j < 2 * i ==> data[j] == old(data[j + 2 * COLS])
      invariant forall j :: 2 * i <= j < data.Length ==> data[j] == old(data[j])
    {
      var to, from := COLS * (i / COLS) + i % COLS, COLS * (i / COLS + 1) + i % COLS;
      data[2 * to] := data[2 * from];
      data[2 * to + 1] := data[2 * from + 1];
      i := i + 1;
    }
  }

  /** The loop that blanks the last row. */
  method ClearLastRow(data: array<byte>)
    requires data.Length >= 2 * SIZE
    modifies data
    ensures forall j :: SIZE - COLS <= j < SIZE ==> data[2 * j] == SPACE && data[2 * j + 1] == ATTRIB
    ensures forall j :: 0 <= j < 2 * (SIZE - COLS) || 2 * SIZE <= j < data.Length ==> data[j] == old(data[j])
  {
    var i := (ROWS - 1) * COLS;
    while i < ROWS * COLS
      invariant SIZE - COLS <= i <= SIZE
      invariant forall j :: SIZE - COLS <= j < i ==> data[2 * j] == SPACE && data[2 * j + 1] == ATTRIB
      invariant forall j :: 0 <= j < 2 * (SIZE - COLS) || 2 * i <= j < data.Length ==> data[j] == old(data[j])
    {
      var to := COLS * (i / COLS) + i % COLS;
      data[2 * to] := SPACE;
      data[2 * to + 1] := ATTRIB;
      i := i + 1;
    }
  }

  lemma ShiftedCells(was: seq<byte>, data: seq<byte>)
    requires |data| == |was| >= 2 * SIZE
    requires forall j :: 0 <= j < 2 * (SIZE - COLS) ==> data[j] == was[j + 2 * COLS]
    requires forall j :: SIZE - COLS <= j < SIZE ==> data[2 * j] == SPACE && data[2 * j + 1] == ATTRIB
    ensures Cells(data) == Cells(was)[COLS..] + Blanks(COLS)
  {
    var shifted := Cells(was)[COLS..] + Blanks(COLS);
    forall i | 0 <= i < SIZE ensures Cells(data)[i] == shifted[i] {
      if i < SIZE - COLS {
        assert shifted[i] == Cells(was)[i + COLS];
      }
    }
  }

  /** Shift the screen up by one row. */
  method ShiftUp(data: array<byte>)
    requires data.Length >= 2 * SIZE
    modifies data
    ensures Cells(data[..]) == Cells(old(data[..]))[COLS..] + Blanks(COLS)
    ensures data[2 * SIZE..] == old(data[2 * SIZE..])
  {
    ghost var was := data[..];
    MoveRows(data);
    ClearLastRow(data);
    ShiftedCells(was, data[..]);
  }

  /** `term_putc` on the bytes of video memory.  A backspace at the home cell would write in
      front of them. */
  method TermPutc(data: array<byte>, x0: int, y0: int, c: byte) returns (x: int, y: int)
    requires data.Length >= 2 * SIZE && 0 <= x0 < COLS && 0 <= y0 < ROWS
    requires !(c == BACKSPACE && x0 == 0 && y0 == 0)
    modifies data
    ensures Putc(Screen(Cells(old(data[..])), x0, y0), c) == Some(Screen(Cells(data[..]), x, y))
    ensures data[2 * SIZE..] == old(data[2 * SIZE..])
  {
    x, y := x0, y0;
    if c == NEWLINE || c == RETURN {
      y := y + 1;
      x := 0;
    } else if c == BACKSPACE {
      x := x - 1;
      if x < 0 {
        x := COLS - 1;
        y := y - 1;
      }
      Poke(data, COLS * y + x, BLANK);
    } else {
      if c == 0 {
        return;
      }
      Poke(data, COLS * y + x, Cell(c, ATTRIB));
      x := x + 1;
      y := y + x / COLS;
      x := x % COLS;
    }
    if y >= ROWS {
      ShiftUp(data);
      y := ROWS - 1;
    }
  }
}
