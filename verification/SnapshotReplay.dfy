/** Replaying a rendered snapshot on the reference terminal, row by row and as a whole. */
module SnapshotReplay {
  import opened Wrappers
  import opened ReferenceTerminal
  import opened TerminalSnapshot
  import opened SnapshotOps

  // ---------------------------------------------------------------- one row

  /** `t` with the first `n` columns of the row on the cursor's line. */
  function Drawn(t: Terminal, row: seq<Cell>, n: nat, pen: Pen): (u: Terminal)
    requires t.Valid() && GoodCells(row) && n <= t.cols
    ensures u.Valid()
  {
    var line := t.lines[t.row];
    t.(lines := t.lines[t.row := line.(cells := Glyphs(row, n) + line.cells[n..])], col := n, pen := pen)
  }

  lemma ColumnReplays(t: Terminal, row: seq<Cell>, i: nat)
    requires t.Valid() && GoodCells(row) && i < t.cols
    requires t.col == i && t.pen == NormalPen(StyleBefore(row, i))
    ensures var line := t.lines[t.row];
            Run(t, ColumnOps(row, i)) ==
            t.(lines := t.lines[t.row := line.(cells := line.cells[i := NormalGlyph(CellAt(row, i))])],
               col := i + 1, pen := NormalPen(StyleOf(CellAt(row, i))))
  {
    hide ApplySgr, StyleParams, NormalPen, Run;
    GoodAt(row, i);
    var style := StyleOf(CellAt(row, i));
    var glyph := Print(CellText(CellAt(row, i))[0]);
    if style != StyleBefore(row, i) {
      SgrInvertsStyle(t.pen, style);
      var sgr := Sgr(StyleParams(style));
      RunAppend(t, [sgr], [glyph]);
      RunOne(t, sgr);
      RunOne(Exec(t, sgr), glyph);
    } else {
      assert ColumnOps(row, i) == [glyph];
      RunOne(t, glyph);
    }
  }

  /** From column 0 with the default pen, the first `n` columns appear as they should. */
  lemma {:induction false} ColumnsReplay(t: Terminal, row: seq<Cell>, n: nat)
    requires t.Valid() && GoodCells(row) && n <= t.cols
    requires t.col == 0 && t.pen == DEFAULT_PEN
    ensures InRangeStyle(StyleBefore(row, n))
    ensures Run(t, ColumnsOps(row, n)) == Drawn(t, row, n, NormalPen(StyleBefore(row, n)))
  {
    hide Exec, ColumnOps, NormalPen, Glyphs, Run;
    GoodAt(row, n);
    if n == 0 {
      DrawnNothing(t, row);
    } else {
      ColumnsReplay(t, row, n - 1);
      var u := Drawn(t, row, n - 1, NormalPen(StyleBefore(row, n - 1)));
      RunAppend(t, ColumnsOps(row, n - 1), ColumnOps(row, n - 1));
      ColumnReplays(u, row, n - 1);
      GoodAt(row, n - 1);
      NextColumn(t.lines[t.row].cells, row, n);
    }
  }

  lemma DrawnNothing(t: Terminal, row: seq<Cell>)
    requires t.Valid() && GoodCells(row) && t.col == 0
    ensures Drawn(t, row, 0, t.pen) == t == Run(t, [])
  {
    assert t.lines[t.row].cells == Glyphs(row, 0) + t.lines[t.row].cells[0..];
    assert t.lines == t.lines[t.row := t.lines[t.row]];
  }

  lemma NextColumn(cells: seq<Glyph>, row: seq<Cell>, n: nat)
    requires GoodCells(row) && 1 <= n <= |cells|
    ensures GoodCell(CellAt(row, n - 1))
    ensures (Glyphs(row, n - 1) + cells[n - 1..])[n - 1 := NormalGlyph(CellAt(row, n - 1))] ==
            Glyphs(row, n) + cells[n..]
  {
    hide NormalGlyph;
    GoodAt(row, n - 1);
  }

  /**
   Replaying a rendered row from the default pen reproduces the style and the character of
   every rendered column, touches nothing else, and gives the default pen back.
   */
  lemma RowReplays(t: Terminal, row: seq<Cell>, length: nat)
    requires t.Valid() && GoodCells(row) && length <= t.cols
    requires t.col == 0 && t.pen == DEFAULT_PEN
    ensures Run(t, RowOps(row, length)) == Drawn(t, row, length, DEFAULT_PEN)
  {
    hide ColumnsOps, StyleBefore, Glyphs;
    ColumnsReplay(t, row, length);
    var styled := StyleBefore(row, length) != DEFAULT_STYLE;
    var u := Drawn(t, row, length, NormalPen(StyleBefore(row, length)));
    var ending := if styled then [RESET] else [];
    RunAppend(t, ColumnsOps(row, length), ending);
    ResetPen(u);
    if styled {
      RunOne(u, RESET);
    }
  }

  lemma ResetPen(t: Terminal)
    requires t.Valid()
    ensures Exec(t, RESET) == t.(pen := DEFAULT_PEN)
  {
    assert [0][1..] == [];
  }

  /** A cell that trimming drops looks like a blank. */
  lemma TrimmedIsBlank(row: seq<Cell>, i: nat)
    requires GoodCells(row) && ContentLength(row, |row|) <= i
    ensures GoodCell(CellAt(row, i)) && NormalGlyph(CellAt(row, i)) == BLANK
  {}

  /** Trimming and padding lose only default blanks: the drawn columns and blanks are the whole row. */
  lemma TrimmingLosesBlanks(row: seq<Cell>, pad: Option<nat>, cols: nat)
    requires GoodRow(row, cols) && (pad.Some? ==> pad.value == cols)
    ensures RenderedLength(row, pad) <= cols
    ensures pad.Some? ==> RenderedLength(row, pad) == cols
    ensures Glyphs(row, RenderedLength(row, pad)) + BlankLine(cols).cells[RenderedLength(row, pad)..] ==
            Glyphs(row, cols)
  {
    hide NormalGlyph;
    var length := RenderedLength(row, pad);
    forall i | length <= i < cols
      ensures BLANK == Glyphs(row, cols)[i]
    {
      TrimmedIsBlank(row, i);
    }
  }

  // ---------------------------------------------------------------- the deferred wrap

  /** With a wrap pending, a row that renders something is drawn on the next line, marked as a continuation. */
  lemma {:induction false} RowWraps(t: Terminal, row: seq<Cell>, n: nat)
    requires t.Valid() && GoodCells(row) && n >= 1
    requires t.col == t.cols && t.autowrap
    ensures Run(t, ColumnsOps(row, n)) == Run(Wrap(t), ColumnsOps(row, n))
  {
    hide Wrap, Put, ApplySgr, StyleParams, Run;
    RunAppend(t, ColumnsOps(row, n - 1), ColumnOps(row, n - 1));
    RunAppend(Wrap(t), ColumnsOps(row, n - 1), ColumnOps(row, n - 1));
    if n == 1 {
      RunNothing(t);
      RunNothing(Wrap(t));
      FirstColumnWraps(t, row);
    } else {
      RowWraps(t, row, n - 1);
    }
  }

  lemma RunNothing(t: Terminal)
    requires t.Valid()
    ensures Run(t, []) == t
  {}

  lemma PrintWraps(t: Terminal, c: char)
    requires t.Valid() && t.col == t.cols && t.autowrap
    ensures Run(t, [Print(c)]) == Run(Wrap(t), [Print(c)])
  {
    hide Run;
    RunOne(t, Print(c));
    RunOne(Wrap(t), Print(c));
  }

  lemma FirstColumnWraps(t: Terminal, row: seq<Cell>)
    requires t.Valid() && GoodCells(row)
    requires t.col == t.cols && t.autowrap
    ensures Run(t, ColumnOps(row, 0)) == Run(Wrap(t), ColumnOps(row, 0))
  {
    hide ApplySgr, StyleParams, Run, Put;
    GoodAt(row, 0);
    var style := StyleOf(CellAt(row, 0));
    var c := CellText(CellAt(row, 0))[0];
    if style != StyleBefore(row, 0) {
      var sgr := Sgr(StyleParams(style));
      RunAppend(t, [sgr], [Print(c)]);
      RunAppend(Wrap(t), [sgr], [Print(c)]);
      RunOne(t, sgr);
      RunOne(Wrap(t), sgr);
      assert Wrap(Exec(t, sgr)) == Exec(Wrap(t), sgr);
      PrintWraps(Exec(t, sgr), c);
    } else {
      assert ColumnOps(row, 0) == [Print(c)];
      PrintWraps(t, c);
    }
  }

  lemma WholeRowWraps(t: Terminal, row: seq<Cell>, length: nat)
    requires t.Valid() && GoodCells(row) && length >= 1
    requires t.col == t.cols && t.autowrap
    ensures Run(t, RowOps(row, length)) == Run(Wrap(t), RowOps(row, length))
  {
    hide Wrap, ColumnsOps, Run;
    RowWraps(t, row, length);
    var ending := if StyleBefore(row, length) != DEFAULT_STYLE then [RESET] else [];
    RunAppend(t, ColumnsOps(row, length), ending);
    RunAppend(Wrap(t), ColumnsOps(row, length), ending);
  }

  // ---------------------------------------------------------------- the states between rows

  function LineCount(s: State, k: nat): nat {
    Max(s.rows, k + 1)
  }

  function ReadyLine(s: State, k: nat, i: nat): (line: Line)
    requires WellFormed(s) && k < |s.AllRows()|
    ensures |line.cells| == s.cols
  {
    if i < k then ExpectedLine(s, i)
    else if i == k then BlankLine(s.cols).(wrapped := k > 0 && s.Continues(k - 1))
    else BlankLine(s.cols)
  }

  /** The cursor at the start of the blank line `k`, all rows before it drawn. */
  function Ready(s: State, k: nat): (t: Terminal)
    requires WellFormed(s) && k < |s.AllRows()|
    ensures t.Valid()
  {
    Terminal(
      s.rows, s.cols, seq(LineCount(s, k), i requires i >= 0 => ReadyLine(s, k, i)),
      k, 0, DEFAULT_PEN, s.HasWrapInfo(), true, 0)
  }

  function DoneLine(s: State, k: nat, i: nat): (line: Line)
    requires WellFormed(s) && k < |s.AllRows()|
    ensures |line.cells| == s.cols
  {
    if i <= k then ExpectedLine(s, i) else BlankLine(s.cols)
  }

  /** Row `k` drawn too, the cursor behind its last rendered column. */
  function Done(s: State, k: nat): (t: Terminal)
    requires WellFormed(s) && k < |s.AllRows()|
    requires Length(s, k) <= s.cols
    ensures t.Valid()
  {
    Terminal(
      s.rows, s.cols, seq(LineCount(s, k), i requires i >= 0 => DoneLine(s, k, i)),
      k, Length(s, k), DEFAULT_PEN, s.HasWrapInfo(), true, 0)
  }

  lemma LengthFits(s: State, k: nat)
    requires WellFormed(s) && k < |s.AllRows()|
    ensures GoodRow(s.AllRows()[k], s.cols) && GoodCells(s.AllRows()[k])
    ensures Length(s, k) <= s.cols
    ensures s.Continues(k) ==> Length(s, k) == s.cols
  {
    assert GoodRow(s.AllRows()[k], s.cols);
    TrimmingLosesBlanks(s.AllRows()[k], PadFor(s, k), s.cols);
  }

  lemma DrawReady(s: State, k: nat)
    requires WellFormed(s) && k < |s.AllRows()|
    ensures GoodCells(s.AllRows()[k]) && Length(s, k) <= s.cols
    ensures Run(Ready(s, k), RowOps(s.AllRows()[k], Length(s, k))) == Done(s, k)
  {
    hide Run, RowOps, ContentLength, NormalGlyph;
    LengthFits(s, k);
    var row, length := s.AllRows()[k], Length(s, k);
    var t := Ready(s, k);
    RowReplays(t, row, length);
    TrimmingLosesBlanks(row, PadFor(s, k), s.cols);
    var drawn := Drawn(t, row, length, DEFAULT_PEN);
    assert t.lines[k].cells == BlankLine(s.cols).cells;
    assert drawn.lines[k] == ExpectedLine(s, k);
    assert drawn.lines == Done(s, k).lines;
  }

  lemma BreakReady(s: State, k: nat)
    requires WellFormed(s) && k + 1 < |s.AllRows()| && !s.Continues(k)
    ensures Length(s, k) <= s.cols
    ensures Run(Done(s, k), [CarriageReturn, LineFeed]) == Ready(s, k + 1)
  {
    hide ExpectedLine, Run, ContentLength;
    LengthFits(s, k);
    var t := Done(s, k);
    assert [CarriageReturn, LineFeed] == [CarriageReturn] + [LineFeed];
    RunAppend(t, [CarriageReturn], [LineFeed]);
    RunOne(t, CarriageReturn);
    RunOne(t.(col := 0), LineFeed);
    assert NextLine(t, false).lines == Ready(s, k + 1).lines;
  }

  lemma WrapReady(s: State, k: nat)
    requires WellFormed(s) && k + 1 < |s.AllRows()| && s.Continues(k)
    ensures Length(s, k) == s.cols
    ensures Wrap(Done(s, k)) == Ready(s, k + 1)
  {
    hide ExpectedLine, ContentLength;
    LengthFits(s, k);
    assert Wrap(Done(s, k)).lines == Ready(s, k + 1).lines;
  }

  // ---------------------------------------------------------------- all rows

  /** Among the first `n` rows, each row that continues another one renders at least one column. */
  predicate ContinuationsRender(s: State, n: nat)
    requires n <= |s.AllRows()|
  {
    forall i | 1 <= i < n && s.Continues(i - 1) :: Length(s, i) > 0
  }

  /** The state once `n` rows and their line breaks have been read. */
  function After(s: State, n: nat): (t: Terminal)
    requires WellFormed(s) && 1 <= n <= |s.AllRows()|
    requires Length(s, n - 1) <= s.cols
    ensures t.Valid()
  {
    if n < |s.AllRows()| && !s.Continues(n - 1) then Ready(s, n) else Done(s, n - 1)
  }

  lemma {:induction false} RowsReplay(s: State, n: nat)
    requires WellFormed(s) && 1 <= n <= |s.AllRows()|
    requires ContinuationsRender(s, n)
    ensures Length(s, n - 1) <= s.cols
    ensures Run(Ready(s, 0), RowsOps(s, n)) == After(s, n)
  {
    hide Run, RowOps, ContentLength, Ready, Done, Wrap;
    var k := n - 1;
    LengthFits(s, k);
    var row := RowOps(s.AllRows()[k], Length(s, k));
    var front := RowsOps(s, k);
    var t := Ready(s, 0);
    RunAppend(t, front + row, BreakOps(s, k));
    RunAppend(t, front, row);
    DrawReady(s, k);
    if k == 0 {
      RunNothing(t);
    } else {
      RowsReplay(s, k);
      if s.Continues(k - 1) {
        LengthFits(s, k - 1);
        WrapReady(s, k - 1);
        PendingWrap(s, k - 1);
        WholeRowWraps(Done(s, k - 1), s.AllRows()[k], Length(s, k));
      }
    }
    assert Run(t, front + row) == Done(s, k);
    if k + 1 < |s.AllRows()| && !s.Continues(k) {
      BreakReady(s, k);
    } else {
      RunNothing(Done(s, k));
    }
  }

  lemma PendingWrap(s: State, k: nat)
    requires WellFormed(s) && k < |s.AllRows()| && s.Continues(k) && Length(s, k) == s.cols
    ensures Done(s, k).col == Done(s, k).cols && Done(s, k).autowrap
  {}

  // ---------------------------------------------------------------- opening and closing

  lemma Opening(s: State)
    requires WellFormed(s)
    ensures Run(Fresh(s.rows, s.cols), OpeningOps(s)) == Ready(s, 0)
  {
    hide ExpectedLine;
    var t := Fresh(s.rows, s.cols);
    assert t.lines == Ready(s, 0).lines;
    RunNothing(t);
    RunOne(t, ResetMode(AUTOWRAP_MODE));
  }

  /** What the closing operations do to any terminal. */
  function Closed(s: State, t: Terminal): (u: Terminal)
    requires t.Valid()
    ensures u.Valid()
  {
    var v := WithCursor(s, WithPen(s, t));
    v.(autowrap := if s.HasWrapInfo() then v.autowrap else true)
  }

  function WithPen(s: State, t: Terminal): (u: Terminal)
    requires t.Valid()
    ensures u.Valid()
  {
    t.(pen := DEFAULT_PEN,
       cursorShape := if s.cursor.style.Some? then CursorStyleCode(s.cursor.style.value, s.cursor.blink)
                      else t.cursorShape)
  }

  function WithCursor(s: State, t: Terminal): (u: Terminal)
    requires t.Valid()
    ensures u.Valid()
  {
    t.(row := |t.lines| - t.rows + Min(s.cursor.row, t.rows - 1), col := Min(s.cursor.col, t.cols - 1),
       cursorVisible := !s.cursor.hidden)
  }

  lemma ClosingPen(s: State, t: Terminal)
    requires t.Valid()
    ensures Run(t, PenOps(s)) == WithPen(s, t)
  {
    hide Run, ApplySgr, CursorStyleCode;
    var shape := ShapeOps(s.cursor);
    RunAppend(t, [RESET], shape);
    ResetPen(t);
    RunOne(t, RESET);
    var t1 := Exec(t, RESET);
    RunNothing(t1);
    if s.cursor.style.Some? {
      RunOne(t1, shape[0]);
    }
  }

  lemma ExecPosition(t: Terminal, row: nat, col: nat)
    requires t.Valid()
    ensures Exec(t, CursorTo(row + 1, col + 1)) ==
            t.(row := |t.lines| - t.rows + Min(row, t.rows - 1), col := Min(col, t.cols - 1))
  {
    hide NextLine, Put, Wrap, ApplySgr;
  }

  lemma ExecVisibility(t: Terminal, hidden: bool)
    requires t.Valid()
    ensures Exec(t, if hidden then ResetMode(CURSOR_MODE) else SetMode(CURSOR_MODE)) == t.(cursorVisible := !hidden)
  {
    hide NextLine, Put, Wrap, ApplySgr;
  }

  lemma CursorOpsAre(s: State)
    ensures CursorOps(s) ==
            [CursorTo(s.cursor.row + 1, s.cursor.col + 1)] +
            [if s.cursor.hidden then ResetMode(CURSOR_MODE) else SetMode(CURSOR_MODE)]
  {}

  lemma ClosingCursor(s: State, t: Terminal)
    requires t.Valid()
    ensures Run(t, CursorOps(s)) == WithCursor(s, t)
  {
    CursorRuns(s, t);
    hide Run, CursorOps, Min;
  }

  lemma CursorRuns(s: State, t: Terminal)
    requires t.Valid()
    ensures Run(t, CursorOps(s)) ==
            t.(row := |t.lines| - t.rows + Min(s.cursor.row, t.rows - 1), col := Min(s.cursor.col, t.cols - 1),
               cursorVisible := !s.cursor.hidden)
  {
    hide *;
    var position := CursorTo(s.cursor.row + 1, s.cursor.col + 1);
    var visible := if s.cursor.hidden then ResetMode(CURSOR_MODE) else SetMode(CURSOR_MODE);
    RunAppend(t, [position], [visible]);
    RunOne(t, position);
    ExecPosition(t, s.cursor.row, s.cursor.col);
    RunOne(Exec(t, position), visible);
    ExecVisibility(Exec(t, position), s.cursor.hidden);
    CursorOpsAre(s);
  }

  lemma ClosingWrap(s: State, t: Terminal)
    requires t.Valid()
    ensures Run(t, WrapOps(s)) ==
            t.(autowrap := if s.HasWrapInfo() then t.autowrap else true)
  {
    hide Run;
    RunNothing(t);
    RunOne(t, SetMode(AUTOWRAP_MODE));
  }

  lemma Closing(s: State, t: Terminal)
    requires t.Valid()
    ensures Run(t, ClosingOps(s)) == Closed(s, t)
  {
    hide Run, PenOps, CursorOps, WrapOps, CursorStyleCode, Min;
    hide WithPen, WithCursor;
    ClosingRuns(s, t);
    ClosingPen(s, t);
    ClosingCursor(s, WithPen(s, t));
    ClosingWrap(s, WithCursor(s, WithPen(s, t)));
  }

  lemma ClosingRuns(s: State, t: Terminal)
    requires t.Valid()
    ensures Run(t, ClosingOps(s)) == Run(Run(Run(t, PenOps(s)), CursorOps(s)), WrapOps(s))
  {
    hide Run, PenOps, CursorOps, WrapOps;
    RunAppend(t, PenOps(s) + CursorOps(s), WrapOps(s));
    RunAppend(t, PenOps(s), CursorOps(s));
  }

  // ---------------------------------------------------------------- a continuation that renders nothing

  /** Without cursor jumps, lines that the cursor has reached keep their continuation mark. */
  lemma {:induction false} MarksStay(t: Terminal, ops: seq<Op>, i: nat)
    requires t.Valid() && i <= t.row
    requires forall k | 0 <= k < |ops| :: !ops[k].CursorTo?
    ensures var u := Run(t, ops); i <= u.row && u.lines[i].wrapped == t.lines[i].wrapped
    decreases |ops|
  {
    hide Exec;
    if ops != [] {
      OpKeepsMark(t, ops[0], i);
      MarksStay(Exec(t, ops[0]), ops[1..], i);
    }
  }

  lemma OpKeepsMark(t: Terminal, op: Op, i: nat)
    requires t.Valid() && i <= t.row && !op.CursorTo?
    ensures var u := Exec(t, op); i <= u.row && u.lines[i].wrapped == t.lines[i].wrapped
  {
    hide ApplySgr, Min, Max;
  }

  predicate NoJumps(ops: seq<Op>) {
    forall k | 0 <= k < |ops| :: !ops[k].CursorTo?
  }

  lemma {:induction false} ColumnsDoNotJump(row: seq<Cell>, n: nat)
    requires GoodCells(row)
    ensures NoJumps(ColumnsOps(row, n))
  {
    hide StyleParams;
    if n > 0 {
      ColumnsDoNotJump(row, n - 1);
    }
  }

  lemma RowsStepDoesNotJump(s: State, n: nat)
    requires WellFormed(s) && n < |s.AllRows()|
    ensures GoodCells(s.AllRows()[n])
    ensures NoJumps(RowOps(s.AllRows()[n], Length(s, n)) + BreakOps(s, n))
  {
    hide ColumnsOps, ContentLength;
    LengthFits(s, n);
    ColumnsDoNotJump(s.AllRows()[n], Length(s, n));
  }

  /** Row `i` continues the row before it, but renders nothing, so the wrap is never triggered. */
  predicate Lost(s: State, i: nat)
    requires i < |s.AllRows()|
  {
    i >= 1 && s.Continues(i - 1) && Length(s, i) == 0
  }

  /** The mark of line `i` is missing: nothing will add it any more, or there is no such line. */
  predicate Unmarked(s: State, t: Terminal, i: nat)
  {
    if i + 1 < |s.AllRows()| then i <= t.row && i < |t.lines| && !t.lines[i].wrapped
    else i < |t.lines| ==> !t.lines[i].wrapped
  }

  lemma LostRowText(s: State, i: nat)
    requires WellFormed(s) && i < |s.AllRows()| && Lost(s, i)
    ensures !s.Continues(i)
    ensures RowsOps(s, i + 1) == RowsOps(s, i) + BreakOps(s, i)
  {
    hide ContentLength;
    LengthFits(s, i);
    assert RowOps(s.AllRows()[i], 0) == [];
  }

  lemma BreakLeavesNoMark(t: Terminal)
    requires t.Valid()
    ensures var u := Run(t, [CarriageReturn, LineFeed]);
            u.row == t.row + 1 && !u.lines[u.row].wrapped
  {
    hide Run;
    assert [CarriageReturn, LineFeed] == [CarriageReturn] + [LineFeed];
    RunAppend(t, [CarriageReturn], [LineFeed]);
    RunOne(t, CarriageReturn);
    RunOne(t.(col := 0), LineFeed);
  }

  lemma BelowDoneIsUnmarked(s: State, k: nat)
    requires WellFormed(s) && k < |s.AllRows()| && Length(s, k) <= s.cols
    ensures var t := Done(s, k); t.row == k && (k + 1 < |t.lines| ==> !t.lines[k + 1].wrapped)
  {
    hide ContentLength, ExpectedLine;
  }

  /** Leaving a row that nothing continues adds no mark to it. */
  lemma BreakUnmarks(s: State, i: nat, u: Terminal)
    requires 1 <= i < |s.AllRows()| && !s.Continues(i)
    requires u.Valid() && u.row == i - 1 && (i < |u.lines| ==> !u.lines[i].wrapped)
    ensures Unmarked(s, Run(u, BreakOps(s, i)), i)
  {
    hide Run;
    if i + 1 < |s.AllRows()| {
      BreakLeavesNoMark(u);
    } else {
      RunNothing(u);
    }
  }

  lemma BreakAfterLostRow(s: State, i: nat)
    requires WellFormed(s) && i < |s.AllRows()| && Lost(s, i)
    ensures Length(s, i - 1) <= s.cols
    ensures Unmarked(s, Run(Done(s, i - 1), BreakOps(s, i)), i)
  {
    LostRowText(s, i);
    LengthFits(s, i - 1);
    BelowDoneIsUnmarked(s, i - 1);
    hide Run, BreakOps, Unmarked, RowsOps, Length, ContentLength, WellFormed, ExpectedLine;
    var u := Done(s, i - 1);
    BreakUnmarks(s, i, u);
  }

  lemma LostRowIsNotMarked(s: State, i: nat)
    requires WellFormed(s) && i < |s.AllRows()| && Lost(s, i) && ContinuationsRender(s, i)
    ensures Unmarked(s, Run(Ready(s, 0), RowsOps(s, i + 1)), i)
  {
    hide Run, ContentLength, Ready, Done, RowsOps, Unmarked;
    LostRowText(s, i);
    BreakAfterLostRow(s, i);
    RowsReplay(s, i);
    RunAppend(Ready(s, 0), RowsOps(s, i), BreakOps(s, i));
  }

  lemma {:induction false} LostRowStaysUnmarked(s: State, i: nat, n: nat)
    requires WellFormed(s) && i < |s.AllRows()| && Lost(s, i) && ContinuationsRender(s, i)
    requires i + 1 <= n <= |s.AllRows()|
    ensures Unmarked(s, Run(Ready(s, 0), RowsOps(s, n)), i)
    decreases n
  {
    hide *;
    if n == i + 1 {
      LostRowIsNotMarked(s, i);
    } else {
      LostRowStaysUnmarked(s, i, n - 1);
      var step := RowStep(s, n);
      RunAppend(Ready(s, 0), RowsOps(s, n - 1), step);
      UnmarkedStays(s, Run(Ready(s, 0), RowsOps(s, n - 1)), step, i);
    }
  }

  /** One more row: its columns and its line break, none of which jump. */
  lemma RowStep(s: State, n: nat) returns (step: seq<Op>)
    requires WellFormed(s) && 1 <= n <= |s.AllRows()|
    ensures RowsOps(s, n) == RowsOps(s, n - 1) + step && NoJumps(step)
  {
    hide RowOps, BreakOps, ContentLength, NoJumps;
    RowsStepDoesNotJump(s, n - 1);
    step := RowOps(s.AllRows()[n - 1], Length(s, n - 1)) + BreakOps(s, n - 1);
    assert RowsOps(s, n) == RowsOps(s, n - 1) + step;
  }

  lemma UnmarkedStays(s: State, t: Terminal, ops: seq<Op>, i: nat)
    requires t.Valid() && i + 1 < |s.AllRows()| && Unmarked(s, t, i) && NoJumps(ops)
    ensures Unmarked(s, Run(t, ops), i)
  {
    MarksStay(t, ops, i);
    hide Run;
  }

  lemma FirstLost(s: State, n: nat) returns (i: nat)
    requires WellFormed(s) && n <= |s.AllRows()| && !ContinuationsRender(s, n)
    ensures i < n && Lost(s, i) && ContinuationsRender(s, i)
    decreases n
  {
    hide ContentLength;
    if !ContinuationsRender(s, n - 1) {
      i := FirstLost(s, n - 1);
    } else {
      i := n - 1;
    }
  }

  // ---------------------------------------------------------------- the whole screen

  lemma SnapshotRuns(s: State)
    requires WellFormed(s)
    ensures Run(Fresh(s.rows, s.cols), Decode(SnapshotText(s))) ==
            Closed(s, Run(Ready(s, 0), RowsOps(s, |s.AllRows()|)))
  {
    hide Run, Decode, SnapshotText, RowsOps, ClosingOps, OpeningOps, Ready, Closed;
    var n := |s.AllRows()|;
    SnapshotDecodes(s);
    var t := Fresh(s.rows, s.cols);
    RunAppend(t, OpeningOps(s) + RowsOps(s, n), ClosingOps(s));
    RunAppend(t, OpeningOps(s), RowsOps(s, n));
    Opening(s);
    Closing(s, Run(Ready(s, 0), RowsOps(s, n)));
  }

  lemma CompleteScreen(s: State)
    requires WellFormed(s)
    ensures Length(s, |s.AllRows()| - 1) <= s.cols
    ensures Closed(s, Done(s, |s.AllRows()| - 1)) == Expected(s)
  {
    hide ExpectedLine, ContentLength, CursorStyleCode;
    LengthFits(s, |s.AllRows()| - 1);
    assert Done(s, |s.AllRows()| - 1).lines == Expected(s).lines;
  }

  lemma LostScreen(s: State, t: Terminal, i: nat)
    requires WellFormed(s) && t.Valid() && i < |s.AllRows()| && Lost(s, i) && Unmarked(s, t, i)
    ensures Closed(s, t) != Expected(s)
  {
    hide Glyphs, CursorStyleCode, ContentLength;
    assert Expected(s).lines[i].wrapped;
  }

  /**
   Whole-screen replay. The rendered stream, run on a fresh terminal, rebuilds scrollback
   and grid cell by cell and style by style, marks line i + 1 as a continuation exactly
   when flag i is set, and leaves pen, cursor and autowrap as asked -- exactly when every
   row that continues another one renders at least one column.
   */
  lemma SnapshotReplays(s: State)
    requires WellFormed(s)
    ensures Run(Fresh(s.rows, s.cols), Decode(SnapshotText(s))) == Expected(s) <==>
            ContinuationsRender(s, |s.AllRows()|)
  {
    hide Run, Decode, SnapshotText, RowsOps, Closed, Expected, Ready, Done, ContentLength;
    var n := |s.AllRows()|;
    SnapshotRuns(s);
    if ContinuationsRender(s, n) {
      RowsReplay(s, n);
      CompleteScreen(s);
    } else {
      var i := FirstLost(s, n);
      LostRowStaysUnmarked(s, i, n);
      LostScreen(s, Run(Ready(s, 0), RowsOps(s, n)), i);
    }
  }

  /** Without wrap flags (an older daemon) the replay needs no condition at all. */
  lemma VerbatimSnapshotReplays(s: State)
    requires WellFormed(s) && !s.HasWrapInfo()
    ensures Run(Fresh(s.rows, s.cols), Decode(SnapshotText(s))) == Expected(s)
    ensures forall i | 0 <= i < |s.AllRows()| :: !Expected(s).lines[i].wrapped
  {
    hide Run, Decode, SnapshotText;
    SnapshotReplays(s);
  }
}
