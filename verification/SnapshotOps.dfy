/**
 What a snapshot should look like on the screen, and the terminal operations that the
 rendered text spells.
 */
module SnapshotOps {
  import opened CsiText
  import opened Wrappers
  import opened ReferenceTerminal
  import opened TerminalSnapshot
  import Decimal

  // ---------------------------------------------------------------- hypotheses

  /** The value fits its colour mode: 16 colours, 256 colours, or 24 bits; other modes name no colour. */
  predicate InRange(mode: Option<int>, value: Option<int>) {
    mode.Some? && value.Some? ==>
      && (mode.value == 1 ==> 0 <= value.value < 16)
      && (mode.value == 2 ==> 0 <= value.value < 256)
      && (mode.value == 3 ==> 0 <= value.value < 0x100_0000)
  }

  predicate InRangeStyle(style: Style) {
    InRange(style.fgMode, style.fg) && InRange(style.bgMode, style.bg)
  }

  /** A cell that takes one column and whose colours are in range. */
  predicate GoodCell(cell: Cell) {
    |cell.text| <= 1 && (cell.text != "" ==> IsPrintable(cell.text[0])) && InRangeStyle(StyleOf(cell))
  }

  predicate GoodRow(row: seq<Cell>, cols: nat) {
    |row| <= cols && forall i | 0 <= i < |row| :: GoodCell(row[i])
  }

  predicate WellFormed(s: State) {
    && s.cols >= 1 && s.rows >= 1 && |s.grid| == s.rows
    && forall i | 0 <= i < |s.AllRows()| :: GoodRow(s.AllRows()[i], s.cols)
  }

  // ---------------------------------------------------------------- the expected screen

  function NormalColor(mode: Option<int>, value: Option<int>): Color
    requires InRange(mode, value)
  {
    if mode.None? || value.None? then DefaultColor
    else if mode.value == 1 then Palette16(value.value)
    else if mode.value == 2 then Palette256(value.value)
    else if mode.value == 3 then
      Rgb(value.value / 0x10000, (value.value / 0x100) % 0x100, value.value % 0x100)
    else DefaultColor
  }

  function NormalPen(style: Style): Pen
    requires InRangeStyle(style)
  {
    Pen(NormalColor(style.fgMode, style.fg), NormalColor(style.bgMode, style.bg),
        style.bold, style.dim, style.italic, style.underline, style.inverse, style.strikethrough)
  }

  function NormalGlyph(cell: Cell): Glyph
    requires GoodCell(cell)
  {
    Glyph(CellText(cell)[0], NormalPen(StyleOf(cell)))
  }

  /** The first `n` columns of a row, with blanks beyond its end. */
  function Glyphs(row: seq<Cell>, n: nat): (gs: seq<Glyph>)
    requires forall i | 0 <= i < |row| :: GoodCell(row[i])
    ensures |gs| == n
  {
    seq(n, i requires 0 <= i < n => NormalGlyph(CellAt(row, i)))
  }

  function ExpectedLine(s: State, i: nat): (line: Line)
    requires WellFormed(s) && i < |s.AllRows()|
    ensures |line.cells| == s.cols
  {
    Line(Glyphs(s.AllRows()[i], s.cols), i > 0 && s.Continues(i - 1))
  }

  /** Scrollback and grid in order, default pen, the cursor inside the screen, autowrap on. */
  function Expected(s: State): (t: Terminal)
    requires WellFormed(s)
    ensures t.Valid()
  {
    var n := |s.AllRows()|;
    Terminal(
      s.rows, s.cols,
      seq(n, i requires 0 <= i < n => ExpectedLine(s, i)),
      |s.scrollback| + Min(s.cursor.row, s.rows - 1), Min(s.cursor.col, s.cols - 1),
      DEFAULT_PEN, true, !s.cursor.hidden,
      if s.cursor.style.Some? then CursorStyleCode(s.cursor.style.value, s.cursor.blink) else 0)
  }

  // ---------------------------------------------------------------- styles as parameters

  function ColorParams(mode: Option<int>, value: Option<int>, background: bool): seq<nat>
    requires InRange(mode, value)
  {
    if mode.None? || value.None? then []
    else if mode.value == 1 then
      [if value.value >= 8 then (if background then 100 else 90) + (value.value - 8)
       else (if background then 40 else 30) + value.value]
    else if mode.value == 2 then [if background then 48 else 38, 5, value.value]
    else if mode.value == 3 then
      [if background then 48 else 38, 2,
       (value.value / 0x10000) % 0x100, (value.value / 0x100) % 0x100, value.value % 0x100]
    else []
  }

  function Flag(flag: bool, code: nat): seq<nat> {
    if flag then [code] else []
  }

  function FlagParams(style: Style): seq<nat> {
    [0] + Flag(style.bold, 1) + Flag(style.dim, 2) + Flag(style.italic, 3) +
    Flag(style.underline, 4) + Flag(style.inverse, 7) + Flag(style.strikethrough, 9)
  }

  function StyleParams(style: Style): seq<nat>
    requires InRangeStyle(style)
  {
    FlagParams(style) +
    ColorParams(style.fgMode, style.fg, false) + ColorParams(style.bgMode, style.bg, true)
  }

  lemma PrintAllAppend(a: seq<nat>, b: seq<nat>)
    ensures PrintAll(a + b) == PrintAll(a) + PrintAll(b)
  {}

  lemma PrintedFlag(flag: bool, code: nat)
    requires code < 10
    ensures PrintAll(Flag(flag, code)) == When(flag, [Decimal.Digit(code)])
  {
    assert PrintAll([]) == [];
    assert PrintAll([code]) == [Decimal.Print(code)];
  }

  lemma PrintedColor(mode: Option<int>, value: Option<int>, background: bool)
    requires InRange(mode, value)
    ensures PrintAll(ColorParams(mode, value, background)) == ColorCodes(mode, value, background)
  {
    FixedCodes();
    hide Decimal.Print;
    var ps, codes := ColorParams(mode, value, background), ColorCodes(mode, value, background);
    assert |ps| == |codes|;
    assert forall i | 0 <= i < |ps| :: Decimal.Print(ps[i]) == codes[i];
    PrintedOneByOne(ps, codes);
    hide *;
  }

  lemma FixedCodes()
    ensures Decimal.Print(38) == "38" && Decimal.Print(48) == "48"
    ensures Decimal.Print(2) == "2" && Decimal.Print(5) == "5"
  {
    assert Decimal.Print(3) == "3" && Decimal.Print(4) == "4";
  }

  lemma PrintedOneByOne(ps: seq<nat>, codes: seq<string>)
    requires |ps| == |codes| && forall i | 0 <= i < |ps| :: Decimal.Print(ps[i]) == codes[i]
    ensures PrintAll(ps) == codes
  {
    hide Decimal.Print;
  }

  lemma PrintedFlags(style: Style)
    ensures PrintAll(FlagParams(style)) ==
            ["0"] + When(style.bold, "1") + When(style.dim, "2") + When(style.italic, "3") +
            When(style.underline, "4") + When(style.inverse, "7") + When(style.strikethrough, "9")
  {
    PrintedFlag(true, 0);
    PrintedFlag(style.bold, 1);
    PrintedFlag(style.dim, 2);
    PrintedFlag(style.italic, 3);
    PrintedFlag(style.underline, 4);
    PrintedFlag(style.inverse, 7);
    PrintedFlag(style.strikethrough, 9);
    var a0 := Flag(true, 0);
    assert a0 == [0] && When(true, "0") == ["0"];
    hide Flag, When, PrintAll;
    var a1 := a0 + Flag(style.bold, 1);
    var a2 := a1 + Flag(style.dim, 2);
    var a3 := a2 + Flag(style.italic, 3);
    var a4 := a3 + Flag(style.underline, 4);
    var a5 := a4 + Flag(style.inverse, 7);
    PrintAllAppend(a0, Flag(style.bold, 1));
    PrintAllAppend(a1, Flag(style.dim, 2));
    PrintAllAppend(a2, Flag(style.italic, 3));
    PrintAllAppend(a3, Flag(style.underline, 4));
    PrintAllAppend(a4, Flag(style.inverse, 7));
    PrintAllAppend(a5, Flag(style.strikethrough, 9));
  }

  /** The text of a style is one SGR operation. */
  lemma StyleTextIsSgr(style: Style)
    requires InRangeStyle(style)
    ensures StyleText(style) == Text(Sgr(StyleParams(style)))
    ensures StyleParams(style) != []
  {
    PrintedFlags(style);
    PrintedColor(style.fgMode, style.fg, false);
    PrintedColor(style.bgMode, style.bg, true);
    assert FlagParams(style) != [];
    hide FlagParams, ColorParams, ColorCodes, When, PrintAll, Join;
    PrintAllAppend(FlagParams(style), ColorParams(style.fgMode, style.fg, false));
    PrintAllAppend(FlagParams(style) + ColorParams(style.fgMode, style.fg, false),
                   ColorParams(style.bgMode, style.bg, true));
    assert StyleCodes(style) == PrintAll(StyleParams(style));
  }

  // ---------------------------------------------------------------- reading a style back

  function ApplyCodes(pen: Pen, codes: seq<nat>): Pen {
    if codes == [] then pen else ApplyCode(ApplyCodes(pen, codes[..|codes| - 1]), codes[|codes| - 1])
  }

  lemma {:induction false} ApplySimple(pen: Pen, codes: seq<nat>, rest: seq<nat>)
    requires Simple(codes)
    ensures ApplySgr(pen, codes + rest) == ApplySgr(ApplyCodes(pen, codes), rest)
    decreases |codes|
  {
    hide ApplyCode;
    if codes == [] {
      assert codes + rest == rest;
    } else {
      var front, last := codes[..|codes| - 1], codes[|codes| - 1];
      assert codes + rest == front + ([last] + rest);
      ApplySimple(pen, front, [last] + rest);
      assert ([last] + rest)[1..] == rest;
    }
  }

  lemma ApplyFlag(pen: Pen, codes: seq<nat>, flag: bool, code: nat)
    ensures ApplyCodes(pen, codes + Flag(flag, code)) ==
            if flag then ApplyCode(ApplyCodes(pen, codes), code) else ApplyCodes(pen, codes)
  {
    if flag {
      assert (codes + [code])[..|codes|] == codes;
    } else {
      assert codes + [] == codes;
    }
  }

  lemma ApplyFirstFlags(pen: Pen, style: Style)
    ensures ApplyCodes(pen, [0] + Flag(style.bold, 1) + Flag(style.dim, 2) + Flag(style.italic, 3)) ==
            DEFAULT_PEN.(bold := style.bold, dim := style.dim, italic := style.italic)
  {
    assert [0][..0] == [];
    assert ApplyCodes(pen, [0]) == DEFAULT_PEN;
    hide ApplyCodes, Flag;
    var a1 := [0] + Flag(style.bold, 1);
    var a2 := a1 + Flag(style.dim, 2);
    ApplyFlag(pen, [0], style.bold, 1);
    ApplyFlag(pen, a1, style.dim, 2);
    ApplyFlag(pen, a2, style.italic, 3);
  }

  /** The pen after the flags of a style, colours still default. */
  lemma ApplyFlags(pen: Pen, style: Style)
    ensures ApplyCodes(pen, FlagParams(style)) ==
            Pen(DefaultColor, DefaultColor, style.bold, style.dim, style.italic,
                style.underline, style.inverse, style.strikethrough)
  {
    hide ApplyCodes, Flag;
    ApplyFirstFlags(pen, style);
    var a3 := [0] + Flag(style.bold, 1) + Flag(style.dim, 2) + Flag(style.italic, 3);
    var a4 := a3 + Flag(style.underline, 4);
    var a5 := a4 + Flag(style.inverse, 7);
    ApplyFlag(pen, a3, style.underline, 4);
    ApplyFlag(pen, a4, style.inverse, 7);
    ApplyFlag(pen, a5, style.strikethrough, 9);
  }

  lemma ApplyGroup(pen: Pen, group: seq<nat>, rest: seq<nat>)
    requires |group| >= 1
    ensures |group| == 1 && group[0] != 38 && group[0] != 48 ==>
              ApplySgr(pen, group + rest) == ApplySgr(ApplyCode(pen, group[0]), rest)
    ensures |group| == 3 && (group[0] == 38 || group[0] == 48) && group[1] == 5 ==>
              ApplySgr(pen, group + rest) == ApplySgr(SetColor(pen, group[0] == 48, Palette256(group[2] % 256)), rest)
    ensures |group| == 5 && (group[0] == 38 || group[0] == 48) && group[1] == 2 ==>
              ApplySgr(pen, group + rest) ==
              ApplySgr(SetColor(pen, group[0] == 48, Rgb(group[2] % 256, group[3] % 256, group[4] % 256)), rest)
  {
    hide ApplyCode, SetColor;
    var ps := group + rest;
    assert ps[|group|..] == rest;
  }

  lemma ApplyColor(pen: Pen, mode: Option<int>, value: Option<int>, background: bool, rest: seq<nat>)
    requires InRange(mode, value)
    requires (if background then pen.bg else pen.fg) == DefaultColor
    ensures ApplySgr(pen, ColorParams(mode, value, background) + rest) ==
            ApplySgr(SetColor(pen, background, NormalColor(mode, value)), rest)
  {
    hide ApplySgr, ApplyCode;
    var group := ColorParams(mode, value, background);
    if group == [] {
      assert group + rest == rest;
      assert SetColor(pen, background, DefaultColor) == pen;
    } else {
      ApplyGroup(pen, group, rest);
      if mode.value == 1 {
        PaletteCode(pen, value.value, background);
      }
    }
  }

  lemma PaletteCode(pen: Pen, value: nat, background: bool)
    requires value < 16
    ensures ApplyCode(pen, (if value >= 8 then (if background then 100 else 90) + (value - 8)
                            else (if background then 40 else 30) + value)) ==
            SetColor(pen, background, Palette16(value))
  {}

  lemma ApplyNothing(pen: Pen)
    ensures ApplySgr(pen, []) == pen
  {}

  predicate Simple(codes: seq<nat>) {
    forall i | 0 <= i < |codes| :: codes[i] != 38 && codes[i] != 48
  }

  lemma SimpleFlags(style: Style)
    ensures Simple(FlagParams(style))
  {
    SimpleFlag([0], style.bold, 1);
    hide Simple, Flag;
    var a1 := [0] + Flag(style.bold, 1);
    SimpleFlag(a1, style.dim, 2);
    var a2 := a1 + Flag(style.dim, 2);
    SimpleFlag(a2, style.italic, 3);
    var a3 := a2 + Flag(style.italic, 3);
    SimpleFlag(a3, style.underline, 4);
    var a4 := a3 + Flag(style.underline, 4);
    SimpleFlag(a4, style.inverse, 7);
    SimpleFlag(a4 + Flag(style.inverse, 7), style.strikethrough, 9);
  }

  lemma SimpleFlag(codes: seq<nat>, flag: bool, code: nat)
    requires Simple(codes) && code < 10
    ensures Simple(codes + Flag(flag, code))
  {}

  /** SGR decoding inverts the style printer for every colour in range, whatever the pen was. */
  lemma SgrInvertsStyle(pen: Pen, style: Style)
    requires InRangeStyle(style)
    ensures ApplySgr(pen, StyleParams(style)) == NormalPen(style)
  {
    ApplyFlags(pen, style);
    SimpleFlags(style);
    ApplyNothing(NormalPen(style));
    hide ColorParams, FlagParams, ApplyCodes, ApplySgr, NormalColor, Simple, InRange;
    var flags := FlagParams(style);
    var fg := ColorParams(style.fgMode, style.fg, false);
    var bg := ColorParams(style.bgMode, style.bg, true);
    assert StyleParams(style) == flags + (fg + (bg + []));
    ApplySimple(pen, flags, fg + (bg + []));
    var p0 := ApplyCodes(pen, flags);
    ApplyColor(p0, style.fgMode, style.fg, false, bg + []);
    var p1 := SetColor(p0, false, NormalColor(style.fgMode, style.fg));
    ApplyColor(p1, style.bgMode, style.bg, true, []);
  }

  // ---------------------------------------------------------------- the operations of the text

  lemma GoodAt(row: seq<Cell>, i: nat)
    requires forall k | 0 <= k < |row| :: GoodCell(row[k])
    ensures GoodCell(CellAt(row, i)) && InRangeStyle(StyleBefore(row, i))
    ensures NormalPen(DEFAULT_STYLE) == DEFAULT_PEN
  {}

  ghost predicate GoodCells(row: seq<Cell>) {
    forall i | 0 <= i < |row| :: GoodCell(row[i])
  }

  function ColumnOps(row: seq<Cell>, i: nat): seq<Op>
    requires GoodCells(row)
  {
    GoodAt(row, i);
    var style := StyleOf(CellAt(row, i));
    (if style != StyleBefore(row, i) then [Sgr(StyleParams(style))] else []) +
    [Print(CellText(CellAt(row, i))[0])]
  }

  function ColumnsOps(row: seq<Cell>, n: nat): seq<Op>
    requires GoodCells(row)
  {
    if n == 0 then [] else ColumnsOps(row, n - 1) + ColumnOps(row, n - 1)
  }

  const RESET := Sgr([0])

  function RowOps(row: seq<Cell>, length: nat): seq<Op>
    requires GoodCells(row)
  {
    ColumnsOps(row, length) + if StyleBefore(row, length) != DEFAULT_STYLE then [RESET] else []
  }

  function Length(s: State, i: nat): nat
    requires i < |s.AllRows()|
  {
    RenderedLength(s.AllRows()[i], PadFor(s, i))
  }

  function BreakOps(s: State, i: nat): seq<Op> {
    if i + 1 < |s.AllRows()| && !s.Continues(i) then [CarriageReturn, LineFeed] else []
  }

  function RowsOps(s: State, n: nat): seq<Op>
    requires WellFormed(s) && n <= |s.AllRows()|
  {
    if n == 0 then []
    else
      assert GoodRow(s.AllRows()[n - 1], s.cols);
      RowsOps(s, n - 1) + RowOps(s.AllRows()[n - 1], Length(s, n - 1)) + BreakOps(s, n - 1)
  }

  function ShapeOps(cursor: Cursor): seq<Op> {
    if cursor.style.Some? then [CursorShape(CursorStyleCode(cursor.style.value, cursor.blink))] else []
  }

  function PenOps(s: State): seq<Op> {
    [RESET] + ShapeOps(s.cursor)
  }

  function CursorOps(s: State): seq<Op> {
    [CursorTo(s.cursor.row + 1, s.cursor.col + 1)] +
    [if s.cursor.hidden then ResetMode(CURSOR_MODE) else SetMode(CURSOR_MODE)]
  }

  function WrapOps(s: State): seq<Op> {
    if s.HasWrapInfo() then [] else [SetMode(AUTOWRAP_MODE)]
  }

  function ClosingOps(s: State): seq<Op> {
    PenOps(s) + CursorOps(s) + WrapOps(s)
  }

  function OpeningOps(s: State): seq<Op> {
    if s.HasWrapInfo() then [] else [ResetMode(AUTOWRAP_MODE)]
  }

  function SnapshotOps(s: State): seq<Op>
    requires WellFormed(s)
  {
    OpeningOps(s) + RowsOps(s, |s.AllRows()|) + ClosingOps(s)
  }

  // ---------------------------------------------------------------- the text spells the operations

  predicate Spells(text: string, ops: seq<Op>) {
    text == TextAll(ops) && forall i | 0 <= i < |ops| :: Spellable(ops[i])
  }

  lemma SpellsNothing()
    ensures Spells("", [])
  {}

  lemma SpellsOne(op: Op)
    requires Spellable(op)
    ensures Spells(Text(op), [op])
  {
    TextOne(op);
  }

  lemma SpellsBoth(text1: string, ops1: seq<Op>, text2: string, ops2: seq<Op>)
    requires Spells(text1, ops1) && Spells(text2, ops2)
    ensures Spells(text1 + text2, ops1 + ops2)
  {
    TextAllAppend(ops1, ops2);
  }

  lemma SpellsSimple()
    ensures Spells(RESET_TEXT, [RESET])
    ensures Spells("\r\n", [CarriageReturn, LineFeed])
    ensures Spells([ESC] + "[?7l", [ResetMode(AUTOWRAP_MODE)])
    ensures Spells([ESC] + "[?7h", [SetMode(AUTOWRAP_MODE)])
    ensures Spells([ESC] + "[?25l", [ResetMode(CURSOR_MODE)])
    ensures Spells([ESC] + "[?25h", [SetMode(CURSOR_MODE)])
  {
    SpellsLineBreak();
    assert Decimal.Print(0) == "0" && Decimal.Print(7) == "7";
    assert Decimal.Print(25) == "25" by { assert Decimal.Print(2) == "2"; }
    assert PrintAll([0]) == ["0"] && PrintAll([7]) == ["7"] && PrintAll([25]) == ["25"];
    hide Spells, Decimal.Print, PrintAll;
    SpellsOne(RESET);
    SpellsOne(ResetMode(AUTOWRAP_MODE));
    SpellsOne(SetMode(AUTOWRAP_MODE));
    SpellsOne(ResetMode(CURSOR_MODE));
    SpellsOne(SetMode(CURSOR_MODE));
  }

  lemma SpellsLineBreak()
    ensures Spells("\r\n", [CarriageReturn, LineFeed])
  {
    hide Spells;
    SpellsOne(CarriageReturn);
    SpellsOne(LineFeed);
    SpellsBoth("\r", [CarriageReturn], "\n", [LineFeed]);
    assert "\r" + "\n" == "\r\n" && [CarriageReturn] + [LineFeed] == [CarriageReturn, LineFeed];
  }

  lemma SpellsColumn(row: seq<Cell>, i: nat)
    requires GoodCells(row)
    ensures Spells(ColumnText(row, i), ColumnOps(row, i))
  {
    GoodAt(row, i);
    var style, glyph := StyleOf(CellAt(row, i)), CellText(CellAt(row, i));
    var changed := style != StyleBefore(row, i);
    assert glyph == [glyph[0]];
    hide StyleText, StyleParams, Spells;
    StyleTextIsSgr(style);
    SpellsOne(Sgr(StyleParams(style)));
    SpellsOne(Print(glyph[0]));
    SpellsNothing();
    SpellsBoth(if changed then StyleText(style) else "", if changed then [Sgr(StyleParams(style))] else [],
               glyph, [Print(glyph[0])]);
  }

  lemma {:induction false} SpellsColumns(row: seq<Cell>, n: nat)
    requires GoodCells(row)
    ensures Spells(ColumnsText(row, n), ColumnsOps(row, n))
  {
    hide Spells, ColumnText, ColumnOps;
    if n == 0 {
      SpellsNothing();
    } else {
      SpellsColumns(row, n - 1);
      SpellsColumn(row, n - 1);
      SpellsBoth(ColumnsText(row, n - 1), ColumnsOps(row, n - 1), ColumnText(row, n - 1), ColumnOps(row, n - 1));
    }
  }

  lemma SpellsRow(row: seq<Cell>, length: nat)
    requires GoodCells(row)
    ensures Spells(RowText(row, length), RowOps(row, length))
  {
    hide Spells, ColumnsText, ColumnsOps, StyleBefore;
    SpellsColumns(row, length);
    SpellsSimple();
    SpellsNothing();
    var styled := StyleBefore(row, length) != DEFAULT_STYLE;
    SpellsBoth(ColumnsText(row, length), ColumnsOps(row, length),
               if styled then RESET_TEXT else "", if styled then [RESET] else []);
  }

  lemma {:induction false} SpellsRows(s: State, n: nat)
    requires WellFormed(s) && n <= |s.AllRows()|
    ensures Spells(RowsText(s, n), RowsOps(s, n))
  {
    hide Spells, RowText, RowOps, RenderedLength;
    SpellsNothing();
    if n > 0 {
      var row, length := s.AllRows()[n - 1], Length(s, n - 1);
      assert GoodRow(row, s.cols);
      SpellsRows(s, n - 1);
      SpellsRow(row, length);
      SpellsSimple();
      var ending := if n - 1 < |s.AllRows()| - 1 && !s.Continues(n - 1) then "\r\n" else "";
      SpellsBoth(RowsText(s, n - 1), RowsOps(s, n - 1), RowText(row, length), RowOps(row, length));
      SpellsBoth(RowsText(s, n - 1) + RowText(row, length), RowsOps(s, n - 1) + RowOps(row, length),
                 ending, BreakOps(s, n - 1));
      assert RowsText(s, n - 1) + RowText(row, length) + ending ==
             RowsText(s, n - 1) + (RowText(row, length) + ending);
    }
  }

  lemma SpellsCursor(cursor: Cursor)
    ensures Spells(CursorPresentationText(cursor), ShapeOps(cursor))
    ensures Spells([ESC] + "[" + Decimal.Print(cursor.row + 1) + ";" + Decimal.Print(cursor.col + 1) + "H",
                   [CursorTo(cursor.row + 1, cursor.col + 1)])
  {
    SpellsShape(cursor);
    SpellsPosition(cursor.row + 1, cursor.col + 1);
  }

  lemma SpellsShape(cursor: Cursor)
    ensures Spells(CursorPresentationText(cursor), ShapeOps(cursor))
  {
    hide Spells, CursorStyleCode;
    SpellsNothing();
    if cursor.style.Some? {
      var shape := CursorStyleCode(cursor.style.value, cursor.blink);
      assert PrintAll([shape]) == [Decimal.Print(shape)];
      hide Decimal.Print, PrintAll;
      SpellsOne(CursorShape(shape));
      assert Text(CursorShape(shape)) == CursorPresentationText(cursor);
    }
  }

  lemma SpellsPosition(line: nat, column: nat)
    ensures Spells([ESC] + "[" + Decimal.Print(line) + ";" + Decimal.Print(column) + "H", [CursorTo(line, column)])
  {
    hide Spells, Decimal.Print, PrintAll, Join;
    JoinTwo(line, column);
    SpellsOne(CursorTo(line, column));
    assert Text(CursorTo(line, column)) == [ESC] + "[" + Decimal.Print(line) + ";" + Decimal.Print(column) + "H";
  }

  lemma JoinTwo(m: nat, n: nat)
    ensures Join(PrintAll([m, n])) == Decimal.Print(m) + ";" + Decimal.Print(n)
  {
    assert [m, n][1..] == [n];
    assert PrintAll([n]) == [Decimal.Print(n)];
  }

  lemma SpellsClosing(s: State)
    ensures Spells(ClosingText(s), ClosingOps(s))
  {
    hide Spells, CursorPresentationText, ShapeOps;
    SpellsSimple();
    SpellsNothing();
    SpellsCursor(s.cursor);
    var shape := CursorPresentationText(s.cursor);
    var position := [ESC] + "[" + Decimal.Print(s.cursor.row + 1) + ";" + Decimal.Print(s.cursor.col + 1) + "H";
    var visible := if s.cursor.hidden then [ESC] + "[?25l" else [ESC] + "[?25h";
    var wrap := if s.HasWrapInfo() then "" else [ESC] + "[?7h";
    SpellsBoth(RESET_TEXT, [RESET], shape, ShapeOps(s.cursor));
    SpellsBoth(position, [CursorTo(s.cursor.row + 1, s.cursor.col + 1)],
               visible, [if s.cursor.hidden then ResetMode(CURSOR_MODE) else SetMode(CURSOR_MODE)]);
    SpellsBoth(RESET_TEXT + shape, PenOps(s), position + visible, CursorOps(s));
    SpellsBoth(RESET_TEXT + shape + (position + visible), PenOps(s) + CursorOps(s), wrap, WrapOps(s));
    assert ClosingText(s) == RESET_TEXT + shape + (position + visible) + wrap;
  }

  /** The rendered text of a well-formed snapshot is read as exactly these operations. */
  lemma SnapshotDecodes(s: State)
    requires WellFormed(s)
    ensures Decode(SnapshotText(s)) == SnapshotOps(s)
  {
    hide RowsText, RowsOps, ClosingText, ClosingOps, Decode, TextAll;
    SpellsSimple();
    SpellsNothing();
    SpellsRows(s, |s.AllRows()|);
    SpellsClosing(s);
    var opening := if s.HasWrapInfo() then "" else [ESC] + "[?7l";
    var rows, rowsOps := RowsText(s, |s.AllRows()|), RowsOps(s, |s.AllRows()|);
    SpellsBoth(opening, OpeningOps(s), rows, rowsOps);
    SpellsBoth(opening + rows, OpeningOps(s) + rowsOps, ClosingText(s), ClosingOps(s));
    DecodeAll(SnapshotOps(s));
  }
}
