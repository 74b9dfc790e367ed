/**
 The snapshot renderer: a cell grid with its scrollback, turned into one control stream.
 The loops and array pushes of the renderer are methods here; each is proved to build the
 string that the function beside it defines.
 */
module TerminalSnapshot {
  import opened CsiText
  import opened Wrappers
  import Decimal

  // ---------------------------------------------------------------- the snapshot

  /** A cell as it arrives; an absent flag counts as false in the renderer. */
  datatype Cell = Cell(
    text: string, fg: Option<int>, bg: Option<int>, fgMode: Option<int>, bgMode: Option<int>,
    bold: bool, italic: bool, underline: bool, dim: bool, inverse: bool, strikethrough: bool)

  datatype Style = Style(
    fg: Option<int>, bg: Option<int>, fgMode: Option<int>, bgMode: Option<int>,
    bold: bool, italic: bool, underline: bool, dim: bool, inverse: bool, strikethrough: bool)

  datatype CursorStyle = Block | Underline | Bar

  datatype Cursor = Cursor(row: nat, col: nat, hidden: bool, style: Option<CursorStyle>, blink: Option<bool>)

  datatype State = State(
    rows: nat, cols: nat,
    grid: seq<seq<Cell>>, scrollback: seq<seq<Cell>>,
    cursor: Cursor,
    gridWrapped: Option<seq<bool>>, scrollbackWrapped: Option<seq<bool>>)
  {
    function AllRows(): seq<seq<Cell>> {
      scrollback + grid
    }

    function WrapFlags(): seq<bool> {
      scrollbackWrapped.GetOr([]) + gridWrapped.GetOr([])
    }

    predicate HasWrapInfo() {
      |WrapFlags()| == |AllRows()|
    }

    predicate Continues(i: nat) {
      HasWrapInfo() && i < |AllRows()| && WrapFlags()[i]
    }
  }

  const DEFAULT_STYLE := Style(None, None, None, None, false, false, false, false, false, false)

  /** `{ char: " " }`: what a padded column renders. */
  const SPACE_CELL := Cell(" ", None, None, None, None, false, false, false, false, false, false)

  const RESET_TEXT := [ESC] + "[0m"

  // ---------------------------------------------------------------- styles

  function StyleOf(cell: Cell): Style {
    Style(cell.fg, cell.bg, cell.fgMode, cell.bgMode,
          cell.bold, cell.italic, cell.underline, cell.dim, cell.inverse, cell.strikethrough)
  }

  /** `String(n)` for an integer. */
  function StringOf(n: int): string {
    if n < 0 then "-" + Decimal.Print(-n) else Decimal.Print(n)
  }

  function ColorToSgr(mode: int, value: int, background: bool): seq<string> {
    if mode == 1 then
      if value >= 8 then [StringOf((if background then 100 else 90) + (value - 8))]
      else [StringOf((if background then 40 else 30) + value)]
    else if mode == 2 then [if background then "48" else "38", "5", StringOf(value)]
    else if mode == 3 then
      [if background then "48" else "38", "2",
       StringOf((value / 0x10000) % 0x100), StringOf((value / 0x100) % 0x100), StringOf(value % 0x100)]
    else []
  }

  function When(flag: bool, code: string): seq<string> {
    if flag then [code] else []
  }

  function ColorCodes(mode: Option<int>, value: Option<int>, background: bool): seq<string> {
    if mode.Some? && value.Some? then ColorToSgr(mode.value, value.value, background) else []
  }

  function FlagCodes(style: Style): seq<string> {
    ["0"] + When(style.bold, "1") + When(style.dim, "2") + When(style.italic, "3") +
    When(style.underline, "4") + When(style.inverse, "7") + When(style.strikethrough, "9")
  }

  function StyleCodes(style: Style): seq<string> {
    FlagCodes(style) +
    ColorCodes(style.fgMode, style.fg, false) + ColorCodes(style.bgMode, style.bg, true)
  }

  function StyleText(style: Style): string {
    [ESC] + "[" + Join(StyleCodes(style)) + "m"
  }

  /** The pushes before the colours. */
  method PushFlags(style: Style) returns (codes: seq<string>)
    ensures codes == FlagCodes(style)
  {
    codes := ["0"];
    if style.bold { codes := codes + ["1"]; }
    assert codes == ["0"] + When(style.bold, "1");
    ghost var c1 := codes;
    if style.dim { codes := codes + ["2"]; }
    assert codes == c1 + When(style.dim, "2");
    ghost var c2 := codes;
    if style.italic { codes := codes + ["3"]; }
    assert codes == c2 + When(style.italic, "3");
    ghost var c3 := codes;
    if style.underline { codes := codes + ["4"]; }
    assert codes == c3 + When(style.underline, "4");
    ghost var c4 := codes;
    if style.inverse { codes := codes + ["7"]; }
    assert codes == c4 + When(style.inverse, "7");
    ghost var c5 := codes;
    if style.strikethrough { codes := codes + ["9"]; }
    assert codes == c5 + When(style.strikethrough, "9");
  }

  method StyleToAnsi(style: Style) returns (text: string)
    ensures text == StyleText(style)
  {
    hide ColorToSgr, Join, FlagCodes;
    var codes := PushFlags(style);
    ghost var c6 := codes;
    if style.fg.Some? && style.fgMode.Some? {
      codes := codes + ColorToSgr(style.fgMode.value, style.fg.value, false);
    }
    assert codes == c6 + ColorCodes(style.fgMode, style.fg, false);
    ghost var c7 := codes;
    if style.bg.Some? && style.bgMode.Some? {
      codes := codes + ColorToSgr(style.bgMode.value, style.bg.value, true);
    }
    assert codes == c7 + ColorCodes(style.bgMode, style.bg, true);
    text := [ESC] + "[" + Join(codes) + "m";
  }

  // ---------------------------------------------------------------- one row

  /** A cell that the trimming of a row may drop. */
  predicate IsTrimmable(cell: Cell) {
    cell.text == " " && StyleOf(cell) == DEFAULT_STYLE
  }

  /** The row without its trailing trimmable cells, looking at the first `n`. */
  function ContentLength(row: seq<Cell>, n: nat): (length: nat)
    requires n <= |row|
    ensures length <= n
    ensures forall i | length <= i < n :: IsTrimmable(row[i])
    ensures length > 0 ==> !IsTrimmable(row[length - 1])
  {
    if n == 0 then 0
    else if !IsTrimmable(row[n - 1]) then n
    else ContentLength(row, n - 1)
  }

  method GetTerminalRowLength(row: seq<Cell>) returns (length: nat)
    ensures length == ContentLength(row, |row|)
  {
    var index := |row| - 1;
    while index >= 0
      invariant -1 <= index < |row|
      invariant ContentLength(row, index + 1) == ContentLength(row, |row|)
    {
      var cell := row[index];
      if cell.text != " " {
        return index + 1;
      }
      if cell.fg.Some? || cell.bg.Some? || cell.fgMode.Some? || cell.bgMode.Some? ||
         cell.bold || cell.italic || cell.underline || cell.dim || cell.inverse || cell.strikethrough {
        return index + 1;
      }
      index := index - 1;
    }
    return 0;
  }

  function CellAt(row: seq<Cell>, i: nat): Cell {
    if i < |row| then row[i] else SPACE_CELL
  }

  /** `cell.char || " "`. */
  function CellText(cell: Cell): string {
    if cell.text == "" then " " else cell.text
  }

  function RenderedLength(row: seq<Cell>, padToCols: Option<nat>): nat {
    var content := ContentLength(row, |row|);
    match padToCols
    case None => content
    case Some(cols) => if content < cols then cols else content
  }

  /** The style written last when column `i` is reached. */
  function StyleBefore(row: seq<Cell>, i: nat): Style {
    if i == 0 then DEFAULT_STYLE else StyleOf(CellAt(row, i - 1))
  }

  function ColumnText(row: seq<Cell>, i: nat): string {
    var style := StyleOf(CellAt(row, i));
    (if style != StyleBefore(row, i) then StyleText(style) else "") + CellText(CellAt(row, i))
  }

  /** The first `n` columns. */
  function ColumnsText(row: seq<Cell>, n: nat): string {
    if n == 0 then "" else ColumnsText(row, n - 1) + ColumnText(row, n - 1)
  }

  function RowText(row: seq<Cell>, length: nat): string {
    ColumnsText(row, length) + if StyleBefore(row, length) != DEFAULT_STYLE then RESET_TEXT else ""
  }

  method RenderTerminalRow(row: seq<Cell>, padToCols: Option<nat>) returns (output: string)
    ensures output == RowText(row, RenderedLength(row, padToCols))
  {
    hide StyleText, ContentLength;
    output := "";
    var contentLength := GetTerminalRowLength(row);
    var length := if padToCols.Some? && contentLength < padToCols.value then padToCols.value else contentLength;
    var previousStyle := DEFAULT_STYLE;
    for index := 0 to length
      invariant output == ColumnsText(row, index)
      invariant previousStyle == StyleBefore(row, index)
    {
      ghost var before := output;
      var cell := if index < |row| then row[index] else SPACE_CELL;
      var nextStyle := StyleOf(cell);
      if previousStyle != nextStyle {
        var codes := StyleToAnsi(nextStyle);
        output := output + codes;
        previousStyle := nextStyle;
      }
      output := output + CellText(cell);
      assert output == before + ColumnText(row, index);
    }
    if previousStyle != DEFAULT_STYLE {
      output := output + RESET_TEXT;
    }
  }

  // ---------------------------------------------------------------- the whole screen

  function CursorStyleCode(style: CursorStyle, blink: Option<bool>): nat {
    var steady := blink == Some(false);
    match style
    case Block => if steady then 2 else 1
    case Underline => if steady then 4 else 3
    case Bar => if steady then 6 else 5
  }

  function CursorPresentationText(cursor: Cursor): string {
    match cursor.style
    case None => ""
    case Some(style) => [ESC] + "[" + Decimal.Print(CursorStyleCode(style, cursor.blink)) + " q"
  }

  function PadFor(s: State, i: nat): Option<nat> {
    if s.Continues(i) then Some(s.cols) else None
  }

  /** A row with the line break after it, when it does not continue. */
  function RowWithBreak(s: State, i: nat): string
    requires i < |s.AllRows()|
  {
    RowText(s.AllRows()[i], RenderedLength(s.AllRows()[i], PadFor(s, i))) +
    if i < |s.AllRows()| - 1 && !s.Continues(i) then "\r\n" else ""
  }

  /** The first `n` rows. */
  function RowsText(s: State, n: nat): string
    requires n <= |s.AllRows()|
  {
    if n == 0 then "" else RowsText(s, n - 1) + RowWithBreak(s, n - 1)
  }

  /** What follows the rows: pen, cursor shape, cursor position, cursor visibility, autowrap. */
  function ClosingText(s: State): string {
    RESET_TEXT +
    CursorPresentationText(s.cursor) +
    ([ESC] + "[" + Decimal.Print(s.cursor.row + 1) + ";" + Decimal.Print(s.cursor.col + 1) + "H") +
    (if s.cursor.hidden then [ESC] + "[?25l" else [ESC] + "[?25h") +
    (if s.HasWrapInfo() then "" else [ESC] + "[?7h")
  }

  function SnapshotText(s: State): string {
    (if s.HasWrapInfo() then "" else [ESC] + "[?7l") + RowsText(s, |s.AllRows()|) + ClosingText(s)
  }

  /** The row loop of the renderer. */
  method RenderRows(s: State, hasWrapInfo: bool) returns (text: string)
    requires hasWrapInfo == s.HasWrapInfo()
    ensures text == RowsText(s, |s.AllRows()|)
  {
    hide RowText, RenderedLength;
    var rows := s.AllRows();
    text := "";
    for rowIndex := 0 to |rows|
      invariant text == RowsText(s, rowIndex)
    {
      ghost var before := text;
      var continuesToNextRow := hasWrapInfo && s.WrapFlags()[rowIndex];
      var line := RenderTerminalRow(rows[rowIndex], if continuesToNextRow then Some(s.cols) else None);
      text := text + line;
      if rowIndex < |rows| - 1 && !continuesToNextRow {
        text := text + "\r\n";
      }
      assert text == before + RowWithBreak(s, rowIndex);
    }
  }

  method RenderTerminalSnapshotToAnsi(s: State) returns (text: string)
    ensures text == SnapshotText(s)
  {
    hide RowsText, CursorPresentationText;
    var hasWrapInfo := |s.WrapFlags()| == |s.AllRows()|;
    var opening := if hasWrapInfo then "" else [ESC] + "[?7l";
    var rows := RenderRows(s, hasWrapInfo);
    var closing := RESET_TEXT;
    closing := closing + CursorPresentationText(s.cursor);
    closing := closing + ([ESC] + "[" + Decimal.Print(s.cursor.row + 1) + ";" + Decimal.Print(s.cursor.col + 1) + "H");
    closing := closing + if s.cursor.hidden then [ESC] + "[?25l" else [ESC] + "[?25h";
    closing := closing + if hasWrapInfo then "" else [ESC] + "[?7h";
    assert closing == ClosingText(s);
    text := opening + rows + closing;
  }
}
