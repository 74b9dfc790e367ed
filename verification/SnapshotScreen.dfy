/**
 What the replayed snapshot shows, in terms of the snapshot's own fields and of nothing that the
 renderer computes; and how the rendered text looks.
 */
module SnapshotScreen {
  import opened CsiText
  import opened Wrappers
  import opened ReferenceTerminal
  import opened TerminalSnapshot
  import opened SnapshotOps
  import opened SnapshotReplay
  import Decimal

  // ---------------------------------------------------------------- the screen

  /** The colour that a mode and a value name: mode 1 has 16, mode 2 has 256, mode 3 three bytes, red first. */
  predicate ShowsColor(color: Color, mode: Option<int>, value: Option<int>) {
    if mode.None? || value.None? then color == DefaultColor
    else if mode.value == 1 then color.Palette16? && color.index == value.value
    else if mode.value == 2 then color.Palette256? && color.index == value.value
    else if mode.value == 3 then
      color.Rgb? && color.r < 256 && color.g < 256 && color.b < 256 &&
      color.r * 0x10000 + color.g * 0x100 + color.b == value.value
    else color == DefaultColor
  }

  predicate Shows(g: Glyph, cell: Cell) {
    && g.symbol == (if cell.text == "" then ' ' else cell.text[0])
    && ShowsColor(g.pen.fg, cell.fgMode, cell.fg) && ShowsColor(g.pen.bg, cell.bgMode, cell.bg)
    && g.pen.bold == cell.bold && g.pen.dim == cell.dim && g.pen.italic == cell.italic
    && g.pen.underline == cell.underline && g.pen.inverse == cell.inverse
    && g.pen.strikethrough == cell.strikethrough
  }

  predicate IsDefault(p: Pen) {
    p.fg == DefaultColor && p.bg == DefaultColor &&
    !p.bold && !p.dim && !p.italic && !p.underline && !p.inverse && !p.strikethrough
  }

  predicate ShowsRow(line: Line, row: seq<Cell>, cols: nat) {
    && |line.cells| == cols
    && forall j | 0 <= j < cols ::
         if j < |row| then Shows(line.cells[j], row[j])
         else line.cells[j].symbol == ' ' && IsDefault(line.cells[j].pen)
  }

  /** Row `i` of scrollback and grid taken together. */
  function RowAt(s: State, i: nat): seq<Cell>
    requires i < |s.scrollback| + |s.grid|
  {
    if i < |s.scrollback| then s.scrollback[i] else s.grid[i - |s.scrollback|]
  }

  /** There is a flag for every row, and the one of row `i` is set. */
  predicate Flagged(s: State, i: nat) {
    var above := if s.scrollbackWrapped.Some? then s.scrollbackWrapped.value else [];
    var below := if s.gridWrapped.Some? then s.gridWrapped.value else [];
    && |above| + |below| == |s.scrollback| + |s.grid| && i < |above| + |below|
    && if i < |above| then above[i] else below[i - |above|]
  }

  /** The cursor-shape request of each presentation: block, underline, bar, each blinking and steady. */
  function ShapeNumber(cursor: Cursor): nat {
    if cursor.style.None? then 0
    else if cursor.blink == Some(false) then
      match cursor.style.value
      case Block => 2
      case Underline => 4
      case Bar => 6
    else
      match cursor.style.value
      case Block => 1
      case Underline => 3
      case Bar => 5
  }

  ghost predicate ShowsSnapshot(t: Terminal, s: State) {
    && |t.lines| == |s.scrollback| + |s.grid|
    && (forall i | 0 <= i < |t.lines| :: ShowsRow(t.lines[i], RowAt(s, i), s.cols))
    && (forall i | 0 <= i < |t.lines| :: t.lines[i].wrapped <==> i > 0 && Flagged(s, i - 1))
    && IsDefault(t.pen) && t.autowrap
    && t.row == |s.scrollback| + (if s.cursor.row < s.rows then s.cursor.row else s.rows - 1)
    && t.col == (if s.cursor.col < s.cols then s.cursor.col else s.cols - 1)
    && t.cursorVisible == !s.cursor.hidden && t.cursorShape == ShapeNumber(s.cursor)
  }

  lemma ColorShown(mode: Option<int>, value: Option<int>)
    requires InRange(mode, value)
    ensures ShowsColor(NormalColor(mode, value), mode, value)
  {}

  lemma CellShown(cell: Cell)
    requires GoodCell(cell)
    ensures Shows(NormalGlyph(cell), cell)
  {
    ColorShown(cell.fgMode, cell.fg);
    ColorShown(cell.bgMode, cell.bg);
    hide ShowsColor, NormalColor;
  }

  lemma RowShown(row: seq<Cell>, cols: nat, wrapped: bool)
    requires GoodRow(row, cols)
    ensures ShowsRow(Line(Glyphs(row, cols), wrapped), row, cols)
  {
    forall j | 0 <= j < cols
      ensures j < |row| ==> Shows(Glyphs(row, cols)[j], row[j])
      ensures j >= |row| ==> Glyphs(row, cols)[j].symbol == ' ' && IsDefault(Glyphs(row, cols)[j].pen)
    {
      if j < |row| {
        CellShown(row[j]);
      }
    }
    hide Shows;
  }

  lemma RowsAndFlags(s: State, i: nat)
    requires i < |s.AllRows()|
    ensures |s.AllRows()| == |s.scrollback| + |s.grid| && s.AllRows()[i] == RowAt(s, i)
    ensures s.Continues(i) <==> Flagged(s, i)
  {}

  lemma ExpectedShows(s: State)
    requires WellFormed(s)
    ensures ShowsSnapshot(Expected(s), s)
  {
    forall i | 0 <= i < |s.AllRows()|
      ensures ShowsRow(Expected(s).lines[i], RowAt(s, i), s.cols)
      ensures Expected(s).lines[i].wrapped <==> i > 0 && Flagged(s, i - 1)
    {
      RowsAndFlags(s, i);
      if i > 0 {
        RowsAndFlags(s, i - 1);
      }
      RowShown(s.AllRows()[i], s.cols, i > 0 && s.Continues(i - 1));
    }
    hide ShowsRow, Flagged, RowAt;
  }

  /** A cell that looks like nothing: a space without any colour or attribute set. */
  predicate Nothing(cell: Cell) {
    && cell.text == " " && cell.fg.None? && cell.bg.None? && cell.fgMode.None? && cell.bgMode.None?
    && !cell.bold && !cell.dim && !cell.italic && !cell.underline && !cell.inverse && !cell.strikethrough
  }

  /** The length of a row ends at its last cell that looks like something. */
  lemma RowLengthIs(row: seq<Cell>, n: nat)
    ensures ContentLength(row, |row|) == n <==> EndsAt(row, n)
  {
    LengthEnds(row);
    hide *;
    if EndsAt(row, n) {
      OneEnd(row, ContentLength(row, |row|), n);
    }
  }

  /** From column `n` on there is nothing to see, and there is something in the column before. */
  predicate EndsAt(row: seq<Cell>, n: nat) {
    n <= |row| && (forall i | n <= i < |row| :: Nothing(row[i])) && (n > 0 ==> !Nothing(row[n - 1]))
  }

  lemma LengthEnds(row: seq<Cell>)
    ensures EndsAt(row, ContentLength(row, |row|))
  {
    var n := ContentLength(row, |row|);
    hide ContentLength;
    forall i | n <= i < |row|
      ensures Nothing(row[i])
    {
      assert IsTrimmable(row[i]);
    }
  }

  lemma OneEnd(row: seq<Cell>, m: nat, n: nat)
    requires EndsAt(row, m) && EndsAt(row, n)
    ensures m == n
  {
    hide Nothing;
    var shorter, longer := if m < n then m else n, if m < n then n else m;
    assert forall i | shorter <= i < |row| :: Nothing(row[i]);
    assert longer > 0 ==> longer - 1 < shorter;
  }

  predicate LooksLikeSomething(row: seq<Cell>) {
    exists j :: 0 <= j < |row| && !Nothing(row[j])
  }

  /** Each row below a flagged one is flagged itself or has a cell that looks like something. */
  predicate ContinuationsShow(s: State) {
    forall i | 1 <= i < |s.scrollback| + |s.grid| ::
      Flagged(s, i - 1) ==> Flagged(s, i) || LooksLikeSomething(RowAt(s, i))
  }

  lemma RendersWhen(s: State, i: nat)
    requires WellFormed(s) && i < |s.AllRows()|
    ensures Length(s, i) > 0 <==> Flagged(s, i) || LooksLikeSomething(RowAt(s, i))
  {
    RowsAndFlags(s, i);
    LengthFits(s, i);
    var row := RowAt(s, i);
    var n := ContentLength(row, |row|);
    RowLengthIs(row, n);
    hide ContentLength, Flagged, WellFormed;
    if n > 0 {
      assert !Nothing(row[n - 1]);
    }
  }

  lemma ContinuationsShowIff(s: State)
    requires WellFormed(s)
    ensures ContinuationsRender(s, |s.AllRows()|) <==> ContinuationsShow(s)
  {
    forall i: nat | i < |s.AllRows()|
      ensures s.Continues(i) <==> Flagged(s, i)
      ensures Length(s, i) > 0 <==> Flagged(s, i) || LooksLikeSomething(RowAt(s, i))
    {
      RowsAndFlags(s, i);
      RendersWhen(s, i);
    }
    hide Flagged, Length, WellFormed, LooksLikeSomething, RowAt;
    forall i | 1 <= i < |s.AllRows()|
      ensures s.Continues(i - 1) && Length(s, i) == 0 <==>
              Flagged(s, i - 1) && !Flagged(s, i) && !LooksLikeSomething(RowAt(s, i))
    {
      assert s.Continues(i - 1) <==> Flagged(s, i - 1);
    }
  }

  /**
   Whole-screen replay, by the snapshot's own fields: after the stream, every line shows its row cell by
   cell -- character, colours and attributes -- with default blanks behind it, is marked exactly when the
   row before is flagged, and pen, cursor, shape and autowrap are as asked.
   */
  lemma ScreenShows(s: State)
    requires WellFormed(s) && ContinuationsShow(s)
    ensures ShowsSnapshot(Run(Fresh(s.rows, s.cols), Decode(SnapshotText(s))), s)
  {
    hide ShowsSnapshot, ContinuationsShow, ContinuationsRender, WellFormed, Run, Decode, SnapshotText, Expected;
    ContinuationsShowIff(s);
    SnapshotReplays(s);
    ExpectedShows(s);
  }

  // ---------------------------------------------------------------- the text

  function Semi(flag: bool, code: string): string {
    if flag then ";" + code else ""
  }

  function Numeral(n: int): string {
    if n < 0 then "-" + Decimal.Print(-n) else Decimal.Print(n)
  }

  /** The parameters of a colour, each after a semicolon, whether or not it is in range for its mode. */
  function ColorSpelling(mode: Option<int>, value: Option<int>, background: bool): string {
    if mode.None? || value.None? then ""
    else
      var v := value.value;
      if mode.value == 1 then
        ";" + Numeral(v + (if v < 8 then if background then 40 else 30 else if background then 92 else 82))
      else if mode.value == 2 then (if background then ";48;5;" else ";38;5;") + Numeral(v)
      else if mode.value == 3 then
        (if background then ";48;2;" else ";38;2;") +
        Numeral(v / 0x10000 % 0x100) + ";" + Numeral(v / 0x100 % 0x100) + ";" + Numeral(v % 0x100)
      else ""
  }

  /** A list of parameters behind others. */
  function Tail(codes: seq<string>): string {
    if codes == [] then "" else ";" + Join(codes)
  }

  lemma {:induction false} JoinTail(a: seq<string>, b: seq<string>)
    requires a != []
    ensures Join(a + b) == Join(a) + Tail(b)
    decreases |a|
  {
    if |a| == 1 {
      if b == [] {
        assert a + b == a;
      } else {
        assert (a + b)[1..] == b && (a + b)[0] == a[0];
      }
    } else {
      JoinTail(a[1..], b);
      assert (a + b)[1..] == a[1..] + b && (a + b)[0] == a[0];
      assert Join(a + b) == a[0] + ";" + Join(a[1..] + b);
      hide Join, Tail;
      assert a[0] + ";" + (Join(a[1..]) + Tail(b)) == (a[0] + ";" + Join(a[1..])) + Tail(b);
    }
  }

  lemma TailOne(flag: bool, code: string)
    ensures Tail(When(flag, code)) == Semi(flag, code)
  {}

  function Ground(background: bool): string {
    if background then "48" else "38"
  }

  lemma CodesAre(mode: int, v: int, background: bool)
    ensures mode == 1 ==>
              ColorToSgr(mode, v, background) ==
                [Numeral(v + (if v < 8 then if background then 40 else 30 else if background then 92 else 82))]
    ensures mode == 2 ==> ColorToSgr(mode, v, background) == [Ground(background), "5", Numeral(v)]
    ensures mode == 3 ==>
              ColorToSgr(mode, v, background) ==
                [Ground(background), "2", Numeral(v / 0x10000 % 0x100), Numeral(v / 0x100 % 0x100),
                 Numeral(v % 0x100)]
    ensures mode !in {1, 2, 3} ==> ColorToSgr(mode, v, background) == []
  {
    hide Decimal.Print;
  }

  lemma ColorTail(mode: Option<int>, value: Option<int>, background: bool)
    ensures Tail(ColorCodes(mode, value, background)) == ColorSpelling(mode, value, background)
  {
    hide Numeral, ColorToSgr;
    if mode.Some? && value.Some? {
      var v := value.value;
      CodesAre(mode.value, v, background);
      TailTexts(background);
      if mode.value == 1 {
        JoinOne(Numeral(v + (if v < 8 then if background then 40 else 30 else if background then 92 else 82)));
      } else if mode.value == 2 {
        TailPalette(background, Numeral(v));
        hide Tail, Ground;
      } else if mode.value == 3 {
        TailRgb(background, Numeral(v / 0x10000 % 0x100), Numeral(v / 0x100 % 0x100), Numeral(v % 0x100));
        hide Tail, Ground;
      }
    }
  }

  lemma TailTexts(background: bool)
    ensures ";" + Ground(background) + ";5;" == if background then ";48;5;" else ";38;5;"
    ensures ";" + Ground(background) + ";2;" == if background then ";48;2;" else ";38;2;"
  {}

  lemma TailPalette(background: bool, index: string)
    ensures Tail([Ground(background), "5", index]) == (";" + Ground(background) + ";5;") + index
  {
    var ground := Ground(background);
    JoinThree(ground, "5", index);
    hide Join, Ground;
    assert ";" + (ground + ";" + "5" + ";" + index) == (";" + ground + ";5;") + index;
  }

  lemma TailRgb(background: bool, r: string, g: string, b: string)
    ensures Tail([Ground(background), "2", r, g, b]) == (";" + Ground(background) + ";2;") + r + ";" + g + ";" + b
  {
    var ground := Ground(background);
    JoinThree(r, g, b);
    var all, rest := [ground, "2", r, g, b], ["2", r, g, b];
    assert all[1..] == rest && rest[1..] == [r, g, b];
    assert Join(rest) == "2" + ";" + Join([r, g, b]) && Join(all) == ground + ";" + Join(rest);
    hide Join, Ground;
    assert ";" + (ground + ";" + ("2" + ";" + (r + ";" + g + ";" + b))) ==
           (";" + ground + ";2;") + r + ";" + g + ";" + b;
  }

  lemma JoinThree(a: string, b: string, c: string)
    ensures Join([a, b, c]) == a + ";" + b + ";" + c
  {
    assert [a, b, c][1..] == [b, c] && [b, c][1..] == [c];
    assert Join([b, c]) == b + ";" + c;
    assert a + ";" + (b + ";" + c) == a + ";" + b + ";" + c;
  }

  /** The flags in the order of the attributes, after the reset. */
  function FlagSpelling(style: Style): string {
    "0" + Semi(style.bold, "1") + Semi(style.dim, "2") + Semi(style.italic, "3") +
    Semi(style.underline, "4") + Semi(style.inverse, "7") + Semi(style.strikethrough, "9")
  }

  lemma FlagsSpelled(style: Style)
    ensures Join(FlagCodes(style)) == FlagSpelling(style) && FlagCodes(style) != []
  {
    hide Join, Semi, When, Tail;
    var c0 := ["0"];
    JoinOne("0");
    var c1 := c0 + When(style.bold, "1");
    JoinWhen(c0, style.bold, "1");
    var c2 := c1 + When(style.dim, "2");
    JoinWhen(c1, style.dim, "2");
    var c3 := c2 + When(style.italic, "3");
    JoinWhen(c2, style.italic, "3");
    var c4 := c3 + When(style.underline, "4");
    JoinWhen(c3, style.underline, "4");
    var c5 := c4 + When(style.inverse, "7");
    JoinWhen(c4, style.inverse, "7");
    JoinWhen(c5, style.strikethrough, "9");
  }

  lemma JoinOne(code: string)
    ensures Join([code]) == code
  {}

  lemma JoinWhen(codes: seq<string>, flag: bool, code: string)
    requires codes != []
    ensures Join(codes + When(flag, code)) == Join(codes) + Semi(flag, code)
  {
    JoinTail(codes, When(flag, code));
    TailOne(flag, code);
  }

  /** A style is written as one sequence: reset, attributes in order, foreground, background. */
  lemma StyleSpelled(style: Style)
    ensures StyleText(style) ==
              [ESC] + "[" + FlagSpelling(style) + ColorSpelling(style.fgMode, style.fg, false) +
              ColorSpelling(style.bgMode, style.bg, true) + "m"
  {
    hide Join, ColorCodes, ColorSpelling, FlagSpelling, FlagCodes, Tail;
    FlagsSpelled(style);
    var flags, fg := FlagCodes(style), ColorCodes(style.fgMode, style.fg, false);
    JoinTail(flags, fg);
    JoinTail(flags + fg, ColorCodes(style.bgMode, style.bg, true));
    ColorTail(style.fgMode, style.fg, false);
    ColorTail(style.bgMode, style.bg, true);
  }

  /** Two cells with the same colours and attributes. */
  predicate SameLook(a: Cell, b: Cell) {
    && a.fg == b.fg && a.bg == b.bg && a.fgMode == b.fgMode && a.bgMode == b.bgMode
    && a.bold == b.bold && a.dim == b.dim && a.italic == b.italic && a.underline == b.underline
    && a.inverse == b.inverse && a.strikethrough == b.strikethrough
  }

  /** Run-length coding: a column is its bare character exactly when it looks like the column before it. */
  lemma StyleWrittenWhereItChanges(row: seq<Cell>, i: nat)
    requires i < |row| && |row[i].text| <= 1
    ensures ColumnText(row, i) == (if row[i].text == "" then " " else row[i].text) <==>
              SameLook(row[i],
                       if i == 0 then Cell(" ", None, None, None, None, false, false, false, false, false, false)
                       else row[i - 1])
  {
    var style := StyleOf(row[i]);
    assert |StyleText(style)| >= 3;
    hide StyleText;
  }

  /** Cells without colours and attributes. */
  predicate IsPlainText(row: seq<Cell>) {
    forall i | 0 <= i < |row| ::
      && |row[i].text| == 1
      && SameLook(row[i], Cell("", None, None, None, None, false, false, false, false, false, false))
  }

  lemma {:induction false} PlainColumns(row: seq<Cell>, n: nat)
    requires n <= |row| && IsPlainText(row)
    ensures ColumnsText(row, n) == seq(n, i requires 0 <= i < n => row[i].text[0])
    ensures StyleBefore(row, n) == DEFAULT_STYLE
  {
    hide StyleText, ColumnText;
    if n > 0 {
      PlainColumns(row, n - 1);
      PlainColumn(row, n - 1);
      assert row[n - 1].text == [row[n - 1].text[0]];
    }
  }

  lemma PlainColumn(row: seq<Cell>, i: nat)
    requires i < |row| && IsPlainText(row) && StyleBefore(row, i) == DEFAULT_STYLE
    ensures ColumnText(row, i) == row[i].text && StyleBefore(row, i + 1) == DEFAULT_STYLE
  {
    hide StyleText;
  }

  /** A row without colours and attributes is rendered as its characters and nothing else. */
  lemma PlainRowIsItsText(row: seq<Cell>, n: nat)
    requires n <= |row| && IsPlainText(row)
    ensures RowText(row, n) == seq(n, i requires 0 <= i < n => row[i].text[0])
  {
    PlainColumns(row, n);
    hide ColumnsText, StyleBefore;
  }
}
