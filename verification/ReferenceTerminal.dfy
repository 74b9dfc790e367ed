/**
 A reference terminal, written from the standard and not from the snapshot renderer: it
 reads the characters of a control stream and keeps an unbounded list of lines, of which
 the last `rows` are the screen. The functions are those of ECMA-48: SGR (section
 8.3.117), CUP (section 8.3.21), CR and LF; private modes 7 (autowrap) and 25 (cursor
 visibility) and the cursor-shape request are the usual DEC ones. Autowrap is deferred:
 a full line wraps only when the next character is printed.
 */
module ReferenceTerminal {
  import opened CsiText
  import opened Wrappers
  import Decimal

  datatype Color = DefaultColor | Palette16(index: nat) | Palette256(index: nat) | Rgb(r: nat, g: nat, b: nat)

  datatype Pen = Pen(
    fg: Color, bg: Color,
    bold: bool, dim: bool, italic: bool, underline: bool, inverse: bool, strikethrough: bool)

  datatype Glyph = Glyph(symbol: char, pen: Pen)

  datatype Line = Line(cells: seq<Glyph>, wrapped: bool)

  datatype Terminal = Terminal(
    rows: nat, cols: nat, lines: seq<Line>, row: nat, col: nat,
    pen: Pen, autowrap: bool, cursorVisible: bool, cursorShape: nat)
  {
    ghost predicate Valid() {
      && rows >= 1 && cols >= 1
      && rows <= |lines| && row < |lines| && col <= cols
      && forall i | 0 <= i < |lines| :: |lines[i].cells| == cols
    }
  }

  const DEFAULT_PEN := Pen(DefaultColor, DefaultColor, false, false, false, false, false, false)
  const BLANK := Glyph(' ', DEFAULT_PEN)
  const AUTOWRAP_MODE: nat := 7
  const CURSOR_MODE: nat := 25

  function BlankLine(cols: nat): (line: Line)
    ensures |line.cells| == cols && !line.wrapped
  {
    Line(seq(cols, _ => BLANK), false)
  }

  function Fresh(rows: nat, cols: nat): (t: Terminal)
    requires rows >= 1 && cols >= 1
    ensures t.Valid()
  {
    Terminal(rows, cols, seq(rows, _ => BlankLine(cols)), 0, 0, DEFAULT_PEN, true, true, 0)
  }

  // ---------------------------------------------------------------- operations

  datatype Op =
    | Print(c: char)
    | CarriageReturn
    | LineFeed
    | Sgr(params: seq<nat>)
    | CursorTo(line: nat, column: nat)
    | SetMode(mode: nat)
    | ResetMode(mode: nat)
    | CursorShape(shape: nat)

  function Min(a: nat, b: nat): nat {
    if a < b then a else b
  }

  function Max(a: nat, b: nat): nat {
    if a < b then b else a
  }

  function ApplyCode(pen: Pen, code: nat): Pen {
    if code == 0 then DEFAULT_PEN
    else if code == 1 then pen.(bold := true)
    else if code == 2 then pen.(dim := true)
    else if code == 3 then pen.(italic := true)
    else if code == 4 then pen.(underline := true)
    else if code == 7 then pen.(inverse := true)
    else if code == 9 then pen.(strikethrough := true)
    else if code == 22 then pen.(bold := false, dim := false)
    else if code == 23 then pen.(italic := false)
    else if code == 24 then pen.(underline := false)
    else if code == 27 then pen.(inverse := false)
    else if code == 29 then pen.(strikethrough := false)
    else if 30 <= code < 38 then pen.(fg := Palette16(code - 30))
    else if code == 39 then pen.(fg := DefaultColor)
    else if 40 <= code < 48 then pen.(bg := Palette16(code - 40))
    else if code == 49 then pen.(bg := DefaultColor)
    else if 90 <= code < 98 then pen.(fg := Palette16(code - 90 + 8))
    else if 100 <= code < 108 then pen.(bg := Palette16(code - 100 + 8))
    else pen
  }

  function SetColor(pen: Pen, background: bool, color: Color): Pen {
    if background then pen.(bg := color) else pen.(fg := color)
  }

  /** Select graphic rendition, one parameter group at a time; 38 and 48 take the parameters after them. */
  function ApplySgr(pen: Pen, ps: seq<nat>): Pen
    decreases |ps|
  {
    if ps == [] then pen
    else if ps[0] == 38 || ps[0] == 48 then
      if |ps| >= 3 && ps[1] == 5 then
        ApplySgr(SetColor(pen, ps[0] == 48, Palette256(ps[2] % 256)), ps[3..])
      else if |ps| >= 5 && ps[1] == 2 then
        ApplySgr(SetColor(pen, ps[0] == 48, Rgb(ps[2] % 256, ps[3] % 256, ps[4] % 256)), ps[5..])
      else pen
    else ApplySgr(ApplyCode(pen, ps[0]), ps[1..])
  }

  /** Down one line, with a new blank line when there is none below; `wrapped` says how we got there. */
  function NextLine(t: Terminal, wrapped: bool): (u: Terminal)
    requires t.Valid()
    ensures u.Valid()
  {
    var grown := if t.row + 1 < |t.lines| then t.lines else t.lines + [BlankLine(t.cols)];
    t.(lines := grown[t.row + 1 := grown[t.row + 1].(wrapped := wrapped)], row := t.row + 1)
  }

  /** The pending wrap taken: column 0 of a line marked as a continuation. */
  function Wrap(t: Terminal): (u: Terminal)
    requires t.Valid()
    ensures u.Valid() && u.col == 0
  {
    NextLine(t, true).(col := 0)
  }

  function Put(t: Terminal, c: char): (u: Terminal)
    requires t.Valid() && t.col < t.cols
    ensures u.Valid()
  {
    var line := t.lines[t.row];
    t.(lines := t.lines[t.row := line.(cells := line.cells[t.col := Glyph(c, t.pen)])], col := t.col + 1)
  }

  function Exec(t: Terminal, op: Op): (u: Terminal)
    requires t.Valid()
    ensures u.Valid()
  {
    match op
    case Print(c) =>
      if t.col < t.cols then Put(t, c)
      else if t.autowrap then Put(Wrap(t), c)
      else Put(t.(col := t.cols - 1), c)
    case CarriageReturn => t.(col := 0)
    case LineFeed => NextLine(t, false)
    case Sgr(params) => t.(pen := ApplySgr(t.pen, params))
    case CursorTo(line, column) =>
      t.(row := |t.lines| - t.rows + Min(Max(line, 1), t.rows) - 1,
         col := Min(Max(column, 1), t.cols) - 1)
    case SetMode(mode) =>
      if mode == AUTOWRAP_MODE then t.(autowrap := true)
      else if mode == CURSOR_MODE then t.(cursorVisible := true)
      else t
    case ResetMode(mode) =>
      if mode == AUTOWRAP_MODE then t.(autowrap := false)
      else if mode == CURSOR_MODE then t.(cursorVisible := false)
      else t
    case CursorShape(shape) => t.(cursorShape := shape)
  }

  function Run(t: Terminal, ops: seq<Op>): (u: Terminal)
    requires t.Valid()
    ensures u.Valid()
    decreases |ops|
  {
    if ops == [] then t else Run(Exec(t, ops[0]), ops[1..])
  }

  lemma {:induction false} RunAppend(t: Terminal, a: seq<Op>, b: seq<Op>)
    requires t.Valid()
    ensures Run(t, a + b) == Run(Run(t, a), b)
    decreases |a|
  {
    hide Exec;
    if a == [] {
      assert a + b == b;
    } else {
      assert (a + b)[1..] == a[1..] + b;
      RunAppend(Exec(t, a[0]), a[1..], b);
    }
  }

  lemma RunOne(t: Terminal, op: Op)
    requires t.Valid()
    ensures Run(t, [op]) == Exec(t, op)
  {
    hide Exec;
    assert [op][1..] == [];
  }

  // ---------------------------------------------------------------- reading the characters

  predicate IsPrintable(c: char) {
    ' ' <= c && c != '\U{7f}'
  }

  /** A control sequence: private or not, its parameter text, one optional space, its final character. */
  datatype Control = Control(private: bool, params: string, spaced: bool, final: char)
  {
    function Introducer(): string {
      if private then [ESC, '[', '?'] else [ESC, '[']
    }

    function Text(): string {
      Introducer() + params + (if spaced then " " else "") + [final]
    }
  }

  /** The function named by a control sequence; an unknown one does nothing. */
  function Interpret(c: Control): seq<Op> {
    var ps := ParamValues(c.params);
    var first := ps[0];
    var second := if |ps| < 2 then 1 else ps[1];
    if c.private then
      if c.spaced then []
      else if c.final == 'h' then [SetMode(first)]
      else if c.final == 'l' then [ResetMode(first)]
      else []
    else if c.spaced then
      if c.final == 'q' then [CursorShape(first)] else []
    else if c.final == 'm' then [Sgr(ps)]
    else if c.final == 'H' then [CursorTo(first, second)]
    else []
  }

  /** Reads a whole control stream. */
  function Decode(s: string): seq<Op>
    decreases |s|
  {
    if s == "" then []
    else if s[0] == ESC && |s| >= 2 && s[1] == '[' then
      var private := |s| > 2 && s[2] == '?';
      var from := if private then 3 else 2;
      var e := SkipParams(s, from);
      var intermediate := e < |s| && s[e] == ' ';
      var f := if intermediate then e + 1 else e;
      if f >= |s| then []
      else Interpret(Control(private, s[from..e], intermediate, s[f])) + Decode(s[f + 1..])
    else
      (if s[0] == '\r' then [CarriageReturn]
       else if s[0] == '\n' then [LineFeed]
       else if IsPrintable(s[0]) then [Print(s[0])]
       else []) + Decode(s[1..])
  }

  // ---------------------------------------------------------------- spelling an operation

  /** The operations that are single characters. */
  predicate IsCharacter(op: Op) {
    op.Print? || op.CarriageReturn? || op.LineFeed?
  }

  function ControlOf(op: Op): Control
    requires !IsCharacter(op)
  {
    match op
    case Sgr(params) => Control(false, Join(PrintAll(params)), false, 'm')
    case CursorTo(line, column) => Control(false, Join(PrintAll([line, column])), false, 'H')
    case SetMode(mode) => Control(true, Join(PrintAll([mode])), false, 'h')
    case ResetMode(mode) => Control(true, Join(PrintAll([mode])), false, 'l')
    case CursorShape(shape) => Control(false, Join(PrintAll([shape])), true, 'q')
  }

  function Text(op: Op): string {
    match op
    case Print(c) => [c]
    case CarriageReturn => "\r"
    case LineFeed => "\n"
    case _ => ControlOf(op).Text()
  }

  predicate Spellable(op: Op) {
    && (op.Print? ==> IsPrintable(op.c))
    && (op.Sgr? ==> op.params != [])
  }

  function TextAll(ops: seq<Op>): string {
    if ops == [] then "" else Text(ops[0]) + TextAll(ops[1..])
  }

  lemma {:induction false} TextAllAppend(a: seq<Op>, b: seq<Op>)
    ensures TextAll(a + b) == TextAll(a) + TextAll(b)
    decreases |a|
  {
    hide Text;
    if a == [] {
      assert a + b == b;
    } else {
      assert (a + b)[1..] == a[1..] + b;
      TextAllAppend(a[1..], b);
    }
  }

  lemma TextOne(op: Op)
    ensures TextAll([op]) == Text(op)
  {
    assert [op][1..] == [];
  }

  lemma DecodeControl(c: Control, rest: string)
    requires IsParams(c.params) && c.params != "" && !IsParamChar(c.final) && c.final != ' '
    ensures Decode(c.Text() + rest) == Interpret(c) + Decode(rest)
  {
    hide Interpret, SkipParams, IsPrintable;
    var start := |c.Introducer()|;
    var s := c.Text() + rest;
    var e := start + |c.params|;
    assert s[start..e] == c.params;
    assert s[start] == c.params[0];
    assert s[e] == if c.spaced then ' ' else c.final;
    SkipParamsTo(s, start, e);
    var f := if c.spaced then e + 1 else e;
    assert s[f] == c.final && s[f + 1..] == rest;
  }

  lemma InterpretControl(op: Op)
    requires Spellable(op) && !IsCharacter(op)
    ensures Interpret(ControlOf(op)) == [op]
    ensures IsParams(ControlOf(op).params) && ControlOf(op).params != ""
  {
    hide IsParams, Join, PrintAll, ParamValues;
    match op
    case Sgr(params) => ReadParams(params);
    case CursorTo(line, column) => ReadParams([line, column]);
    case SetMode(mode) => ReadParams([mode]);
    case ResetMode(mode) => ReadParams([mode]);
    case CursorShape(shape) => ReadParams([shape]);
  }

  lemma ReadParams(ps: seq<nat>)
    requires ps != []
    ensures IsParams(Join(PrintAll(ps))) && Join(PrintAll(ps)) != ""
    ensures ParamValues(Join(PrintAll(ps))) == ps
  {
    ParamsRoundTrip(ps);
    Decimal.ParsePrint(ps[0]);
  }

  lemma DecodeOp(op: Op, rest: string)
    requires Spellable(op)
    ensures Decode(Text(op) + rest) == [op] + Decode(rest)
  {
    hide Decode, Interpret, IsParams;
    match op
    case Print(c) => DecodeChar(c, rest);
    case CarriageReturn => DecodeChar('\r', rest);
    case LineFeed => DecodeChar('\n', rest);
    case _ =>
      InterpretControl(op);
      DecodeControl(ControlOf(op), rest);
  }

  lemma DecodeChar(c: char, rest: string)
    requires c == '\r' || c == '\n' || IsPrintable(c)
    ensures Decode([c] + rest) ==
            [if c == '\r' then CarriageReturn else if c == '\n' then LineFeed else Print(c)] + Decode(rest)
  {
    assert ([c] + rest)[1..] == rest;
  }

  /** A spelled stream is read back as the operations that spelled it. */
  lemma {:induction false} DecodeAll(ops: seq<Op>)
    requires forall i | 0 <= i < |ops| :: Spellable(ops[i])
    ensures Decode(TextAll(ops)) == ops
    decreases |ops|
  {
    hide Decode, Text;
    if ops == [] {
      DecodeNothing();
    } else {
      DecodeOp(ops[0], TextAll(ops[1..]));
      DecodeAll(ops[1..]);
    }
  }

  lemma DecodeNothing()
    ensures Decode("") == []
  {}
}
