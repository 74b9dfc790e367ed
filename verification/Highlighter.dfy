/** The highlighter's tokeniser: the parser's style spans in, styled tokens per line out. */
module Highlighter {
  import opened Wrappers

  datatype Span = Span(from: nat, to: nat, style: string)

  datatype Token = Token(text: string, style: Option<string>)

  /** One character with its style. */
  datatype Cell = Cell(c: char, style: Option<string>)

  // ---------------------------------------------------------------- what is meant

  predicate Covers(s: Span, i: nat) {
    s.from <= i < s.to
  }

  /** The style of the last span that covers a position. */
  function StyleAt(spans: seq<Span>, i: nat): Option<string> {
    if spans == [] then None
    else if Covers(spans[|spans| - 1], i) then Some(spans[|spans| - 1].style)
    else StyleAt(spans[..|spans| - 1], i)
  }

  /** Span `k` covers the position and no later one does. */
  predicate WinsAt(spans: seq<Span>, k: nat, i: nat) {
    k < |spans| && Covers(spans[k], i) && forall j | k < j < |spans| :: !Covers(spans[j], i)
  }

  lemma {:induction false} LastSpanWins(spans: seq<Span>, i: nat)
    ensures StyleAt(spans, i).Some? ==>
              exists k: nat :: WinsAt(spans, k, i) && StyleAt(spans, i) == Some(spans[k].style)
    ensures StyleAt(spans, i) == None <==> forall k | 0 <= k < |spans| :: !Covers(spans[k], i)
    decreases |spans|
  {
    if spans != [] {
      var front, last := spans[..|spans| - 1], |spans| - 1;
      LastSpanWins(front, i);
      if Covers(spans[last], i) {
        assert WinsAt(spans, last, i);
      } else if StyleAt(front, i).Some? {
        var k: nat :| WinsAt(front, k, i) && StyleAt(front, i) == Some(front[k].style);
        assert WinsAt(spans, k, i);
      }
    }
  }

  /** `code.split("\n")`. */
  function Lines(code: string): (lines: seq<string>)
    ensures lines != []
  {
    if code == "" then [""]
    else
      var front, c := Lines(code[..|code| - 1]), code[|code| - 1];
      var last := |front| - 1;
      if c == '\n' then front + [""] else front[..last] + [front[last] + [c]]
  }

  function JoinLines(lines: seq<string>): string
    requires lines != []
  {
    if |lines| == 1 then lines[0] else JoinLines(lines[..|lines| - 1]) + "\n" + lines[|lines| - 1]
  }

  /** Where line `k` starts in the code. */
  function Start(lines: seq<string>, k: nat): nat
    requires k <= |lines|
  {
    if k == 0 then 0 else Start(lines, k - 1) + |lines[k - 1]| + 1
  }

  function Text(tokens: seq<Token>): string {
    if tokens == [] then "" else Text(tokens[..|tokens| - 1]) + tokens[|tokens| - 1].text
  }

  function Paint(text: string, style: Option<string>): seq<Cell> {
    seq(|text|, i requires 0 <= i < |text| => Cell(text[i], style))
  }

  /** The cells that tokens stand for. */
  function Cells(tokens: seq<Token>): seq<Cell> {
    if tokens == [] then []
    else Cells(tokens[..|tokens| - 1]) + Paint(tokens[|tokens| - 1].text, tokens[|tokens| - 1].style)
  }

  /** The styles of a code's positions. */
  function Styles(spans: seq<Span>, n: nat): seq<Option<string>> {
    seq(n, i requires 0 <= i < n => StyleAt(spans, i))
  }

  /** The cells of a line that starts at a position: each character with the style of its own position. */
  function LineCells(line: string, styles: seq<Option<string>>, start: nat): (cells: seq<Cell>)
    requires start + |line| <= |styles|
    ensures |cells| == |line|
  {
    seq(|line|, i requires 0 <= i < |line| => Cell(line[i], styles[start + i]))
  }

  /** No empty token, and no two neighbours that could have been one. */
  predicate Compact(tokens: seq<Token>) {
    && (forall i | 0 <= i < |tokens| :: tokens[i].text != "")
    && (forall i | 0 <= i < |tokens| - 1 :: tokens[i].style != tokens[i + 1].style)
  }

  /** The tokens of one line: exact, and only an empty line has an empty token. */
  predicate Exact(tokens: seq<Token>, line: string, styles: seq<Option<string>>, start: nat) {
    && start + |line| <= |styles|
    && Cells(tokens) == LineCells(line, styles, start)
    && if line == "" then tokens == [Token("", None)] else Compact(tokens)
  }

  // ---------------------------------------------------------------- lines

  lemma {:induction false} StartSnoc(lines: seq<string>, more: seq<string>, k: nat)
    requires k <= |lines|
    ensures Start(lines + more, k) == Start(lines, k)
  {
    if k > 0 {
      StartSnoc(lines, more, k - 1);
    }
  }

  lemma {:induction false} LinesJoin(code: string)
    ensures JoinLines(Lines(code)) == code
    decreases |code|
  {
    if code != "" {
      var before, c := code[..|code| - 1], code[|code| - 1];
      LinesJoin(before);
      var front := Lines(before);
      assert code == before + [c];
      if c == '\n' {
        assert (front + [""])[..|front|] == front;
      } else {
        JoinLonger(front, c);
      }
      hide JoinLines;
    }
  }

  lemma JoinLonger(front: seq<string>, c: char)
    requires front != []
    ensures JoinLines(front[..|front| - 1] + [front[|front| - 1] + [c]]) == JoinLines(front) + [c]
  {
    var last := |front| - 1;
    var lines := front[..last] + [front[last] + [c]];
    assert lines[..last] == front[..last];
    if last > 0 {
      var j := JoinLines(front[..last]) + "\n";
      assert j + (front[last] + [c]) == (j + front[last]) + [c];
    }
  }

  /** Line `k` is what the code holds from the start of the line. */
  lemma {:induction false} LineInCode(lines: seq<string>, k: nat)
    requires k < |lines|
    ensures Start(lines, k) + |lines[k]| <= |JoinLines(lines)|
    ensures JoinLines(lines)[Start(lines, k)..Start(lines, k) + |lines[k]|] == lines[k]
    ensures |JoinLines(lines)| + 1 == Start(lines, |lines|)
    decreases |lines|
  {
    if |lines| > 1 {
      var front, last := lines[..|lines| - 1], lines[|lines| - 1];
      assert lines == front + [last];
      StartSnoc(front, [last], |front|);
      var j := if k < |front| then k else |front| - 1;
      LineInCode(front, j);
      StartSnoc(front, [last], j);
      if k < |front| {
        var whole := JoinLines(lines);
        assert whole[..|JoinLines(front)|] == JoinLines(front);
        assert whole[Start(lines, k)..Start(lines, k) + |lines[k]|] ==
               whole[..|JoinLines(front)|][Start(lines, k)..Start(lines, k) + |lines[k]|];
      }
    }
  }

  // ---------------------------------------------------------------- the code

  /** The callback of the tree walk: the positions of the span, as far as there is code. */
  method PaintSpan(styleMap: array<Option<string>>, span: Span)
    modifies styleMap
    ensures forall i | 0 <= i < styleMap.Length ::
              styleMap[i] == if Covers(span, i) then Some(span.style) else old(styleMap[i])
  {
    var i := span.from;
    while i < span.to && i < styleMap.Length
      invariant span.from <= i
      invariant forall j | 0 <= j < styleMap.Length ::
                  styleMap[j] == if Covers(span, j) && j < i then Some(span.style) else old(styleMap[j])
    {
      styleMap[i] := Some(span.style);
      i := i + 1;
    }
  }

  method TokensOfLine(line: string, styleMap: array<Option<string>>, pos: nat) returns (tokens: seq<Token>)
    requires line != "" && pos + |line| <= styleMap.Length
    ensures Exact(tokens, line, styleMap[..], pos)
  {
    hide Cells, LineCells, Compact, Paint;
    ghost var cells := LineCells(line, styleMap[..], pos);
    tokens := [];
    var current := Token("", styleMap[pos]);
    NothingYet(styleMap[pos], cells);
    for i := 0 to |line|
      invariant Cells(tokens) + Paint(current.text, current.style) == cells[..i]
      invariant i == 0 ==> current == Token("", styleMap[pos]) && tokens == []
      invariant i > 0 ==> current.text != ""
      invariant Compact(tokens)
      invariant tokens != [] ==> tokens[|tokens| - 1].style != current.style
    {
      var style := styleMap[pos + i];
      NextCell(line, styleMap[..], pos, i);
      if style == current.style {
        PaintSnoc(current.text, line[i], style);
        current := current.(text := current.text + [line[i]]);
      } else {
        if current.text != "" {
          CellsSnoc(tokens, current);
          CompactSnoc(tokens, current);
          tokens := tokens + [current];
        }
        current := Token([line[i]], style);
        PaintOne(line[i], style);
      }
    }
    assert cells[..|line|] == cells;
    if current.text != "" {
      CellsSnoc(tokens, current);
      CompactSnoc(tokens, current);
      tokens := tokens + [current];
    }
  }

  lemma NothingYet(style: Option<string>, cells: seq<Cell>)
    ensures Cells([]) + Paint("", style) == cells[..0] && Compact([])
  {}

  lemma NextCell(line: string, styles: seq<Option<string>>, start: nat, i: nat)
    requires start + |line| <= |styles| && i < |line|
    ensures var cells := LineCells(line, styles, start);
            cells[..i + 1] == cells[..i] + [Cell(line[i], styles[start + i])]
  {}

  lemma PaintOne(c: char, style: Option<string>)
    ensures Paint([c], style) == [Cell(c, style)]
  {}

  lemma PaintSnoc(text: string, c: char, style: Option<string>)
    ensures Paint(text + [c], style) == Paint(text, style) + [Cell(c, style)]
  {}

  lemma CellsSnoc(tokens: seq<Token>, t: Token)
    ensures Cells(tokens + [t]) == Cells(tokens) + Paint(t.text, t.style)
  {
    assert (tokens + [t])[..|tokens|] == tokens;
  }

  lemma CompactSnoc(tokens: seq<Token>, t: Token)
    requires Compact(tokens) && t.text != "" && (tokens != [] ==> tokens[|tokens| - 1].style != t.style)
    ensures Compact(tokens + [t])
  {}

  method BuildStyleMap(code: string, spans: seq<Span>) returns (styleMap: array<Option<string>>)
    ensures fresh(styleMap) && styleMap.Length == |code| && styleMap[..] == Styles(spans, |code|)
  {
    styleMap := new Option<string>[|code|](_ => None);
    for k := 0 to |spans|
      invariant forall i: nat | i < |code| :: styleMap[i] == StyleAt(spans[..k], i)
    {
      assert spans[..k + 1][..k] == spans[..k];
      PaintSpan(styleMap, spans[k]);
    }
    assert spans[..|spans|] == spans;
  }

  /** Every line has its exact tokens. */
  predicate ExactLines(result: seq<seq<Token>>, lines: seq<string>, styles: seq<Option<string>>) {
    |result| <= |lines| && forall k | 0 <= k < |result| :: Exact(result[k], lines[k], styles, Start(lines, k))
  }

  method HighlightParsed(code: string, spans: seq<Span>) returns (result: seq<seq<Token>>)
    ensures |result| == |Lines(code)| && ExactLines(result, Lines(code), Styles(spans, |code|))
  {
    var lines := Lines(code);
    LinesJoin(code);
    hide *;
    var styleMap := BuildStyleMap(code, spans);
    result := TokensPerLine(lines, styleMap);
  }

  method TokensPerLine(lines: seq<string>, styleMap: array<Option<string>>) returns (result: seq<seq<Token>>)
    requires lines != [] && |JoinLines(lines)| == styleMap.Length
    ensures |result| == |lines| && ExactLines(result, lines, styleMap[..])
  {
    hide *;
    result := [];
    NoLines(lines, styleMap[..]);
    var pos := 0;
    for k := 0 to |lines|
      invariant |result| == k && pos == Start(lines, k)
      invariant ExactLines(result, lines, styleMap[..])
    {
      LineFits(lines, k);
      var tokens := LineTokens(lines[k], styleMap, pos);
      OneMoreLine(result, tokens, lines, styleMap[..]);
      NextStart(lines, k);
      result := result + [tokens];
      pos := pos + |lines[k]| + 1;
    }
  }

  /** An empty line has one empty token. */
  method LineTokens(line: string, styleMap: array<Option<string>>, pos: nat) returns (tokens: seq<Token>)
    requires pos + |line| <= styleMap.Length
    ensures Exact(tokens, line, styleMap[..], pos)
  {
    if line == "" {
      EmptyLine(styleMap[..], pos);
      return [Token("", None)];
    }
    tokens := TokensOfLine(line, styleMap, pos);
  }

  lemma LineFits(lines: seq<string>, k: nat)
    requires k < |lines|
    ensures Start(lines, k) + |lines[k]| <= |JoinLines(lines)|
  {
    LineInCode(lines, k);
  }

  lemma NoLines(lines: seq<string>, styles: seq<Option<string>>)
    ensures ExactLines([], lines, styles) && Start(lines, 0) == 0
  {}

  lemma OneMoreLine(result: seq<seq<Token>>, tokens: seq<Token>, lines: seq<string>, styles: seq<Option<string>>)
    requires ExactLines(result, lines, styles) && |result| < |lines|
    requires Exact(tokens, lines[|result|], styles, Start(lines, |result|))
    ensures ExactLines(result + [tokens], lines, styles)
  {
    hide Exact, Start;
    var more := result + [tokens];
    forall k | 0 <= k < |more|
      ensures Exact(more[k], lines[k], styles, Start(lines, k))
    {
      if k < |result| {
        assert more[k] == result[k];
      }
    }
  }

  lemma NextStart(lines: seq<string>, k: nat)
    requires k < |lines|
    ensures Start(lines, k + 1) == Start(lines, k) + |lines[k]| + 1
  {}

  /** `spans` is None when the file has no parser: then every line is one unstyled token. */
  method HighlightCode(code: string, spans: Option<seq<Span>>) returns (result: seq<seq<Token>>)
    ensures |result| == |Lines(code)|
    ensures spans.None? ==> forall k | 0 <= k < |result| :: result[k] == [Token(Lines(code)[k], None)]
    ensures spans.Some? ==> ExactLines(result, Lines(code), Styles(spans.value, |code|))
  {
    hide Lines, ExactLines, Styles;
    if spans.Some? {
      result := HighlightParsed(code, spans.value);
      return;
    }
    var lines := Lines(code);
    result := [];
    for k := 0 to |lines|
      invariant |result| == k && forall j | 0 <= j < k :: result[j] == [Token(lines[j], None)]
    {
      result := result + [[Token(lines[k], None)]];
    }
  }

  lemma EmptyLine(styles: seq<Option<string>>, pos: nat)
    requires pos <= |styles|
    ensures Exact([Token("", None)], "", styles, pos)
  {
    CellsSnoc([], Token("", None));
    assert [] + [Token("", None)] == [Token("", None)];
  }

  // ---------------------------------------------------------------- what that means for the whole code

  lemma {:induction false} TextOfCells(tokens: seq<Token>)
    ensures |Text(tokens)| == |Cells(tokens)|
    ensures forall i | 0 <= i < |Text(tokens)| :: Text(tokens)[i] == Cells(tokens)[i].c
    decreases |tokens|
  {
    if tokens != [] {
      TextOfCells(tokens[..|tokens| - 1]);
    }
  }

  function Texts(result: seq<seq<Token>>): seq<string> {
    seq(|result|, k requires 0 <= k < |result| => Text(result[k]))
  }

  /** Lossless: the texts of the tokens, line by line, are the code. */
  lemma Lossless(code: string, spans: seq<Span>, result: seq<seq<Token>>)
    requires |result| == |Lines(code)| && ExactLines(result, Lines(code), Styles(spans, |code|))
    ensures JoinLines(Texts(result)) == code
  {
    hide Lines, StyleAt, Styles, Cells, Text;
    forall k | 0 <= k < |result|
      ensures Text(result[k]) == Lines(code)[k]
    {
      TextOfCells(result[k]);
    }
    assert Texts(result) == Lines(code);
    LinesJoin(code);
  }

  lemma HasCells(tokens: seq<Token>)
    requires Compact(tokens)
    ensures tokens == [] <==> Cells(tokens) == []
  {
    assert tokens != [] ==> tokens[|tokens| - 1].text != "";
  }

  /** The last token reaches back exactly as far as its style does. */
  lemma LastRun(tokens: seq<Token>)
    requires Compact(tokens) && tokens != []
    ensures var cells, last := Cells(tokens), tokens[|tokens| - 1];
            && 0 < |last.text| <= |cells|
            && (forall i | |cells| - |last.text| <= i < |cells| :: cells[i].style == last.style)
            && (|last.text| < |cells| ==> cells[|cells| - |last.text| - 1].style != last.style)
  {
    var front, last := tokens[..|tokens| - 1], tokens[|tokens| - 1];
    assert last.text != "";
    if front != [] {
      var previous := front[|front| - 1];
      assert previous == tokens[|tokens| - 2] && previous.text != "";
      assert tokens[|tokens| - 2].style != tokens[|tokens| - 2 + 1].style;
      assert Cells(front)[|Cells(front)| - 1].style == previous.style;
    }
  }

  lemma CompactPrefix(tokens: seq<Token>)
    requires Compact(tokens) && tokens != []
    ensures Compact(tokens[..|tokens| - 1])
  {
    var front := tokens[..|tokens| - 1];
    forall i | 0 <= i < |front| - 1
      ensures front[i].style != front[i + 1].style
    {
      assert tokens[i].style != tokens[i + 1].style;
    }
  }

  lemma SamePaint(front: seq<Cell>, x: Token, front': seq<Cell>, y: Token)
    requires front + Paint(x.text, x.style) == front' + Paint(y.text, y.style)
    requires |x.text| == |y.text| > 0
    ensures x == y && front == front'
  {
    var all := front + Paint(x.text, x.style);
    assert |front| == |front'|;
    assert front == all[..|front|] && front' == all[..|front|];
    assert Paint(x.text, x.style) == all[|front|..] && Paint(y.text, y.style) == all[|front|..];
    forall i | 0 <= i < |x.text|
      ensures x.text[i] == y.text[i]
    {
      assert Paint(x.text, x.style)[i] == Paint(y.text, y.style)[i];
    }
    assert Paint(x.text, x.style)[0] == Paint(y.text, y.style)[0];
  }

  /** The properties leave no choice: two exact token lists of a line are the same. */
  lemma {:induction false} CompactIsUnique(a: seq<Token>, b: seq<Token>)
    requires Compact(a) && Compact(b) && Cells(a) == Cells(b)
    ensures a == b
    decreases |a|
  {
    HasCells(a);
    HasCells(b);
    if a != [] {
      var x, y := a[|a| - 1], b[|b| - 1];
      LastRun(a);
      LastRun(b);
      assert Cells(a)[|Cells(a)| - 1].style == x.style == y.style;
      assert |x.text| == |y.text|;
      SamePaint(Cells(a[..|a| - 1]), x, Cells(b[..|b| - 1]), y);
      CompactPrefix(a);
      CompactPrefix(b);
      CompactIsUnique(a[..|a| - 1], b[..|b| - 1]);
      assert a == a[..|a| - 1] + [x] && b == b[..|b| - 1] + [y];
    }
  }
}
