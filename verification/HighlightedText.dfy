/** The highlighter's lines and tokens, character by character. */
module HighlightedText {
  import opened Wrappers
  import opened Highlighter

  /** No line holds a newline, and there is one line more than there are newlines. */
  lemma {:induction false} LinesHoldNoNewline(code: string)
    ensures forall k, i | 0 <= k < |Lines(code)| && 0 <= i < |Lines(code)[k]| :: Lines(code)[k][i] != '\n'
    ensures |Lines(code)| == 1 + Newlines(code)
    decreases |code|
  {
    if code != "" {
      LinesHoldNoNewline(code[..|code| - 1]);
      assert Newlines(code) == Newlines(code[..|code| - 1]) + if code[|code| - 1] == '\n' then 1 else 0;
      hide Newlines;
    }
  }

  function Newlines(code: string): nat {
    if code == "" then 0 else Newlines(code[..|code| - 1]) + if code[|code| - 1] == '\n' then 1 else 0
  }

  /** Line `k` starts behind a newline, and its characters stand in the code from there on. */
  lemma CharacterOfLine(code: string, k: nat, i: nat)
    requires k < |Lines(code)|
    ensures Start(Lines(code), k) + |Lines(code)[k]| <= |code|
    ensures i < |Lines(code)[k]| ==> Lines(code)[k][i] == code[Start(Lines(code), k) + i]
    ensures k > 0 ==> code[Start(Lines(code), k) - 1] == '\n'
  {
    hide *;
    LinesJoin(code);
    LineInCode(Lines(code), k);
    if i < |Lines(code)[k]| {
      CharacterOfSlice(code, Start(Lines(code), k), Lines(code)[k], i);
    }
    if k > 0 {
      NewlineBefore(Lines(code), k);
    }
  }

  lemma CharacterOfSlice(code: string, start: nat, line: string, i: nat)
    requires start + |line| <= |code| && code[start..start + |line|] == line && i < |line|
    ensures line[i] == code[start + i]
  {}

  lemma {:induction false} NewlineBefore(lines: seq<string>, k: nat)
    requires 0 < k < |lines|
    ensures 0 < Start(lines, k) <= |JoinLines(lines)| && JoinLines(lines)[Start(lines, k) - 1] == '\n'
    decreases |lines|
  {
    var n := |lines| - 1;
    var front := lines[..n];
    assert lines == front + [lines[n]];
    StartSnoc(front, [lines[n]], k);
    LineInCode(front, 0);
    if k < n {
      NewlineBefore(front, k);
      assert JoinLines(lines)[..|JoinLines(front)|] == JoinLines(front);
    }
  }

  /** How many characters tokens hold. */
  function Width(tokens: seq<Token>): nat {
    if tokens == [] then 0 else Width(tokens[..|tokens| - 1]) + |tokens[|tokens| - 1].text|
  }

  lemma {:induction false} CellOfToken(tokens: seq<Token>, j: nat, i: nat)
    requires j < |tokens| && i < |tokens[j].text|
    ensures |Cells(tokens)| == Width(tokens)
    ensures Width(tokens[..j]) + i < Width(tokens)
    ensures Cells(tokens)[Width(tokens[..j]) + i] == Cell(tokens[j].text[i], tokens[j].style)
    decreases |tokens|
  {
    var n := |tokens| - 1;
    CellsAreWide(tokens[..n]);
    if j < n {
      CellOfToken(tokens[..n], j, i);
      assert tokens[..n][..j] == tokens[..j];
    }
  }

  lemma {:induction false} CellsAreWide(tokens: seq<Token>)
    ensures |Cells(tokens)| == Width(tokens)
  {
    if tokens != [] {
      CellsAreWide(tokens[..|tokens| - 1]);
    }
  }

  /**
   Character `i` of token `j` of line `k` is the code's own, at its place, and has the style of the last span
   there: span `w` covers the place and no later one does, or no span covers it.
   */
  lemma CharacterOfToken(code: string, spans: seq<Span>, result: seq<seq<Token>>, k: nat, j: nat, i: nat)
    requires |result| == |Lines(code)| && ExactLines(result, Lines(code), Styles(spans, |code|))
    requires k < |result| && j < |result[k]| && i < |result[k][j].text|
    ensures var token, at := result[k][j], Start(Lines(code), k) + Width(result[k][..j]) + i;
      && at < |code| && token.text[i] == code[at] && code[at] != '\n'
      && (token.style == None <==> forall w | 0 <= w < |spans| :: !(spans[w].from <= at < spans[w].to))
      && (token.style.Some? ==> exists w: nat :: WinsAt(spans, w, at) && token.style == Some(spans[w].style))
  {
    hide *;
    var o := Width(result[k][..j]) + i;
    CellIsStyled(result, Lines(code), spans, |code|, k, j, i);
    CharacterOfLine(code, k, o);
    LinesHoldNoNewline(code);
    StyleMeans(spans, Start(Lines(code), k) + o);
  }

  lemma CellIsStyled(
    result: seq<seq<Token>>, lines: seq<string>, spans: seq<Span>, n: nat, k: nat, j: nat, i: nat)
    requires k < |result| == |lines| && j < |result[k]| && i < |result[k][j].text|
    requires ExactLines(result, lines, Styles(spans, n))
    ensures var token, o := result[k][j], Width(result[k][..j]) + i;
      o < |lines[k]| && token.text[i] == lines[k][o] && token.style == StyleAt(spans, Start(lines, k) + o)
  {
    hide StyleAt, Compact, Width, Start;
    assert Exact(result[k], lines[k], Styles(spans, n), Start(lines, k));
    CellOfToken(result[k], j, i);
    hide ExactLines;
  }

  lemma StyleMeans(spans: seq<Span>, at: nat)
    ensures StyleAt(spans, at) == None <==> forall w | 0 <= w < |spans| :: !(spans[w].from <= at < spans[w].to)
    ensures StyleAt(spans, at).Some? ==>
              exists w: nat :: WinsAt(spans, w, at) && StyleAt(spans, at) == Some(spans[w].style)
  {
    LastSpanWins(spans, at);
    assert forall w | 0 <= w < |spans| :: Covers(spans[w], at) <==> spans[w].from <= at < spans[w].to;
    hide StyleAt, WinsAt;
  }

  /** Every line is covered to its end, and tokens are split only where the style changes. */
  lemma TokensOfLineAre(code: string, spans: seq<Span>, result: seq<seq<Token>>, k: nat)
    requires |result| == |Lines(code)| && ExactLines(result, Lines(code), Styles(spans, |code|)) && k < |result|
    ensures Width(result[k]) == |Lines(code)[k]|
    ensures Lines(code)[k] == "" ==> result[k] == [Token("", None)]
    ensures Lines(code)[k] != "" ==>
              && (forall j | 0 <= j < |result[k]| :: result[k][j].text != "")
              && (forall j | 0 <= j < |result[k]| - 1 :: result[k][j].style != result[k][j + 1].style)
  {
    assert Exact(result[k], Lines(code)[k], Styles(spans, |code|), Start(Lines(code), k));
    CellsAreWide(result[k]);
    hide Cells, Lines, StyleAt;
  }
}
