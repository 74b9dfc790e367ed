/**
 The regular-expression scan of InputMode, compared with a one-character-at-a-time
 automaton. The automaton is the independent definition: it never looks ahead and
 never looks back, so chunk boundaries are visible in it only through its state.
 */
module InputModeAutomaton {
  import opened Wrappers
  import opened CsiText
  import opened InputMode

  datatype State = Ground | Escape | Csi(prefix: string, params: string)

  function NextState(st: State, c: char): State {
    if c == ESC then Escape
    else
      match st
      case Ground => Ground
      case Escape => if c == '[' then Csi("", "") else Ground
      case Csi(prefix, params) =>
        if IsParamChar(c) then Csi(prefix, params + [c])
        else if prefix == "" && params == "" && IsPrefixChar(c) then Csi([c], "")
        else Ground
  }

  function Emitted(st: State, c: char): seq<ModeSequence> {
    if !st.Csi? then []
    else if c == 'u' then [Kitty(st.prefix, st.params)]
    else if st.prefix == "?" && (c == 'h' || c == 'l') then [PrivateMode(st.params, c)]
    else []
  }

  function EndState(st: State, s: string): State
    decreases |s|
  {
    if s == "" then st else EndState(NextState(st, s[0]), s[1..])
  }

  function Emissions(st: State, s: string): seq<ModeSequence>
    decreases |s|
  {
    if s == "" then [] else Emitted(st, s[0]) + Emissions(NextState(st, s[0]), s[1..])
  }

  /** The text an unfinished introducer has consumed so far; a lone escape is not remembered. */
  function Held(st: State): string {
    match st
    case Csi(prefix, params) => [ESC, '['] + prefix + params
    case _ => ""
  }

  predicate Reachable(st: State) {
    st.Csi? ==> IsPrefix(st.prefix) && IsParams(st.params)
  }

  lemma {:induction false} Append(st: State, a: string, b: string)
    ensures EndState(st, a + b) == EndState(EndState(st, a), b)
    ensures Emissions(st, a + b) == Emissions(st, a) + Emissions(EndState(st, a), b)
    decreases |a|
  {
    if a == "" {
      assert a + b == b;
    } else {
      assert (a + b)[1..] == a[1..] + b;
      Append(NextState(st, a[0]), a[1..], b);
    }
  }

  lemma {:induction false} ReadParams(prefix: string, params: string, s: string)
    requires IsParams(s)
    ensures EndState(Csi(prefix, params), s) == Csi(prefix, params + s)
    ensures Emissions(Csi(prefix, params), s) == []
    decreases |s|
  {
    if s == "" {
      assert params + s == params;
    } else {
      assert IsParams(s[1..]);
      ReadParams(prefix, params + [s[0]], s[1..]);
      assert params + [s[0]] + s[1..] == params + s;
    }
  }

  /** Reading nothing, and reading one character. */
  lemma ReadOne(st: State, c: char)
    ensures EndState(st, [c]) == NextState(st, c)
    ensures Emissions(st, [c]) == Emitted(st, c)
    ensures EndState(st, "") == st && Emissions(st, "") == []
  {
    assert [c][1..] == "";
  }

  /** From any state, an introducer with its prefix and parameters restarts the recogniser. */
  lemma ReadIntroducer(st: State, prefix: string, params: string)
    requires IsPrefix(prefix) && IsParams(params)
    ensures EndState(st, [ESC, '['] + prefix + params) == Csi(prefix, params)
    ensures Emissions(st, [ESC, '['] + prefix + params) == []
  {
    hide EndState, Emissions;
    ReadOne(st, ESC);
    ReadOne(Escape, '[');
    Append(st, [ESC], ['[']);
    assert [ESC] + ['['] == [ESC, '['];
    Append(st, [ESC, '['], prefix);
    ReadOne(Csi("", ""), '?');
    if prefix != "" {
      ReadOne(Csi("", ""), prefix[0]);
      assert prefix == [prefix[0]];
    }
    Append(st, [ESC, '['] + prefix, params);
    ReadParams(prefix, "", params);
    assert "" + params == params;
  }

  /** From any state, a spelled sequence is recognised, exactly once, and leaves the ground state. */
  lemma ReadSequence(st: State, q: ModeSequence)
    requires WellFormed(q)
    ensures EndState(st, Spell(q)) == Ground
    ensures Emissions(st, Spell(q)) == [q]
  {
    match q
    case Kitty(prefix, params) =>
      ReadIntroducer(st, prefix, params);
      Append(st, [ESC, '['] + prefix + params, "u");
      ReadOne(Csi(prefix, params), 'u');
    case PrivateMode(params, final) =>
      ReadIntroducer(st, "?", params);
      Append(st, [ESC, '['] + "?" + params, [final]);
      ReadOne(Csi("?", params), final);
  }

  // ---------------------------------------------------------------- what the expression matches

  /** The anchored match is exactly "the text from `p` to `e` spells a well-formed sequence". */
  lemma MatchIsSpelling(text: string, p: nat, q: ModeSequence, e: nat)
    ensures MatchAt(text, p) == Some(Match(q, e)) <==>
            WellFormed(q) && p <= e <= |text| && text[p..e] == Spell(q)
  {
    if MatchAt(text, p) == Some(Match(q, e)) {
      MatchSpells(text, p);
    }
    if WellFormed(q) && p <= e <= |text| && text[p..e] == Spell(q) {
      SpellingMatches(text, p, q, e);
    }
  }

  lemma MatchSpells(text: string, p: nat)
    requires MatchAt(text, p).Some?
    ensures var m := MatchAt(text, p).value;
            p < m.end <= |text| && WellFormed(m.sequence) && text[p..m.end] == Spell(m.sequence)
  {
    hide SkipParams;
    var m := MatchAt(text, p).value;
    var s := if IsPrefixChar(text[p + 2]) then p + 3 else p + 2;
    assert m.end - 1 == SkipParams(text, s);
    hide IsParams;
    assert text[p..m.end] == [text[p], text[p + 1]] + text[p + 2..s] + text[s..m.end - 1] + [text[m.end - 1]];
    assert s == p + 3 ==> text[p + 2..s] == [text[p + 2]];
  }

  lemma SpellingMatches(text: string, p: nat, q: ModeSequence, e: nat)
    requires WellFormed(q) && p <= e <= |text| && text[p..e] == Spell(q)
    ensures MatchAt(text, p) == Some(Match(q, e))
  {
    hide SkipParams;
    var prefix := if q.Kitty? then q.prefix else "?";
    var final := if q.Kitty? then 'u' else q.final;
    assert text[p..e] == [ESC, '['] + prefix + q.params + [final];
    SpellingParts(text, p, e, prefix, q.params, final);
    var s := p + 2 + |prefix|;
    assert prefix == "" || prefix == [text[p + 2]];
    assert prefix == "" && q.params != "" ==> text[p + 2] == q.params[0];
    SkipParamsTo(text, s, e - 1);
  }

  /** The parts of a spelled sequence, at their places in the text. */
  lemma SpellingParts(text: string, p: nat, e: nat, prefix: string, params: string, final: char)
    requires p <= e <= |text| && text[p..e] == [ESC, '['] + prefix + params + [final]
    ensures var s := p + 2 + |prefix|;
            && s + |params| + 1 == e && text[p] == ESC && text[p + 1] == '[' && text[e - 1] == final
            && text[p + 2..s] == prefix && text[s..e - 1] == params
            && (prefix != "" ==> text[p + 2] == prefix[0])
            && (prefix == "" && params != "" ==> text[p + 2] == params[0])
            && (prefix == "" && params == "" ==> text[p + 2] == final)
  {
    var w, s := text[p..e], p + 2 + |prefix|;
    assert forall k | 0 <= k < |w| :: text[p + k] == w[k];
    assert text[p + 2..s] == w[2..2 + |prefix|] && text[s..e - 1] == w[2 + |prefix|..|w| - 1];
  }

  // ---------------------------------------------------------------- scan and automaton agree

  lemma ParamsSnoc(params: string, c: char)
    requires IsParams(params) && IsParamChar(c)
    ensures IsParams(params + [c])
  {}

  /** An introducer that never completes emits what would be emitted without it. */
  lemma {:induction false} DeadIntroducer(text: string, from: nat, i: nat, prefix: string, params: string)
    requires from <= i <= |text| && MatchAt(text, from).None?
    requires IsPrefix(prefix) && IsParams(params)
    requires text[from..i] == [ESC, '['] + prefix + params
    ensures Emissions(Csi(prefix, params), text[i..]) == Emissions(Ground, text[i..])
    decreases |text| - i
  {
    hide MatchAt, SkipParams;
    if i < |text| {
      var c := text[i];
      assert text[i..][1..] == text[i + 1..] && text[i..][0] == c;
      assert text[from..i + 1] == text[from..i] + [c];
      hide IsParams;
      if IsParamChar(c) {
        ParamsSnoc(params, c);
        assert text[from..i + 1] == [ESC, '['] + prefix + (params + [c]);
        DeadIntroducer(text, from, i + 1, prefix, params + [c]);
      } else if prefix == "" && params == "" && IsPrefixChar(c) {
        assert text[from..i + 1] == [ESC, '['] + [c] + "";
        DeadIntroducer(text, from, i + 1, [c], "");
      } else if c == 'u' {
        SpellingMatches(text, from, Kitty(prefix, params), i + 1);
      } else if prefix == "?" && (c == 'h' || c == 'l') {
        SpellingMatches(text, from, PrivateMode(params, c), i + 1);
      }
    }
  }

  /** The leftmost regular-expression scan emits what the automaton emits. */
  lemma {:induction false} ScanAgrees(text: string, from: nat)
    requires from <= |text|
    ensures Scan(text, from) == Emissions(Ground, text[from..])
    decreases |text| - from
  {
    hide MatchAt, Emissions, Spell;
    if from == |text| {
      ReadOne(Ground, ESC);
      assert text[from..] == "";
    } else {
      match MatchAt(text, from)
      case Some(m) =>
        EmitMatch(text, from);
        ScanAgrees(text, m.end);
      case None =>
        EmitNothing(text, from);
        ScanAgrees(text, from + 1);
    }
  }

  /** Where the expression matches, the automaton emits that sequence and starts afresh behind it. */
  lemma EmitMatch(text: string, from: nat)
    requires from < |text| && MatchAt(text, from).Some?
    ensures var m := MatchAt(text, from).value;
            from < m.end <= |text| &&
            Emissions(Ground, text[from..]) == [m.sequence] + Emissions(Ground, text[m.end..])
  {
    hide MatchAt, Emissions, EndState, Spell;
    MatchSpells(text, from);
    var m := MatchAt(text, from).value;
    assert text[from..] == text[from..m.end] + text[m.end..];
    ReadSequence(Ground, m.sequence);
    Append(Ground, Spell(m.sequence), text[m.end..]);
  }

  /** Where it does not match, the automaton emits what it emits one character later. */
  lemma EmitNothing(text: string, from: nat)
    requires from < |text| && MatchAt(text, from).None?
    ensures Emissions(Ground, text[from..]) == Emissions(Ground, text[from + 1..])
  {
    hide MatchAt;
    var rest := text[from..];
    assert rest[1..] == text[from + 1..];
    if rest[0] == ESC && |rest| >= 2 && rest[1] == '[' {
      assert text[from + 1..][1..] == text[from + 2..];
      assert text[from..from + 2] == [ESC, '['] + "" + "";
      DeadIntroducer(text, from, from + 2, "", "");
    }
  }

  lemma {:induction false} StateStaysReachable(st: State, s: string)
    requires Reachable(st)
    ensures Reachable(EndState(st, s))
    decreases |s|
  {
    if s != "" {
      StateStaysReachable(NextState(st, s[0]), s[1..]);
    }
  }

  /** A state inside an introducer holds exactly the last characters read. */
  lemma {:induction false} HeldIsSuffix(s: string)
    ensures var h := Held(EndState(Ground, s)); |h| <= |s| && s[|s| - |h|..] == h
    ensures s != "" && s[|s| - 1] == ESC <==> EndState(Ground, s) == Escape
    decreases |s|
  {
    if s != "" {
      var front, c := s[..|s| - 1], s[|s| - 1];
      assert s == front + [c];
      HeldIsSuffix(front);
      StateStaysReachable(Ground, front);
      Append(Ground, front, [c]);
      var before := EndState(Ground, front);
      ReadOne(before, c);
      HeldGrows(before, front, c);
    }
  }

  lemma HeldGrows(before: State, front: string, c: char)
    requires Reachable(before)
    requires |Held(before)| <= |front| && front[|front| - |Held(before)|..] == Held(before)
    requires before == Escape ==> front != "" && front[|front| - 1] == ESC
    ensures var s, h := front + [c], Held(NextState(before, c));
            |h| <= |s| && s[|s| - |h|..] == h
  {
    var s, h := front + [c], Held(NextState(before, c));
    if before == Escape && c == '[' {
      assert s[|s| - 2..] == [ESC, '['];
    } else if NextState(before, c).Csi? {
      assert h == Held(before) + [c];
      assert s[|s| - |h|..] == front[|front| - |Held(before)|..] + [c];
    }
  }

  lemma IncompleteIsHeld(st: State, w: string)
    requires IsIncomplete(w)
    ensures EndState(st, w).Csi? && Held(EndState(st, w)) == w && Emissions(st, w) == []
  {
    if IsParams(w[2..]) {
      assert w == [ESC, '['] + "" + w[2..];
      ReadIntroducer(st, "", w[2..]);
    } else {
      assert w == [ESC, '['] + [w[2]] + w[3..];
      ReadIntroducer(st, [w[2]], w[3..]);
    }
  }

  lemma OneEscape(tail: string, j: nat)
    requires j <= |tail| && IsIncomplete(tail[j..])
    ensures IntroducerAt(tail, j)
    ensures forall k | j < k < |tail| :: tail[k] != ESC
  {
    var w := tail[j..];
    forall k | j < k < |tail|
      ensures tail[k] != ESC
    {
      assert tail[k] == w[k - j];
      if IsParams(w[2..]) {
        assert k - j == 1 || w[k - j] == w[2..][k - j - 2];
      } else {
        assert k - j <= 2 || w[k - j] == w[3..][k - j - 3];
      }
    }
  }

  lemma HeldIsIncomplete(st: State)
    requires Reachable(st) && st.Csi?
    ensures IsIncomplete(Held(st))
  {
    var h := Held(st);
    if st.prefix == "" {
      assert h[2..] == st.params;
    } else {
      assert h[2] == st.prefix[0] && h[3..] == st.params;
    }
  }

  lemma LastIntroducerIs(s: string, j: nat)
    requires IntroducerAt(s, j)
    requires forall k | j < k < |s| :: s[k] != ESC
    ensures LastIntroducer(s, |s|) == j
  {}

  lemma IncompleteIsKept(tail: string, j: nat)
    requires j <= |tail| && IsIncomplete(tail[j..])
    ensures KeptTail(tail) == tail[j..]
  {
    OneEscape(tail, j);
    LastIntroducerIs(tail, j);
  }

  /** Looking for the last introducer keeps exactly the text that the automaton holds. */
  lemma KeptIsHeld(tail: string)
    ensures KeptTail(tail) == Held(EndState(Ground, tail))
  {
    var i := LastIntroducer(tail, |tail|);
    if EndState(Ground, tail).Csi? {
      hide EndState;
      HeldIsSuffix(tail);
      StateStaysReachable(Ground, tail);
      HeldIsIncomplete(EndState(Ground, tail));
      IncompleteIsKept(tail, |tail| - |Held(EndState(Ground, tail))|);
    } else if i >= 0 && IsIncomplete(tail[i..]) {
      assert tail == tail[..i] + tail[i..];
      Append(Ground, tail[..i], tail[i..]);
      IncompleteIsHeld(EndState(Ground, tail[..i]), tail[i..]);
    }
  }

  /** Whatever came before it, the last character of a match puts the automaton at rest. */
  lemma RestAfterMatch(text: string, at: nat, consumed: nat)
    requires consumed <= at <= |text| && MatchAt(text, at).Some?
    ensures var end := MatchAt(text, at).value.end;
            consumed <= end <= |text| && EndState(Ground, text[consumed..end]) == Ground
  {
    hide EndState, Emissions, MatchAt;
    MatchSpells(text, at);
    var end := MatchAt(text, at).value.end;
    var front, c := text[consumed..end - 1], text[end - 1];
    assert c == text[at..end][end - at - 1];
    assert text[consumed..end] == front + [c];
    Append(Ground, front, [c]);
    ReadOne(EndState(Ground, front), c);
  }

  lemma DropMatched(text: string, at: nat, consumed: nat)
    requires consumed <= at <= |text| && MatchAt(text, at).Some?
    ensures var end := MatchAt(text, at).value.end;
            at < end <= |text| && EndState(Ground, text[consumed..]) == EndState(Ground, text[end..])
  {
    hide EndState, Emissions, MatchAt;
    RestAfterMatch(text, at, consumed);
    MatchSpells(text, at);
    var end := MatchAt(text, at).value.end;
    assert text[consumed..] == text[consumed..end] + text[end..];
    Append(Ground, text[consumed..end], text[end..]);
  }

  lemma {:induction false} AtRestAfterScan(text: string, at: nat, consumed: nat)
    requires consumed <= at <= |text|
    ensures EndState(Ground, text[consumed..]) == EndState(Ground, text[ScanEndFrom(text, at, consumed)..])
    decreases |text| - at
  {
    if at < |text| {
      match MatchAt(text, at)
      case None => AtRestAfterScan(text, at + 1, consumed);
      case Some(m) =>
        DropMatched(text, at, consumed);
        AtRestAfterScan(text, m.end, m.end);
    }
  }

  /** One `feed` runs the automaton over the carried text followed by the chunk. */
  lemma FeedRunsAutomaton(t: Tracker, data: string)
    requires t.Valid()
    ensures var text := t.pending + data;
            var effect := ApplyAll(t.modes, Emissions(Ground, text));
            Feed(t, data) == FeedResult(Tracker(effect.modes, Held(EndState(Ground, text))),
                                        effect.changed, effect.responses)
    ensures Feed(t, data).tracker.Valid()
  {
    var text := t.pending + data;
    StateStaysReachable(Ground, text);
    if EndState(Ground, text).Csi? {
      HeldIsIncomplete(EndState(Ground, text));
    }
    if data == "" {
      assert text == t.pending;
      if t.pending != "" {
        IncompleteIsHeld(Ground, t.pending);
      }
    } else {
      ScanAgrees(text, 0);
      assert text[0..] == text;
      AtRestAfterScan(text, 0, 0);
      KeptIsHeld(text[ScanEnd(text, 0)..]);
    }
  }

  // ---------------------------------------------------------------- chunk independence

  lemma {:induction false} ApplyAllAppend(m: Modes, a: seq<ModeSequence>, b: seq<ModeSequence>)
    ensures var first := ApplyAll(m, a);
            var second := ApplyAll(first.modes, b);
            ApplyAll(m, a + b) ==
            Effect(second.modes, first.changed || second.changed, first.responses + second.responses)
    decreases b
  {
    if b == [] {
      assert a + b == a;
    } else {
      var front := b[..|b| - 1];
      assert (a + b)[..|a + b| - 1] == a + front;
      ApplyAllAppend(m, a, front);
    }
  }

  /** Feeding two chunks one after the other, with both results combined. */
  function FeedTwice(t: Tracker, a: string, b: string): FeedResult {
    var first := Feed(t, a);
    var second := Feed(first.tracker, b);
    FeedResult(second.tracker, first.changed || second.changed, first.responses + second.responses)
  }

  predicate EndsInEscape(a: string) {
    a != "" && a[|a| - 1] == ESC
  }

  /** Reading the held text again leads back to the state that holds it. */
  lemma HeldReplays(st: State)
    requires Reachable(st) && st != Escape
    ensures EndState(Ground, Held(st)) == st
    ensures Emissions(Ground, Held(st)) == []
  {
    if st.Csi? {
      ReadIntroducer(Ground, st.prefix, st.params);
    }
  }

  /** What a feed does, as the automaton state and the sequences it emitted. */
  lemma SplitRun(text: string, b: string)
    requires EndState(Ground, text) != Escape
    ensures var kept := Held(EndState(Ground, text));
            EndState(Ground, kept + b) == EndState(Ground, text + b) &&
            Emissions(Ground, text + b) == Emissions(Ground, text) + Emissions(Ground, kept + b)
  {
    hide Emissions, EndState, Held;
    var st := EndState(Ground, text);
    StateStaysReachable(Ground, text);
    HeldReplays(st);
    Append(Ground, text, b);
    Append(Ground, Held(st), b);
  }

  lemma SplitFeed(t: Tracker, a: string, b: string)
    requires t.Valid() && !EndsInEscape(a)
    ensures FeedTwice(t, a, b) == Feed(t, a + b)
  {
    hide Feed, Emissions, EndState, ApplyAll;
    var text := t.pending + a;
    var kept := Held(EndState(Ground, text));
    NotAfterEscape(t, a);
    SplitRun(text, b);
    assert t.pending + (a + b) == text + b;
    FeedRunsAutomaton(t, a);
    var first := Feed(t, a).tracker;
    FeedRunsAutomaton(first, b);
    FeedRunsAutomaton(t, a + b);
    ApplyAllAppend(t.modes, Emissions(Ground, text), Emissions(Ground, kept + b));
  }

  lemma NotAfterEscape(t: Tracker, a: string)
    requires t.Valid()
    ensures EndState(Ground, t.pending + a) == Escape <==> EndsInEscape(a)
  {
    var text := t.pending + a;
    HeldIsSuffix(text);
    if a == "" {
      assert text == t.pending;
      if t.pending != "" {
        IncompleteIsHeld(Ground, t.pending);
      }
    } else {
      assert text[|text| - 1] == a[|a| - 1];
    }
  }

  /**
   A chunk may be cut from the text that follows it exactly when it does not end in a
   lone escape: that character is the only one the tracker forgets.
   */
  lemma ChunkIndependence(t: Tracker, a: string)
    requires t.Valid()
    ensures (forall b :: FeedTwice(t, a, b) == Feed(t, a + b)) <==> !EndsInEscape(a)
  {
    if !EndsInEscape(a) {
      forall b ensures FeedTwice(t, a, b) == Feed(t, a + b) {
        SplitFeed(t, a, b);
      }
    } else {
      EscapeIsForgotten(t, a);
    }
  }

  const QUERY_TAIL := "[?u"

  lemma QueryAfterEscape()
    ensures Emissions(Escape, QUERY_TAIL) == [Kitty("?", "")]
    ensures Emissions(Ground, QUERY_TAIL) == []
  {
    var b := QUERY_TAIL;
    assert b == "[" + "?" + "u";
    Append(Escape, "[" + "?", "u");
    Append(Escape, "[", "?");
    Append(Ground, "[" + "?", "u");
    Append(Ground, "[", "?");
    ReadOne(Escape, '[');
    ReadOne(Csi("", ""), '?');
    ReadOne(Csi("?", ""), 'u');
    ReadOne(Ground, '[');
    ReadOne(Ground, '?');
    ReadOne(Ground, 'u');
  }

  lemma QueryAnswers(m: Modes)
    ensures |ApplyAll(m, [Kitty("?", "")]).responses| == 1
    ensures ApplyAll(m, []).responses == []
  {
    assert [Kitty("?", "")][..0] == [];
  }

  lemma EscapeIsForgotten(t: Tracker, a: string)
    requires t.Valid() && EndsInEscape(a)
    ensures FeedTwice(t, a, QUERY_TAIL) != Feed(t, a + QUERY_TAIL)
  {
    hide Feed, Emissions, EndState, ApplyAll;
    var text := t.pending + a;
    NotAfterEscape(t, a);
    QueryAfterEscape();
    QueryAnswers(ApplyAll(t.modes, Emissions(Ground, text)).modes);
    FeedRunsAutomaton(t, a);
    var first := Feed(t, a).tracker;
    assert first.pending + QUERY_TAIL == QUERY_TAIL;
    FeedRunsAutomaton(first, QUERY_TAIL);
    assert t.pending + (a + QUERY_TAIL) == text + QUERY_TAIL;
    Append(Ground, text, QUERY_TAIL);
    FeedRunsAutomaton(t, a + QUERY_TAIL);
    var query := [Kitty("?", "")];
    ApplyAllAppend(t.modes, Emissions(Ground, text), query);
    assert Feed(t, a + QUERY_TAIL).responses == Feed(t, a).responses + ApplyAll(first.modes, query).responses;
    assert Feed(first, QUERY_TAIL).responses == [];
    assert |FeedTwice(t, a, QUERY_TAIL).responses| == |Feed(t, a).responses|;
  }
}
