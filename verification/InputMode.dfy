/**
 The input-mode tracker: which keyboard protocol the foreground program asked for.

 Three views of the same recogniser live here: the shape of a mode sequence (`Spell`),
 the leftmost scan that the regular expression performs (`MatchAt`, `Scan`), and the
 class whose `Feed` runs that scan over one output chunk at a time.
 */
module InputMode {
  import opened Wrappers
  import opened CsiText
  import Decimal

  const WIN32_INPUT_MODE: nat := 9001

  /** A recognised control sequence, with its parameter text still unparsed. */
  datatype ModeSequence =
    | Kitty(prefix: string, params: string)
    | PrivateMode(params: string, final: char)

  predicate IsPrefixChar(c: char) {
    c == '<' || c == '>' || c == '=' || c == '?'
  }

  predicate IsPrefix(s: string) {
    s == "" || (|s| == 1 && IsPrefixChar(s[0]))
  }

  predicate WellFormed(q: ModeSequence) {
    match q
    case Kitty(prefix, params) => IsPrefix(prefix) && IsParams(params)
    case PrivateMode(params, final) => IsParams(params) && (final == 'h' || final == 'l')
  }

  /** The text of a sequence. */
  function Spell(q: ModeSequence): string {
    match q
    case Kitty(prefix, params) => [ESC, '['] + prefix + params + "u"
    case PrivateMode(params, final) => [ESC, '['] + "?" + params + [final]
  }

  // ---------------------------------------------------------------- the regular expression

  datatype Match = Match(sequence: ModeSequence, end: nat)

  /** What the expression matches when anchored at position `p`, if anything. */
  function MatchAt(text: string, p: nat): Option<Match> {
    if p + 1 >= |text| || text[p] != ESC || text[p + 1] != '[' then None
    else
      var q := if p + 2 < |text| && IsPrefixChar(text[p + 2]) then p + 3 else p + 2;
      var e := SkipParams(text, q);
      if e == |text| then None
      else if text[e] == 'u' then Some(Match(Kitty(text[p + 2..q], text[q..e]), e + 1))
      else if q == p + 3 && text[p + 2] == '?' && (text[e] == 'h' || text[e] == 'l') then
        Some(Match(PrivateMode(text[q..e], text[e]), e + 1))
      else None
  }

  /** The leftmost non-overlapping matches from position `from` on. */
  function Scan(text: string, from: nat): seq<ModeSequence>
    requires from <= |text|
    decreases |text| - from
  {
    if from == |text| then []
    else
      match MatchAt(text, from)
      case Some(m) => assert from < m.end <= |text|; [m.sequence] + Scan(text, m.end)
      case None => Scan(text, from + 1)
  }

  /** The whole text is an introducer with optional prefix and parameters, but no final character yet. */
  predicate IsIncomplete(s: string) {
    |s| >= 2 && s[0] == ESC && s[1] == '[' &&
    (IsParams(s[2..]) || (|s| >= 3 && IsPrefixChar(s[2]) && IsParams(s[3..])))
  }

  predicate IntroducerAt(s: string, i: int) {
    0 <= i && i + 1 < |s| && s[i] == ESC && s[i + 1] == '['
  }

  /** `s.lastIndexOf(ESC + "[")`, searching the part before index `n`. */
  function LastIntroducer(s: string, n: nat): (i: int)
    requires n <= |s|
    ensures -1 <= i < n
    ensures i >= 0 ==> IntroducerAt(s, i)
    ensures forall j | i < j < n :: !IntroducerAt(s, j)
  {
    if n == 0 then -1
    else if IntroducerAt(s, n - 1) then n - 1
    else LastIntroducer(s, n - 1)
  }

  /** What is kept for the next chunk from the text after the last match. */
  function KeptTail(tail: string): string {
    var i := LastIntroducer(tail, |tail|);
    if i >= 0 && IsIncomplete(tail[i..]) then tail[i..] else ""
  }

  // ---------------------------------------------------------------- parameters

  function FirstParam(params: string): Option<nat> {
    NumeralValue(Split(params, ';')[0])
  }

  function SecondParam(params: string): Option<nat> {
    var parts := Split(params, ';');
    if |parts| < 2 then None else NumeralValue(parts[1])
  }

  function PrivateModes(parts: seq<string>): set<nat> {
    set i | 0 <= i < |parts| && NumeralValue(parts[i]).Some? :: NumeralValue(parts[i]).value
  }

  // ---------------------------------------------------------------- the modes

  /** The tracker's visible state; the top of the stack is its last element. */
  datatype Modes = Modes(flags: nat, stack: seq<nat>, win32: bool)

  datatype Effect = Effect(modes: Modes, changed: bool, responses: seq<string>)

  const DEFAULT_MODES := Modes(0, [], false)

  function Push(m: Modes, flags: nat): Modes {
    Modes(flags, m.stack + [m.flags], m.win32)
  }

  /** One `pop() ?? 0`. */
  function PopOne(m: Modes): Modes {
    if m.stack == [] then m.(flags := 0)
    else m.(flags := m.stack[|m.stack| - 1], stack := m.stack[..|m.stack| - 1])
  }

  function PopMany(m: Modes, count: nat): Modes
    decreases count
  {
    if count == 0 then m else PopMany(PopOne(m), count - 1)
  }

  function PopCount(params: string): nat {
    var n := FirstParam(params).GetOr(1);
    if n < 1 then 1 else n
  }

  function QueryResponse(m: Modes): string {
    [ESC] + "[?" + Decimal.Print(m.flags) + "u"
  }

  function Apply(m: Modes, q: ModeSequence): Effect {
    match q
    case PrivateMode(params, final) =>
      if WIN32_INPUT_MODE in PrivateModes(Split(params, ';')) then
        Effect(m.(win32 := final == 'h'), (final == 'h') != m.win32, [])
      else
        Effect(m, false, [])
    case Kitty(prefix, params) =>
      if prefix == "?" then Effect(m, false, [QueryResponse(m)])
      else
        var next :=
          if prefix == ">" then Push(m, FirstParam(params).GetOr(1))
          else if prefix == "=" then
            m.(flags := if SecondParam(params).GetOr(1) == 0 then 0 else FirstParam(params).GetOr(0))
          else if prefix == "<" then PopMany(m, PopCount(params))
          else m;
        Effect(next, next.flags != m.flags, [])
  }

  /** Left to right, with the change marks or-ed and the responses concatenated. */
  function ApplyAll(m: Modes, qs: seq<ModeSequence>): Effect {
    if qs == [] then Effect(m, false, [])
    else
      var front := ApplyAll(m, qs[..|qs| - 1]);
      var last := Apply(front.modes, qs[|qs| - 1]);
      Effect(last.modes, front.changed || last.changed, front.responses + last.responses)
  }

  function Preamble(m: Modes): string {
    (if m.flags > 0 then [ESC] + "[=" + Decimal.Print(m.flags) + ";1u" else "") +
    (if m.win32 then [ESC] + "[?9001h" else "")
  }

  // ---------------------------------------------------------------- feeding a chunk

  datatype Tracker = Tracker(modes: Modes, pending: string)
  {
    /** The carried text is empty or an unfinished introducer. */
    predicate Valid() {
      pending == "" || IsIncomplete(pending)
    }
  }

  const FRESH := Tracker(DEFAULT_MODES, "")

  datatype FeedResult = FeedResult(tracker: Tracker, changed: bool, responses: seq<string>)

  /** The position after the last match, from `from` on; `from` itself if there is none. */
  function ScanEnd(text: string, from: nat): (e: nat)
    requires from <= |text|
    ensures from <= e <= |text|
  {
    ScanEndFrom(text, from, from)
  }

  function ScanEndFrom(text: string, at: nat, consumed: nat): (e: nat)
    requires consumed <= at <= |text|
    ensures consumed <= e <= |text|
    decreases |text| - at
  {
    if at == |text| then consumed
    else
      match MatchAt(text, at)
      case Some(m) => ScanEndFrom(text, m.end, m.end)
      case None => ScanEndFrom(text, at + 1, consumed)
  }

  /** One call of `feed`. */
  function Feed(t: Tracker, data: string): FeedResult {
    if data == "" then FeedResult(t, false, [])
    else
      var text := t.pending + data;
      var effect := ApplyAll(t.modes, Scan(text, 0));
      FeedResult(Tracker(effect.modes, KeptTail(text[ScanEnd(text, 0)..])), effect.changed, effect.responses)
  }

  // ---------------------------------------------------------------- the class

  lemma {:induction false} PopManyLast(m: Modes, count: nat)
    ensures PopMany(m, count + 1) == PopOne(PopMany(m, count))
    decreases count
  {
    if count > 0 {
      PopManyLast(PopOne(m), count - 1);
    }
  }

  /** `parsePrivateModeParams`: collects the numerals of a parameter list. */
  method ParsePrivateModeParams(params: string) returns (modes: set<nat>)
    ensures modes == PrivateModes(Split(params, ';'))
  {
    var parts := Split(params, ';');
    modes := {};
    for i := 0 to |parts|
      invariant modes == PrivateModes(parts[..i])
    {
      var value := NumeralValue(parts[i]);
      ghost var before := parts[..i];
      assert parts[..i + 1] == before + [parts[i]];
      assert PrivateModes(parts[..i + 1]) == PrivateModes(before) + (if value.Some? then {value.value} else {}) by {
        var extended := parts[..i + 1];
        assert extended[i] == parts[i];
        forall j | 0 <= j < i ensures extended[j] == before[j] {}
      }
      if value.Some? {
        modes := modes + {value.value};
      }
    }
    assert parts[..|parts|] == parts;
  }

  /** `exec` on the global expression: the leftmost match that starts at `from` or later. */
  method Exec(text: string, from: nat) returns (found: Option<Match>)
    requires from <= |text|
    ensures found.None? ==> forall p | from <= p < |text| :: MatchAt(text, p).None?
    ensures found.Some? ==>
              exists p :: from <= p < |text| && MatchAt(text, p) == found &&
                          forall j | from <= j < p :: MatchAt(text, j).None?
    ensures found.Some? ==> from < found.value.end <= |text|
    ensures Scan(text, from) ==
            if found.Some? then [found.value.sequence] + Scan(text, found.value.end) else []
    ensures forall c | 0 <= c <= from ::
              ScanEndFrom(text, from, c) ==
              if found.Some? then ScanEndFrom(text, found.value.end, found.value.end) else c
  {
    var p := from;
    while p < |text|
      invariant from <= p <= |text|
      invariant forall j | from <= j < p :: MatchAt(text, j).None?
      invariant Scan(text, from) == Scan(text, p)
      invariant forall c | 0 <= c <= from :: ScanEndFrom(text, from, c) == ScanEndFrom(text, p, c)
    {
      found := MatchAt(text, p);
      if found.Some? {
        return;
      }
      p := p + 1;
    }
    found := None;
  }

  class TerminalInputModeTracker {
    var kittyKeyboardFlags: nat
    var win32InputMode: bool
    var kittyKeyboardStack: seq<nat>
    var pending: string

    ghost function CurrentModes(): Modes
      reads this
    {
      Modes(kittyKeyboardFlags, kittyKeyboardStack, win32InputMode)
    }

    ghost function Value(): Tracker
      reads this
    {
      Tracker(CurrentModes(), pending)
    }

    constructor ()
      ensures Value() == FRESH
    {
      kittyKeyboardFlags := 0;
      win32InputMode := false;
      kittyKeyboardStack := [];
      pending := "";
    }

    method FeedChunk(data: string) returns (changed: bool, responses: seq<string>)
      modifies this
      ensures FeedResult(Value(), changed, responses) == Feed(old(Value()), data)
    {
      hide Scan, ScanEndFrom, MatchAt, Apply;
      changed, responses := false, [];
      if data == "" {
        return;
      }
      var text := pending + data;
      pending := "";
      var consumedUntil := 0;
      ghost var start := CurrentModes();
      ghost var seen: seq<ModeSequence> := [];
      while true
        invariant consumedUntil <= |text| && pending == ""
        invariant Effect(CurrentModes(), changed, responses) == ApplyAll(start, seen)
        invariant Scan(text, 0) == seen + Scan(text, consumedUntil)
        invariant ScanEnd(text, 0) == ScanEnd(text, consumedUntil)
        decreases |text| - consumedUntil
      {
        var found := Exec(text, consumedUntil);
        if found.None? {
          break;
        }
        consumedUntil := found.value.end;
        ghost var q := found.value.sequence;
        assert (seen + [q])[..|seen|] == seen;
        seen := seen + [q];
        match found.value.sequence
        case PrivateMode(params, final) =>
          var flipped := ApplyPrivateModeSequence(params, final);
          changed := flipped || changed;
        case Kitty(prefix, params) =>
          var flagsChanged, reply := ApplyKittyKeyboardSequence(prefix, params);
          changed := changed || flagsChanged;
          responses := responses + reply;
      }
      assert seen == Scan(text, 0);
      var tail := text[consumedUntil..];
      var pendingStart := LastIntroducer(tail, |tail|);
      if pendingStart >= 0 {
        var candidate := tail[pendingStart..];
        if IsIncomplete(candidate) {
          pending := candidate;
        }
      }
    }

    method Reset()
      modifies this
      ensures Value() == FRESH
    {
      kittyKeyboardFlags := 0;
      win32InputMode := false;
      kittyKeyboardStack := [];
      pending := "";
    }

    method GetPreamble() returns (text: string)
      ensures text == Preamble(CurrentModes())
    {
      text := "";
      if kittyKeyboardFlags > 0 {
        text := text + [ESC] + "[=" + Decimal.Print(kittyKeyboardFlags) + ";1u";
      }
      if win32InputMode {
        text := text + [ESC] + "[?9001h";
      }
    }

    method ApplyKittyKeyboardSequence(prefix: string, params: string)
      returns (changed: bool, responses: seq<string>)
      modifies this`kittyKeyboardFlags, this`kittyKeyboardStack
      ensures Effect(CurrentModes(), changed, responses) == Apply(old(CurrentModes()), Kitty(prefix, params))
    {
      var previousFlags := kittyKeyboardFlags;
      if prefix == ">" {
        kittyKeyboardStack := kittyKeyboardStack + [kittyKeyboardFlags];
        kittyKeyboardFlags := FirstParam(params).GetOr(1);
      } else if prefix == "=" {
        var mode := SecondParam(params).GetOr(1);
        kittyKeyboardFlags := if mode == 0 then 0 else FirstParam(params).GetOr(0);
      } else if prefix == "<" {
        var count := PopCount(params);
        for index := 0 to count
          invariant CurrentModes() == PopMany(old(CurrentModes()), index)
        {
          PopManyLast(old(CurrentModes()), index);
          if kittyKeyboardStack == [] {
            kittyKeyboardFlags := 0;
          } else {
            var top := |kittyKeyboardStack| - 1;
            kittyKeyboardFlags, kittyKeyboardStack := kittyKeyboardStack[top], kittyKeyboardStack[..top];
          }
        }
      } else if prefix == "?" {
        return false, [QueryResponse(Modes(kittyKeyboardFlags, kittyKeyboardStack, win32InputMode))];
      } else {
        return false, [];
      }
      return kittyKeyboardFlags != previousFlags, [];
    }

    method ApplyPrivateModeSequence(params: string, final: char) returns (changed: bool)
      modifies this`win32InputMode
      ensures Effect(CurrentModes(), changed, []) == Apply(old(CurrentModes()), PrivateMode(params, final))
    {
      var modes := ParsePrivateModeParams(params);
      if WIN32_INPUT_MODE !in modes {
        return false;
      }
      var previous := win32InputMode;
      win32InputMode := final == 'h';
      changed := win32InputMode != previous;
    }
  }
}
