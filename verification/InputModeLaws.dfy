/** What the tracker promises: replaying its preamble, and properly nested keyboard modes. */
module InputModeLaws {
  import opened Wrappers
  import opened CsiText
  import opened InputMode
  import opened InputModeAutomaton
  import Decimal

  // ---------------------------------------------------------------- spelled runs

  function SpellAll(qs: seq<ModeSequence>): string {
    if qs == [] then "" else Spell(qs[0]) + SpellAll(qs[1..])
  }

  predicate AllWellFormed(qs: seq<ModeSequence>) {
    forall i | 0 <= i < |qs| :: WellFormed(qs[i])
  }

  /** A spelled run is read back as itself, whatever unfinished text precedes it. */
  lemma {:induction false} ReadAll(st: State, qs: seq<ModeSequence>)
    requires AllWellFormed(qs)
    ensures Emissions(st, SpellAll(qs)) == qs
    ensures EndState(st, SpellAll(qs)) == if qs == [] then st else Ground
    decreases |qs|
  {
    if qs != [] {
      ReadSequence(st, qs[0]);
      Append(st, Spell(qs[0]), SpellAll(qs[1..]));
      ReadAll(Ground, qs[1..]);
    }
  }

  lemma PendingEmitsNothing(t: Tracker)
    requires t.Valid()
    ensures Emissions(Ground, t.pending) == []
  {
    if t.pending != "" {
      IncompleteIsHeld(Ground, t.pending);
    }
  }

  lemma FeedSpelled(t: Tracker, qs: seq<ModeSequence>)
    requires t.Valid() && AllWellFormed(qs) && qs != []
    ensures var effect := ApplyAll(t.modes, qs);
            Feed(t, SpellAll(qs)) == FeedResult(Tracker(effect.modes, ""), effect.changed, effect.responses)
  {
    hide Feed, Emissions, EndState, ApplyAll, SpellAll;
    var text := SpellAll(qs);
    PendingEmitsNothing(t);
    ReadAll(EndState(Ground, t.pending), qs);
    Append(Ground, t.pending, text);
    assert Emissions(Ground, t.pending + text) == qs;
    assert EndState(Ground, t.pending + text) == Ground;
    FeedRunsAutomaton(t, text);
  }

  // ---------------------------------------------------------------- the preamble

  function SetFlags(n: nat): ModeSequence {
    Kitty("=", Decimal.Print(n) + ";1")
  }

  function Win32On(): ModeSequence {
    PrivateMode("9001", 'h')
  }

  lemma OneParses()
    ensures NumeralValue("1") == Some(1)
  {
    assert "1"[..0] == "" && "1"[0] == '1';
  }

  lemma Win32Parses()
    ensures NumeralValue("9001") == Some(WIN32_INPUT_MODE)
  {
    assert "9001"[..3] == "900" && "900"[..2] == "90" && "90"[..1] == "9" && "9"[..0] == "";
    assert Decimal.Parse("9") == 9;
    assert Decimal.Parse("90") == 90;
    assert Decimal.Parse("900") == 900;
  }

  lemma SetFlagsSets(m: Modes, n: nat)
    ensures WellFormed(SetFlags(n))
    ensures Apply(m, SetFlags(n)) == Effect(m.(flags := n), n != m.flags, [])
  {
    Decimal.ParsePrint(n);
    OneParses();
    var params := Decimal.Print(n) + ";1";
    assert params == Decimal.Print(n) + ";" + "1";
    SplitHead(Decimal.Print(n), "1");
    SplitPlain("1");
  }

  lemma Win32OnSets(m: Modes)
    ensures WellFormed(Win32On())
    ensures Apply(m, Win32On()) == Effect(m.(win32 := true), !m.win32, [])
  {
    Win32Parses();
    SplitPlain("9001");
    var parts := Split("9001", ';');
    assert NumeralValue(parts[0]).Some?;
    assert WIN32_INPUT_MODE in PrivateModes(parts);
  }

  function PreambleSequences(m: Modes): seq<ModeSequence> {
    (if m.flags > 0 then [SetFlags(m.flags)] else []) + (if m.win32 then [Win32On()] else [])
  }

  lemma PreambleIsSpelled(m: Modes)
    ensures Preamble(m) == SpellAll(PreambleSequences(m))
  {
    var qs := PreambleSequences(m);
    assert Spell(SetFlags(m.flags)) == [ESC] + "[=" + Decimal.Print(m.flags) + ";1u";
    assert Spell(Win32On()) == [ESC] + "[?9001h";
    if qs != [] {
      assert SpellAll(qs[1..]) == if |qs| == 2 then Spell(qs[1]) + SpellAll(qs[1..][1..]) else "";
    }
  }

  lemma ApplyOne(m: Modes, q: ModeSequence)
    ensures ApplyAll(m, [q]) == Apply(m, q)
  {
    assert [q][..0] == [];
    assert [] + Apply(m, q).responses == Apply(m, q).responses;
  }

  /**
   Replaying the preamble of any tracker into a fresh one rebuilds the visible state: the
   flags and the win32 mode, with no answer sent, nothing pending and an empty stack.
   */
  lemma PreambleRoundTrip(m: Modes)
    ensures Feed(FRESH, Preamble(m)) ==
            FeedResult(Tracker(Modes(m.flags, [], m.win32), ""), m.flags > 0 || m.win32, [])
  {
    var qs := PreambleSequences(m);
    PreambleIsSpelled(m);
    SetFlagsSets(DEFAULT_MODES, m.flags);
    var flagged := DEFAULT_MODES.(flags := m.flags);
    Win32OnSets(flagged);
    ApplyOne(DEFAULT_MODES, SetFlags(m.flags));
    ApplyOne(flagged, Win32On());
    if qs != [] {
      FeedSpelled(FRESH, qs);
      if |qs| == 2 {
        assert qs == [SetFlags(m.flags)] + [Win32On()];
        ApplyAllAppend(DEFAULT_MODES, [SetFlags(m.flags)], [Win32On()]);
      }
    }
  }

  // ---------------------------------------------------------------- popping

  /** Popping `n` entries, past the bottom or not. */
  lemma {:induction false} PopManyExact(m: Modes, n: nat)
    ensures PopMany(m, n) ==
            if n == 0 then m
            else if n > |m.stack| then Modes(0, [], m.win32)
            else Modes(m.stack[|m.stack| - n], m.stack[..|m.stack| - n], m.win32)
    decreases n
  {
    if n > 0 {
      PopManyExact(PopOne(m), n - 1);
    }
  }

  function Pop(n: nat): ModeSequence {
    Kitty("<", Decimal.Print(n))
  }

  function Repeat(q: ModeSequence, n: nat): seq<ModeSequence> {
    if n == 0 then [] else Repeat(q, n - 1) + [q]
  }

  lemma PopPops(m: Modes, n: nat)
    requires n >= 1
    ensures Apply(m, Pop(n)).modes == PopMany(m, n)
    ensures Apply(m, Kitty("<", "")).modes == PopOne(m)
  {
    Decimal.ParsePrint(n);
    SplitPlain(Decimal.Print(n));
    SplitPlain("");
    assert PopMany(m, 1) == PopMany(PopOne(m), 0);
  }

  /** One pop of `n` is `n` pops with the default count, also past the bottom of the stack. */
  lemma {:induction false} PopIsSinglePops(m: Modes, n: nat)
    requires n >= 1
    ensures Apply(m, Pop(n)).modes == ApplyAll(m, Repeat(Kitty("<", ""), n)).modes
  {
    var single := Kitty("<", "");
    PopPops(m, n);
    var front := Repeat(single, n - 1);
    assert Repeat(single, n)[..n - 1] == front by { RepeatLength(single, n - 1); }
    RepeatLength(single, n);
    assert Repeat(single, n)[n - 1] == single;
    if n > 1 {
      PopIsSinglePops(m, n - 1);
      PopPops(m, n - 1);
      PopPops(PopMany(m, n - 1), 1);
      PopManyLast(m, n - 1);
    } else {
      PopPops(m, 1);
    }
  }

  lemma {:induction false} RepeatLength(q: ModeSequence, n: nat)
    ensures |Repeat(q, n)| == n
  {
    if n > 0 {
      RepeatLength(q, n - 1);
    }
  }

  // ---------------------------------------------------------------- nesting

  /** The nesting depth after one sequence, or nothing when it reaches outside its own pushes. */
  function DepthAfter(q: ModeSequence, depth: nat): Option<nat> {
    match q
    case PrivateMode(_, _) => Some(depth)
    case Kitty(prefix, params) =>
      if prefix == ">" then Some(depth + 1)
      else if prefix == "<" then
        if PopCount(params) <= depth then Some(depth - PopCount(params)) else None
      else if prefix == "=" then
        if depth > 0 then Some(depth) else None
      else Some(depth)
  }

  function DepthAfterAll(qs: seq<ModeSequence>, depth: nat): Option<nat> {
    if qs == [] then Some(depth)
    else
      match DepthAfterAll(qs[..|qs| - 1], depth)
      case None => None
      case Some(d) => DepthAfter(qs[|qs| - 1], d)
  }

  predicate WellNested(qs: seq<ModeSequence>) {
    DepthAfterAll(qs, 0) == Some(0)
  }

  /** The saved flags from bottom to top, ending with the current ones. */
  function Levels(m: Modes): seq<nat> {
    m.stack + [m.flags]
  }

  /** `m` is `base` with `depth` more levels on top; the current flags are base's own at depth 0. */
  predicate Above(base: Modes, m: Modes, depth: nat) {
    |m.stack| == |base.stack| + depth && Levels(m)[..|Levels(base)|] == Levels(base)
  }

  lemma StepKeepsBase(base: Modes, m: Modes, depth: nat, q: ModeSequence)
    requires Above(base, m, depth) && DepthAfter(q, depth).Some?
    ensures Above(base, Apply(m, q).modes, DepthAfter(q, depth).value)
  {
    var next := Apply(m, q).modes;
    if q.Kitty? && q.prefix == ">" {
      assert Levels(next) == Levels(m) + [next.flags];
    } else if q.Kitty? && q.prefix == "<" {
      var n := PopCount(q.params);
      PopManyExact(m, n);
      assert Levels(next) == Levels(m)[..|Levels(m)| - n];
    } else if q.Kitty? && q.prefix == "=" {
      assert Levels(next) == Levels(m)[|m.stack| := next.flags];
    }
  }

  lemma {:induction false} RunKeepsBase(base: Modes, qs: seq<ModeSequence>)
    requires DepthAfterAll(qs, 0).Some?
    ensures Above(base, ApplyAll(base, qs).modes, DepthAfterAll(qs, 0).value)
    decreases |qs|
  {
    if qs != [] {
      var front := qs[..|qs| - 1];
      RunKeepsBase(base, front);
      StepKeepsBase(base, ApplyAll(base, front).modes, DepthAfterAll(front, 0).value, qs[|qs| - 1]);
    }
  }

  lemma SameLevels(base: Modes, m: Modes)
    requires Above(base, m, 0)
    ensures m.flags == base.flags && m.stack == base.stack
  {
    assert Levels(m)[..|Levels(base)|] == Levels(m);
    assert Levels(m)[..|m.stack|] == m.stack && Levels(base)[..|m.stack|] == base.stack;
    assert Levels(m)[|m.stack|] == m.flags && Levels(base)[|m.stack|] == base.flags;
  }

  /**
   A program whose output, among any other text, pushes and pops in balance and sets flags only
   inside its own pushes leaves the flags and the stack of the tracker as it found them.
   */
  lemma NestedRunRestores(t: Tracker, output: string)
    requires t.Valid() && WellNested(Emissions(Ground, t.pending + output))
    ensures var after := Feed(t, output).tracker;
            && after.modes.flags == t.modes.flags && after.modes.stack == t.modes.stack
            && after.pending == Held(EndState(Ground, t.pending + output))
  {
    hide Feed, Emissions, EndState, ApplyAll, Held, Levels;
    var qs := Emissions(Ground, t.pending + output);
    FeedRunsAutomaton(t, output);
    RunKeepsBase(t.modes, qs);
    SameLevels(t.modes, ApplyAll(t.modes, qs).modes);
  }

  /** In particular for output that consists of such sequences; then nothing is carried over. */
  lemma NestedSequencesRestore(t: Tracker, qs: seq<ModeSequence>)
    requires t.Valid() && AllWellFormed(qs) && qs != [] && WellNested(qs)
    ensures var after := Feed(t, SpellAll(qs)).tracker;
            after.modes.flags == t.modes.flags && after.modes.stack == t.modes.stack && after.pending == ""
  {
    hide Feed, ApplyAll, SpellAll, Levels;
    FeedSpelled(t, qs);
    RunKeepsBase(t.modes, qs);
    SameLevels(t.modes, ApplyAll(t.modes, qs).modes);
  }
}
