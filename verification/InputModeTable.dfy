/** What each mode sequence does, written out, for every list of parameters it can carry. */
module InputModeTable {
  import opened Wrappers
  import opened CsiText
  import opened InputMode
  import opened InputModeAutomaton
  import opened InputModeLaws
  import Decimal

  // ---------------------------------------------------------------- parameters

  /** One parameter: left out, or a numeral, possibly with leading zeros. */
  datatype Param = Missing | Number(zeros: nat, value: nat)

  function Zeros(n: nat): string {
    seq(n, _ => '0')
  }

  function TextOf(p: Param): string {
    match p
    case Missing => ""
    case Number(zeros, value) => Zeros(zeros) + Decimal.Print(value)
  }

  function Texts(ps: seq<Param>): seq<string> {
    seq(|ps|, i requires 0 <= i < |ps| => TextOf(ps[i]))
  }

  /** The parameters with a semicolon between each two. */
  function Listed(ps: seq<Param>): string
    requires ps != []
  {
    if |ps| == 1 then TextOf(ps[0]) else TextOf(ps[0]) + ";" + Listed(ps[1..])
  }

  /** Digits and semicolons make up parameters; one of four characters may stand before them. */
  lemma CharacterClasses(c: char)
    ensures IsParamChar(c) <==> c == ';' || c in "0123456789"
    ensures IsPrefixChar(c) <==> c in "<=>?"
    ensures ESC == '\U{1b}'
  {}

  lemma {:induction false} ZerosParse(n: nat, s: string)
    requires Decimal.AllDigits(s)
    ensures Decimal.AllDigits(Zeros(n) + s) && Decimal.Parse(Zeros(n) + s) == Decimal.Parse(s)
    decreases |s|, n
  {
    var all := Zeros(n) + s;
    if s == "" {
      assert all == Zeros(n);
      if n > 0 {
        assert all[..n - 1] == Zeros(n - 1) + "" && all[n - 1] == '0';
        ZerosParse(n - 1, "");
      }
    } else {
      assert all[..|all| - 1] == Zeros(n) + s[..|s| - 1];
      ZerosParse(n, s[..|s| - 1]);
    }
  }

  lemma ParamReads(p: Param)
    ensures Plain(TextOf(p)) && IsParams(TextOf(p))
    ensures NumeralValue(TextOf(p)) == if p.Missing? then None else Some(p.value)
  {
    if p.Number? {
      PrintedNumeral(p.value);
      Decimal.ParsePrint(p.value);
      ZerosParse(p.zeros, Decimal.Print(p.value));
      hide Decimal.Print, Decimal.Parse;
    }
  }

  lemma {:induction false} SplitListed(ps: seq<Param>)
    requires ps != []
    ensures Split(Listed(ps), ';') == Texts(ps) && IsParams(Listed(ps))
    decreases |ps|
  {
    hide TextOf;
    ParamReads(ps[0]);
    if |ps| == 1 {
      SplitPlain(TextOf(ps[0]));
      assert Texts(ps) == [TextOf(ps[0])];
    } else {
      SplitListed(ps[1..]);
      SplitHead(TextOf(ps[0]), Listed(ps[1..]));
      assert Texts(ps) == [TextOf(ps[0])] + Texts(ps[1..]);
    }
  }

  /** The value of the parameter at a place, or the default where there is none. */
  function ValueAt(ps: seq<Param>, i: nat, default: nat): nat {
    if i < |ps| && ps[i].Number? then ps[i].value else default
  }

  lemma FirstAndSecond(ps: seq<Param>, default: nat)
    requires ps != []
    ensures FirstParam(Listed(ps)).GetOr(default) == ValueAt(ps, 0, default)
    ensures SecondParam(Listed(ps)).GetOr(default) == ValueAt(ps, 1, default)
  {
    SplitListed(ps);
    ParamReads(ps[0]);
    if |ps| > 1 {
      ParamReads(ps[1]);
    }
    hide Split, TextOf, NumeralValue, Listed;
  }

  // ---------------------------------------------------------------- the keyboard sequences

  /** A new tracker, also after a reset. */
  lemma NewTracker()
    ensures FRESH.modes.flags == 0 && FRESH.modes.stack == [] && !FRESH.modes.win32 && FRESH.pending == ""
  {}

  /** `>` saves the flags and sets those of the first parameter, 1 without one. */
  lemma PushSets(m: Modes, ps: seq<Param>)
    requires ps != []
    ensures var flags := ValueAt(ps, 0, 1);
            Apply(m, Kitty(">", Listed(ps))) == Effect(Modes(flags, m.stack + [m.flags], m.win32), flags != m.flags, [])
  {
    FirstAndSecond(ps, 1);
    hide FirstParam, SecondParam, Listed, ValueAt;
  }

  /** `=` sets the flags of the first parameter, 0 without one; a second parameter of 0 clears them. */
  lemma SetSets(m: Modes, ps: seq<Param>)
    requires ps != []
    ensures var flags := if |ps| > 1 && ps[1].Number? && ps[1].value == 0 then 0 else ValueAt(ps, 0, 0);
            Apply(m, Kitty("=", Listed(ps))) == Effect(Modes(flags, m.stack, m.win32), flags != m.flags, [])
  {
    FirstAndSecond(ps, 0);
    FirstAndSecond(ps, 1);
    hide FirstParam, SecondParam, Listed;
  }

  /** `<` takes back as many saved flags as the first parameter says, one without it; below the bottom they are 0. */
  lemma PopRestores(m: Modes, ps: seq<Param>)
    requires ps != []
    ensures var count := if ValueAt(ps, 0, 1) == 0 then 1 else ValueAt(ps, 0, 1);
            var after := if count > |m.stack| then Modes(0, [], m.win32)
                         else Modes(m.stack[|m.stack| - count], m.stack[..|m.stack| - count], m.win32);
            Apply(m, Kitty("<", Listed(ps))) == Effect(after, after.flags != m.flags, [])
  {
    hide *;
    var params := Listed(ps);
    PopApplied(m, params);
    PopCounts(ps);
    PopManyExact(m, PopCount(params));
  }

  lemma PopApplied(m: Modes, params: string)
    ensures var after := PopMany(m, PopCount(params));
            Apply(m, Kitty("<", params)) == Effect(after, after.flags != m.flags, [])
  {
    hide PopMany, PopCount;
  }

  lemma PopCounts(ps: seq<Param>)
    requires ps != []
    ensures PopCount(Listed(ps)) == if ValueAt(ps, 0, 1) == 0 then 1 else ValueAt(ps, 0, 1)
  {
    FirstAndSecond(ps, 1);
    hide FirstParam, SecondParam, Listed, ValueAt;
  }

  /** `?` is answered with the flags; without any of the four characters nothing happens. */
  lemma QueryAnswered(m: Modes, params: string)
    ensures Apply(m, Kitty("?", params)) == Effect(m, false, [[ESC, '[', '?'] + Decimal.Print(m.flags) + ['u']])
    ensures Apply(m, Kitty("", params)) == Effect(m, false, [])
  {
    hide Decimal.Print;
    assert [ESC] + "[?" == [ESC, '[', '?'];
  }

  /** The mode is among the parameters. */
  predicate Names(ps: seq<Param>, mode: nat) {
    exists i :: 0 <= i < |ps| && ps[i].Number? && ps[i].value == mode
  }

  /** `h` and `l` set and reset the win32 mode exactly when 9001 is among their parameters. */
  lemma Win32Switched(m: Modes, ps: seq<Param>, on: bool)
    requires ps != []
    ensures var after := if Names(ps, 9001) then m.(win32 := on) else m;
            Apply(m, PrivateMode(Listed(ps), if on then 'h' else 'l')) == Effect(after, after.win32 != m.win32, [])
  {
    SplitListed(ps);
    var parts := Texts(ps);
    forall i | 0 <= i < |ps|
      ensures NumeralValue(parts[i]) == if ps[i].Missing? then None else Some(ps[i].value)
    {
      ParamReads(ps[i]);
    }
    hide Split, TextOf, NumeralValue, Listed;
    assert 9001 in PrivateModes(parts) <==> Names(ps, 9001);
  }

  // ---------------------------------------------------------------- as text

  lemma OneFed(t: Tracker, q: ModeSequence)
    requires t.Valid() && WellFormed(q)
    ensures var effect := Apply(t.modes, q);
            Feed(t, Spell(q)) == FeedResult(Tracker(effect.modes, ""), effect.changed, effect.responses)
  {
    FeedSpelled(t, [q]);
    ApplyOne(t.modes, q);
    assert SpellAll([q]) == Spell(q) by {
      assert [q][1..] == [];
    }
    hide Feed, ApplyAll, Apply, Spell;
  }

  /** The same when the sequences arrive as text, after whatever was carried over. */
  lemma KeyboardFed(t: Tracker, ps: seq<Param>)
    requires t.Valid() && ps != []
    ensures var m, flags := t.modes, ValueAt(ps, 0, 1);
            Feed(t, [ESC] + "[>" + Listed(ps) + "u") ==
              FeedResult(Tracker(Modes(flags, m.stack + [m.flags], m.win32), ""), flags != m.flags, [])
    ensures var effect := Apply(t.modes, Kitty("=", Listed(ps)));
            Feed(t, [ESC] + "[=" + Listed(ps) + "u") ==
              FeedResult(Tracker(effect.modes, ""), effect.changed, effect.responses)
    ensures var effect := Apply(t.modes, Kitty("<", Listed(ps)));
            Feed(t, [ESC] + "[<" + Listed(ps) + "u") ==
              FeedResult(Tracker(effect.modes, ""), effect.changed, effect.responses)
    ensures Feed(t, [ESC] + "[?" + Listed(ps) + "u") ==
              FeedResult(Tracker(t.modes, ""), false, [[ESC, '[', '?'] + Decimal.Print(t.modes.flags) + ['u']])
  {
    SplitListed(ps);
    PushSets(t.modes, ps);
    QueryAnswered(t.modes, Listed(ps));
    OneFed(t, Kitty(">", Listed(ps)));
    OneFed(t, Kitty("=", Listed(ps)));
    OneFed(t, Kitty("<", Listed(ps)));
    OneFed(t, Kitty("?", Listed(ps)));
    SpelledKitty('>', Listed(ps));
    SpelledKitty('=', Listed(ps));
    SpelledKitty('<', Listed(ps));
    SpelledKitty('?', Listed(ps));
    hide Feed, Apply, Listed, Spell, Decimal.Print, ValueAt;
  }

  lemma SpelledKitty(prefix: char, params: string)
    ensures Spell(Kitty([prefix], params)) == [ESC] + ['[', prefix] + params + "u"
  {}

  lemma Win32Fed(t: Tracker, ps: seq<Param>, on: bool)
    requires t.Valid() && ps != []
    ensures var m := t.modes;
            var after := if Names(ps, 9001) then m.(win32 := on) else m;
            Feed(t, [ESC] + "[?" + Listed(ps) + (if on then "h" else "l")) ==
              FeedResult(Tracker(after, ""), after.win32 != m.win32, [])
  {
    SplitListed(ps);
    Win32Switched(t.modes, ps, on);
    OneFed(t, PrivateMode(Listed(ps), if on then 'h' else 'l'));
    SpelledMode(Listed(ps), on);
    hide Feed, Apply, Listed, Spell, Names;
  }

  lemma SpelledMode(params: string, on: bool)
    ensures Spell(PrivateMode(params, if on then 'h' else 'l')) == [ESC] + "[?" + params + (if on then "h" else "l")
  {
    assert [ESC] + "[?" == [ESC, '['] + "?";
  }
}
