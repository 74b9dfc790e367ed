/** Branch slugs in letters, digits and hyphens. */
module SlugText {
  import opened BranchSlug

  /** A lower-case ASCII letter or a digit, by its code. */
  predicate Kept(c: char) {
    97 <= c as int <= 122 || 48 <= c as int <= 57
  }

  lemma KeptIsWordChar(c: char)
    ensures Kept(c) <==> IsWordChar(c)
  {}

  /** The letters and digits of a text, in order. */
  function Letters(s: string): string {
    if s == "" then "" else Letters(s[..|s| - 1]) + if Kept(s[|s| - 1]) then [s[|s| - 1]] else ""
  }

  lemma AsciiLowerFirst(c: char)
    requires c as int < 128
    ensures |LowerChar(c)| == 1
    ensures LowerChar(c)[0] as int == c as int + if 65 <= c as int <= 90 then 32 else 0
  {}

  /** ASCII capitals move up by 32; all other ASCII characters stay. */
  lemma {:induction false} AsciiLowerIs(input: string)
    requires forall i | 0 <= i < |input| :: input[i] as int < 128
    ensures |Lower(input)| == |input|
    ensures forall i | 0 <= i < |input| ::
              Lower(input)[i] as int == input[i] as int + if 65 <= input[i] as int <= 90 then 32 else 0
    decreases |input|
  {
    if input != "" {
      AsciiLowerIs(input[1..]);
      AsciiLowerFirst(input[0]);
      var first, rest := LowerChar(input[0]), Lower(input[1..]);
      assert Lower(input) == first + rest;
      hide Lower, LowerChar;
      assert forall i | 1 <= i < |input| :: (first + rest)[i] == rest[i - 1] && input[i] == input[1..][i - 1];
    }
  }

  /** Of the others, two become ASCII letters: the Kelvin sign `k`, and the dotted capital I `i` with a mark. */
  lemma LowerOne(c: char)
    requires c as int >= 128
    ensures Letters(Lower([c])) == if c as int == 0x212A then "k" else if c as int == 0x130 then "i" else ""
  {
    assert [c][1..] == "";
    assert Lower([c]) == LowerChar(c) + "" == LowerChar(c);
    LettersAppend("i", "\U{307}");
    LettersAppend("", "\U{307}");
    assert "i" + "\U{307}" == "i\U{307}";
    assert "i"[..0] == "k"[..0] == [c][..0] == "\U{307}"[..0] == "";
  }

  // ---------------------------------------------------------------- gaps and words

  predicate IsGap(s: string) {
    forall i | 0 <= i < |s| :: !Kept(s[i])
  }

  /** A text laid out as a gap, and then words with a gap behind each. */
  function Woven(first: string, words: seq<string>, gaps: seq<string>): string
    requires |words| == |gaps|
    decreases |words|
  {
    if words == [] then first else first + words[0] + Woven(gaps[0], words[1..], gaps[1..])
  }

  /** Only the gap behind the last word may be empty. */
  predicate GapsBetween(gaps: seq<string>) {
    && (forall k | 0 <= k < |gaps| :: IsGap(gaps[k]))
    && (forall k | 0 <= k < |gaps| - 1 :: gaps[k] != "")
  }

  /** The words of a text are its runs of letters and digits, each as long as it can be, in order. */
  lemma {:induction false} WordsAreRuns(s: string) returns (first: string, gaps: seq<string>)
    ensures |gaps| == |Words(s)| && s == Woven(first, Words(s), gaps)
    ensures IsGap(first) && GapsBetween(gaps)
    ensures s != "" && IsWordChar(s[0]) ==> first == ""
    decreases |s|
  {
    if s == "" {
      return "", [];
    }
    if IsWordChar(s[0]) {
      var n := WordLength(s);
      var f, g := WordsAreRuns(s[n..]);
      first, gaps := "", [f] + g;
      NextRun(s, n, f, g);
    } else {
      var n := GapLength(s);
      var f, g := WordsAreRuns(s[n..]);
      first, gaps := s[..n] + f, g;
      NextGap(s, n, f, g);
    }
  }

  lemma NextRun(s: string, n: nat, f: string, g: seq<string>)
    requires s != "" && IsWordChar(s[0]) && n == WordLength(s)
    requires |g| == |Words(s[n..])| && s[n..] == Woven(f, Words(s[n..]), g) && IsGap(f) && GapsBetween(g)
    ensures |[f] + g| == |Words(s)| && s == Woven("", Words(s), [f] + g) && GapsBetween([f] + g)
  {
    RunEnds(s, n);
    hide *;
    UnfoldWord(s, n);
    GapBetween(s[n..], f, g);
    WeaveWord(s[..n], Words(s[n..]), f, g);
    Halves(s, n);
    MoreGaps(f, g);
  }

  lemma RunEnds(s: string, n: nat)
    requires s != "" && IsWordChar(s[0]) && n == WordLength(s)
    ensures 0 < n <= |s| && (s[n..] != "" ==> !IsWordChar(s[n..][0]))
  {}

  lemma Halves(s: string, n: nat)
    requires n <= |s|
    ensures s == s[..n] + s[n..]
  {}

  lemma MoreGaps(f: string, g: seq<string>)
    requires IsGap(f) && GapsBetween(g) && (g != [] ==> f != "")
    ensures GapsBetween([f] + g)
  {
    hide IsGap;
  }

  /** The word that follows a word is not next to it. */
  lemma GapBetween(s: string, f: string, g: seq<string>)
    requires |g| == |Words(s)| && s == Woven(f, Words(s), g) && (s != "" ==> !IsWordChar(s[0]))
    ensures Words(s) != [] ==> f != ""
  {
    WordsAreWords(s);
    if Words(s) != [] {
      assert IsWord(Words(s)[0]);
    }
    hide Words;
  }

  lemma WeaveWord(w: string, words: seq<string>, f: string, g: seq<string>)
    requires |words| == |g|
    ensures Woven("", [w] + words, [f] + g) == w + Woven(f, words, g)
  {
    assert ([w] + words)[1..] == words && ([f] + g)[1..] == g;
    assert "" + w == w;
  }

  lemma WeaveGap(front: string, f: string, words: seq<string>, g: seq<string>)
    requires |words| == |g|
    ensures Woven(front + f, words, g) == front + Woven(f, words, g)
  {
    if words != [] {
      var rest := Woven(g[0], words[1..], g[1..]);
      assert front + (f + words[0] + rest) == (front + f) + words[0] + rest;
    }
  }

  lemma NextGap(s: string, n: nat, f: string, g: seq<string>)
    requires s != "" && !IsWordChar(s[0]) && n == GapLength(s)
    requires |g| == |Words(s[n..])| && s[n..] == Woven(f, Words(s[n..]), g) && IsGap(f)
    ensures |g| == |Words(s)| && s == Woven(s[..n] + f, Words(s), g) && IsGap(s[..n] + f)
  {
    GapEnds(s, n);
    hide *;
    UnfoldGap(s, n);
    WeaveGap(s[..n], f, Words(s[n..]), g);
    Halves(s, n);
    WiderGap(s[..n], f);
  }

  lemma GapEnds(s: string, n: nat)
    requires s != "" && !IsWordChar(s[0]) && n == GapLength(s)
    ensures 0 < n <= |s| && IsGap(s[..n])
  {}

  lemma WiderGap(a: string, b: string)
    requires IsGap(a) && IsGap(b)
    ensures IsGap(a + b)
  {}

  // ---------------------------------------------------------------- nothing is lost

  lemma {:induction false} LettersAppend(a: string, b: string)
    ensures Letters(a + b) == Letters(a) + Letters(b)
    decreases |b|
  {
    if b == "" {
      assert a + b == a;
    } else {
      assert (a + b)[..|a + b| - 1] == a + b[..|b| - 1];
      LettersAppend(a, b[..|b| - 1]);
    }
  }

  lemma {:induction false} LettersOfWord(w: string)
    requires forall i | 0 <= i < |w| :: IsWordChar(w[i])
    ensures Letters(w) == w
    decreases |w|
  {
    if w != "" {
      LettersOfWord(w[..|w| - 1]);
    }
  }

  lemma {:induction false} LettersOfGap(s: string)
    requires forall i | 0 <= i < |s| :: !IsWordChar(s[i])
    ensures Letters(s) == ""
    decreases |s|
  {
    if s != "" {
      LettersOfGap(s[..|s| - 1]);
    }
  }

  lemma {:induction false} LettersOfWords(s: string)
    ensures Letters(Join(Words(s))) == Letters(s)
    decreases |s|
  {
    if s != "" {
      var n := if IsWordChar(s[0]) then WordLength(s) else GapLength(s);
      assert s == s[..n] + s[n..];
      LettersAppend(s[..n], s[n..]);
      LettersOfWords(s[n..]);
      if IsWordChar(s[0]) {
        LettersOfWord(s[..n]);
        UnfoldWord(s, n);
        LettersOfFirst(s[..n], Words(s[n..]));
      } else {
        LettersOfGap(s[..n]);
        UnfoldGap(s, n);
      }
      hide Letters, Words, Join;
    }
  }

  lemma LettersOfFirst(w: string, words: seq<string>)
    ensures Letters(Join([w] + words)) == Letters(w) + Letters(Join(words))
  {
    JoinFirst(w, words);
    if words != [] {
      LettersAppend(w + "-", Join(words));
      LettersAppend(w, "-");
      LettersOfGap("-");
    }
    hide Join, Letters;
    assert words == [] ==> Letters(Join(words)) == "" by { NoLetters(words); }
  }

  lemma NoLetters(words: seq<string>)
    ensures words == [] ==> Letters(Join(words)) == ""
  {}

  /** A slug that is not cut keeps exactly the letters and digits of the lower-cased text, in order. */
  lemma KebabKeepsLetters(input: string)
    ensures Letters(Kebab(input)) == Letters(Lower(input))
  {
    KebabIsWordsJoined(input);
    LettersOfWords(Lower(input));
  }

  /** What every slug looks like. */
  lemma SlugLooks(input: string)
    ensures var r := Slugify(input);
      && |r| <= 50 && (forall i | 0 <= i < |r| :: Kept(r[i]) || r[i] == '-')
      && (r != "" ==> r[0] != '-' && r[|r| - 1] != '-')
      && (forall i | 0 <= i < |r| - 1 :: r[i] != '-' || r[i + 1] != '-')
  {
    SlugIsNormal(input);
    hide Slugify;
  }

  // ---------------------------------------------------------------- verdicts

  predicate Allowed(c: char) {
    97 <= c as int <= 122 || 48 <= c as int <= 57 || c == '-' || c == '/'
  }

  predicate AllAllowed(s: string) {
    forall i | 0 <= i < |s| :: Allowed(s[i])
  }

  predicate NoDoubleHyphen(s: string) {
    forall i | 0 <= i < |s| - 1 :: s[i] != '-' || s[i + 1] != '-'
  }

  /** Each verdict, and when it is given. */
  lemma Verdicts(s: string)
    ensures var v := ValidateBranchSlug(s);
      && (v == Empty <==> s == "")
      && (v == TooLong <==> |s| > 100)
      && (v == BadCharacter <==> |s| <= 100 && !AllAllowed(s))
      && (v == EdgeHyphen <==> 0 < |s| <= 100 && AllAllowed(s) && (s[0] == '-' || s[|s| - 1] == '-'))
      && (v == DoubleHyphen <==>
            0 < |s| <= 100 && AllAllowed(s) && s[0] != '-' && s[|s| - 1] != '-' && !NoDoubleHyphen(s))
      && (v == Valid <==>
            0 < |s| <= 100 && AllAllowed(s) && s[0] != '-' && s[|s| - 1] != '-' && NoDoubleHyphen(s))
  {
    assert AllAllowed(s) <==> forall i | 0 <= i < |s| :: IsSlugChar(s[i]);
    assert NoDoubleHyphen(s) <==> !HasDoubleHyphen(s);
  }
}
