/** Branch slugs: turning any text into one, and checking one. */
module BranchSlug {

  datatype Verdict = Valid | Empty | TooLong | BadCharacter | EdgeHyphen | DoubleHyphen

  const MAX_SLUG_LENGTH := 50

  predicate IsWordChar(c: char) {
    'a' <= c <= 'z' || '0' <= c <= '9'
  }

  /**
   `toLowerCase`, as far as it matters here: outside ASCII only the Kelvin sign and the dotted
   capital I turn into ASCII letters; the others are separators before and after.
   */
  function LowerChar(c: char): string {
    if 'A' <= c <= 'Z' then [c - 'A' + 'a']
    else if c == '\U{212A}' then "k"
    else if c == '\U{130}' then "i\U{307}"
    else [c]
  }

  function Lower(s: string): string {
    if s == "" then "" else LowerChar(s[0]) + Lower(s[1..])
  }

  /** The length of the longest prefix of word characters. */
  function WordLength(s: string): (n: nat)
    ensures n <= |s| && forall i | 0 <= i < n :: IsWordChar(s[i])
    ensures n < |s| ==> !IsWordChar(s[n])
  {
    if s == "" || !IsWordChar(s[0]) then 0 else 1 + WordLength(s[1..])
  }

  /** The length of the longest prefix without word characters. */
  function GapLength(s: string): (n: nat)
    ensures n <= |s| && forall i | 0 <= i < n :: !IsWordChar(s[i])
    ensures n < |s| ==> IsWordChar(s[n])
  {
    if s == "" || IsWordChar(s[0]) then 0 else 1 + GapLength(s[1..])
  }

  /** `replace(/[^a-z0-9]+/g, "-")`: text between the matches is kept, each match becomes one hyphen. */
  function HyphenateGaps(s: string): string
    decreases |s|
  {
    if s == "" then ""
    else if IsWordChar(s[0]) then s[..WordLength(s)] + HyphenateGaps(s[WordLength(s)..])
    else "-" + HyphenateGaps(s[GapLength(s)..])
  }

  function TrimStart(s: string): string {
    if s != "" && s[0] == '-' then TrimStart(s[1..]) else s
  }

  function TrimEnd(s: string): string {
    if s != "" && s[|s| - 1] == '-' then TrimEnd(s[..|s| - 1]) else s
  }

  /** `lastIndexOf("-")`. */
  function LastHyphen(s: string): (k: int)
    ensures -1 <= k < |s| && (k >= 0 ==> s[k] == '-')
    ensures forall i | k < i < |s| :: s[i] != '-'
  {
    if s == "" then -1 else if s[|s| - 1] == '-' then |s| - 1 else LastHyphen(s[..|s| - 1])
  }

  function Kebab(input: string): string {
    TrimEnd(TrimStart(HyphenateGaps(Lower(input))))
  }

  function Slugify(input: string): string {
    var slug := Kebab(input);
    if |slug| <= MAX_SLUG_LENGTH then slug
    else
      var truncated := slug[..MAX_SLUG_LENGTH];
      var lastHyphen := LastHyphen(truncated);
      if lastHyphen > MAX_SLUG_LENGTH / 2 then truncated[..lastHyphen] else TrimEnd(truncated)
  }

  predicate IsSlugChar(c: char) {
    IsWordChar(c) || c == '-' || c == '/'
  }

  predicate HasDoubleHyphen(s: string) {
    exists i | 0 <= i < |s| - 1 :: s[i] == '-' && s[i + 1] == '-'
  }

  function ValidateBranchSlug(slug: string): Verdict {
    if slug == "" then Empty
    else if |slug| > 100 then TooLong
    else if exists i | 0 <= i < |slug| :: !IsSlugChar(slug[i]) then BadCharacter
    else if slug[0] == '-' || slug[|slug| - 1] == '-' then EdgeHyphen
    else if HasDoubleHyphen(slug) then DoubleHyphen
    else Valid
  }

  // ---------------------------------------------------------------- kebab case is words joined by hyphens

  /** The reference: the maximal runs of word characters. */
  function Words(s: string): seq<string>
    decreases |s|
  {
    if s == "" then []
    else if IsWordChar(s[0]) then [s[..WordLength(s)]] + Words(s[WordLength(s)..])
    else Words(s[GapLength(s)..])
  }

  function Join(words: seq<string>): string {
    if words == [] then ""
    else if |words| == 1 then words[0]
    else words[0] + "-" + Join(words[1..])
  }

  function Hyphen(b: bool): string {
    if b then "-" else ""
  }

  predicate StartsInGap(s: string) {
    s != "" && !IsWordChar(s[0])
  }

  predicate EndsInGap(s: string) {
    s != "" && !IsWordChar(s[|s| - 1])
  }

  lemma {:induction false} GapsBetweenWords(s: string)
    ensures HyphenateGaps(s) == Spelled(s)
    ensures s != "" && IsWordChar(s[0]) ==> Words(s) != []
    decreases |s|
  {
    if s != "" {
      var n := if IsWordChar(s[0]) then WordLength(s) else GapLength(s);
      assert n > 0 && (s[n..] != "" ==> s[n..][|s| - n - 1] == s[|s| - 1] && s[n..][0] == s[n]);
      GapsBetweenWords(s[n..]);
      if IsWordChar(s[0]) {
        WordFirst(s, n);
      } else {
        GapFirst(s, n);
      }
    }
  }

  /** What hyphenating should give: the words joined, with a hyphen for a gap at either end. */
  function Spelled(s: string): string {
    if Words(s) == [] then Hyphen(s != "")
    else Hyphen(StartsInGap(s)) + Join(Words(s)) + Hyphen(EndsInGap(s))
  }

  lemma WordFirst(s: string, n: nat)
    requires s != "" && IsWordChar(s[0]) && 0 < n == WordLength(s)
    requires HyphenateGaps(s[n..]) == Spelled(s[n..])
    requires s[n..] != "" ==> EndsInGap(s[n..]) == EndsInGap(s)
    ensures HyphenateGaps(s) == Spelled(s) && Words(s) != []
  {
    var w, rest := s[..n], s[n..];
    UnfoldWord(s, n);
    WordEnds(s, n);
    NoWordsEndInGap(rest);
    NoTextNoWords(rest);
    AssembleWord(w, Words(rest), rest != "", EndsInGap(s));
    hide Words, HyphenateGaps, WordLength, IsWordChar, StartsInGap, EndsInGap, Join, Hyphen;
  }

  lemma AssembleWord(w: string, words: seq<string>, more: bool, ends: bool)
    requires if words == [] then more == ends else more
    ensures w + (if words == [] then Hyphen(more) else Hyphen(more) + Join(words) + Hyphen(ends)) ==
              Hyphen(false) + Join([w] + words) + Hyphen(ends)
  {
    JoinFirst(w, words);
    if words != [] {
      Assemble(w, Join(words), Hyphen(ends));
    }
    hide Join;
  }

  lemma UnfoldWord(s: string, n: nat)
    requires s != "" && IsWordChar(s[0]) && 0 < n == WordLength(s)
    ensures Words(s) == [s[..n]] + Words(s[n..])
    ensures HyphenateGaps(s) == s[..n] + HyphenateGaps(s[n..])
  {}

  lemma WordEnds(s: string, n: nat)
    requires s != "" && IsWordChar(s[0]) && 0 < n == WordLength(s)
    ensures StartsInGap(s[n..]) == (s[n..] != "") && !StartsInGap(s)
    ensures s[n..] == "" ==> !EndsInGap(s)
  {}

  lemma JoinFirst(w: string, words: seq<string>)
    ensures Join([w] + words) == if words == [] then w else w + "-" + Join(words)
  {
    assert ([w] + words)[1..] == words;
  }

  lemma Assemble(w: string, joined: string, end: string)
    ensures w + ("-" + joined + end) == "" + (w + "-" + joined) + end
    ensures w + end == "" + w + end
  {}

  lemma NoTextNoWords(s: string)
    ensures s == "" ==> Words(s) == []
  {}

  lemma NoWordsEndInGap(s: string)
    ensures Words(s) == [] && s != "" ==> EndsInGap(s)
  {
    NoWords(s);
  }

  lemma GapFirst(s: string, n: nat)
    requires s != "" && !IsWordChar(s[0]) && 0 < n == GapLength(s)
    requires HyphenateGaps(s[n..]) == Spelled(s[n..])
    requires s[n..] != "" ==> IsWordChar(s[n..][0]) && Words(s[n..]) != [] && EndsInGap(s[n..]) == EndsInGap(s)
    ensures HyphenateGaps(s) == Spelled(s)
  {
    var rest := s[n..];
    UnfoldGap(s, n);
    NoTextNoWords(rest);
    assert StartsInGap(s) && !StartsInGap(rest);
    hide Words, HyphenateGaps, GapLength, Join, IsWordChar, StartsInGap, EndsInGap;
    if rest != "" {
      AssembleGap(Join(Words(rest)), Hyphen(EndsInGap(s)));
    }
  }

  lemma UnfoldGap(s: string, n: nat)
    requires s != "" && !IsWordChar(s[0]) && 0 < n == GapLength(s)
    ensures Words(s) == Words(s[n..]) && HyphenateGaps(s) == "-" + HyphenateGaps(s[n..])
  {}

  lemma AssembleGap(joined: string, end: string)
    ensures "-" + ("" + joined + end) == "-" + joined + end
  {}

  /** No hyphens at the ends, no two in a row, and nothing but word characters and hyphens. */
  predicate Normal(s: string) {
    && (forall i | 0 <= i < |s| :: IsWordChar(s[i]) || s[i] == '-')
    && (s != "" ==> s[0] != '-' && s[|s| - 1] != '-')
    && !HasDoubleHyphen(s)
  }

  predicate IsWord(w: string) {
    w != "" && forall i | 0 <= i < |w| :: IsWordChar(w[i])
  }

  lemma {:induction false} WordsAreWords(s: string)
    ensures forall w | w in Words(s) :: IsWord(w)
    decreases |s|
  {
    if s != "" {
      WordsAreWords(s[if IsWordChar(s[0]) then WordLength(s) else GapLength(s)..]);
    }
  }

  lemma {:induction false} JoinIsNormal(words: seq<string>)
    requires forall w | w in words :: IsWord(w)
    ensures Normal(Join(words)) && (Join(words) == "" <==> words == [])
    decreases |words|
  {
    if |words| == 1 {
      assert words[0] in words;
    } else if words != [] {
      assert words[0] in words;
      JoinIsNormal(words[1..]);
    }
  }

  lemma TrimBoth(s: string, before: bool, after: bool)
    requires s != "" && s[0] != '-' && s[|s| - 1] != '-'
    ensures TrimEnd(TrimStart(Hyphen(before) + s + Hyphen(after))) == s
  {
    var rest := s + Hyphen(after);
    TrimFront(rest, before);
    TrimBack(s, after);
    assert Hyphen(before) + s + Hyphen(after) == Hyphen(before) + rest;
    hide *;
  }

  lemma TrimFront(s: string, before: bool)
    requires s != "" && s[0] != '-'
    ensures TrimStart(Hyphen(before) + s) == s
  {
    if before {
      assert ("-" + s)[1..] == s;
    } else {
      assert "" + s == s;
    }
  }

  lemma TrimBack(s: string, after: bool)
    requires s != "" && s[|s| - 1] != '-'
    ensures TrimEnd(s + Hyphen(after)) == s
  {
    if after {
      assert (s + "-")[..|s|] == s;
    } else {
      assert s + "" == s;
    }
  }

  /** Kebab case means: the words of the lower-cased text, joined by single hyphens. */
  lemma KebabIsWordsJoined(input: string)
    ensures Kebab(input) == Join(Words(Lower(input)))
    ensures Normal(Kebab(input))
  {
    var s := Lower(input);
    GapsBetweenWords(s);
    WordsAreWords(s);
    JoinIsNormal(Words(s));
    NothingLeft(s != "");
    hide Lower, HyphenateGaps, Words, Join, Normal, TrimStart, TrimEnd, Hyphen, StartsInGap, EndsInGap;
    if Words(s) != [] {
      NormalEdges(Join(Words(s)));
      TrimBoth(Join(Words(s)), StartsInGap(s), EndsInGap(s));
    }
  }

  lemma NothingLeft(gap: bool)
    ensures TrimEnd(TrimStart(Hyphen(gap))) == "" && Join([]) == ""
  {
    assert "-"[1..] == "";
  }

  lemma NormalEdges(s: string)
    requires Normal(s) && s != ""
    ensures s[0] != '-' && s[|s| - 1] != '-'
  {}

  // ---------------------------------------------------------------- truncation

  lemma PrefixIsNormal(s: string, n: nat)
    requires Normal(s) && n <= |s|
    ensures Normal(s[..n]) <==> n == 0 || s[n - 1] != '-'
  {}

  /**
   Truncation: a slug of at most 50 characters is kept; a longer one is cut before the last hyphen
   among its characters 26 to 49, or else after 50 characters. The final trim never removes anything.
   */
  lemma Truncation(input: string)
    ensures var slug, r := Kebab(input), Slugify(input);
            && r == slug[..|r|]
            && (|slug| <= 50 ==> r == slug)
            && (|slug| > 50 ==> 25 < |r| <= 50)
            && (|slug| > 50 && |r| < 50 ==> slug[|r|] == '-')
            && (|slug| > 50 ==> forall i | |r| < i < 50 :: slug[i] != '-')
            && (|slug| > 50 && |r| == 50 ==> forall i | 25 < i < 50 :: slug[i] != '-')
  {
    var slug := Kebab(input);
    hide Kebab;
    if |slug| > 50 {
      var truncated := slug[..50];
      assert LastHyphen(truncated) <= 25 ==> truncated[49] != '-';
    }
  }

  /** The result is a slug of at most 50 characters. */
  lemma SlugIsNormal(input: string)
    ensures Normal(Slugify(input)) && |Slugify(input)| <= MAX_SLUG_LENGTH
  {
    KebabIsWordsJoined(input);
    Truncation(input);
    hide Kebab, Slugify, Normal;
    var slug, r := Kebab(input), Slugify(input);
    PrefixIsNormal(slug, |r|);
    assert slug[..|slug|] == slug;
    if |r| > 0 {
      NormalEnds(slug, |r|);
    }
  }

  lemma NormalEnds(s: string, n: nat)
    requires Normal(s) && 0 < n <= |s| && (n == |s| || s[n] == '-' || s[n - 1] != '-')
    ensures s[n - 1] != '-'
  {}

  // ---------------------------------------------------------------- fixed points

  lemma {:induction false} LowerKeeps(s: string)
    requires forall i | 0 <= i < |s| :: IsWordChar(s[i]) || s[i] == '-'
    ensures Lower(s) == s
    decreases |s|
  {
    if s != "" {
      LowerKeeps(s[1..]);
    }
  }

  lemma {:induction false} HyphenateKeeps(s: string)
    requires forall i | 0 <= i < |s| :: IsWordChar(s[i]) || s[i] == '-'
    requires !HasDoubleHyphen(s)
    ensures HyphenateGaps(s) == s
    decreases |s|
  {
    if s != "" {
      var n := if IsWordChar(s[0]) then WordLength(s) else GapLength(s);
      assert n > 0;
      if !IsWordChar(s[0]) {
        if |s| > 1 {
          assert !(s[0] == '-' && s[0 + 1] == '-');
        }
        assert n == 1;
        assert s[..1] == "-";
      }
      TailHasNone(s, n);
      HyphenateKeeps(s[n..]);
      assert s == s[..n] + s[n..];
      hide HasDoubleHyphen, WordLength, GapLength;
    }
  }

  lemma TailHasNone(s: string, n: nat)
    requires !HasDoubleHyphen(s) && n <= |s|
    ensures !HasDoubleHyphen(s[n..])
  {
    forall i | 0 <= i < |s[n..]| - 1
      ensures !(s[n..][i] == '-' && s[n..][i + 1] == '-')
    {
      assert !(s[n + i] == '-' && s[n + i + 1] == '-');
    }
  }

  /** Exactly the normal texts of at most 50 characters are left as they are. */
  lemma FixedPoints(s: string)
    ensures Slugify(s) == s <==> Normal(s) && |s| <= MAX_SLUG_LENGTH
  {
    if Normal(s) && |s| <= MAX_SLUG_LENGTH {
      LowerKeeps(s);
      HyphenateKeeps(s);
      assert Hyphen(false) + s + Hyphen(false) == s;
      if s != "" {
        TrimBoth(s, false, false);
      }
      hide Lower, HyphenateGaps, Normal;
    } else {
      SlugIsNormal(s);
      hide Slugify, Normal;
    }
  }

  lemma Idempotent(input: string)
    ensures Slugify(Slugify(input)) == Slugify(input)
  {
    SlugIsNormal(input);
    FixedPoints(Slugify(input));
    hide Slugify, Normal;
  }

  // ---------------------------------------------------------------- accepted slugs

  lemma {:induction false} NoWords(s: string)
    ensures Words(s) == [] <==> forall i | 0 <= i < |s| :: !IsWordChar(s[i])
    decreases |s|
  {
    if s != "" {
      var n := if IsWordChar(s[0]) then WordLength(s) else GapLength(s);
      NoWords(s[n..]);
      if IsWordChar(s[0]) {
        assert Words(s)[0] == s[..n];
      } else {
        assert s == s[..n] + s[n..];
      }
    }
  }

  lemma NormalIsValid(s: string)
    requires Normal(s) && |s| <= MAX_SLUG_LENGTH
    ensures ValidateBranchSlug(s) == if s == "" then Empty else Valid
  {}

  /** A text gives an accepted branch name exactly when, lower-cased, it has a letter or digit. */
  lemma AcceptedIffSomeWord(input: string)
    ensures ValidateBranchSlug(Slugify(input)) == Valid <==>
              exists i | 0 <= i < |Lower(input)| :: IsWordChar(Lower(input)[i])
    ensures ValidateBranchSlug(Slugify(input)) in {Valid, Empty}
  {
    SlugIsNormal(input);
    NormalIsValid(Slugify(input));
    Truncation(input);
    KebabIsWordsJoined(input);
    NoWords(Lower(input));
    WordsAreWords(Lower(input));
    JoinIsNormal(Words(Lower(input)));
    hide Slugify, Kebab, Lower, Words, Join, Normal, ValidateBranchSlug;
  }

  /** For ASCII text, lower case letters and digits come from its own letters and digits, one for one. */
  lemma {:induction false} AsciiLower(input: string)
    requires forall i | 0 <= i < |input| :: input[i] < '\U{80}'
    ensures |Lower(input)| == |input|
    ensures forall i | 0 <= i < |input| ::
              IsWordChar(Lower(input)[i]) <==> IsWordChar(input[i]) || 'A' <= input[i] <= 'Z'
    decreases |input|
  {
    if input != "" {
      AsciiLower(input[1..]);
      assert forall i | 1 <= i < |input| :: Lower(input)[i] == Lower(input[1..])[i - 1];
    }
  }

  // ---------------------------------------------------------------- the checker

  predicate Segment(w: string) {
    w != "" && forall i | 0 <= i < |w| :: IsWordChar(w[i]) || w[i] == '/'
  }

  lemma {:induction false} JoinSplits(segments: seq<string>)
    requires segments != [] && forall w | w in segments :: Segment(w)
    ensures var s := Join(segments);
            && s != "" && (forall i | 0 <= i < |s| :: IsSlugChar(s[i]))
            && s[0] != '-' && s[|s| - 1] != '-' && !HasDoubleHyphen(s)
    decreases |segments|
  {
    assert segments[0] in segments;
    if |segments| > 1 {
      JoinSplits(segments[1..]);
    }
  }

  lemma {:induction false} SplitSegments(s: string) returns (segments: seq<string>)
    requires s != "" && (forall i | 0 <= i < |s| :: IsSlugChar(s[i]))
    requires s[0] != '-' && s[|s| - 1] != '-' && !HasDoubleHyphen(s)
    ensures segments != [] && (forall w | w in segments :: Segment(w)) && Join(segments) == s
    decreases |s|
  {
    var k := LastHyphen(s);
    if k < 0 {
      segments := [s];
    } else {
      var front, last := s[..k], s[k + 1..];
      assert forall i | 0 <= i < |last| :: last[i] == s[k + 1 + i];
      var firsts := SplitSegments(front);
      JoinSnoc(firsts, last);
      segments := firsts + [last];
      assert s == front + "-" + last;
    }
  }

  lemma {:induction false} JoinSnoc(words: seq<string>, last: string)
    requires words != []
    ensures Join(words + [last]) == Join(words) + "-" + last
    decreases |words|
  {
    if |words| == 1 {
      assert (words + [last])[1..] == [last];
    } else {
      assert (words + [last])[1..] == words[1..] + [last];
      JoinSnoc(words[1..], last);
    }
  }

  /** A name is accepted exactly when it has 1 to 100 characters and is segments joined by single hyphens. */
  lemma AcceptedNames(s: string)
    ensures ValidateBranchSlug(s) == Valid <==>
              && |s| <= 100
              && exists segments: seq<string> ::
                   segments != [] && (forall w | w in segments :: Segment(w)) && Join(segments) == s
  {
    if ValidateBranchSlug(s) == Valid {
      var segments := SplitSegments(s);
    }
    forall segments: seq<string> | segments != [] && (forall w | w in segments :: Segment(w)) && Join(segments) == s
      ensures |s| <= 100 ==> ValidateBranchSlug(s) == Valid
    {
      JoinSplits(segments);
    }
  }
}
