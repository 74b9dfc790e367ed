/** The text of control-sequence parameters: section 5.4 of ECMA-48. */
module CsiText {
  import opened Wrappers
  import Decimal

  const ESC: char := '\U{1b}'

  predicate IsParamChar(c: char) {
    Decimal.IsDigit(c) || c == ';'
  }

  predicate IsParams(s: string) {
    forall i | 0 <= i < |s| :: IsParamChar(s[i])
  }

  /** The end of the greedy run of parameter characters that starts at `i`. */
  function SkipParams(text: string, i: nat): (e: nat)
    requires i <= |text|
    ensures i <= e <= |text|
    ensures IsParams(text[i..e])
    ensures e < |text| ==> !IsParamChar(text[e])
    decreases |text| - i
  {
    if i == |text| || !IsParamChar(text[i]) then i else SkipParams(text, i + 1)
  }

  lemma {:induction false} SkipParamsTo(text: string, i: nat, e: nat)
    requires i <= e <= |text| && IsParams(text[i..e])
    requires e < |text| ==> !IsParamChar(text[e])
    ensures SkipParams(text, i) == e
    decreases e - i
  {
    if i < e {
      assert IsParamChar(text[i..e][0]);
      assert text[i + 1..e] == text[i..e][1..];
      SkipParamsTo(text, i + 1, e);
    }
  }

  /** `s.split(sep)`: never empty. */
  function Split(s: string, sep: char): (parts: seq<string>)
    ensures |parts| >= 1
  {
    if s == "" then [""]
    else
      var rest := Split(s[1..], sep);
      if s[0] == sep then [""] + rest else [[s[0]] + rest[0]] + rest[1..]
  }

  function NumeralValue(s: string): Option<nat> {
    if s == "" || !Decimal.AllDigits(s) then None else Some(Decimal.Parse(s))
  }

  predicate Plain(s: string) {
    forall i | 0 <= i < |s| :: s[i] != ';'
  }

  lemma {:induction false} SplitPlain(s: string)
    requires Plain(s)
    ensures Split(s, ';') == [s]
    decreases |s|
  {
    if s != "" {
      SplitPlain(s[1..]);
      assert [s[0]] + s[1..] == s;
    }
  }

  lemma {:induction false} SplitHead(a: string, b: string)
    requires Plain(a)
    ensures Split(a + ";" + b, ';') == [a] + Split(b, ';')
    decreases |a|
  {
    if a == "" {
      assert ("" + ";" + b)[1..] == b;
    } else {
      assert (a + ";" + b)[1..] == a[1..] + ";" + b;
      SplitHead(a[1..], b);
      assert [a[0]] + a[1..] == a;
    }
  }

  // ---------------------------------------------------------------- parameter lists

  /** `parts.join(";")`. */
  function Join(parts: seq<string>): string {
    if parts == [] then ""
    else if |parts| == 1 then parts[0]
    else parts[0] + ";" + Join(parts[1..])
  }

  function PrintAll(ps: seq<nat>): (parts: seq<string>)
    ensures |parts| == |ps|
    ensures forall i | 0 <= i < |ps| :: parts[i] == Decimal.Print(ps[i])
  {
    if ps == [] then [] else [Decimal.Print(ps[0])] + PrintAll(ps[1..])
  }

  /** The values of a parameter string; an empty parameter stands for 0. */
  function ParamValues(params: string): (ps: seq<nat>)
    ensures |ps| >= 1
  {
    PartValues(Split(params, ';'))
  }

  function PartValues(parts: seq<string>): (ps: seq<nat>)
    ensures |ps| == |parts|
  {
    if parts == [] then [] else [NumeralValue(parts[0]).GetOr(0)] + PartValues(parts[1..])
  }

  lemma PrintedNumeral(n: nat)
    ensures Plain(Decimal.Print(n)) && IsParams(Decimal.Print(n))
    ensures NumeralValue(Decimal.Print(n)) == Some(n)
  {
    Decimal.ParsePrint(n);
  }

  /** Printing a parameter list and reading it back is the identity. */
  lemma {:induction false} ParamsRoundTrip(ps: seq<nat>)
    requires ps != []
    ensures IsParams(Join(PrintAll(ps)))
    ensures ParamValues(Join(PrintAll(ps))) == ps
    decreases |ps|
  {
    hide NumeralValue;
    var head := Decimal.Print(ps[0]);
    PrintedNumeral(ps[0]);
    if |ps| == 1 {
      assert PrintAll(ps) == [head];
      SplitPlain(head);
      assert PartValues([head]) == [ps[0]] + PartValues([]) by { assert [head][1..] == []; }
    } else {
      ParamsRoundTrip(ps[1..]);
      var tail := Join(PrintAll(ps[1..]));
      assert PrintAll(ps)[1..] == PrintAll(ps[1..]);
      assert Join(PrintAll(ps)) == head + ";" + tail;
      SplitHead(head, tail);
      assert ([head] + Split(tail, ';'))[1..] == Split(tail, ';');
    }
  }
}
