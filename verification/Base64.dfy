/** The text form of ciphertext: section 4 of RFC 4648, as far as telling it from JSON needs. */
module Base64 {

  type Byte = b: nat | b < 256

  /** Table 1 of RFC 4648. */
  function Symbol(v: nat): char
    requires v < 64
  {
    if v < 26 then 'A' + v as char
    else if v < 52 then 'a' + (v - 26) as char
    else if v < 62 then '0' + (v - 52) as char
    else if v == 62 then '+'
    else '/'
  }

  function Encode(bytes: seq<Byte>): string {
    if |bytes| == 0 then ""
    else if |bytes| == 1 then [Symbol(bytes[0] / 4), Symbol(bytes[0] % 4 * 16), '=', '=']
    else if |bytes| == 2 then
      [Symbol(bytes[0] / 4), Symbol(bytes[0] % 4 * 16 + bytes[1] / 16), Symbol(bytes[1] % 16 * 4), '=']
    else
      [Symbol(bytes[0] / 4), Symbol(bytes[0] % 4 * 16 + bytes[1] / 16),
       Symbol(bytes[1] % 16 * 4 + bytes[2] / 64), Symbol(bytes[2] % 64)] + Encode(bytes[3..])
  }

  predicate IsSpace(c: char) {
    c == ' ' || '\t' <= c <= '\r'
  }

  /** `text.trim().startsWith("{")`: what the channel takes for JSON. */
  predicate LooksLikeJson(text: string) {
    text != "" && (text[0] == '{' || (IsSpace(text[0]) && LooksLikeJson(text[1..])))
  }

  lemma SymbolIsNotJson(v: nat)
    requires v < 64
    ensures Symbol(v) != '{' && !IsSpace(Symbol(v))
  {}

  /** A base64 frame is never taken for JSON handshake text. */
  lemma EncodedIsNotJson(bytes: seq<Byte>)
    ensures !LooksLikeJson(Encode(bytes))
  {
    if bytes != [] {
      SymbolIsNotJson(bytes[0] / 4);
    }
  }

  /** A brace at `i` after white space alone: tab, line feed, vertical tab, form feed, return or space. */
  ghost predicate BraceAt(text: string, i: nat) {
    i < |text| && text[i] == '{' &&
    forall j | 0 <= j < i :: text[j] in [' ', '\t', '\n', '\U{b}', '\U{c}', '\r']
  }

  /** The text is taken for JSON exactly when a brace follows nothing but white space. */
  lemma {:induction false} BraceAfterSpace(text: string)
    ensures LooksLikeJson(text) <==> exists i :: BraceAt(text, i)
    decreases |text|
  {
    if text != "" {
      BraceAfterSpace(text[1..]);
      if text[0] == '{' {
        assert BraceAt(text, 0);
      } else if i: nat :| BraceAt(text[1..], i) && IsSpace(text[0]) {
        forall j | 0 <= j < i + 1
          ensures text[j] in [' ', '\t', '\n', '\U{b}', '\U{c}', '\r']
        {
          assert j > 0 ==> text[j] == text[1..][j - 1];
        }
        assert BraceAt(text, i + 1);
      } else if i: nat :| BraceAt(text, i) {
        assert i > 0;
        forall j | 0 <= j < i - 1
          ensures text[1..][j] in [' ', '\t', '\n', '\U{b}', '\U{c}', '\r']
        {
          assert text[1..][j] == text[j + 1];
        }
        assert BraceAt(text[1..], i - 1);
      }
    }
  }

  // ---------------------------------------------------------------- decoding

  /** Table 1 of RFC 4648, read backwards; 64 for any other character. */
  function ValueOf(c: char): nat {
    if 'A' <= c <= 'Z' then (c - 'A') as nat
    else if 'a' <= c <= 'z' then (c - 'a') as nat + 26
    else if '0' <= c <= '9' then (c - '0') as nat + 52
    else if c == '+' then 62
    else if c == '/' then 63
    else 64
  }

  lemma ValueOfSymbol(v: nat)
    requires v < 64
    ensures ValueOf(Symbol(v)) == v && Symbol(v) != '='
  {}

  /** The bytes of whole groups of four characters, as section 4 of RFC 4648 reads them. */
  function Decode(text: string): seq<nat>
    decreases |text|
  {
    if |text| < 4 then []
    else
      var a, b, c, d := ValueOf(text[0]), ValueOf(text[1]), ValueOf(text[2]), ValueOf(text[3]);
      if text[2] == '=' && text[3] == '=' then [a * 4 + b / 16]
      else if text[3] == '=' then [a * 4 + b / 16, b % 16 * 16 + c / 4]
      else [a * 4 + b / 16, b % 16 * 16 + c / 4, c % 4 * 64 + d] + Decode(text[4..])
  }

  /** A whole group of three bytes comes back. */
  lemma GroupComesBack(a: Byte, b: Byte, c: Byte)
    ensures a / 4 * 4 + (a % 4 * 16 + b / 16) / 16 == a
    ensures (a % 4 * 16 + b / 16) % 16 * 16 + (b % 16 * 4 + c / 64) / 4 == b
    ensures (b % 16 * 4 + c / 64) % 4 * 64 + c % 64 == c
  {}

  /** The last group, of one byte or two. */
  lemma LastGroup(bytes: seq<Byte>)
    requires 0 < |bytes| <= 2
    ensures Decode(Encode(bytes)) == bytes
  {
    hide Symbol, ValueOf;
    var a := bytes[0];
    ValueOfSymbol(a / 4);
    if |bytes| == 1 {
      ValueOfSymbol(a % 4 * 16);
      GroupComesBack(a, 0, 0);
    } else {
      var b := bytes[1];
      ValueOfSymbol(a % 4 * 16 + b / 16);
      ValueOfSymbol(b % 16 * 4);
      GroupComesBack(a, b, 0);
    }
  }

  lemma {:induction false} DecodeEncode(bytes: seq<Byte>)
    ensures Decode(Encode(bytes)) == bytes
    decreases |bytes|
  {
    hide Symbol, ValueOf;
    if 0 < |bytes| <= 2 {
      LastGroup(bytes);
    } else if |bytes| >= 3 {
      var a, b, c := bytes[0], bytes[1], bytes[2];
      ValueOfSymbol(a / 4);
      ValueOfSymbol(a % 4 * 16 + b / 16);
      ValueOfSymbol(b % 16 * 4 + c / 64);
      ValueOfSymbol(c % 64);
      GroupComesBack(a, b, c);
      DecodeEncode(bytes[3..]);
      assert Encode(bytes)[4..] == Encode(bytes[3..]);
    }
  }
}
