/**
 The tokens of a query string. A string stands for bytes: the lexer classifies each byte as the
 Unicode code point of the same number, so the classes below are those of Latin-1.
 */
module QueryLexer {

  predicate IsDigit(c: char) {
    '0' <= c <= '9'
  }

  predicate IsLetter(c: char) {
    || 'A' <= c <= 'Z' || 'a' <= c <= 'z'
    || c == '\U{AA}' || c == '\U{B5}' || c == '\U{BA}'
    || '\U{C0}' <= c <= '\U{D6}' || '\U{D8}' <= c <= '\U{F6}' || '\U{F8}' <= c <= '\U{FF}'
  }

  predicate IsSpace(c: char) {
    '\U{09}' <= c <= '\U{0D}' || c == ' ' || c == '\U{85}' || c == '\U{A0}'
  }

  predicate IsNameStart(c: char) {
    IsLetter(c) || c == '_'
  }

  predicate IsNameChar(c: char) {
    IsLetter(c) || IsDigit(c) || c == '_'
  }

  datatype Token =
    | EndOfInput | Identifier(name: string) | Dot | LeftBracket | RightBracket
    | Number(digits: string) | Star | Unexpected(c: char)

  /** The tokens that the lexer returns again and again once it has reached them. */
  predicate Terminal(t: Token) {
    t.EndOfInput? || t.Unexpected?
  }

  // ---- specification ----

  function SkipSpace(s: string, i: nat): (r: nat)
    requires i <= |s|
    ensures i <= r <= |s| && (r < |s| ==> !IsSpace(s[r]))
    decreases |s| - i
  {
    if i < |s| && IsSpace(s[i]) then SkipSpace(s, i + 1) else i
  }

  function NameEnd(s: string, i: nat): (r: nat)
    requires i <= |s|
    ensures i <= r <= |s| && (r < |s| ==> !IsNameChar(s[r]))
    decreases |s| - i
  {
    if i < |s| && IsNameChar(s[i]) then NameEnd(s, i + 1) else i
  }

  function DigitsEnd(s: string, i: nat): (r: nat)
    requires i <= |s|
    ensures i <= r <= |s| && (r < |s| ==> !IsDigit(s[r]))
    decreases |s| - i
  {
    if i < |s| && IsDigit(s[i]) then DigitsEnd(s, i + 1) else i
  }

  /** The token at `i`, after any whitespace, and the position behind it. */
  function NextToken(s: string, i: nat): (r: (Token, nat))
    requires i <= |s|
    ensures i <= r.1 <= |s|
    ensures !Terminal(r.0) ==> i < r.1
  {
    var p := SkipSpace(s, i);
    if p >= |s| then (EndOfInput, p)
    else if s[p] == '.' then (Dot, p + 1)
    else if s[p] == '[' then (LeftBracket, p + 1)
    else if s[p] == ']' then (RightBracket, p + 1)
    else if s[p] == '*' then (Star, p + 1)
    else if IsDigit(s[p]) then (Number(s[p..DigitsEnd(s, p)]), DigitsEnd(s, p))
    else if IsNameStart(s[p]) then (Identifier(s[p..NameEnd(s, p)]), NameEnd(s, p))
    else (Unexpected(s[p]), p)
  }

  /** All tokens from `i` on, up to and including the first terminal one. */
  function Lex(s: string, i: nat): (ts: seq<Token>)
    requires i <= |s|
    ensures TokenList(ts)
    decreases |s| - i
  {
    var (t, j) := NextToken(s, i);
    if Terminal(t) then [t] else [t] + Lex(s, j)
  }

  predicate TokenList(ts: seq<Token>) {
    && |ts| > 0 && Terminal(ts[|ts| - 1])
    && forall k | 0 <= k < |ts| - 1 :: !Terminal(ts[k])
  }

  // ---- the lexer ----

  class Lexer {
    const input: string
    var pos: nat

    constructor (input: string)
      ensures this.input == input && pos == 0
    {
      this.input := input;
      pos := 0;
    }

    method SkipWhitespace()
      requires pos <= |input|
      modifies this
      ensures pos == SkipSpace(input, old(pos))
    {
      while pos < |input| && IsSpace(input[pos])
        invariant pos <= |input| && SkipSpace(input, pos) == SkipSpace(input, old(pos))
      {
        pos := pos + 1;
      }
    }

    method Next() returns (t: Token)
      requires pos <= |input|
      modifies this
      ensures (t, pos) == NextToken(input, old(pos))
    {
      SkipWhitespace();
      if pos >= |input| {
        return EndOfInput;
      }
      var ch := input[pos];
      match ch {
        case '.' =>
          pos := pos + 1;
          t := Dot;
        case '[' =>
          pos := pos + 1;
          t := LeftBracket;
        case ']' =>
          pos := pos + 1;
          t := RightBracket;
        case '*' =>
          pos := pos + 1;
          t := Star;
        case _ =>
          if IsDigit(ch) {
            t := LexNumber();
          } else if IsLetter(ch) || ch == '_' {
            t := LexIdentifier();
          } else {
            t := Unexpected(ch);
          }
      }
    }

    /** The next token, with the position put back. */
    method Peek() returns (t: Token)
      requires pos <= |input|
      modifies this
      ensures pos == old(pos) && t == NextToken(input, pos).0
    {
      var saved := pos;
      t := Next();
      pos := saved;
    }

    method LexIdentifier() returns (t: Token)
      requires pos <= |input|
      modifies this
      ensures pos == NameEnd(input, old(pos)) && t == Identifier(input[old(pos)..pos])
    {
      var start := pos;
      while pos < |input|
        invariant pos <= |input| && NameEnd(input, pos) == NameEnd(input, start)
      {
        if !IsLetter(input[pos]) && !IsDigit(input[pos]) && input[pos] != '_' {
          break;
        }
        pos := pos + 1;
      }
      t := Identifier(input[start..pos]);
    }

    method LexNumber() returns (t: Token)
      requires pos <= |input|
      modifies this
      ensures pos == DigitsEnd(input, old(pos)) && t == Number(input[old(pos)..pos])
    {
      var start := pos;
      while pos < |input| && IsDigit(input[pos])
        invariant pos <= |input| && DigitsEnd(input, pos) == DigitsEnd(input, start)
      {
        pos := pos + 1;
      }
      t := Number(input[start..pos]);
    }
  }
}
