/**
 The language of queries. A query parses to a path exactly when it spells that path: a name, then
 dotted names and bracketed indices or stars, with any whitespace between tokens and any number of
 leading zeros in an index. Neither the lexer nor the parser occurs in what is stated.
 */
module QueryGrammar {
  import opened QueryLexer
  import opened QueryParser
  import opened QueryRoundTrip

  // ---- the language ----

  predicate AllDigits(s: string) {
    s != [] && forall k | 0 <= k < |s| :: IsDigit(s[k])
  }

  /** How many tokens a segment takes: the first one has no dot. */
  function Size(s: Segment, first: bool): nat {
    match s case Field(_) => if first then 1 else 2 case _ => 3
  }

  predicate SegmentSpelling(s: Segment, first: bool, ts: seq<Token>) {
    match s
    case Field(name) => IsName(name) && ts == if first then [Identifier(name)] else [Dot, Identifier(name)]
    case Index(i) =>
      && |ts| == 3 && ts[0] == LeftBracket && ts[2] == RightBracket
      && ts[1].Number? && AllDigits(ts[1].digits) && DecimalValue(ts[1].digits) == i <= MAX_INT
    case Wildcard => ts == [LeftBracket, Star, RightBracket]
  }

  predicate PathSpelling(p: Path, first: bool, ts: seq<Token>)
    decreases |p|
  {
    if p == [] then ts == []
    else
      var n := Size(p[0], first);
      n <= |ts| && SegmentSpelling(p[0], first, ts[..n]) && PathSpelling(p[1..], false, ts[n..])
  }

  predicate SpelledBy(query: string, p: Path, ts: seq<Token>, gaps: seq<string>) {
    && |gaps| == |ts| + 1 && (forall k | 0 <= k < |gaps| :: AllSpace(gaps[k]))
    && PathSpelling(p, true, ts)
    && query == Spell(ts, gaps)
  }

  /** The query is a field and what may follow it, spelled with some whitespace. */
  ghost predicate Spells(query: string, p: Path) {
    p != [] && p[0].Field? && exists ts: seq<Token>, gaps: seq<string> :: SpelledBy(query, p, ts, gaps)
  }

  // ---- spellings differ from the printed tokens in leading zeros only ----

  function Canonical(t: Token): Token {
    if t.Number? && AllDigits(t.digits) then Number(Decimal(DecimalValue(t.digits))) else t
  }

  function CanonicalAll(ts: seq<Token>): (r: seq<Token>)
    ensures |r| == |ts| && forall k | 0 <= k < |ts| :: r[k] == Canonical(ts[k])
  {
    seq(|ts|, k requires 0 <= k < |ts| => Canonical(ts[k]))
  }

  lemma CanonicalCat(a: seq<Token>, b: seq<Token>)
    ensures CanonicalAll(a + b) == CanonicalAll(a) + CanonicalAll(b)
  {
    hide Canonical;
  }

  predicate NumbersOk(ts: seq<Token>) {
    forall k | 0 <= k < |ts| :: ts[k].Number? ==> AllDigits(ts[k].digits)
  }

  lemma SegmentCanonical(s: Segment, first: bool, ts: seq<Token>)
    requires SegmentSpelling(s, first, ts)
    ensures CanonicalAll(ts) == Tokens(s, first) && PrintableSegment(s) && |ts| == Size(s, first)
    ensures NumbersOk(ts)
  {
    hide IsName, AllDigits, Decimal;
  }

  lemma {:induction false} PathCanonical(p: Path, first: bool, ts: seq<Token>)
    requires PathSpelling(p, first, ts)
    ensures CanonicalAll(ts) == PathTokens(p, first) && AllPrintable(p) && NumbersOk(ts)
    decreases |p|
  {
    hide Canonical, SegmentSpelling, Tokens, PrintableSegment, AllDigits;
    if p != [] {
      var n := Size(p[0], first);
      SegmentCanonical(p[0], first, ts[..n]);
      PathCanonical(p[1..], false, ts[n..]);
      assert ts == ts[..n] + ts[n..];
      CanonicalCat(ts[..n], ts[n..]);
    }
  }

  lemma CanonicalList(ts: seq<Token>)
    requires TokenList(ts)
    ensures TokenList(CanonicalAll(ts))
  {
  }

  function CanonicalParsed(r: Parsed): Parsed {
    match r case Failed(_) => r case Done(node, rest) => Done(node, CanonicalAll(rest))
  }

  lemma AtoiCanonical(s: string)
    requires AllDigits(s)
    ensures Atoi(Decimal(DecimalValue(s))) == Atoi(s)
  {
    DecimalRoundTrip(DecimalValue(s));
  }

  lemma {:induction false} BracketsCanonical(node: Node, ts: seq<Token>)
    requires TokenList(ts) && NumbersOk(ts)
    ensures TokenList(CanonicalAll(ts))
    ensures ParseBrackets(node, CanonicalAll(ts)) == CanonicalParsed(ParseBrackets(node, ts))
    ensures ParseBrackets(node, ts).Done? ==> NumbersOk(ParseBrackets(node, ts).rest)
    decreases |ts|
  {
    hide Atoi, Decimal, AllDigits;
    CanonicalList(ts);
    if ts[0].LeftBracket? && (ts[1].Star? || ts[1].Number?) && ts[2].RightBracket? {
      var us := CanonicalAll(ts);
      assert us[3..] == CanonicalAll(ts[3..]);
      if ts[1].Number? {
        AtoiCanonical(ts[1].digits);
        if Atoi(ts[1].digits).Ok? {
          BracketsCanonical(DotNode(node, IndexNode(Atoi(ts[1].digits).value)), ts[3..]);
        }
      } else {
        BracketsCanonical(DotNode(node, WildcardNode), ts[3..]);
      }
    } else if ts[0].LeftBracket? && ts[1].Number? {
      AtoiCanonical(ts[1].digits);
    }
  }

  lemma PrimaryCanonical(ts: seq<Token>)
    requires TokenList(ts) && NumbersOk(ts)
    ensures TokenList(CanonicalAll(ts))
    ensures ParsePrimary(CanonicalAll(ts)) == CanonicalParsed(ParsePrimary(ts))
    ensures ParsePrimary(ts).Done? ==> NumbersOk(ParsePrimary(ts).rest)
  {
    hide ParseBrackets, AllDigits, Decimal;
    CanonicalList(ts);
    if ts[0].Identifier? {
      assert CanonicalAll(ts)[1..] == CanonicalAll(ts[1..]);
      BracketsCanonical(IdentifierNode(ts[0].name), ts[1..]);
    }
  }

  lemma {:induction false} DotsCanonical(left: Node, ts: seq<Token>)
    requires TokenList(ts) && NumbersOk(ts)
    ensures TokenList(CanonicalAll(ts))
    ensures ParseDots(left, CanonicalAll(ts)) == CanonicalParsed(ParseDots(left, ts))
    decreases |ts|
  {
    hide ParsePrimary, AllDigits, Decimal;
    CanonicalList(ts);
    if ts[0].Dot? {
      assert CanonicalAll(ts)[1..] == CanonicalAll(ts[1..]);
      PrimaryCanonical(ts[1..]);
      var right := ParsePrimary(ts[1..]);
      if right.Done? {
        DotsCanonical(DotNode(left, right.node), right.rest);
      }
    }
  }

  lemma TokensCanonical(ts: seq<Token>)
    requires TokenList(ts) && NumbersOk(ts)
    ensures TokenList(CanonicalAll(ts)) && ParseTokens(CanonicalAll(ts)) == ParseTokens(ts)
  {
    hide ParsePrimary, ParseDots, AllDigits, Decimal;
    CanonicalList(ts);
    PrimaryCanonical(ts);
    var left := ParsePrimary(ts);
    if left.Done? {
      DotsCanonical(left.node, left.rest);
    }
  }

  lemma SpellingParses(p: Path, ts: seq<Token>)
    requires p != [] && p[0].Field? && PathSpelling(p, true, ts)
    ensures TokenList(ts + [EndOfInput])
    ensures ParseTokens(ts + [EndOfInput]).Ok? && Flatten(ParseTokens(ts + [EndOfInput]).value) == p
  {
    hide ParseTokens, PathSpelling, PrintableSegment, PathTokens, Canonical, AllDigits, IsName;
    PathCanonical(p, true, ts);
    PathParses(p);
    CanonicalCat(ts, [EndOfInput]);
    CanonicalEnd();
    SpellingList(ts);
    TokensCanonical(ts + [EndOfInput]);
  }

  lemma CanonicalEnd()
    ensures CanonicalAll([EndOfInput]) == [EndOfInput]
  {
  }

  lemma SpellingList(ts: seq<Token>)
    requires TokenList(CanonicalAll(ts) + [EndOfInput])
    ensures TokenList(ts + [EndOfInput])
  {
    var us := CanonicalAll(ts) + [EndOfInput];
    forall k | 0 <= k < |ts|
      ensures !Terminal(ts[k])
    {
      assert !Terminal(us[k]);
    }
  }

  lemma {:induction false} SpellingSeparated(p: Path, first: bool, ts: seq<Token>)
    requires PathSpelling(p, first, ts)
    ensures Separated(ts)
  {
    hide PathSpelling, PrintableSegment, PathTokens, IsName;
    PathCanonical(p, first, ts);
    PathTokensSeparated(p, first);
    var us := CanonicalAll(ts);
    forall k | 0 <= k < |ts|
      ensures ProperToken(ts[k]) && (WordLike(ts[k]) <==> WordLike(us[k]))
    {
      assert ProperToken(us[k]);
    }
  }

  // ---- what the parser accepts is a spelling ----

  lemma SliceCat<T>(a: seq<T>, b: seq<T>, n: nat)
    requires n <= |a|
    ensures (a + b)[..n] == a[..n] && (a + b)[n..] == a[n..] + b
  {
  }

  lemma {:induction false} SpellingCat(p: Path, first: bool, ts: seq<Token>, q: Path, us: seq<Token>)
    requires PathSpelling(p, first, ts) && PathSpelling(q, false, us) && (p == [] ==> !first)
    ensures PathSpelling(p + q, first, ts + us)
    decreases |p|
  {
    hide SegmentSpelling, Size;
    if p == [] {
      assert p + q == q && ts + us == us;
    } else {
      var n := Size(p[0], first);
      SliceCat(p, q, 1);
      SliceCat(ts, us, n);
      SpellingCat(p[1..], false, ts[n..], q, us);
    }
  }

  lemma SpellingOne(s: Segment, first: bool, ts: seq<Token>)
    requires SegmentSpelling(s, first, ts)
    ensures PathSpelling([s], first, ts)
  {
    hide IsName, AllDigits;
    assert ts[..|ts|] == ts;
  }

  /** The first `n` tokens spell `q`, which the result adds to the segments it started from. */
  predicate Consumed(before: Path, ts: seq<Token>, first: bool, r: Parsed, q: Path, n: nat) {
    && n <= |ts| && r.Done? && r.rest == ts[n..]
    && Flatten(r.node) == before + q && PathSpelling(q, first, ts[..n])
  }

  lemma ConsumedNone(node: Node, ts: seq<Token>)
    ensures Consumed(Flatten(node), ts, false, Done(node, ts), [], 0)
  {
    assert Flatten(node) + [] == Flatten(node);
  }

  lemma ConsumedThen(before: Path, ts: seq<Token>, first: bool, q: Path, n: nat, r: Parsed, more: Path, m: nat)
    requires n <= |ts| && PathSpelling(q, first, ts[..n]) && (q == [] ==> !first)
    requires Consumed(before + q, ts[n..], false, r, more, m)
    ensures Consumed(before, ts, first, r, q + more, n + m)
  {
    hide PathSpelling;
    SpellingCat(q, first, ts[..n], more, ts[n..][..m]);
    assert ts[..n] + ts[n..][..m] == ts[..n + m] && ts[n..][m..] == ts[n + m..];
    assert (before + q) + more == before + (q + more);
  }

  /** The brackets that are consumed, as segments, and how many tokens they take. */
  lemma {:induction false} BracketsConsume(node: Node, ts: seq<Token>) returns (q: Path, n: nat)
    requires TokenList(ts) && NumbersOk(ts) && ParseBrackets(node, ts).Done?
    ensures Consumed(Flatten(node), ts, false, ParseBrackets(node, ts), q, n)
    decreases |ts|
  {
    hide AllDigits, Consumed, Atoi;
    q, n := [], 0;
    if ts[0].LeftBracket? {
      var s := if ts[1].Star? then Wildcard else Index(Atoi(ts[1].digits).value);
      var item := if ts[1].Star? then WildcardNode else IndexNode(Atoi(ts[1].digits).value);
      BracketSpelled(s, ts[..3]);
      SpellingOne(s, false, ts[..3]);
      q, n := BracketsConsume(DotNode(node, item), ts[3..]);
      assert Flatten(DotNode(node, item)) == Flatten(node) + [s];
      ConsumedThen(Flatten(node), ts, false, [s], 3, ParseBrackets(node, ts), q, n);
      q, n := [s] + q, 3 + n;
    } else {
      ConsumedNone(node, ts);
    }
  }

  lemma BracketSpelled(s: Segment, ts: seq<Token>)
    requires |ts| == 3 && ts[0].LeftBracket? && ts[2].RightBracket?
    requires if ts[1].Star? then s == Wildcard
      else ts[1].Number? && AllDigits(ts[1].digits) && Atoi(ts[1].digits).Ok? && s == Index(Atoi(ts[1].digits).value)
    ensures SegmentSpelling(s, false, ts)
  {
  }

  lemma PrimaryConsume(ts: seq<Token>) returns (q: Path, n: nat)
    requires TokenList(ts) && NumbersOk(ts) && NamesOk(ts) && ParsePrimary(ts).Done?
    ensures Consumed([], ts, true, ParsePrimary(ts), q, n) && q != [] && q[0].Field?
  {
    hide ParseBrackets, AllDigits, IsName, PathSpelling, Consumed;
    var s := Field(ts[0].name);
    q, n := BracketsConsume(IdentifierNode(ts[0].name), ts[1..]);
    SpellingOne(s, true, [ts[0]]);
    assert ts[..1] == [ts[0]] && [] + [s] == [s];
    ConsumedThen([], ts, true, [s], 1, ParsePrimary(ts), q, n);
    q, n := [s] + q, 1 + n;
  }

  lemma SliceAfter(ts: seq<Token>, n: nat)
    requires n < |ts|
    ensures ts[..n + 1] == [ts[0]] + ts[1..][..n] && ts[1..][n..] == ts[n + 1..]
  {
  }

  /** The same tokens after a dot. */
  lemma SpellingDotted(q: Path, ts: seq<Token>)
    requires q != [] && q[0].Field? && PathSpelling(q, true, ts)
    ensures PathSpelling(q, false, [Dot] + ts)
  {
    hide IsName;
    var us := [Dot] + ts;
    assert us[..2] == [Dot] + ts[..1] && us[2..] == ts[1..];
  }

  lemma {:induction false} DotsConsume(left: Node, ts: seq<Token>) returns (q: Path, n: nat)
    requires TokenList(ts) && NumbersOk(ts) && NamesOk(ts) && ParseDots(left, ts).Done?
    ensures Consumed(Flatten(left), ts, false, ParseDots(left, ts), q, n)
    decreases |ts|
  {
    hide ParsePrimary, AllDigits, IsName, PathSpelling, Consumed;
    q, n := [], 0;
    if ts[0].Dot? {
      var right := ParsePrimary(ts[1..]);
      var q1, n1 := PrimaryConsume(ts[1..]);
      ConsumedParts([], ts[1..], true, right, q1, n1);
      SpellingDotted(q1, ts[1..][..n1]);
      SliceAfter(ts, n1);
      q, n := DotsConsume(DotNode(left, right.node), right.rest);
      ConsumedThen(Flatten(left), ts, false, q1, n1 + 1, ParseDots(left, ts), q, n);
      q, n := q1 + q, n1 + 1 + n;
    } else {
      ConsumedNone(left, ts);
    }
  }

  lemma ConsumedParts(before: Path, ts: seq<Token>, first: bool, r: Parsed, q: Path, n: nat)
    requires Consumed(before, ts, first, r, q, n)
    ensures n <= |ts| && r.Done? && r.rest == ts[n..] && PathSpelling(q, first, ts[..n])
    ensures before == [] ==> Flatten(r.node) == q
    ensures NumbersOk(ts) ==> NumbersOk(r.rest)
    ensures NamesOk(ts) ==> NamesOk(r.rest)
  {
    hide PathSpelling, IsName, AllDigits;
  }

  lemma ParsedIsSpelling(ts: seq<Token>)
    requires TokenList(ts) && NumbersOk(ts) && NamesOk(ts) && ParseTokens(ts).Ok?
    ensures var p, n := Flatten(ParseTokens(ts).value), |ts| - 1;
      p != [] && p[0].Field? && ts[n] == EndOfInput && PathSpelling(p, true, ts[..n])
  {
    hide ParsePrimary, ParseDots, AllDigits, IsName, PathSpelling, Consumed;
    var left := ParsePrimary(ts);
    var q, n := PrimaryConsume(ts);
    ConsumedParts([], ts, true, left, q, n);
    var more, m := DotsConsume(left.node, left.rest);
    var r := ParseDots(left.node, left.rest);
    assert [] + q == q;
    ConsumedThen([], ts, true, q, n, r, more, m);
    ConsumedParts([], ts, true, r, q + more, n + m);
    assert ts[n + m..][0] == ts[n + m] == EndOfInput;
    assert n + m == |ts| - 1;
  }

  // ---- what the lexer reads is a spelling ----

  lemma {:induction false} SpaceRun(s: string, i: nat)
    requires i <= |s|
    ensures AllSpace(s[i..SkipSpace(s, i)])
    decreases |s| - i
  {
    if i < |s| && IsSpace(s[i]) {
      SpaceRun(s, i + 1);
      assert s[i..SkipSpace(s, i)] == [s[i]] + s[i + 1..SkipSpace(s, i)];
    }
  }

  lemma {:induction false} DigitRun(s: string, i: nat)
    requires i <= |s|
    ensures forall k | i <= k < DigitsEnd(s, i) :: IsDigit(s[k])
    decreases |s| - i
  {
    if i < |s| && IsDigit(s[i]) {
      DigitRun(s, i + 1);
    }
  }

  lemma LexedText(s: string, i: nat)
    requires i <= |s| && !NextToken(s, i).0.Unexpected?
    ensures var (t, j) := NextToken(s, i); var p := SkipSpace(s, i);
      p <= j && s[p..j] == TokenText(t) && (t.Number? ==> AllDigits(t.digits))
  {
    var p := SkipSpace(s, i);
    if p < |s| {
      DigitRun(s, p);
    }
  }

  /** Whitespace before each token and at the end. */
  lemma {:induction false} LexSpells(s: string, i: nat) returns (gaps: seq<string>)
    requires i <= |s| && Lex(s, i)[|Lex(s, i)| - 1] == EndOfInput
    ensures var ts := Lex(s, i);
      && |gaps| == |ts| && (forall k | 0 <= k < |gaps| :: AllSpace(gaps[k]))
      && s[i..] == Spell(ts[..|ts| - 1], gaps) && NumbersOk(ts)
    decreases |s| - i
  {
    hide NextToken, AllSpace, AllDigits, TokenText;
    var (t, j) := NextToken(s, i);
    var p := SkipSpace(s, i);
    LexUnfolds(s, i);
    SpaceRun(s, i);
    LexedText(s, i);
    if Terminal(t) {
      gaps := [s[i..p]];
      EndText(s, i);
      assert s[i..] == s[i..p];
    } else {
      var ts := Lex(s, i);
      var rest := LexSpells(s, j);
      gaps := [s[i..p]] + rest;
      var us := ts[..|ts| - 1];
      assert ts[1..] == Lex(s, j) && us[1..] == Lex(s, j)[..|Lex(s, j)| - 1] && us[0] == t;
      assert gaps[1..] == rest;
      assert s[i..] == s[i..p] + (s[p..j] + s[j..]);
    }
  }

  lemma EndText(s: string, i: nat)
    requires i <= |s| && NextToken(s, i).0.EndOfInput?
    ensures SkipSpace(s, i) == |s|
  {
  }

  // ---- the main result ----

  lemma SpelledIsParsed(query: string, p: Path, ts: seq<Token>, gaps: seq<string>)
    requires p != [] && p[0].Field? && SpelledBy(query, p, ts, gaps)
    ensures PathOf(query) == Ok(p)
  {
    hide ParseTokens, Lex, Spell, AllSpace, Separated, PathSpelling;
    SpellingSeparated(p, true, ts);
    assert query[0..0 + |query|] == query;
    LexSpelled(query, 0, ts, gaps);
    SpellingParses(p, ts);
  }

  lemma ParsedIsSpelled(query: string)
    requires PathOf(query).Ok?
    ensures Spells(query, PathOf(query).value)
  {
    hide ParseTokens, Spell, AllSpace, PathSpelling, IsName, AllDigits;
    var ts := Lex(query, 0);
    var p := PathOf(query).value;
    LexedNames(query, 0);
    NumbersLexed(query, 0);
    ParsedIsSpelling(ts);
    var gaps := LexSpells(query, 0);
    assert query[0..] == query;
    assert SpelledBy(query, p, ts[..|ts| - 1], gaps);
  }

  lemma {:induction false} NumbersLexed(s: string, i: nat)
    requires i <= |s|
    ensures NumbersOk(Lex(s, i))
    decreases |s| - i
  {
    hide NextToken, AllDigits;
    var (t, j) := NextToken(s, i);
    if !t.Unexpected? {
      LexedText(s, i);
    }
    if !Terminal(t) {
      NumbersLexed(s, j);
    }
  }

  /** A query parses to a path exactly when it spells it. */
  lemma ParsesIsSpells(query: string, p: Path)
    ensures PathOf(query) == Ok(p) <==> Spells(query, p)
  {
    hide PathOf, SpelledBy;
    if Spells(query, p) {
      var ts: seq<Token>, gaps: seq<string> :| SpelledBy(query, p, ts, gaps);
      SpelledIsParsed(query, p, ts, gaps);
    }
    if PathOf(query) == Ok(p) {
      ParsedIsSpelled(query);
    }
  }

  /** So parsed paths are printable, and the paths that can be parsed are exactly those. */
  lemma ParsedPathIsPrintable(query: string)
    requires PathOf(query).Ok?
    ensures Printable(PathOf(query).value)
    ensures PathOf(FormatPathSpec(PathOf(query).value)) == PathOf(query)
  {
    hide PathOf, SpelledBy, FormatPathSpec;
    var p := PathOf(query).value;
    ParsedIsSpelled(query);
    var ts: seq<Token>, gaps: seq<string> :| SpelledBy(query, p, ts, gaps);
    SpelledIsPrintable(query, p, ts, gaps);
    PrintedPathParses(p);
  }

  lemma SpelledIsPrintable(query: string, p: Path, ts: seq<Token>, gaps: seq<string>)
    requires SpelledBy(query, p, ts, gaps)
    ensures AllPrintable(p)
  {
    hide PathSpelling, PrintableSegment, AllSpace, Spell;
    PathCanonical(p, true, ts);
  }
}
