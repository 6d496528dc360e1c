/**
 Printing a path and parsing it back. The printed form, with any whitespace put between its tokens,
 parses to the same path.
 */
module QueryRoundTrip {
  import opened QueryLexer
  import opened QueryParser

  // ---- printable paths ----

  predicate IsName(s: string) {
    && s != [] && IsNameStart(s[0])
    && forall k | 0 <= k < |s| :: IsNameChar(s[k])
  }

  predicate PrintableSegment(s: Segment) {
    match s
    case Field(name) => IsName(name)
    case Index(i) => 0 <= i <= MAX_INT
    case Wildcard => true
  }

  predicate AllPrintable(p: Path) {
    forall k | 0 <= k < |p| :: PrintableSegment(p[k])
  }

  /** Starts with a field; names are identifiers and indices fit an int. */
  predicate Printable(p: Path) {
    p != [] && p[0].Field? && AllPrintable(p)
  }

  // ---- printing ----

  function Decimal(n: nat): (s: string)
    ensures s != [] && forall k | 0 <= k < |s| :: IsDigit(s[k])
  {
    if n < 10 then [('0' as int + n) as char] else Decimal(n / 10) + Decimal(n % 10)
  }

  /** `formatPath` of the segments from some point on, given what is printed so far. */
  function FormatFrom(printed: string, p: Path): string
    decreases |p|
  {
    if p == [] then printed
    else
      var s := match p[0]
        case Field(name) => if printed == "" then name else printed + "." + name
        case Index(i) => printed + "[" + DecimalInt(i) + "]"
        case Wildcard => printed + "[*]";
      FormatFrom(s, p[1..])
  }

  function DecimalInt(i: int): string {
    if i < 0 then "-" + Decimal(-i) else Decimal(i)
  }

  function FormatPathSpec(p: Path): string {
    if p == [] then "<root>" else FormatFrom("", p)
  }

  method FormatPath(p: Path) returns (result: string)
    ensures result == FormatPathSpec(p)
  {
    if |p| == 0 {
      return "<root>";
    }
    result := "";
    for i := 0 to |p|
      invariant FormatFrom(result, p[i..]) == FormatFrom("", p)
    {
      ghost var before := result;
      match p[i]
      case Field(name) =>
        if result == "" {
          result := name;
        } else {
          result := result + "." + name;
        }
      case Index(n) =>
        result := result + "[" + DecimalInt(n) + "]";
      case Wildcard =>
        result := result + "[*]";
      assert p[i..][1..] == p[i + 1..];
    }
  }

  // ---- decimal numbers ----

  lemma {:induction false} DecimalRoundTrip(n: nat)
    ensures DecimalValue(Decimal(n)) == n
  {
    if n >= 10 {
      var tens, unit := Decimal(n / 10), Decimal(n % 10);
      DecimalRoundTrip(n / 10);
      DecimalRoundTrip(n % 10);
      var s := Decimal(n);
      assert |unit| == 1 && s[..|s| - 1] == tens && s[|s| - 1] == unit[0];
      assert unit[..0] == [];
    } else {
      assert Decimal(n)[..0] == [];
    }
  }

  lemma AtoiDecimal(n: nat)
    requires n <= MAX_INT
    ensures Atoi(Decimal(n)) == Ok(n)
  {
    DecimalRoundTrip(n);
  }

  // ---- the tokens of a path ----

  function Tokens(s: Segment, first: bool): seq<Token> {
    match s
    case Field(name) => if first then [Identifier(name)] else [Dot, Identifier(name)]
    case Index(i) => [LeftBracket, Number(DecimalInt(i)), RightBracket]
    case Wildcard => [LeftBracket, Star, RightBracket]
  }

  function PathTokens(p: Path, first: bool): seq<Token> {
    if p == [] then [] else Tokens(p[0], first) + PathTokens(p[1..], false)
  }

  function TokenText(t: Token): string {
    match t
    case EndOfInput => ""
    case Identifier(name) => name
    case Dot => "."
    case LeftBracket => "["
    case RightBracket => "]"
    case Number(digits) => digits
    case Star => "*"
    case Unexpected(c) => [c]
  }

  predicate AllSpace(w: string) {
    forall k | 0 <= k < |w| :: IsSpace(w[k])
  }

  /** Token texts with whitespace before each of them and at the end. */
  function Spell(ts: seq<Token>, gaps: seq<string>): string
    requires |gaps| == |ts| + 1
  {
    if ts == [] then gaps[0] else gaps[0] + (TokenText(ts[0]) + Spell(ts[1..], gaps[1..]))
  }

  // ---- lexing gives the tokens back ----

  predicate WordLike(t: Token) {
    t.Identifier? || t.Number?
  }

  predicate ProperToken(t: Token) {
    match t
    case Identifier(name) => IsName(name)
    case Number(digits) => digits != [] && forall k | 0 <= k < |digits| :: IsDigit(digits[k])
    case EndOfInput | Unexpected(_) => false
    case _ => true
  }

  /** Proper tokens, no two words side by side. */
  predicate Separated(ts: seq<Token>) {
    && (forall k | 0 <= k < |ts| :: ProperToken(ts[k]))
    && (forall k | 0 <= k < |ts| - 1 :: !WordLike(ts[k]) || !WordLike(ts[k + 1]))
  }

  predicate TextAt(s: string, i: nat, t: string) {
    i + |t| <= |s| && s[i..i + |t|] == t
  }

  lemma TextCat(s: string, i: nat, a: string, b: string)
    ensures TextAt(s, i, a + b) <==> TextAt(s, i, a) && TextAt(s, i + |a|, b)
  {
    if i + |a + b| <= |s| {
      var u := s[i..i + |a + b|];
      assert u[..|a|] == s[i..i + |a|] && u[|a|..] == s[i + |a|..i + |a| + |b|];
      assert (a + b)[..|a|] == a && (a + b)[|a|..] == b;
      assert u == u[..|a|] + u[|a|..];
    }
  }

  lemma {:induction false} SkipsGap(s: string, i: nat, w: string)
    requires AllSpace(w) && TextAt(s, i, w) && (i + |w| < |s| ==> !IsSpace(s[i + |w|]))
    ensures i <= |s| && SkipSpace(s, i) == i + |w|
    decreases |w|
  {
    if w != [] {
      assert w == [w[0]] + w[1..];
      TextCat(s, i, [w[0]], w[1..]);
      SkipsGap(s, i + 1, w[1..]);
    }
  }

  lemma {:induction false} NameRuns(s: string, i: nat, n: string)
    requires TextAt(s, i, n) && (forall k | 0 <= k < |n| :: IsNameChar(n[k]))
    requires i + |n| < |s| ==> !IsNameChar(s[i + |n|])
    ensures i <= |s| && NameEnd(s, i) == i + |n|
    decreases |n|
  {
    if n != [] {
      assert n == [n[0]] + n[1..];
      TextCat(s, i, [n[0]], n[1..]);
      NameRuns(s, i + 1, n[1..]);
    }
  }

  lemma {:induction false} DigitsRun(s: string, i: nat, n: string)
    requires TextAt(s, i, n) && (forall k | 0 <= k < |n| :: IsDigit(n[k]))
    requires i + |n| < |s| ==> !IsDigit(s[i + |n|])
    ensures i <= |s| && DigitsEnd(s, i) == i + |n|
    decreases |n|
  {
    if n != [] {
      assert n == [n[0]] + n[1..];
      TextCat(s, i, [n[0]], n[1..]);
      DigitsRun(s, i + 1, n[1..]);
    }
  }

  /** What comes after a word: the end, whitespace or punctuation. */
  predicate EndsWord(s: string, i: nat) {
    i < |s| ==> !IsNameChar(s[i])
  }

  lemma TokenStarts(t: Token, c: char)
    requires ProperToken(t) && c == TokenText(t)[0]
    ensures !IsSpace(c) && (!WordLike(t) ==> !IsNameChar(c))
  {
    if t.Number? {
      assert IsDigit(t.digits[0]);
    }
  }

  lemma LexesOne(s: string, i: nat, w: string, t: Token)
    requires AllSpace(w) && ProperToken(t) && TextAt(s, i, w) && TextAt(s, i + |w|, TokenText(t))
    requires WordLike(t) ==> EndsWord(s, i + |w| + |TokenText(t)|)
    ensures i <= |s| && NextToken(s, i) == (t, i + |w| + |TokenText(t)|)
  {
    var p := i + |w|;
    TokenStarts(t, s[p]);
    SkipsGap(s, i, w);
    if t.Identifier? {
      NameRuns(s, p, t.name);
    } else if t.Number? {
      assert IsDigit(t.digits[0]);
      DigitsRun(s, p, t.digits);
    }
  }

  lemma {:induction false} LexSpelled(s: string, i: nat, ts: seq<Token>, gaps: seq<string>)
    requires |gaps| == |ts| + 1 && Separated(ts) && forall k | 0 <= k < |gaps| :: AllSpace(gaps[k])
    requires TextAt(s, i, Spell(ts, gaps)) && i + |Spell(ts, gaps)| == |s|
    ensures i <= |s| && Lex(s, i) == ts + [EndOfInput]
    decreases |ts|
  {
    hide AllSpace, ProperToken, TextAt, IsNameChar, NextToken, TokenText;
    if ts == [] {
      LexEnd(s, i, gaps[0]);
    } else {
      var t, rest := ts[0], Spell(ts[1..], gaps[1..]);
      var j := i + |gaps[0]| + |TokenText(t)|;
      TextCat(s, i, gaps[0], TokenText(t) + rest);
      TextCat(s, i + |gaps[0]|, TokenText(t), rest);
      SpelledStart(s, j, t, ts[1..], gaps[1..]);
      LexesOne(s, i, gaps[0], t);
      LexSpelled(s, j, ts[1..], gaps[1..]);
      ProperIsNotTerminal(t);
      assert ts == [t] + ts[1..];
    }
  }

  lemma ProperIsNotTerminal(t: Token)
    requires ProperToken(t)
    ensures !Terminal(t)
  {
  }

  lemma LexEnd(s: string, i: nat, w: string)
    requires AllSpace(w) && TextAt(s, i, w) && i + |w| == |s|
    ensures Lex(s, i) == [EndOfInput]
  {
    SkipsGap(s, i, w);
  }

  /** After a token comes whitespace, the end, or the first byte of a token that is not a word. */
  lemma SpelledStart(s: string, j: nat, t: Token, ts: seq<Token>, gaps: seq<string>)
    requires |gaps| == |ts| + 1 && (forall k | 0 <= k < |gaps| :: AllSpace(gaps[k]))
    requires ts != [] ==> ProperToken(ts[0]) && (!WordLike(t) || !WordLike(ts[0]))
    requires TextAt(s, j, Spell(ts, gaps)) && j + |Spell(ts, gaps)| == |s|
    ensures WordLike(t) ==> EndsWord(s, j)
  {
    var w := gaps[0];
    if w != [] {
      assert IsSpace(w[0]);
    } else if ts != [] {
      assert Spell(ts, gaps) == TokenText(ts[0]) + Spell(ts[1..], gaps[1..]);
      if !WordLike(ts[0]) {
        TokenStarts(ts[0], s[j]);
      }
    }
  }

  lemma {:induction false} PathTokensSeparated(p: Path, first: bool)
    requires AllPrintable(p)
    ensures Separated(PathTokens(p, first))
    ensures p != [] && !first ==> PathTokens(p, first) != [] && !WordLike(PathTokens(p, first)[0])
    decreases |p|
  {
    if p != [] {
      PathTokensSeparated(p[1..], false);
    }
  }

  // ---- parsing gives the path back ----

  /** The longest run of bracket segments at the front of a path. */
  function Brackets(p: Path): (n: nat)
    ensures n <= |p| && (n < |p| ==> p[n].Field?)
  {
    if p == [] || p[0].Field? then 0 else 1 + Brackets(p[1..])
  }

  function Ending(p: Path): (ts: seq<Token>) {
    PathTokens(p, false) + [EndOfInput]
  }

  lemma EndingIsList(p: Path)
    requires AllPrintable(p)
    ensures TokenList(Ending(p))
  {
    hide ProperToken;
    PathTokensSeparated(p, false);
    forall k | 0 <= k < |PathTokens(p, false)|
      ensures !Terminal(PathTokens(p, false)[k])
    {
      ProperIsNotTerminal(PathTokens(p, false)[k]);
    }
  }

  lemma ConsTokens(t: Token, ts: seq<Token>)
    requires TokenList(ts) && !Terminal(t)
    ensures TokenList([t] + ts) && ([t] + ts)[1..] == ts && ([t] + ts)[0] == t
  {
  }

  lemma TakeAfterFirst(p: Path, n: nat)
    requires p != [] && n <= |p| - 1
    ensures p[1..][n..] == p[n + 1..] && [p[0]] + p[1..][..n] == p[..n + 1]
    ensures p[n + 1..] + [] == p[n + 1..] && p[..n + 1] + p[n + 1..] == p
  {
  }

  /** The tokens of a path that starts with a field, against those of the segments after it. */
  lemma FieldTokens(p: Path)
    requires p != [] && p[0].Field? && AllPrintable(p)
    ensures var ts := PathTokens(p, true) + [EndOfInput];
      && TokenList(ts) && ts == [Identifier(p[0].name)] + Ending(p[1..]) && ts[1..] == Ending(p[1..])
      && ts[0] == Identifier(p[0].name)
      && Ending(p) == [Dot] + ts && Ending(p)[1..] == ts && Ending(p)[0] == Dot
  {
    hide PrintableSegment, Ending, PathTokens, TokenList;
    EndingIsList(p[1..]);
    ConsTokens(Identifier(p[0].name), Ending(p[1..]));
    FieldFirst(p);
    ConsFirst(Dot, PathTokens(p, true) + [EndOfInput]);
  }

  lemma FieldFirst(p: Path)
    requires p != [] && p[0].Field?
    ensures PathTokens(p, true) + [EndOfInput] == [Identifier(p[0].name)] + Ending(p[1..])
    ensures Ending(p) == [Dot] + (PathTokens(p, true) + [EndOfInput])
  {
    var rest := PathTokens(p[1..], false);
    assert PathTokens(p, true) == [Identifier(p[0].name)] + rest;
    assert PathTokens(p, false) == [Dot, Identifier(p[0].name)] + rest;
  }

  lemma ConsFirst(t: Token, ts: seq<Token>)
    ensures ([t] + ts)[1..] == ts && ([t] + ts)[0] == t
  {
  }

  lemma BracketTokens(p: Path)
    requires p != [] && !p[0].Field? && AllPrintable(p)
    ensures var ts := Ending(p); |ts| > 3 && ts[3..] == Ending(p[1..])
    ensures var ts := Ending(p); ts[0] == LeftBracket && ts[2] == RightBracket && ts[1] == Tokens(p[0], false)[1]
  {
    hide PrintableSegment;
    assert Ending(p) == Tokens(p[0], false) + Ending(p[1..]);
  }

  function BracketNode(s: Segment): Node
    requires !s.Field? && PrintableSegment(s)
  {
    if s.Index? then IndexNode(s.i) else WildcardNode
  }

  /** One bracket is consumed whole. */
  lemma BracketStep(node: Node, p: Path)
    requires p != [] && !p[0].Field? && AllPrintable(p) && TokenList(Ending(p)) && TokenList(Ending(p[1..]))
    ensures ParseBrackets(node, Ending(p)) == ParseBrackets(DotNode(node, BracketNode(p[0])), Ending(p[1..]))
  {
    hide Ending, TokenList;
    BracketTokens(p);
    if p[0].Index? {
      AtoiDecimal(p[0].i);
    }
  }

  ghost predicate BracketsRead(node: Node, p: Path, r: Parsed) {
    var n := Brackets(p);
    r.Done? && r.rest == Ending(p[n..]) && Flatten(r.node) == Flatten(node) + p[..n]
  }

  lemma NoBracketsParse(node: Node, p: Path)
    requires AllPrintable(p) && TokenList(Ending(p)) && (p == [] || p[0].Field?)
    ensures BracketsRead(node, p, ParseBrackets(node, Ending(p)))
  {
    assert p[0..] == p && Flatten(node) + p[..0] == Flatten(node);
  }

  /** All brackets in front are consumed, one after the other. */
  lemma {:induction false} BracketsParse(node: Node, p: Path)
    requires AllPrintable(p)
    ensures TokenList(Ending(p))
    ensures BracketsRead(node, p, ParseBrackets(node, Ending(p)))
    decreases |p|
  {
    hide Ending, TokenList, ParseBrackets, BracketsRead, PrintableSegment;
    EndingIsList(p);
    if p == [] || p[0].Field? {
      NoBracketsParse(node, p);
    } else {
      EndingIsList(p[1..]);
      BracketStep(node, p);
      BracketsParse(DotNode(node, BracketNode(p[0])), p[1..]);
      BracketReadMore(node, p, ParseBrackets(DotNode(node, BracketNode(p[0])), Ending(p[1..])));
    }
  }

  lemma BracketReadMore(node: Node, p: Path, r: Parsed)
    requires p != [] && !p[0].Field? && PrintableSegment(p[0])
    requires BracketsRead(DotNode(node, BracketNode(p[0])), p[1..], r)
    ensures BracketsRead(node, p, r)
  {
    hide Ending;
    var n := Brackets(p[1..]);
    assert Flatten(BracketNode(p[0])) == [p[0]];
    TakeAfterFirst(p, n);
  }

  /** A field and its brackets are one primary expression. */
  lemma PrimaryParses(p: Path)
    requires p != [] && p[0].Field? && AllPrintable(p)
    ensures var ts := PathTokens(p, true) + [EndOfInput]; var n := 1 + Brackets(p[1..]);
      && TokenList(ts) && var r := ParsePrimary(ts);
      && r.Done? && r.rest == Ending(p[n..]) && Flatten(r.node) == p[..n]
  {
    hide ParseBrackets, Ending, TokenList, PathTokens, PrintableSegment;
    FieldTokens(p);
    BracketsParse(IdentifierNode(p[0].name), p[1..]);
    TakeAfterFirst(p, Brackets(p[1..]));
  }

  lemma {:induction false} DotsParse(left: Node, p: Path)
    requires (p == [] || p[0].Field?) && AllPrintable(p)
    ensures TokenList(Ending(p))
    ensures var r := ParseDots(left, Ending(p));
      r.Done? && r.rest == [EndOfInput] && Flatten(r.node) == Flatten(left) + p
    decreases |p|
  {
    EndingIsList(p);
    if p == [] {
      assert Ending(p) == [EndOfInput] && Flatten(left) + p == Flatten(left);
    } else {
      hide ParsePrimary, Ending, TokenList, PathTokens, PrintableSegment;
      FieldTokens(p);
      PrimaryParses(p);
      var n := 1 + Brackets(p[1..]);
      TakeAfterFirst(p, n - 1);
      assert n < |p| ==> p[n..][0] == p[n];
      var right := ParsePrimary(PathTokens(p, true) + [EndOfInput]);
      DotsParse(DotNode(left, right.node), p[n..]);
      AppendTwo(Flatten(left), p[..n], p[n..]);
    }
  }

  lemma AppendTwo(a: Path, b: Path, c: Path)
    ensures (a + b) + c == a + (b + c)
  {
  }

  lemma PathParses(p: Path)
    requires Printable(p)
    ensures var ts := PathTokens(p, true) + [EndOfInput];
      && TokenList(ts) && var r := ParseTokens(ts);
      && r.Ok? && Flatten(r.value) == p
  {
    hide ParsePrimary, Ending, TokenList, PathTokens, PrintableSegment;
    FieldTokens(p);
    PrimaryParses(p);
    var ts := PathTokens(p, true) + [EndOfInput];
    var n := 1 + Brackets(p[1..]);
    TakeAfterFirst(p, n - 1);
    assert n < |p| ==> p[n..][0] == p[n];
    DotsParse(ParsePrimary(ts).node, p[n..]);
  }

  /** Any spelling of a printable path, whatever whitespace stands between its tokens, parses to that path. */
  lemma SpelledPathParses(p: Path, gaps: seq<string>)
    requires Printable(p) && |gaps| == |PathTokens(p, true)| + 1 && forall k | 0 <= k < |gaps| :: AllSpace(gaps[k])
    ensures PathOf(Spell(PathTokens(p, true), gaps)) == Ok(p)
  {
    hide ParseTokens, Lex, Spell, AllSpace, Separated;
    var ts := PathTokens(p, true);
    var s := Spell(ts, gaps);
    PathTokensSeparated(p, true);
    assert s[0..0 + |s|] == s;
    LexSpelled(s, 0, ts, gaps);
    PathParses(p);
  }

  // ---- the printed path is one of the spellings ----

  function NoGaps(n: nat): (gaps: seq<string>)
    ensures |gaps| == n && forall k | 0 <= k < n :: AllSpace(gaps[k])
  {
    seq(n, _ => "")
  }

  function Joined(ts: seq<Token>): string {
    if ts == [] then "" else TokenText(ts[0]) + Joined(ts[1..])
  }

  lemma {:induction false} NoGapsJoined(ts: seq<Token>)
    ensures Spell(ts, NoGaps(|ts| + 1)) == Joined(ts)
  {
    if ts != [] {
      assert NoGaps(|ts| + 1)[1..] == NoGaps(|ts|);
      NoGapsJoined(ts[1..]);
    }
  }

  lemma {:induction false} JoinedCat(a: seq<Token>, b: seq<Token>)
    ensures Joined(a + b) == Joined(a) + Joined(b)
  {
    if a == [] {
      assert a + b == b;
    } else {
      assert (a + b)[1..] == a[1..] + b;
      JoinedCat(a[1..], b);
    }
  }

  lemma SegmentText(s: Segment, printed: string)
    requires PrintableSegment(s)
    ensures Joined(Tokens(s, printed == "")) == match s
      case Field(name) => if printed == "" then name else "." + name
      case Index(i) => "[" + DecimalInt(i) + "]"
      case Wildcard => "[*]"
  {
    hide DecimalInt;
    match s
    case Field(name) =>
      JoinedTwo(Dot, Identifier(name));
      JoinedOne(Identifier(name));
    case Index(i) => JoinedThree(LeftBracket, Number(DecimalInt(i)), RightBracket);
    case Wildcard => JoinedThree(LeftBracket, Star, RightBracket);
  }

  lemma JoinedOne(t: Token)
    ensures Joined([t]) == TokenText(t)
  {
    assert [t][1..] == [] && Joined([]) == "";
  }

  lemma JoinedTwo(t: Token, u: Token)
    ensures Joined([t, u]) == TokenText(t) + TokenText(u)
  {
    assert [t, u][1..] == [u];
    JoinedOne(u);
  }

  lemma JoinedThree(t: Token, u: Token, v: Token)
    ensures Joined([t, u, v]) == TokenText(t) + TokenText(u) + TokenText(v)
  {
    assert [t, u, v][1..] == [u, v];
    JoinedTwo(u, v);
  }

  lemma {:induction false} FormatFromIs(printed: string, p: Path)
    requires AllPrintable(p) && (printed == "" && p != [] ==> p[0].Field?)
    ensures FormatFrom(printed, p) == printed + Joined(PathTokens(p, printed == ""))
    decreases |p|
  {
    hide DecimalInt, IsName, Joined, Tokens, PrintableSegment;
    if p == [] {
      JoinedNone();
      assert printed + "" == printed;
    } else {
      var piece := Joined(Tokens(p[0], printed == ""));
      var rest := PathTokens(p[1..], false);
      PieceNonempty(p[0], printed);
      FormatStep(printed, p);
      FormatFromIs(printed + piece, p[1..]);
      JoinedCat(Tokens(p[0], printed == ""), rest);
      assert (printed + piece) + Joined(rest) == printed + (piece + Joined(rest));
    }
  }

  lemma JoinedNone()
    ensures Joined([]) == ""
  {
  }

  lemma PieceNonempty(s: Segment, printed: string)
    requires PrintableSegment(s)
    ensures Joined(Tokens(s, printed == "")) != ""
  {
    SegmentText(s, printed);
  }

  lemma FormatStep(printed: string, p: Path)
    requires p != [] && PrintableSegment(p[0])
    ensures FormatFrom(printed, p) == FormatFrom(printed + Joined(Tokens(p[0], printed == "")), p[1..])
  {
    hide DecimalInt, IsName;
    SegmentText(p[0], printed);
    match p[0]
    case Field(name) =>
      assert printed + "." + name == printed + ("." + name);
      assert printed == "" ==> printed + name == name;
    case Index(i) =>
      assert printed + "[" + DecimalInt(i) + "]" == printed + ("[" + DecimalInt(i) + "]");
    case Wildcard =>
  }

  /** Printing a path and parsing the result gives the path back. */
  lemma PrintedPathParses(p: Path)
    requires Printable(p)
    ensures PathOf(FormatPathSpec(p)) == Ok(p)
  {
    hide PathOf, Spell, PathTokens, PrintableSegment;
    var ts := PathTokens(p, true);
    FormatFromIs("", p);
    NoGapsJoined(ts);
    assert "" + Joined(ts) == Joined(ts);
    SpelledPathParses(p, NoGaps(|ts| + 1));
  }

  // ---- names ----

  predicate NamesOk(ts: seq<Token>) {
    forall k | 0 <= k < |ts| :: ts[k].Identifier? ==> IsName(ts[k].name)
  }

  lemma {:induction false} NameRun(s: string, i: nat)
    requires i <= |s|
    ensures forall k | i <= k < NameEnd(s, i) :: IsNameChar(s[k])
    decreases |s| - i
  {
    if i < |s| && IsNameChar(s[i]) {
      NameRun(s, i + 1);
    }
  }

  lemma {:induction false} LexedNames(s: string, i: nat)
    requires i <= |s|
    ensures NamesOk(Lex(s, i))
    decreases |s| - i
  {
    hide IsNameChar, TokenList;
    var (t, j) := NextToken(s, i);
    if t.Identifier? {
      LexedName(s, i);
    }
    if !Terminal(t) {
      hide IsName;
      LexedNames(s, j);
    }
  }

  lemma LexedName(s: string, i: nat)
    requires i <= |s| && NextToken(s, i).0.Identifier?
    ensures IsName(NextToken(s, i).0.name)
  {
    var p := SkipSpace(s, i);
    NameRun(s, p);
  }
}
