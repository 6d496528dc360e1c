/**
 The query parser as a finite automaton. Each token is accepted or refused by what stands directly
 before it, so the error of a malformed query is about the first token that does not fit, and says
 what was expected there.
 */
module QueryAutomaton {
  import opened QueryLexer
  import opened QueryParser
  import opened QueryRoundTrip
  import opened QueryGrammar

  /** Nothing yet; a name must follow; a segment is complete; inside a bracket; before its end. */
  datatype State = Start | NeedName | Complete | NeedIndex | NeedClose

  /** Reading the remaining tokens, with the segments read so far. */
  function Drive(state: State, path: Path, ts: seq<Token>): Result<Path>
    requires TokenList(ts)
    decreases |ts|, if state == Start then 1 else 0
  {
    var t := ts[0];
    match state
    case Start => if t == EndOfInput then Err(EmptyQuery) else Drive(NeedName, path, ts)
    case NeedName => if t.Identifier? then Drive(Complete, path + [Field(t.name)], ts[1..]) else Err(ExpectedIdentifier)
    case Complete =>
      if t == EndOfInput then Ok(path)
      else if t == Dot then Drive(NeedName, path, ts[1..])
      else if t == LeftBracket then Drive(NeedIndex, path, ts[1..])
      else Err(TrailingToken)
    case NeedIndex =>
      if t == Star then Drive(NeedClose, path + [Wildcard], ts[1..])
      else if !t.Number? then Err(ExpectedIndex)
      else if AllDigits(t.digits) && DecimalValue(t.digits) <= MAX_INT then
        Drive(NeedClose, path + [Index(DecimalValue(t.digits))], ts[1..])
      else Err(InvalidIndex)
    case NeedClose => if t == RightBracket then Drive(Complete, path, ts[1..]) else Err(ExpectedBracket)
  }

  /** The bracket loop leaves the automaton where it found it, behind a complete segment. */
  lemma {:induction false} BracketsDrive(path: Path, node: Node, ts: seq<Token>)
    requires TokenList(ts)
    ensures var r := ParseBrackets(node, ts);
      Drive(Complete, path + Flatten(node), ts) ==
        if r.Failed? then Err(r.error) else Drive(Complete, path + Flatten(r.node), r.rest)
    ensures ParseBrackets(node, ts).Done? ==> !ParseBrackets(node, ts).rest[0].LeftBracket?
    decreases |ts|
  {
    hide DecimalValue;
    if ts[0].LeftBracket? {
      var here, inner := path + Flatten(node), ts[1..];
      assert Drive(Complete, here, ts) == Drive(NeedIndex, here, inner);
      assert inner[0] == ts[1] && (!Terminal(ts[1]) ==> inner[1..] == ts[2..]);
      if ts[1].Star? || (ts[1].Number? && Atoi(ts[1].digits).Ok?) {
        var item := if ts[1].Star? then WildcardNode else IndexNode(Atoi(ts[1].digits).value);
        var longer := here + Flatten(item);
        assert Drive(NeedIndex, here, inner) == Drive(NeedClose, longer, ts[2..]);
        if ts[2].RightBracket? {
          assert ts[2..][1..] == ts[3..];
          assert Drive(NeedClose, longer, ts[2..]) == Drive(Complete, longer, ts[3..]);
          BracketsDrive(path, DotNode(node, item), ts[3..]);
          assert path + Flatten(DotNode(node, item)) == longer;
        }
      }
    }
  }

  lemma PrimaryDrive(path: Path, ts: seq<Token>)
    requires TokenList(ts)
    ensures var r := ParsePrimary(ts);
      Drive(NeedName, path, ts) == if r.Failed? then Err(r.error) else Drive(Complete, path + Flatten(r.node), r.rest)
    ensures ParsePrimary(ts).Done? ==> !ParsePrimary(ts).rest[0].LeftBracket?
  {
    hide ParseBrackets;
    if ts[0].Identifier? {
      BracketsDrive(path, IdentifierNode(ts[0].name), ts[1..]);
    }
  }

  lemma {:induction false} DotsDrive(left: Node, ts: seq<Token>)
    requires TokenList(ts) && !ts[0].LeftBracket?
    ensures var r := ParseDots(left, ts);
      Drive(Complete, Flatten(left), ts) ==
        if r.Failed? then Err(r.error) else if r.rest[0].EndOfInput? then Ok(Flatten(r.node)) else Err(TrailingToken)
    decreases |ts|
  {
    hide ParsePrimary;
    if ts[0].Dot? {
      PrimaryDrive(Flatten(left), ts[1..]);
      var right := ParsePrimary(ts[1..]);
      if right.Done? {
        DotsDrive(DotNode(left, right.node), right.rest);
      }
    }
  }

  lemma TokensDrive(ts: seq<Token>)
    requires TokenList(ts)
    ensures Drive(Start, [], ts) ==
      match ParseTokens(ts) case Ok(root) => Ok(Flatten(root)) case Err(e) => Err(e)
  {
    hide ParsePrimary, ParseDots;
    if !ts[0].EndOfInput? {
      PrimaryDrive([], ts);
      var left := ParsePrimary(ts);
      if left.Done? {
        assert [] + Flatten(left.node) == Flatten(left.node);
        DotsDrive(left.node, left.rest);
      }
    }
  }

  /** Path or error, the parser gives what the automaton gives on the tokens of the query. */
  lemma ParserIsAutomaton(query: string)
    ensures PathOf(query) == Drive(Start, [], Lex(query, 0))
  {
    hide ParseTokens, Lex, Drive;
    TokensDrive(Lex(query, 0));
  }

  // ---- which error ----

  /** Tokens that could begin a query, and the state behind them. */
  ghost predicate Reached(ts: seq<Token>, state: State)
    decreases |ts|
  {
    if ts == [] then state == Start
    else
      var before, t := ts[..|ts| - 1], ts[|ts| - 1];
      match state
      case Start => false
      case NeedName => t == Dot && Reached(before, Complete)
      case Complete => (t.Identifier? && (Reached(before, Start) || Reached(before, NeedName))) || (t == RightBracket && Reached(before, NeedClose))
      case NeedIndex => t == LeftBracket && Reached(before, Complete)
      case NeedClose =>
        Reached(before, NeedIndex) && (t == Star || (t.Number? && AllDigits(t.digits) && DecimalValue(t.digits) <= MAX_INT))
  }

  /** What is wrong with a token in a state. */
  predicate Refuses(state: State, t: Token, e: QueryError) {
    match state
    case Start => e == if t == EndOfInput then EmptyQuery else ExpectedIdentifier
    case NeedName => e == ExpectedIdentifier
    case Complete => e == TrailingToken
    case NeedIndex => e == if t.Number? then InvalidIndex else ExpectedIndex
    case NeedClose => e == ExpectedBracket
  }

  predicate Fits(state: State, t: Token) {
    match state
    case Start | NeedName => t.Identifier?
    case Complete => t == EndOfInput || t == Dot || t == LeftBracket
    case NeedIndex => t == Star || (t.Number? && AllDigits(t.digits) && DecimalValue(t.digits) <= MAX_INT)
    case NeedClose => t == RightBracket
  }

  /** The error of a query is about the first token that does not fit what stands before it. */
  ghost predicate FirstMisfit(ts: seq<Token>, n: nat, e: QueryError) {
    n < |ts| && exists state :: Reached(ts[..n], state) && !Fits(state, ts[n]) && Refuses(state, ts[n], e)
  }

  lemma {:induction false} DriveErrs(state: State, path: Path, ts: seq<Token>, n: nat) returns (m: nat)
    requires TokenList(ts) && n < |ts| && TokenList(ts[n..]) && Reached(ts[..n], state)
    ensures match Drive(state, path, ts[n..])
      case Ok(_) => true
      case Err(e) => FirstMisfit(ts, m, e)
    decreases |ts| - n, if state == Start then 1 else 0
  {
    hide DecimalValue;
    m := n;
    var t := ts[n];
    assert ts[n..][0] == t && ts[n..][1..] == ts[n + 1..];
    if !Fits(state, t) {
      MisfitErrs(state, path, ts[n..]);
      if Drive(state, path, ts[n..]).Err? {
        assert Refuses(state, t, Drive(state, path, ts[n..]).error);
      }
    } else if !(state == Complete && t == EndOfInput) {
      assert ts[..n + 1][..n] == ts[..n] && ts[..n + 1][n] == t;
      var next, longer := Next(state, t), Longer(path, t);
      assert Reached(ts[..n + 1], next);
      FitsOn(state, path, ts[n..]);
      m := DriveErrs(next, longer, ts, n + 1);
    }
  }

  function Next(state: State, t: Token): State {
    match t
    case Identifier(_) => Complete
    case Dot => NeedName
    case LeftBracket => NeedIndex
    case RightBracket => Complete
    case _ => NeedClose
  }

  function Longer(path: Path, t: Token): Path {
    match t
    case Identifier(name) => path + [Field(name)]
    case Star => path + [Wildcard]
    case Number(digits) => if AllDigits(digits) then path + [Index(DecimalValue(digits))] else path
    case _ => path
  }

  lemma FitsOn(state: State, path: Path, ts: seq<Token>)
    requires TokenList(ts) && Fits(state, ts[0]) && !(state == Complete && ts[0] == EndOfInput)
    ensures |ts| > 1 && TokenList(ts[1..]) && Drive(state, path, ts) == Drive(Next(state, ts[0]), Longer(path, ts[0]), ts[1..])
  {
    hide DecimalValue;
  }

  lemma MisfitErrs(state: State, path: Path, ts: seq<Token>)
    requires TokenList(ts) && !Fits(state, ts[0])
    ensures Drive(state, path, ts).Err? && Refuses(state, ts[0], Drive(state, path, ts).error)
  {
    hide DecimalValue;
  }

  /** Every error of a query is about the first token that does not fit. */
  lemma ErrorIsFirstMisfit(query: string) returns (m: nat)
    requires PathOf(query).Err?
    ensures FirstMisfit(Lex(query, 0), m, PathOf(query).error)
  {
    hide PathOf, Lex, Drive;
    var ts := Lex(query, 0);
    assert ts[0..] == ts && ts[..0] == [];
    ParserIsAutomaton(query);
    m := DriveErrs(Start, [], ts, 0);
  }

  /** A query is called empty exactly when there is nothing but whitespace in it. */
  lemma BlankIsEmpty(query: string)
    ensures PathOf(query) == Err(EmptyQuery) <==> AllSpace(query)
  {
    var ts := Lex(query, 0);
    SpaceRun(query, 0);
    if AllSpace(query) {
      assert query[0..0 + |query|] == query;
      SkipsGap(query, 0, query);
    }
    if PathOf(query) == Err(EmptyQuery) {
      hide PathOf, Lex;
      var m := ErrorIsFirstMisfit(query);
      var state :| Reached(ts[..m], state) && !Fits(state, ts[m]) && Refuses(state, ts[m], EmptyQuery);
      assert state == Start && m == 0;
    }
    FirstEnd(query);
  }

  lemma FirstEnd(query: string)
    ensures Lex(query, 0)[0] == EndOfInput <==> SkipSpace(query, 0) == |query|
  {
  }
}
