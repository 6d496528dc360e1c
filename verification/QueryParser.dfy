/**
 The recursive-descent query parser with one token of lookahead, and the flattening of its syntax
 tree into a path.
 */
module QueryParser {
  import opened QueryLexer

  datatype Segment = Field(name: string) | Index(i: int) | Wildcard

  type Path = seq<Segment>

  datatype Node =
    | IdentifierNode(name: string)
    | IndexNode(i: nat)
    | WildcardNode
    | DotNode(left: Node, right: Node)
    | RootNode(child: Node)

  datatype QueryError = EmptyQuery | ExpectedIdentifier | ExpectedIndex | InvalidIndex | ExpectedBracket | TrailingToken

  datatype Result<T> = Ok(value: T) | Err(error: QueryError)

  const MAX_INT: nat := 0x7FFF_FFFF_FFFF_FFFF

  // ---- specification, on token lists ----

  datatype Parsed = Failed(error: QueryError) | Done(node: Node, rest: seq<Token>)

  function DigitValue(c: char): nat
    requires IsDigit(c)
  {
    c as int - '0' as int
  }

  function DecimalValue(s: string): nat
    requires forall k | 0 <= k < |s| :: IsDigit(s[k])
  {
    if s == [] then 0 else 10 * DecimalValue(s[..|s| - 1]) + DigitValue(s[|s| - 1])
  }

  /** `strconv.Atoi` on the digits of a number token: fails on a value that does not fit an int. */
  function Atoi(s: string): Result<nat> {
    if s != [] && (forall k | 0 <= k < |s| :: IsDigit(s[k])) && DecimalValue(s) <= MAX_INT then Ok(DecimalValue(s))
    else Err(InvalidIndex)
  }

  function ParseBrackets(node: Node, ts: seq<Token>): (r: Parsed)
    requires TokenList(ts)
    ensures r.Done? ==> TokenList(r.rest) && |r.rest| <= |ts|
    decreases |ts|
  {
    if !ts[0].LeftBracket? then Done(node, ts)
    else if ts[1].Star? then
      if !ts[2].RightBracket? then Failed(ExpectedBracket)
      else ParseBrackets(DotNode(node, WildcardNode), ts[3..])
    else if ts[1].Number? then
      var n := Atoi(ts[1].digits);
      if n.Err? then Failed(n.error)
      else if !ts[2].RightBracket? then Failed(ExpectedBracket)
      else ParseBrackets(DotNode(node, IndexNode(n.value)), ts[3..])
    else Failed(ExpectedIndex)
  }

  function ParsePrimary(ts: seq<Token>): (r: Parsed)
    requires TokenList(ts)
    ensures r.Done? ==> TokenList(r.rest) && |r.rest| < |ts|
  {
    if !ts[0].Identifier? then Failed(ExpectedIdentifier)
    else ParseBrackets(IdentifierNode(ts[0].name), ts[1..])
  }

  function ParseDots(left: Node, ts: seq<Token>): (r: Parsed)
    requires TokenList(ts)
    ensures r.Done? ==> TokenList(r.rest) && |r.rest| <= |ts|
    decreases |ts|
  {
    if !ts[0].Dot? then Done(left, ts)
    else
      var right := ParsePrimary(ts[1..]);
      if right.Failed? then right else ParseDots(DotNode(left, right.node), right.rest)
  }

  function ParseExpression(ts: seq<Token>): (r: Parsed)
    requires TokenList(ts)
    ensures r.Done? ==> TokenList(r.rest)
  {
    var left := ParsePrimary(ts);
    if left.Failed? then left else ParseDots(left.node, left.rest)
  }

  function ParseTokens(ts: seq<Token>): Result<Node>
    requires TokenList(ts)
  {
    if ts[0].EndOfInput? then Err(EmptyQuery)
    else
      var r := ParseExpression(ts);
      if r.Failed? then Err(r.error)
      else if !r.rest[0].EndOfInput? then Err(TrailingToken)
      else Ok(RootNode(r.node))
  }

  function ParseQuerySpec(query: string): Result<Node> {
    ParseTokens(Lex(query, 0))
  }

  /** The segments of a tree, from left to right. */
  function Flatten(node: Node): Path {
    match node
    case IdentifierNode(name) => [Field(name)]
    case IndexNode(i) => [Index(i)]
    case WildcardNode => [Wildcard]
    case DotNode(left, right) => Flatten(left) + Flatten(right)
    case RootNode(child) => Flatten(child)
  }

  function PathOf(query: string): Result<Path> {
    match ParseQuerySpec(query) case Ok(root) => Ok(Flatten(root)) case Err(e) => Err(e)
  }

  // ---- the parser ----

  class Parser {
    const lexer: Lexer
    var current: Token
    var peek: Token

    ghost predicate Valid()
      reads this, lexer
    {
      && lexer.pos <= |lexer.input|
      && (Terminal(current) ==> current == peek)
      && (Terminal(peek) ==> peek == NextToken(lexer.input, lexer.pos).0)
    }

    /** The tokens still to be parsed: the two held ones and those the lexer has not reached. */
    ghost function Remaining(): (ts: seq<Token>)
      requires Valid()
      reads this, lexer
      ensures TokenList(ts) && ts[0] == current
    {
      if Terminal(current) then [current]
      else if Terminal(peek) then [current, peek]
      else [current, peek] + Lex(lexer.input, lexer.pos)
    }

    constructor (input: string)
      ensures fresh(lexer) && lexer.input == input && lexer.pos == 0
    {
      lexer := new Lexer(input);
      current, peek := EndOfInput, EndOfInput;
    }

    /** Fills both held tokens. */
    method Prime()
      requires lexer.pos == 0
      modifies this, lexer
      ensures Valid() && Remaining() == Lex(lexer.input, 0)
    {
      hide Lex, NextToken;
      LexUnfolds(lexer.input, 0);
      TerminalStays(lexer.input, 0);
      current := lexer.Next();
      LexUnfolds(lexer.input, lexer.pos);
      TerminalStays(lexer.input, lexer.pos);
      peek := lexer.Next();
    }

    method Advance()
      requires Valid() && !Terminal(current)
      modifies this, lexer
      ensures Valid() && Remaining() == old(Remaining())[1..]
    {
      LexUnfolds(lexer.input, lexer.pos);
      TerminalStays(lexer.input, lexer.pos);
      current := peek;
      peek := lexer.Next();
    }

    /** What a parsing method does, as a function of the tokens it starts from. */
    twostate predicate Follows(r: Parsed, new result: Result<Node>)
      requires Valid()
      reads this, lexer
    {
      match r
      case Failed(e) => result == Err(e)
      case Done(node, rest) => result == Ok(node) && Remaining() == rest
    }

    method ParsePrimaryNode() returns (result: Result<Node>)
      requires Valid()
      modifies this, lexer
      ensures Valid()
      ensures Follows(ParsePrimary(old(Remaining())), result)
    {
      hide Lex, NextToken;
      if !current.Identifier? {
        return Err(ExpectedIdentifier);
      }
      var node := IdentifierNode(current.name);
      ghost var all := ParsePrimary(Remaining());
      Advance();
      while current.LeftBracket?
        invariant Valid() && ParseBrackets(node, Remaining()) == all
        decreases |Remaining()|
      {
        var right;
        right := ParseBracket();
        match right
        case Err(e) => return Err(e);
        case Ok(n) => node := DotNode(node, n);
      }
      return Ok(node);
    }

    /** One `[*]` or `[index]`. */
    method ParseBracket() returns (result: Result<Node>)
      requires Valid() && current.LeftBracket?
      modifies this, lexer
      ensures Valid()
      ensures result.Ok? ==> |old(Remaining())| > 3 && Remaining() == old(Remaining())[3..]
      ensures forall node :: (
        ParseBrackets(node, old(Remaining())) ==
          if result.Err? then Failed(result.error) else ParseBrackets(DotNode(node, result.value), Remaining()))
    {
      hide Lex, NextToken;
      ghost var ts := Remaining();
      Advance();
      if current.Star? {
        Advance();
        if !current.RightBracket? {
          return Err(ExpectedBracket);
        }
        Advance();
        return Ok(WildcardNode);
      } else if current.Number? {
        var index := Atoi(current.digits);
        if index.Err? {
          return Err(index.error);
        }
        Advance();
        if !current.RightBracket? {
          return Err(ExpectedBracket);
        }
        Advance();
        return Ok(IndexNode(index.value));
      } else {
        return Err(ExpectedIndex);
      }
    }

    method ParseExpressionNode() returns (result: Result<Node>)
      requires Valid()
      modifies this, lexer
      ensures Valid()
      ensures Follows(ParseExpression(old(Remaining())), result)
    {
      hide Lex, NextToken, ParsePrimary;
      ghost var all := ParseExpression(Remaining());
      result := ParsePrimaryNode();
      if result.Err? {
        return;
      }
      while current.Dot?
        invariant Valid() && result.Ok? && ParseDots(result.value, Remaining()) == all
        decreases |Remaining()|
      {
        var left := result.value;
        Advance();
        result := ParsePrimaryNode();
        if result.Err? {
          return;
        }
        result := Ok(DotNode(left, result.value));
      }
    }

    method Parse() returns (result: Result<Node>)
      requires Valid()
      modifies this, lexer
      ensures result == ParseTokens(old(Remaining()))
    {
      if current.EndOfInput? {
        return Err(EmptyQuery);
      }
      result := ParseExpressionNode();
      if result.Err? {
        return;
      }
      if !current.EndOfInput? {
        return Err(TrailingToken);
      }
      return Ok(RootNode(result.value));
    }
  }

  lemma LexUnfolds(s: string, i: nat)
    requires i <= |s|
    ensures var (t, j) := NextToken(s, i); Lex(s, i) == if Terminal(t) then [t] else [t] + Lex(s, j)
  {
  }

  /** A terminal token does not move the lexer past anything but whitespace. */
  lemma TerminalStays(s: string, i: nat)
    requires i <= |s|
    ensures var (t, j) := NextToken(s, i); Terminal(t) ==> NextToken(s, j) == (t, j)
  {
  }

  method ParseQuery(input: string) returns (result: Result<Node>)
    ensures result == ParseQuerySpec(input)
  {
    var parser := new Parser(input);
    parser.Prime();
    result := parser.Parse();
  }

  /** Appends the segments of a tree to a path, as the traversal visits them. */
  method Traverse(node: Node, path: Path) returns (longer: Path)
    ensures longer == path + Flatten(node)
  {
    match node
    case IdentifierNode(name) => longer := path + [Field(name)];
    case IndexNode(i) => longer := path + [Index(i)];
    case WildcardNode => longer := path + [Wildcard];
    case DotNode(left, right) =>
      longer := Traverse(left, path);
      longer := Traverse(right, longer);
    case RootNode(child) => longer := Traverse(child, path);
  }

  method SimplifyNode(node: Node) returns (path: Path)
    ensures path == Flatten(node)
  {
    path := Traverse(node, []);
  }

  method PathFromQuery(query: string) returns (result: Result<Path>)
    ensures result == PathOf(query)
  {
    var root := ParseQuery(query);
    match root
    case Err(e) => return Err(e);
    case Ok(node) =>
      var path := SimplifyNode(node.child);
      return Ok(path);
  }
}
