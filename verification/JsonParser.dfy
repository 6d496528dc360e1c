/**
 The tokenizing parser with its selectable fast paths. Each scanner is the source's loop, proved
 against the scanner functions; `Parse` is proved against `ScanValue` for every choice of paths.
 */
module JsonParser {
  import opened Words
  import opened Atoms
  import opened JsonGrammar
  import opened JsonScan

  // ---- tokens ----

  datatype TokenType =
    | TokenString | TokenNumber | TokenTrue | TokenFalse | TokenNull
    | TokenObjectStart | TokenObjectEnd | TokenArrayStart | TokenArrayEnd | TokenColon | TokenComma
    | TokenKey64 | TokenKey128

  datatype Token = Token(typ: TokenType, offset: nat, length: nat, atom64: bv64, atom128: Atom128)

  /** The conversion of an offset or length to 32 bits. */
  function U32(n: nat): nat {
    n % 0x1_0000_0000
  }

  function PlainToken(typ: TokenType, offset: nat, length: nat): Token {
    Token(typ, U32(offset), U32(length), 0, NO_ATOM)
  }

  /** How member names are turned into tokens. */
  datatype KeyMode = AtomKeys | StringKeys

  function KeyToken(mode: KeyMode, name: Bytes, offset: nat, length: nat): Token {
    if mode.AtomKeys? && |name| <= 8 then Token(TokenKey64, 0, 0, Atom64Of(name), NO_ATOM)
    else if mode.AtomKeys? && |name| <= 16 then Token(TokenKey128, 0, 0, 0, Atom128Of(name))
    else PlainToken(TokenString, offset, length)
  }

  function PlainType(t: EventType): TokenType {
    match t
    case KeyString | ValueString => TokenString
    case NumberText => TokenNumber
    case Word(l) => (match l case True => TokenTrue case False => TokenFalse case Null => TokenNull)
    case Opening(k) => if k.Obj? then TokenObjectStart else TokenArrayStart
    case Closing(k) => if k.Obj? then TokenObjectEnd else TokenArrayEnd
    case ColonMark => TokenColon
    case CommaMark => TokenComma
  }

  /** The bytes between the quotes of a string event. */
  function Unquoted(d: Bytes, ev: Event): Bytes {
    if 2 <= ev.length && ev.offset + ev.length <= |d| then d[ev.offset + 1..ev.offset + ev.length - 1] else []
  }

  function TokenOf(mode: KeyMode, d: Bytes, ev: Event): Token {
    if ev.typ.KeyString? then KeyToken(mode, Unquoted(d, ev), ev.offset, ev.length)
    else PlainToken(PlainType(ev.typ), ev.offset, ev.length)
  }

  function Encode(mode: KeyMode, d: Bytes, evs: seq<Event>): (ts: seq<Token>)
    ensures |ts| == |evs|
  {
    seq(|evs|, i requires 0 <= i < |evs| => TokenOf(mode, d, evs[i]))
  }

  lemma EncodeCat(mode: KeyMode, d: Bytes, a: seq<Event>, b: seq<Event>)
    ensures Encode(mode, d, a + b) == Encode(mode, d, a) + Encode(mode, d, b)
  {
  }

  lemma EncodeOne(mode: KeyMode, d: Bytes)
    ensures forall ev :: Encode(mode, d, [ev]) == [TokenOf(mode, d, ev)]
  {
  }

  lemma EncodeTwo(mode: KeyMode, d: Bytes, a: Event, b: Event)
    ensures Encode(mode, d, [a, b]) == [TokenOf(mode, d, a)] + [TokenOf(mode, d, b)]
  {
  }

  lemma ColonToken(mode: KeyMode, d: Bytes, at: nat)
    ensures TokenOf(mode, d, Event(ColonMark, at, 1)) == Token(TokenColon, U32(at), U32(1), 0, NO_ATOM)
  {
  }

  lemma EncodeNone(mode: KeyMode, d: Bytes)
    ensures Encode(mode, d, []) == []
  {
  }

  lemma EncodeRound(mode: KeyMode, d: Bytes, done: seq<Event>, comma: seq<Event>, item: seq<Event>)
    ensures Encode(mode, d, done + (comma + item)) == Encode(mode, d, done) + Encode(mode, d, comma) + Encode(mode, d, item)
  {
    hide Encode;
    EncodeCat(mode, d, comma, item);
    EncodeCat(mode, d, done, comma + item);
  }

  // ---- configuration ----

  datatype StringScanner = BasicStrings | EightByteStrings | SixteenByteStrings
  datatype SpaceSkipper = BasicSpaces | EightByteSpaces
  datatype LiteralMatcher = BasicLiterals | FastLiterals

  datatype Ops = Ops(simd: SimdOps, strings: StringScanner, spaces: SpaceSkipper, literals: LiteralMatcher, keys: KeyMode)

  datatype Config = Config(enableAtoms: bool, enableSimd: bool, enable16ByteSimd: bool)

  function OpsFor(c: Config): Ops {
    Ops(
      if c.enableSimd then RealSimd else NoSimd,
      if !c.enableSimd then BasicStrings else if c.enable16ByteSimd then SixteenByteStrings else EightByteStrings,
      if c.enableSimd then EightByteSpaces else BasicSpaces,
      if c.enableSimd then FastLiterals else BasicLiterals,
      if c.enableAtoms then AtomKeys else StringKeys)
  }

  datatype ParseContext =
    | ContextValue | ContextObjectStart | ContextObjectKey | ContextObjectValue | ContextObjectComma
    | ContextArrayStart | ContextArrayValue | ContextArrayComma

  datatype Outcome = Accepted | Rejected(why: Failure)

  // ---- facts about the scanner functions that the loops use ----

  predicate NoDelimiter(b: bv8) {
    b != QUOTE && b != BACKSLASH
  }

  lemma {:induction false} PlainBytes(d: Bytes, i: nat, n: nat)
    requires i + n <= |d| && forall k | i <= k < i + n :: NoDelimiter(d[k])
    ensures StringEnd(d, i) == StringEnd(d, i + n)
    decreases n
  {
    if n > 0 {
      assert NoDelimiter(d[i]);
      PlainBytes(d, i + 1, n - 1);
    }
  }

  lemma {:induction false} BlankBytes(d: Bytes, i: nat, n: nat)
    requires i + n <= |d| && forall k | i <= k < i + n :: IsWhitespace(d[k])
    ensures SkipWhitespace(d, i) == SkipWhitespace(d, i + n)
    decreases n
  {
    if n > 0 {
      BlankBytes(d, i + 1, n - 1);
    }
  }

  lemma WordHolds(d: Bytes, i: nat, x: bv8)
    requires i + 8 <= |d|
    ensures Holds(Load(d[i..i + 8]), x) <==> exists k | i <= k < i + 8 :: d[k] == x
  {
    hide ByteOf, Load;
    var w := d[i..i + 8];
    forall j: nat | j < 8
      ensures ByteOf(Load(w), j) == d[i + j]
    {
      LoadBytes(w, j);
    }
    if k :| i <= k < i + 8 && d[k] == x {
      assert ByteOf(Load(w), k - i) == x;
    }
  }

  lemma WordBlank(d: Bytes, i: nat)
    requires i + 8 <= |d|
    ensures !HoldsWhitespace(Load(d[i..i + 8])) ==> !IsWhitespace(d[i])
  {
    hide ByteOf, Load;
    LoadBytes(d[i..i + 8], 0);
  }

  function Word32(b0: bv8, b1: bv8, b2: bv8, b3: bv8): bv32 {
    (b0 as bv32) | ((b1 as bv32) << 8) | ((b2 as bv32) << 16) | ((b3 as bv32) << 24)
  }

  /** The four-byte load of the fast literal matcher. */
  function Load32(b: Bytes): bv32
    requires |b| == 4
  {
    Word32(b[0], b[1], b[2], b[3])
  }

  lemma Word32Injective(a0: bv8, a1: bv8, a2: bv8, a3: bv8, b0: bv8, b1: bv8, b2: bv8, b3: bv8)
    requires Word32(a0, a1, a2, a3) == Word32(b0, b1, b2, b3)
    ensures a0 == b0 && a1 == b1 && a2 == b2 && a3 == b3
  {
  }

  lemma Load32Is(a: Bytes, b: Bytes)
    requires |a| == 4 && |b| == 4
    ensures Load32(a) == Load32(b) <==> a == b
  {
    hide Word32;
    if Load32(a) == Load32(b) {
      Word32Injective(a[0], a[1], a[2], a[3], b[0], b[1], b[2], b[3]);
    }
  }

  lemma LiteralWords()
    ensures Load32(TRUE_TEXT) == 0x65757274 && Load32(FALSE_TEXT[..4]) == 0x736c6166 && Load32(NULL_TEXT) == 0x6c6c756e
  {
    assert FALSE_TEXT[..4] == [0x66, 0x61, 0x6C, 0x73];
  }

  /** The four-byte comparisons, plus the fifth byte of `false`, are the text comparisons. */
  lemma WordsMatchLiterals(d: Bytes, i: nat)
    ensures i + 4 <= |d| ==> (Load32(d[i..i + 4]) == 0x65757274 <==> TextAt(d, i, TRUE_TEXT))
    ensures i + 4 <= |d| ==> (Load32(d[i..i + 4]) == 0x6c6c756e <==> TextAt(d, i, NULL_TEXT))
    ensures i + 5 <= |d| ==> (Load32(d[i..i + 4]) == 0x736c6166 && d[i + 4] == LOWER_E <==> TextAt(d, i, FALSE_TEXT))
  {
    hide Load32;
    LiteralWords();
    if i + 4 <= |d| {
      Load32Is(d[i..i + 4], TRUE_TEXT);
      Load32Is(d[i..i + 4], NULL_TEXT);
      Load32Is(d[i..i + 4], FALSE_TEXT[..4]);
    }
    if i + 5 <= |d| {
      assert FALSE_TEXT == FALSE_TEXT[..4] + [LOWER_E];
      assert d[i..i + 5] == d[i..i + 4] + [d[i + 4]];
    }
  }

  /** The first byte decides which literal can match. */
  lemma OnlyOneLiteral(d: Bytes, i: nat)
    requires i < |d|
    ensures TextAt(d, i, TRUE_TEXT) ==> d[i] == TRUE_TEXT[0]
    ensures TextAt(d, i, FALSE_TEXT) ==> d[i] == FALSE_TEXT[0]
    ensures TextAt(d, i, NULL_TEXT) ==> d[i] == NULL_TEXT[0]
  {
    if TextAt(d, i, TRUE_TEXT) {
      assert d[i] == d[i..i + 4][0];
    }
    if TextAt(d, i, FALSE_TEXT) {
      assert d[i] == d[i..i + 5][0];
    }
    if TextAt(d, i, NULL_TEXT) {
      assert d[i] == d[i..i + 4][0];
    }
  }

  /** The ways a round of the object or array loop can go, with the events so far in front. */
  lemma RoundCases(d: Bytes, i: nat, kind: Kind, first: bool, done: seq<Event>)
    requires i <= |d|
    ensures var p := SkipWhitespace(d, i);
      var all := Prepend(done, ScanItems(d, i, kind, first));
      if p >= |d| then all == Fail(Malformed)
      else if d[p] == Close(kind) then all == Done(p + 1, done + [Event(Closing(kind), p, 1)])
      else if !first && d[p] != COMMA then all == Fail(Malformed)
      else
        var r := ScanItem(d, RoundStart(d, i, first), kind);
        if r.Fail? then all == r
        else all == Prepend(done + (CommaEvents(p, first) + r.events), ScanItems(d, r.end, kind, false))
  {
    hide ScanKey, ScanValue, SkipWhitespace, RoundStart, RoundKey, CommaEvents;
    var p := SkipWhitespace(d, i);
    if p < |d| && d[p] != Close(kind) && (first || d[p] == COMMA) {
      var r := ScanItem(d, RoundStart(d, i, first), kind);
      if r.Done? {
        var rest := ScanItems(d, r.end, kind, false);
        var e := CommaEvents(p, first) + r.events;
        if rest.Done? {
          assert done + (e + rest.events) == (done + e) + rest.events;
        }
      }
    }
  }

  // ---- the text of a token ----

  function TokenText(d: Bytes, t: Token): Bytes {
    if t.typ.TokenKey64? then Text64(t.atom64)
    else if t.typ.TokenKey128? then Text128(t.atom128)
    else if t.offset + t.length <= |d| && t.offset < |d| then d[t.offset..t.offset + t.length]
    else []
  }

  /** What the fast comparison decides. */
  predicate FastMatch(d: Bytes, t: Token, target: Bytes) {
    if t.typ.TokenKey64? then t.atom64 == Atom64Of(target)
    else if t.typ.TokenKey128? then t.atom128 == Atom128Of(target)
    else t.offset + t.length <= |d| && d[t.offset..t.offset + t.length] == target
  }

  lemma SameLoad(a: Bytes, b: Bytes)
    requires |a| == 8 && |b| == 8
    ensures Load(a) == Load(b) <==> a == b
  {
    hide Load, ByteOf;
    BytesOfLoad(a);
    BytesOfLoad(b);
  }

  // ---- the parser ----

  class FastJSONParser {
    const ops: Ops
    var data: Bytes
    var tokens: seq<Token>
    var pos: nat
    var contextStack: seq<ParseContext>
    var currentContext: ParseContext

    /** Nothing read and nothing pending, in value context. */
    predicate Fresh()
      reads this
    {
      data == [] && tokens == [] && pos == 0 && contextStack == [] && currentContext == ContextValue
    }

    constructor (ops: Ops)
      ensures this.ops == ops && Fresh()
    {
      this.ops := ops;
      data, tokens, pos, contextStack, currentContext := [], [], 0, [], ContextValue;
    }

    constructor FromConfig(config: Config)
      ensures ops == OpsFor(config) && Fresh()
    {
      ops := OpsFor(config);
      data, tokens, pos, contextStack, currentContext := [], [], 0, [], ContextValue;
    }

    // ---- whitespace ----

    method SkipWhitespaceBasic()
      requires pos <= |data|
      modifies `pos
      ensures pos == SkipWhitespace(data, old(pos))
    {
      while pos < |data| && IsWhitespace(data[pos])
        invariant pos <= |data| && SkipWhitespace(data, pos) == SkipWhitespace(data, old(pos))
      {
        pos := pos + 1;
      }
    }

    method SkipWhitespaceSimd()
      requires pos <= |data|
      modifies `pos
      ensures pos == SkipWhitespace(data, old(pos))
    {
      hide ByteOf, Load, Holds, HoldsWhitespace;
      while pos + 8 <= |data|
        invariant pos <= |data| && SkipWhitespace(data, pos) == SkipWhitespace(data, old(pos))
        decreases |data| - pos
      {
        var v := Load(data[pos..pos + 8]);
        var found := ops.simd.FindWhitespace(v);
        if found == 0 {
          WordBlank(data, pos);
          return;
        }
        for j := 0 to 8
          invariant forall k | pos <= k < pos + j :: IsWhitespace(data[k])
        {
          if !IsWhitespace(data[pos + j]) {
            BlankBytes(data, pos, j);
            pos := pos + j;
            return;
          }
        }
        BlankBytes(data, pos, 8);
        pos := pos + 8;
      }
      while pos < |data| && IsWhitespace(data[pos])
        invariant pos <= |data| && SkipWhitespace(data, pos) == SkipWhitespace(data, old(pos))
      {
        pos := pos + 1;
      }
    }

    method Skip()
      requires pos <= |data|
      modifies `pos
      ensures pos == SkipWhitespace(data, old(pos))
    {
      if ops.spaces.EightByteSpaces? {
        SkipWhitespaceSimd();
      } else {
        SkipWhitespaceBasic();
      }
    }

    // ---- tokens ----

    method AddToken(typ: TokenType, offset: nat, length: nat, atom64: bv64, atom128: Atom128)
      modifies `tokens
      ensures tokens == old(tokens) + [Token(typ, U32(offset), U32(length), atom64, atom128)]
    {
      tokens := tokens + [Token(typ, U32(offset), U32(length), atom64, atom128)];
    }

    method ProcessKeyAtom(stringStart: nat, keyLen: nat)
      requires 1 <= stringStart && stringStart + keyLen <= |data|
      modifies `tokens
      ensures tokens == old(tokens) + [KeyToken(AtomKeys, data[stringStart..stringStart + keyLen], stringStart - 1, keyLen + 2)]
    {
      hide Atom64Of, Atom128Of;
      if keyLen <= 8 {
        var atom := MakeAtom64(data[stringStart..stringStart + keyLen]);
        AddToken(TokenKey64, 0, 0, atom, NO_ATOM);
      } else if keyLen <= 16 {
        var atom := MakeAtom128(data[stringStart..stringStart + keyLen]);
        AddToken(TokenKey128, 0, 0, 0, atom);
      } else {
        AddToken(TokenString, stringStart - 1, keyLen + 2, 0, NO_ATOM);
      }
    }

    method ProcessKeyString(stringStart: nat, keyLen: nat)
      requires 1 <= stringStart && stringStart + keyLen <= |data|
      modifies `tokens
      ensures tokens == old(tokens) + [KeyToken(StringKeys, data[stringStart..stringStart + keyLen], stringStart - 1, keyLen + 2)]
    {
      AddToken(TokenString, stringStart - 1, keyLen + 2, 0, NO_ATOM);
    }

    // ---- strings ----

    /** The event of the string whose opening quote is at `start`: a key exactly in key context. */
    function StringEvent(start: nat, end: nat): Event
      requires start <= end
      reads `currentContext
    {
      Event(if currentContext == ContextObjectKey then KeyString else ValueString, start, end - start)
    }

    method FinishString(start: nat, stringStart: nat)
      requires stringStart == start + 1 && stringStart <= pos < |data|
      modifies `tokens, `pos
      ensures pos == old(pos) + 1
      ensures tokens == old(tokens) + [TokenOf(ops.keys, data, StringEvent(start, pos))]
    {
      if currentContext == ContextObjectKey {
        var keyLen := pos - stringStart;
        if ops.keys.AtomKeys? {
          ProcessKeyAtom(stringStart, keyLen);
        } else {
          ProcessKeyString(stringStart, keyLen);
        }
      } else {
        AddToken(TokenString, start, pos - start + 1, 0, NO_ATOM);
      }
      pos := pos + 1;
    }

    /** What every string scanner does from the opening quote at `start`. */
    twostate predicate ScannedString(start: nat, err: Outcome)
      reads this
    {
      match StringEnd(data, start + 1)
      case None => err == Rejected(Malformed)
      case Some(e) =>
        && err == Accepted && pos == e + 1
        && tokens == old(tokens) + [TokenOf(ops.keys, data, StringEvent(start, e + 1))]
    }

    method ParseStringBasic() returns (err: Outcome)
      requires pos < |data|
      modifies `tokens, `pos
      ensures ScannedString(old(pos), err)
    {
      var start := pos;
      pos := pos + 1;
      err := ScanPlainly(start, start + 1);
    }

    /** The byte-by-byte loop shared by all scanners, and the end of a string. */
    method ScanPlainly(start: nat, stringStart: nat) returns (err: Outcome)
      requires stringStart == start + 1 && stringStart <= pos
      requires StringEnd(data, pos) == StringEnd(data, stringStart)
      modifies `tokens, `pos
      ensures ScannedString(start, err)
    {
      while pos < |data| && data[pos] != QUOTE
        invariant stringStart <= pos && StringEnd(data, pos) == StringEnd(data, stringStart)
        invariant tokens == old(tokens)
        decreases |data| - pos
      {
        if data[pos] == BACKSLASH {
          pos := pos + 1;
          if pos >= |data| {
            return Rejected(Malformed);
          }
        }
        pos := pos + 1;
      }
      if pos >= |data| {
        return Rejected(Malformed);
      }
      FinishString(start, stringStart);
      err := Accepted;
    }

    method ParseStringSimd() returns (err: Outcome)
      requires pos < |data|
      modifies `tokens, `pos
      ensures ScannedString(old(pos), err)
    {
      var start := pos;
      pos := pos + 1;
      err := ParseStringSimd8(start, start + 1);
    }

    method ParseStringSimd8(start: nat, stringStart: nat) returns (err: Outcome)
      requires stringStart == start + 1 && stringStart <= pos
      requires StringEnd(data, pos) == StringEnd(data, stringStart)
      modifies `tokens, `pos
      ensures ScannedString(start, err)
    {
      while pos + 8 <= |data|
        invariant stringStart <= pos && StringEnd(data, pos) == StringEnd(data, stringStart)
        invariant tokens == old(tokens)
        decreases |data| - pos
      {
        var j := DelimiterIn8();
        var finished := ConsumeChunk(start, stringStart, j, 8);
        if finished {
          return Accepted;
        }
      }
      err := ScanPlainly(start, stringStart);
    }

    method ParseStringSimd16() returns (err: Outcome)
      requires pos < |data|
      modifies `tokens, `pos
      ensures ScannedString(old(pos), err)
    {
      var start := pos;
      pos := pos + 1;
      var stringStart := pos;
      while pos + 16 <= |data|
        invariant stringStart <= pos && StringEnd(data, pos) == StringEnd(data, stringStart)
        invariant tokens == old(tokens)
        decreases |data| - pos
      {
        var j := DelimiterIn16();
        var finished := ConsumeChunk(start, stringStart, j, 16);
        if finished {
          return Accepted;
        }
      }
      err := ParseStringSimd8(start, stringStart);
    }

    /** After the inner loop: skip the chunk, skip an escape, or finish at the closing quote. */
    method ConsumeChunk(start: nat, stringStart: nat, j: nat, n: nat) returns (finished: bool)
      requires stringStart == start + 1 && stringStart <= pos && pos + n <= |data| && 0 < n
      requires StringEnd(data, pos) == StringEnd(data, stringStart)
      requires j <= n && forall k | pos <= k < pos + j :: NoDelimiter(data[k])
      requires j < n ==> !NoDelimiter(data[pos + j])
      modifies `tokens, `pos
      ensures finished ==> ScannedString(start, Accepted)
      ensures !finished ==> pos > old(pos) && tokens == old(tokens) && StringEnd(data, pos) == StringEnd(data, stringStart)
    {
      PlainBytes(data, pos, j);
      pos := pos + j;
      finished := false;
      if j < n {
        if data[pos] == QUOTE {
          FinishString(start, stringStart);
          return true;
        }
        pos := pos + 2;
      }
    }

    /** The word test of the eight-byte scanner, then its inner loop; 8 when the chunk holds no delimiter. */
    method DelimiterIn8() returns (j: nat)
      requires pos + 8 <= |data|
      ensures j <= 8 && forall k | pos <= k < pos + j :: NoDelimiter(data[k])
      ensures j < 8 ==> !NoDelimiter(data[pos + j])
    {
      hide ByteOf, Load, Holds;
      var v := Load(data[pos..pos + 8]);
      var quote := ops.simd.HasByte(v, QUOTE);
      var escape := ops.simd.HasByte(v, BACKSLASH);
      WordHolds(data, pos, QUOTE);
      WordHolds(data, pos, BACKSLASH);
      j := 8;
      if quote || escape {
        j := FirstDelimiter(8);
      }
    }

    /** The same test on two words at once. */
    method DelimiterIn16() returns (j: nat)
      requires pos + 16 <= |data|
      ensures j <= 16 && forall k | pos <= k < pos + j :: NoDelimiter(data[k])
      ensures j < 16 ==> !NoDelimiter(data[pos + j])
    {
      hide ByteOf, Load, Holds;
      var v1, v2 := Load(data[pos..pos + 8]), Load(data[pos + 8..pos + 16]);
      var quote1 := ops.simd.HasByte(v1, QUOTE);
      var escape1 := ops.simd.HasByte(v1, BACKSLASH);
      var quote2 := ops.simd.HasByte(v2, QUOTE);
      var escape2 := ops.simd.HasByte(v2, BACKSLASH);
      WordHolds(data, pos, QUOTE);
      WordHolds(data, pos, BACKSLASH);
      WordHolds(data, pos + 8, QUOTE);
      WordHolds(data, pos + 8, BACKSLASH);
      j := 16;
      if quote1 || escape1 || quote2 || escape2 {
        j := FirstDelimiter(16);
      }
    }

    /** The inner loop over a chunk of `n` bytes: the first quote or backslash, or `n`. */
    method FirstDelimiter(n: nat) returns (j: nat)
      requires pos + n <= |data|
      ensures j <= n && forall k | pos <= k < pos + j :: NoDelimiter(data[k])
      ensures j < n ==> !NoDelimiter(data[pos + j])
    {
      j := 0;
      while j < n
        invariant j <= n && forall k | pos <= k < pos + j :: NoDelimiter(data[k])
      {
        if data[pos + j] == BACKSLASH || data[pos + j] == QUOTE {
          return;
        }
        j := j + 1;
      }
    }

    method ParseString() returns (err: Outcome)
      requires pos < |data|
      modifies `tokens, `pos
      ensures ScannedString(old(pos), err)
    {
      match ops.strings
      case BasicStrings => err := ParseStringBasic();
      case EightByteStrings => err := ParseStringSimd();
      case SixteenByteStrings => err := ParseStringSimd16();
    }

    // ---- literals ----

    twostate predicate MatchedLiteral(err: Outcome)
      reads this
    {
      match LiteralAt(data, old(pos))
      case None => err == Rejected(Malformed)
      case Some(l) =>
        && err == Accepted && pos == old(pos) + |LiteralText(l)|
        && tokens == old(tokens) + [PlainToken(PlainType(Word(l)), old(pos), |LiteralText(l)|)]
    }

    method ParseLiteralBasic() returns (err: Outcome)
      requires pos < |data|
      modifies `tokens, `pos
      ensures MatchedLiteral(err)
    {
      OnlyOneLiteral(data, pos);
      if data[pos] == TRUE_TEXT[0] {
        if pos + 4 <= |data| && data[pos..pos + 4] == TRUE_TEXT {
          AddToken(TokenTrue, pos, 4, 0, NO_ATOM);
          pos := pos + 4;
          return Accepted;
        }
      } else if data[pos] == FALSE_TEXT[0] {
        if pos + 5 <= |data| && data[pos..pos + 5] == FALSE_TEXT {
          AddToken(TokenFalse, pos, 5, 0, NO_ATOM);
          pos := pos + 5;
          return Accepted;
        }
      } else if data[pos] == NULL_TEXT[0] {
        if pos + 4 <= |data| && data[pos..pos + 4] == NULL_TEXT {
          AddToken(TokenNull, pos, 4, 0, NO_ATOM);
          pos := pos + 4;
          return Accepted;
        }
      }
      return Rejected(Malformed);
    }

    method ParseLiteralFast() returns (err: Outcome)
      requires pos < |data|
      modifies `tokens, `pos
      ensures MatchedLiteral(err)
    {
      hide Load32;
      OnlyOneLiteral(data, pos);
      WordsMatchLiterals(data, pos);
      if data[pos] == TRUE_TEXT[0] {
        if pos + 4 <= |data| && Load32(data[pos..pos + 4]) == 0x65757274 {
          AddToken(TokenTrue, pos, 4, 0, NO_ATOM);
          pos := pos + 4;
          return Accepted;
        }
      } else if data[pos] == FALSE_TEXT[0] {
        if pos + 5 <= |data| && Load32(data[pos..pos + 4]) == 0x736c6166 && data[pos + 4] == LOWER_E {
          AddToken(TokenFalse, pos, 5, 0, NO_ATOM);
          pos := pos + 5;
          return Accepted;
        }
      } else if data[pos] == NULL_TEXT[0] {
        if pos + 4 <= |data| && Load32(data[pos..pos + 4]) == 0x6c6c756e {
          AddToken(TokenNull, pos, 4, 0, NO_ATOM);
          pos := pos + 4;
          return Accepted;
        }
      }
      return Rejected(Malformed);
    }

    method ParseLiteral() returns (err: Outcome)
      requires pos < |data|
      modifies `tokens, `pos
      ensures MatchedLiteral(err)
    {
      if ops.literals.FastLiterals? {
        err := ParseLiteralFast();
      } else {
        err := ParseLiteralBasic();
      }
    }

    // ---- numbers ----

    method SkipDigits()
      requires pos <= |data|
      modifies `pos
      ensures pos == DigitsEnd(data, old(pos))
    {
      while pos < |data| && IsDigit(data[pos])
        invariant pos <= |data| && DigitsEnd(data, pos) == DigitsEnd(data, old(pos))
      {
        pos := pos + 1;
      }
    }

    /** One part of a number: `end` is where it ends, if it is well formed. */
    twostate predicate ScannedPart(end: Option<nat>, ok: bool)
      reads `pos
    {
      ok == end.Some? && (ok ==> pos == end.value)
    }

    method ScanInteger() returns (ok: bool)
      requires pos <= |data|
      modifies `pos
      ensures ScannedPart(IntegerEnd(data, old(pos)), ok)
    {
      if pos >= |data| || !IsDigit(data[pos]) {
        return false;
      }
      if data[pos] == ZERO {
        pos := pos + 1;
      } else {
        SkipDigits();
      }
      return true;
    }

    method ScanFraction() returns (ok: bool)
      requires pos <= |data|
      modifies `pos
      ensures ScannedPart(FractionEnd(data, old(pos)), ok)
    {
      if pos < |data| && data[pos] == DOT {
        pos := pos + 1;
        if pos >= |data| || !IsDigit(data[pos]) {
          return false;
        }
        SkipDigits();
      }
      return true;
    }

    method ScanExponent() returns (ok: bool)
      requires pos <= |data|
      modifies `pos
      ensures ScannedPart(ExponentEnd(data, old(pos)), ok)
    {
      if pos < |data| && (data[pos] == LOWER_E || data[pos] == UPPER_E) {
        pos := pos + 1;
        if pos < |data| && (data[pos] == PLUS || data[pos] == MINUS) {
          pos := pos + 1;
        }
        if pos >= |data| || !IsDigit(data[pos]) {
          return false;
        }
        SkipDigits();
      }
      return true;
    }

    /** What `ParseNumber` does to the position and the tokens. */
    twostate predicate ScannedNumber(err: Outcome)
      requires old(pos) <= |data|
      reads this
    {
      match NumberEnd(data, old(pos))
      case None => err == Rejected(Malformed)
      case Some(e) =>
        && err == Accepted && pos == e
        && tokens == old(tokens) + [PlainToken(TokenNumber, old(pos), e - old(pos))]
    }

    method ParseNumber() returns (err: Outcome)
      requires pos < |data|
      modifies `tokens, `pos
      ensures ScannedNumber(err)
    {
      hide IntegerEnd, FractionEnd, ExponentEnd;
      var start := pos;
      if data[pos] == MINUS {
        pos := pos + 1;
      }
      var ok := ScanInteger();
      if !ok {
        return Rejected(Malformed);
      }
      ok := ScanFraction();
      if !ok {
        return Rejected(Malformed);
      }
      ok := ScanExponent();
      if !ok {
        return Rejected(Malformed);
      }
      AddToken(TokenNumber, start, pos - start, 0, NO_ATOM);
      return Accepted;
    }

    // ---- contexts ----

    method PushContext(ctx: ParseContext)
      modifies `contextStack, `currentContext
      ensures contextStack == old(contextStack) + [old(currentContext)] && currentContext == ctx
    {
      contextStack := contextStack + [currentContext];
      currentContext := ctx;
    }

    method PopContext()
      modifies `contextStack, `currentContext
      ensures old(contextStack) == [] ==> contextStack == [] && currentContext == ContextValue
      ensures old(contextStack) != [] ==>
        contextStack == old(contextStack)[..|old(contextStack)| - 1] && currentContext == old(contextStack)[|old(contextStack)| - 1]
    {
      if |contextStack| > 0 {
        currentContext := contextStack[|contextStack| - 1];
        contextStack := contextStack[..|contextStack| - 1];
      } else {
        currentContext := ContextValue;
      }
    }

    // ---- values, objects and arrays ----

    /** After a value: success, failure and tokens as `r` says, and the contexts back as they were. */
    twostate predicate Parsed(r: Result, err: Outcome)
      reads this
    {
      match r
      case Fail(why) => err == Rejected(why)
      case Done(end, events) =>
        && err == Accepted && pos == end
        && tokens == old(tokens) + Encode(ops.keys, data, events)
        && contextStack == old(contextStack) && currentContext == old(currentContext)
    }

    method ParseValue() returns (err: Outcome)
      requires pos <= |data| && currentContext != ContextObjectKey
      modifies this
      ensures data == old(data)
      ensures Parsed(ScanValue(data, old(pos)), err)
      decreases |data| - pos, 1
    {
      hide Encode, ScanItems, StringEnd, LiteralAt, LiteralText, NumberEnd, StartsLiteral, StartsNumber, SkipWhitespace, Prepend, U32, KeyToken;
      EncodeOne(ops.keys, data);
      Skip();
      if pos >= |data| {
        return Rejected(Malformed);
      }
      var b := data[pos];
      if b == Open(Obj) {
        err := ParseObject();
      } else if b == Open(Arr) {
        err := ParseArray();
      } else if b == QUOTE {
        err := ParseString();
      } else if StartsLiteral(b) {
        err := ParseLiteral();
      } else if StartsNumber(b) {
        err := ParseNumber();
      } else {
        err := Rejected(Malformed);
      }
    }

    /** The comma that every round but the first begins with. */
    method SkipComma(first: bool) returns (err: Outcome)
      requires pos < |data|
      modifies `tokens, `pos
      ensures err == if first || data[old(pos)] == COMMA then Accepted else Rejected(Malformed)
      ensures err.Accepted? ==>
        && pos == (if first then old(pos) else SkipWhitespace(data, old(pos) + 1))
        && tokens == old(tokens) + Encode(ops.keys, data, CommaEvents(old(pos), first))
    {
      hide SkipWhitespace;
      if !first {
        if data[pos] != COMMA {
          return Rejected(Malformed);
        }
        AddToken(TokenComma, pos, 1, 0, NO_ATOM);
        pos := pos + 1;
        Skip();
      }
      return Accepted;
    }

    /** A member name and its colon. The first byte is read without checking that there is one. */
    method ParseKey() returns (err: Outcome)
      requires pos <= |data|
      modifies `tokens, `pos, `currentContext
      ensures match ScanKey(data, old(pos))
        case Fail(why) => err == Rejected(why)
        case Done(end, events) => err == Accepted && pos == end && tokens == old(tokens) + Encode(ops.keys, data, events)
    {
      hide Encode, SkipWhitespace, StringEnd, TokenOf, U32;
      ghost var q := pos;
      currentContext := ContextObjectKey;
      if pos >= |data| {
        return Rejected(RanOff);
      }
      if data[pos] != QUOTE {
        return Rejected(Malformed);
      }
      err := ParseString();
      if err.Rejected? {
        return;
      }
      ghost var name := Event(KeyString, q, pos - q);
      Skip();
      if pos >= |data| || data[pos] != COLON {
        return Rejected(Malformed);
      }
      EncodeTwo(ops.keys, data, name, Event(ColonMark, pos, 1));
      ColonToken(ops.keys, data, pos);
      AddToken(TokenColon, pos, 1, 0, NO_ATOM);
      pos := pos + 1;
    }

    /** The rest of a round: key and colon in an object, then the value. */
    method ParseItem(kind: Kind) returns (err: Outcome)
      requires pos <= |data|
      modifies this
      ensures data == old(data)
      ensures match ScanItem(data, old(pos), kind)
        case Fail(why) => err == Rejected(why)
        case Done(end, events) =>
          && err == Accepted && pos == end && contextStack == old(contextStack)
          && tokens == old(tokens) + Encode(ops.keys, data, events)
      decreases |data| - pos, 2
    {
      hide Encode, ScanKey, ScanValue;
      ghost var key := RoundKey(data, pos, kind);
      if kind.Obj? {
        err := ParseKey();
        if err.Rejected? {
          return;
        }
        currentContext := ContextObjectValue;
      } else {
        EncodeNone(ops.keys, data);
        currentContext := ContextArrayValue;
      }
      ghost var value := ScanValue(data, pos);
      err := ParseValue();
      if err.Rejected? {
        return;
      }
      EncodeCat(ops.keys, data, key.events, value.events);
      currentContext := if kind.Obj? then ContextObjectComma else ContextArrayComma;
    }

    /** The opening bracket: its token, the byte, and a new context. */
    method EnterContainer(kind: Kind)
      modifies `tokens, `pos, `contextStack, `currentContext
      ensures pos == old(pos) + 1
      ensures tokens == old(tokens) + Encode(ops.keys, data, [Event(Opening(kind), old(pos), 1)])
      ensures contextStack == old(contextStack) + [old(currentContext)]
    {
      EncodeOne(ops.keys, data);
      AddToken(if kind.Obj? then TokenObjectStart else TokenArrayStart, pos, 1, 0, NO_ATOM);
      pos := pos + 1;
      PushContext(if kind.Obj? then ContextObjectStart else ContextArrayStart);
    }

    /** The closing bracket: its token, the byte, and the context before it. */
    method LeaveContainer(kind: Kind)
      requires contextStack != []
      modifies `tokens, `pos, `contextStack, `currentContext
      ensures pos == old(pos) + 1
      ensures tokens == old(tokens) + Encode(ops.keys, data, [Event(Closing(kind), old(pos), 1)])
      ensures contextStack == old(contextStack)[..|old(contextStack)| - 1] && currentContext == old(contextStack)[|old(contextStack)| - 1]
    {
      EncodeOne(ops.keys, data);
      AddToken(if kind.Obj? then TokenObjectEnd else TokenArrayEnd, pos, 1, 0, NO_ATOM);
      pos := pos + 1;
      PopContext();
    }

    method ParseObject() returns (err: Outcome)
      requires pos < |data| && data[pos] == Open(Obj)
      modifies this
      ensures data == old(data)
      ensures Parsed(Prepend([Event(Opening(Obj), old(pos), 1)], ScanItems(data, old(pos) + 1, Obj, true)), err)
      decreases |data| - pos, 0
    {
      hide Encode, ScanItems, ScanKey, ScanValue, SkipWhitespace, Prepend, CommaEvents, RoundKey, ScanItem;
      ghost var all := Prepend([Event(Opening(Obj), pos, 1)], ScanItems(data, pos + 1, Obj, true));
      ghost var done := [Event(Opening(Obj), pos, 1)];
      EnterContainer(Obj);
      var first := true;
      while true
        invariant data == old(data) && old(pos) < pos <= |data|
        invariant tokens == old(tokens) + Encode(ops.keys, data, done)
        invariant contextStack == old(contextStack) + [old(currentContext)]
        invariant all == Prepend(done, ScanItems(data, pos, Obj, first))
        decreases |data| - pos
      {
        RoundCases(data, pos, Obj, first, done);
        Skip();
        if pos >= |data| {
          return Rejected(Malformed);
        }
        if data[pos] == Close(Obj) {
          EncodeCat(ops.keys, data, done, [Event(Closing(Obj), pos, 1)]);
          LeaveContainer(Obj);
          return Accepted;
        }
        ghost var comma := CommaEvents(pos, first);
        err := SkipComma(first);
        if err.Rejected? {
          return;
        }
        first := false;
        ghost var item := ScanItem(data, pos, Obj);
        err := ParseItem(Obj);
        if err.Rejected? {
          return;
        }
        EncodeRound(ops.keys, data, done, comma, item.events);
        done := done + (comma + item.events);
      }
    }

    method ParseArray() returns (err: Outcome)
      requires pos < |data| && data[pos] == Open(Arr)
      modifies this
      ensures data == old(data)
      ensures Parsed(Prepend([Event(Opening(Arr), old(pos), 1)], ScanItems(data, old(pos) + 1, Arr, true)), err)
      decreases |data| - pos, 0
    {
      hide Encode, ScanItems, ScanKey, ScanValue, SkipWhitespace, Prepend, CommaEvents, RoundKey, ScanItem;
      ghost var all := Prepend([Event(Opening(Arr), pos, 1)], ScanItems(data, pos + 1, Arr, true));
      ghost var done := [Event(Opening(Arr), pos, 1)];
      EnterContainer(Arr);
      var first := true;
      while true
        invariant data == old(data) && old(pos) < pos <= |data|
        invariant tokens == old(tokens) + Encode(ops.keys, data, done)
        invariant contextStack == old(contextStack) + [old(currentContext)]
        invariant all == Prepend(done, ScanItems(data, pos, Arr, first))
        decreases |data| - pos
      {
        RoundCases(data, pos, Arr, first, done);
        Skip();
        if pos >= |data| {
          return Rejected(Malformed);
        }
        if data[pos] == Close(Arr) {
          EncodeCat(ops.keys, data, done, [Event(Closing(Arr), pos, 1)]);
          LeaveContainer(Arr);
          return Accepted;
        }
        ghost var comma := CommaEvents(pos, first);
        err := SkipComma(first);
        if err.Rejected? {
          return;
        }
        first := false;
        ghost var item := ScanItem(data, pos, Arr);
        err := ParseItem(Arr);
        if err.Rejected? {
          return;
        }
        EncodeRound(ops.keys, data, done, comma, item.events);
        done := done + (comma + item.events);
      }
    }

    // ---- the whole input ----

    /**
     Parses the first value of the input. Whatever scanners the parser was created with, it
     succeeds exactly when `ScanValue` does, with its end position and the tokens of its events;
     only the encoding of keys depends on how the parser was created.
     */
    method Parse(jsonData: Bytes) returns (err: Outcome)
      modifies this
      ensures data == jsonData
      ensures match ScanValue(jsonData, 0)
        case Fail(why) => err == Rejected(why)
        case Done(end, events) =>
          && err == Accepted && pos == end && tokens == Encode(ops.keys, jsonData, events)
          && contextStack == [] && currentContext == ContextValue
    {
      data, tokens, pos, contextStack, currentContext := jsonData, [], 0, [], ContextValue;
      err := ParseValue();
    }

    // ---- reading tokens back ----

    method GetTokenValue(token: Token) returns (text: Bytes)
      requires |data| < 0x1_0000_0000
      requires token.offset < 0x1_0000_0000 && token.offset + token.length < 0x1_0000_0000
      ensures text == TokenText(data, token)
    {
      if token.typ.TokenKey64? {
        text := Atom64String(token.atom64);
      } else if token.typ.TokenKey128? {
        text := Atom128String(token.atom128);
      } else if token.offset < U32(|data|) && U32(token.offset + token.length) <= U32(|data|) {
        text := data[token.offset..token.offset + token.length];
      } else {
        text := [];
      }
    }

    /** The fast comparison: atoms as numbers, other tokens eight bytes at a time when SIMD is on. */
    method CompareTokenFast(token: Token, target: Bytes) returns (same: bool)
      requires token.typ != TokenKey64 && token.typ != TokenKey128 ==> token.offset + token.length <= |data|
      ensures same == FastMatch(data, token, target)
    {
      hide Load, ByteOf, Atom64Of, Atom128Of;
      if token.typ.TokenKey64? {
        var targetAtom := MakeAtom64(target);
        return token.atom64 == targetAtom;
      }
      if token.typ.TokenKey128? {
        var targetAtom := MakeAtom128(target);
        return token.atom128.lo == targetAtom.lo && token.atom128.hi == targetAtom.hi;
      }
      if token.length != |target| {
        return false;
      }
      var tokenData := data[token.offset..token.offset + token.length];
      var i := 0;
      if ops.simd.RealSimd? {
        while i + 8 <= |target|
          invariant i <= |target| && tokenData[..i] == target[..i]
        {
          SameLoad(tokenData[i..i + 8], target[i..i + 8]);
          if Load(tokenData[i..i + 8]) != Load(target[i..i + 8]) {
            return false;
          }
          assert tokenData[..i + 8] == tokenData[..i] + tokenData[i..i + 8];
          assert target[..i + 8] == target[..i] + target[i..i + 8];
          i := i + 8;
        }
      }
      while i < |target|
        invariant i <= |target| && tokenData[..i] == target[..i]
      {
        if tokenData[i] != target[i] {
          return false;
        }
        i := i + 1;
      }
      return true;
    }
  }
}
