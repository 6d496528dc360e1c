/**
 Nothing is lost in tokenizing: the texts of the tokens, put one after the other, are the consumed
 input without the whitespace between its tokens. Packed keys keep this exactly when they hold no
 zero byte. Two parsers created with different scanners agree on every input.
 */
module JsonLossless {
  import opened Words
  import opened Atoms
  import opened JsonGrammar
  import opened JsonScan
  import opened JsonMeaning
  import opened JsonParser

  // ---- the input without whitespace between tokens ----

  /** Drops whitespace outside strings; `inString` says whether the text starts inside one. */
  function Squeeze(s: Bytes, inString: bool): Bytes {
    if s == [] then []
    else if inString then
      if s[0] == BACKSLASH && |s| >= 2 then s[..2] + Squeeze(s[2..], true)
      else [s[0]] + Squeeze(s[1..], s[0] != QUOTE)
    else if IsWhitespace(s[0]) then Squeeze(s[1..], false)
    else [s[0]] + Squeeze(s[1..], s[0] == QUOTE)
  }

  // ---- the token texts, put together ----

  /** The text of a token, with the quotes of a packed key put back. */
  function Requoted(d: Bytes, t: Token): Bytes {
    if t.typ.TokenKey64? || t.typ.TokenKey128? then Quoted(TokenText(d, t)) else TokenText(d, t)
  }

  function Join(d: Bytes, ts: seq<Token>): Bytes {
    if ts == [] then [] else Requoted(d, ts[0]) + Join(d, ts[1..])
  }

  /** The input bytes an event covers. */
  function Covered(d: Bytes, ev: Event): Bytes {
    if ev.offset + ev.length <= |d| then d[ev.offset..ev.offset + ev.length] else []
  }

  function CoveredAll(d: Bytes, evs: seq<Event>): Bytes {
    if evs == [] then [] else Covered(d, evs[0]) + CoveredAll(d, evs[1..])
  }

  lemma {:induction false} CoveredCat(d: Bytes, a: seq<Event>, b: seq<Event>)
    ensures CoveredAll(d, a + b) == CoveredAll(d, a) + CoveredAll(d, b)
  {
    hide Covered;
    if a == [] {
      assert a + b == b;
    } else {
      var c := a + b;
      CoveredCat(d, a[1..], b);
      assert c[1..] == a[1..] + b && c[0] == a[0];
      Associate(Covered(d, a[0]), CoveredAll(d, a[1..]), CoveredAll(d, b));
    }
  }

  lemma Associate(a: Bytes, b: Bytes, c: Bytes)
    ensures a + (b + c) == (a + b) + c
  {
  }

  // ---- a tree without whitespace ----

  function CompactKey(k: Key): Bytes {
    if k.NoKey? then [] else Quoted(k.name) + [COLON]
  }

  function Compact(t: Json): Bytes {
    match t
    case Lit(l) => LiteralText(l)
    case Num(n) => RenderNumber(n)
    case Str(b) => Quoted(b)
    case Container(kind, _, items) => [Open(kind)] + (CompactItems(items, true) + [Close(kind)])
  }

  function CompactItems(items: Items, first: bool): Bytes {
    match items
    case Nil => []
    case Cons(_, key, value, _, rest) =>
      Separator([], first) + (CompactKey(key) + (Compact(value) + CompactItems(rest, false)))
  }

  // ---- squeezing a rendered tree leaves the compact one ----

  /** Text that squeezing copies: no whitespace and no quote. */
  predicate Solid(s: Bytes) {
    forall k | 0 <= k < |s| :: !IsWhitespace(s[k]) && s[k] != QUOTE
  }

  lemma {:induction false} SqueezeSolid(s: Bytes, r: Bytes)
    requires Solid(s)
    ensures Squeeze(s + r, false) == s + Squeeze(r, false)
  {
    if s == [] {
      assert s + r == r;
    } else {
      assert (s + r)[1..] == s[1..] + r && (s + r)[0] == s[0];
      SqueezeSolid(s[1..], r);
      assert s == [s[0]] + s[1..];
    }
  }

  lemma {:induction false} SqueezeBlank(w: Bytes, r: Bytes)
    requires AllWhitespace(w)
    ensures Squeeze(w + r, false) == Squeeze(r, false)
  {
    if w == [] {
      assert w + r == r;
    } else {
      assert (w + r)[1..] == w[1..] + r && (w + r)[0] == w[0];
      SqueezeBlank(w[1..], r);
    }
  }

  lemma {:induction false} SqueezeBody(b: Bytes, r: Bytes)
    requires StringBody(b)
    ensures Squeeze(b + ([QUOTE] + r), true) == b + ([QUOTE] + Squeeze(r, false))
  {
    var tail := [QUOTE] + r;
    if b == [] {
      assert b + tail == tail && tail[1..] == r;
      assert b + ([QUOTE] + Squeeze(r, false)) == [QUOTE] + Squeeze(r, false);
    } else {
      var n := if b[0] == BACKSLASH then 2 else 1;
      SqueezeBody(b[n..], r);
      SqueezeInside(b, n, tail);
      assert b == b[..n] + b[n..];
      Associate(b[..n], b[n..], [QUOTE] + Squeeze(r, false));
    }
  }

  /** Inside a string one step copies a plain byte or an escaped pair. */
  lemma SqueezeInside(b: Bytes, n: nat, tail: Bytes)
    requires b != [] && n <= |b| && n == (if b[0] == BACKSLASH then 2 else 1) && b[0] != QUOTE
    ensures Squeeze(b + tail, true) == b[..n] + Squeeze(b[n..] + tail, true)
  {
    var s := b + tail;
    assert s[n..] == b[n..] + tail && s[..n] == b[..n] && s[0] == b[0];
    assert n == 1 ==> b[..1] == [b[0]];
  }

  lemma SqueezeQuoted(b: Bytes, r: Bytes)
    requires StringBody(b)
    ensures Squeeze(Quoted(b) + r, false) == Quoted(b) + Squeeze(r, false)
  {
    hide StringBody;
    var s := Quoted(b) + r;
    SqueezeBody(b, r);
    assert s[1..] == b + ([QUOTE] + r) && s[0] == QUOTE;
    assert Squeeze(s, false) == [QUOTE] + Squeeze(s[1..], true);
  }

  lemma DigitsAreSolid(s: Bytes)
    requires AllDigits(s)
    ensures Solid(s)
  {
    forall k | 0 <= k < |s|
      ensures !IsWhitespace(s[k]) && s[k] != QUOTE
    {
      assert IsDigit(s[k]);
    }
  }

  lemma SolidCat(a: Bytes, b: Bytes)
    requires Solid(a) && Solid(b)
    ensures Solid(a + b)
  {
  }

  lemma NumberIsSolid(n: Number)
    requires WellFormedNumber(n)
    ensures Solid(RenderNumber(n))
  {
    hide Solid, AllDigits;
    DigitsAreSolid(n.integer);
    FractionIsSolid(n.fraction);
    ExponentIsSolid(n.exponent);
    SignIsSolid(if n.negative then [MINUS] else []);
    SolidCat(RenderFraction(n.fraction), RenderExponent(n.exponent));
    SolidCat(n.integer, RenderFraction(n.fraction) + RenderExponent(n.exponent));
    SolidCat(if n.negative then [MINUS] else [], n.integer + (RenderFraction(n.fraction) + RenderExponent(n.exponent)));
  }

  lemma SignIsSolid(s: Bytes)
    requires s == [] || s == [MINUS] || s == [PLUS] || s == [DOT] || s == [LOWER_E] || s == [UPPER_E]
    ensures Solid(s)
  {
  }

  lemma FractionIsSolid(f: Bytes)
    requires AllDigits(f)
    ensures Solid(RenderFraction(f))
  {
    hide Solid, AllDigits;
    SignIsSolid([]);
    SignIsSolid([DOT]);
    DigitsAreSolid(f);
    SolidCat([DOT], f);
  }

  lemma ExponentIsSolid(e: Exponent)
    requires WellFormedExponent(e)
    ensures Solid(RenderExponent(e))
  {
    hide Solid, AllDigits;
    SignIsSolid([]);
    if e.Exponent? {
      SignIsSolid([e.mark]);
      SignIsSolid(e.sign);
      DigitsAreSolid(e.digits);
      SolidCat(e.sign, e.digits);
      SolidCat([e.mark], e.sign + e.digits);
    }
  }

  lemma MarkIsSolid(b: bv8)
    requires b == COMMA || b == COLON || b == Open(Obj) || b == Open(Arr) || b == Close(Obj) || b == Close(Arr)
    ensures Solid([b])
  {
  }

  lemma {:induction false} SqueezeTree(t: Json, r: Bytes)
    requires WellFormed(t, Relaxed)
    ensures Squeeze(Render(t) + r, false) == Compact(t) + Squeeze(r, false)
    decreases Size(t)
  {
    match t
    case Lit(l) =>
      SqueezeSolid(LiteralText(l), r);
    case Num(n) =>
      NumberIsSolid(n);
      SqueezeSolid(RenderNumber(n), r);
    case Str(b) =>
      SqueezeQuoted(b, r);
    case Container(kind, pad, items) =>
      SqueezeContainer(kind, pad, items, r);
  }

  lemma {:induction false} SqueezeContainer(kind: Kind, pad: Bytes, items: Items, r: Bytes)
    requires AllWhitespace(pad) && WellFormedItems(items, kind, true, Relaxed)
    ensures Squeeze(Render(Container(kind, pad, items)) + r, false) == Compact(Container(kind, pad, items)) + Squeeze(r, false)
    decreases ItemsSize(items), 2
  {
    hide Squeeze, RenderItems, CompactItems, WellFormedItems, AllWhitespace, Solid;
    var body := RenderItems(items, true);
    var close := [Close(kind)];
    var tail := close + r;
    MarkIsSolid(Open(kind));
    MarkIsSolid(Close(kind));
    SqueezeSolid([Open(kind)], pad + (body + tail));
    SqueezeBlank(pad, body + tail);
    SqueezeItems(items, kind, true, tail);
    SqueezeSolid(close, r);
    assert Render(Container(kind, pad, items)) + r == [Open(kind)] + (pad + (body + tail));
    assert [Open(kind)] + (CompactItems(items, true) + (close + Squeeze(r, false))) ==
      ([Open(kind)] + (CompactItems(items, true) + close)) + Squeeze(r, false);
  }

  lemma {:induction false} SqueezeItems(items: Items, kind: Kind, first: bool, r: Bytes)
    requires WellFormedItems(items, kind, first, Relaxed)
    ensures Squeeze(RenderItems(items, first) + r, false) == CompactItems(items, first) + Squeeze(r, false)
    decreases ItemsSize(items), 1
  {
    if items.Nil? {
      assert [] + r == r && [] + Squeeze(r, false) == Squeeze(r, false);
    } else {
      SqueezeCons(items, kind, first, r);
    }
  }

  lemma {:induction false} SqueezeCons(items: Items, kind: Kind, first: bool, r: Bytes)
    requires items.Cons? && WellFormedItems(items, kind, first, Relaxed)
    ensures Squeeze(RenderItems(items, first) + r, false) == CompactItems(items, first) + Squeeze(r, false)
    decreases ItemsSize(items), 0
  {
    hide Squeeze, Render, Compact, RenderKey, CompactKey, WellFormed, WellFormedKey, AllWhitespace, Separator;
    var Cons(lead, key, value, after, rest) := items;
    var tail := RenderItems(rest, false);
    SqueezeSeparator(lead, first, RenderKey(key) + (Render(value) + (after + (tail + r))));
    SqueezeKey(key, kind, Render(value) + (after + (tail + r)));
    SqueezeTree(value, after + (tail + r));
    SqueezeBlank(after, tail + r);
    SqueezeItems(rest, kind, false, r);
    Regroup(Separator(lead, first), RenderKey(key), Render(value), after, tail, r);
    Regroup(Separator([], first), CompactKey(key), Compact(value), [], CompactItems(rest, false), Squeeze(r, false));
    assert [] + CompactItems(rest, false) == CompactItems(rest, false);
    assert [] + (CompactItems(rest, false) + Squeeze(r, false)) == CompactItems(rest, false) + Squeeze(r, false);
  }

  lemma Regroup(a: Bytes, b: Bytes, c: Bytes, d: Bytes, e: Bytes, r: Bytes)
    ensures (a + (b + (c + (d + e)))) + r == a + (b + (c + (d + (e + r))))
  {
  }

  lemma SqueezeSeparator(lead: Bytes, first: bool, r: Bytes)
    requires AllWhitespace(lead)
    ensures Squeeze(Separator(lead, first) + r, false) == Separator([], first) + Squeeze(r, false)
  {
    hide Squeeze, AllWhitespace, Solid;
    if first {
      assert [] + r == r && [] + Squeeze(r, false) == Squeeze(r, false);
    } else {
      MarkIsSolid(COMMA);
      SqueezeSolid([COMMA], lead + r);
      SqueezeBlank(lead, r);
      assert ([COMMA] + lead) + r == [COMMA] + (lead + r) && [COMMA] + [] == [COMMA];
    }
  }

  lemma SqueezeKey(key: Key, kind: Kind, r: Bytes)
    requires WellFormedKey(key, kind, Relaxed)
    ensures Squeeze(RenderKey(key) + r, false) == CompactKey(key) + Squeeze(r, false)
  {
    hide Squeeze, AllWhitespace, Solid, Quoted, StringBody;
    if key.NoKey? {
      assert [] + r == r && [] + Squeeze(r, false) == Squeeze(r, false);
    } else {
      var q := Quoted(key.name);
      MarkIsSolid(COLON);
      SqueezeQuoted(key.name, key.beforeColon + ([COLON] + (key.afterColon + r)));
      SqueezeBlank(key.beforeColon, [COLON] + (key.afterColon + r));
      SqueezeSolid([COLON], key.afterColon + r);
      SqueezeBlank(key.afterColon, r);
      assert RenderKey(key) + r == q + (key.beforeColon + ([COLON] + (key.afterColon + r)));
      assert q + ([COLON] + Squeeze(r, false)) == (q + [COLON]) + Squeeze(r, false);
    }
  }

  // ---- the events of a tree cover its compact text ----

  lemma CoveredOne(d: Bytes, typ: EventType, at: nat, s: Bytes)
    requires TextAt(d, at, s)
    ensures CoveredAll(d, [Event(typ, at, |s|)]) == s
  {
    assert [Event(typ, at, |s|)][1..] == [];
    assert CoveredAll(d, []) == [];
  }

  lemma {:induction false} CoveredTree(d: Bytes, at: nat, t: Json)
    requires TextAt(d, at, Render(t))
    ensures CoveredAll(d, Events(t, at)) == Compact(t)
    decreases Size(t)
  {
    match t
    case Lit(l) => CoveredOne(d, Word(l), at, LiteralText(l));
    case Num(n) => CoveredOne(d, NumberText, at, RenderNumber(n));
    case Str(b) => CoveredOne(d, ValueString, at, Quoted(b));
    case Container(kind, pad, items) => CoveredContainer(d, at, kind, pad, items);
  }

  lemma {:induction false} CoveredContainer(d: Bytes, at: nat, kind: Kind, pad: Bytes, items: Items)
    requires TextAt(d, at, Render(Container(kind, pad, items)))
    ensures CoveredAll(d, Events(Container(kind, pad, items), at)) == Compact(Container(kind, pad, items))
    decreases ItemsSize(items), 2
  {
    hide TextAt, RenderItems, CompactItems, ItemEvents, CoveredAll;
    ContainerPieces(d, at, kind, pad, RenderItems(items, true) + [Close(kind)]);
    CoveredItems(d, at + 1 + |pad|, items, kind, true);
    TextByte(d, at, Open(kind));
    CoveredOne(d, Opening(kind), at, [Open(kind)]);
    CoveredCat(d, [Event(Opening(kind), at, 1)], ItemEvents(items, kind, at + 1 + |pad|, true));
  }

  lemma {:induction false} CoveredItems(d: Bytes, at: nat, items: Items, kind: Kind, first: bool)
    requires TextAt(d, at, RenderItems(items, first) + [Close(kind)])
    ensures CoveredAll(d, ItemEvents(items, kind, at, first)) == CompactItems(items, first) + [Close(kind)]
    decreases ItemsSize(items), 1
  {
    if items.Nil? {
      assert [] + [Close(kind)] == [Close(kind)];
      CoveredOne(d, Closing(kind), at, [Close(kind)]);
    } else {
      CoveredCons(d, at, items, kind, first);
    }
  }

  lemma {:induction false} CoveredCons(d: Bytes, at: nat, items: Items, kind: Kind, first: bool)
    requires items.Cons? && TextAt(d, at, RenderItems(items, first) + [Close(kind)])
    ensures CoveredAll(d, ItemEvents(items, kind, at, first)) == CompactItems(items, first) + [Close(kind)]
    decreases ItemsSize(items), 0
  {
    hide TextAt, Render, Compact, RenderKey, CompactKey, Separator, CoveredAll, Events, KeyEvents, CommaEvents;
    var Cons(lead, key, value, after, rest) := items;
    var close := [Close(kind)];
    FivePieces(d, at, Separator(lead, first), RenderKey(key), Render(value), after, RenderItems(rest, false), close);
    var k := at + |Separator(lead, first)|;
    var v := k + |RenderKey(key)|;
    var r := v + |Render(value)| + |after|;
    var tail := ItemEvents(rest, kind, r, false);
    CoveredSeparator(d, at, lead, first);
    CoveredKey(d, k, key);
    CoveredTree(d, v, value);
    CoveredItems(d, r, rest, kind, false);
    CoveredCat(d, Events(value, v), tail);
    CoveredCat(d, KeyEvents(key, k), Events(value, v) + tail);
    CoveredCat(d, CommaEvents(at, first), KeyEvents(key, k) + (Events(value, v) + tail));
    Regroup(Separator([], first), CompactKey(key), Compact(value), [], CompactItems(rest, false), close);
    assert [] + CompactItems(rest, false) == CompactItems(rest, false);
    assert [] + (CompactItems(rest, false) + close) == CompactItems(rest, false) + close;
  }

  lemma CoveredSeparator(d: Bytes, at: nat, lead: Bytes, first: bool)
    requires TextAt(d, at, Separator(lead, first))
    ensures CoveredAll(d, CommaEvents(at, first)) == Separator([], first)
  {
    if !first {
      SeparatorPieces(d, at, lead);
      TextByte(d, at, COMMA);
      CoveredOne(d, CommaMark, at, [COMMA]);
      assert [COMMA] + [] == [COMMA];
    }
  }

  lemma CoveredKey(d: Bytes, at: nat, key: Key)
    requires TextAt(d, at, RenderKey(key))
    ensures CoveredAll(d, KeyEvents(key, at)) == CompactKey(key)
  {
    if key.Key? {
      CoveredName(d, at, key);
    } else {
      assert CoveredAll(d, []) == [];
    }
  }

  lemma CoveredName(d: Bytes, at: nat, key: Key)
    requires key.Key? && TextAt(d, at, RenderKey(key))
    ensures CoveredAll(d, KeyEvents(key, at)) == CompactKey(key)
  {
    hide TextAt, Quoted, CoveredAll, RenderKey;
    var c := at + |Quoted(key.name)| + |key.beforeColon|;
    var name, colon := Event(KeyString, at, |Quoted(key.name)|), Event(ColonMark, c, 1);
    KeyPieces(d, at, key);
    TextByte(d, c, COLON);
    CoveredOne(d, KeyString, at, Quoted(key.name));
    CoveredOne(d, ColonMark, c, [COLON]);
    CoveredCat(d, [name], [colon]);
    assert KeyEvents(key, at) == [name] + [colon];
  }

  /** The events of an accepted input cover exactly its consumed part, less the whitespace between tokens. */
  lemma EventsCoverInput(d: Bytes)
    requires ScanValue(d, 0).Done?
    ensures CoveredAll(d, ScanValue(d, 0).events) == Squeeze(d[..ScanValue(d, 0).end], false)
  {
    hide ScanValue, Squeeze, CoveredAll, Render, Compact, Events, WellFormed, Stops, TextAt, AllWhitespace;
    var p, t := ScanStartsWith(d);
    StartsWithScans(d, p, t);
    CoveredTree(d, p, t);
    ConsumedText(d, p, Render(t));
    SqueezeBlank(d[0..p], Render(t));
    assert Render(t) + [] == Render(t);
    SqueezeTree(t, []);
    SqueezeNothing();
  }

  lemma ConsumedText(d: Bytes, p: nat, s: Bytes)
    requires BlankTo(d, 0, p) && TextAt(d, p, s)
    ensures p + |s| <= |d| && d[..p + |s|] == d[0..p] + s && AllWhitespace(d[0..p])
  {
  }

  lemma SqueezeNothing()
    ensures Squeeze([], false) == [] && forall s: Bytes :: s + [] == s
  {
  }

  // ---- every reported event covers real bytes, and a key covers a quoted name ----

  /** The bytes that tokens of each type begin with; no byte begins two types, but for keys and strings. */
  predicate TokenBegins(typ: TokenType, b: bv8) {
    match typ
    case TokenString | TokenKey64 | TokenKey128 => b == 0x22
    case TokenNumber => b == 0x2D || 0x30 <= b <= 0x39
    case TokenTrue => b == 0x74
    case TokenFalse => b == 0x66
    case TokenNull => b == 0x6E
    case TokenObjectStart => b == 0x7B
    case TokenObjectEnd => b == 0x7D
    case TokenArrayStart => b == 0x5B
    case TokenArrayEnd => b == 0x5D
    case TokenColon => b == 0x3A
    case TokenComma => b == 0x2C
  }

  predicate GoodEvent(d: Bytes, ev: Event) {
    && 1 <= ev.length && ev.offset + ev.length <= |d|
    && (ev.typ.KeyString? ==> 2 <= ev.length && d[ev.offset] == QUOTE && d[ev.offset + ev.length - 1] == QUOTE)
    && TokenBegins(PlainType(ev.typ), d[ev.offset])
  }

  predicate AllGood(d: Bytes, evs: seq<Event>) {
    forall i | 0 <= i < |evs| :: GoodEvent(d, evs[i])
  }

  lemma GoodCat(d: Bytes, a: seq<Event>, b: seq<Event>)
    requires AllGood(d, a) && AllGood(d, b)
    ensures AllGood(d, a + b)
  {
    hide GoodEvent;
  }

  lemma {:induction false} ValueGood(d: Bytes, i: nat)
    requires i <= |d| && ScanValue(d, i).Done?
    ensures AllGood(d, ScanValue(d, i).events)
    decreases |d| - i, 0
  {
    hide ScanItems, StringEnd, NumberEnd, LiteralAt, SkipWhitespace, AllGood;
    var p := SkipWhitespace(d, i);
    if d[p] == Open(Obj) {
      ItemsGood(d, p + 1, Obj, true);
      OneGood(d, Event(Opening(Obj), p, 1));
      GoodCat(d, [Event(Opening(Obj), p, 1)], ScanItems(d, p + 1, Obj, true).events);
    } else if d[p] == Open(Arr) {
      ItemsGood(d, p + 1, Arr, true);
      OneGood(d, Event(Opening(Arr), p, 1));
      GoodCat(d, [Event(Opening(Arr), p, 1)], ScanItems(d, p + 1, Arr, true).events);
    } else {
      var ev := ScanValue(d, i).events[0];
      OneGood(d, ev);
    }
  }

  lemma OneGood(d: Bytes, ev: Event)
    requires GoodEvent(d, ev)
    ensures AllGood(d, [ev])
  {
  }

  lemma {:induction false} ItemsGood(d: Bytes, i: nat, kind: Kind, first: bool)
    requires i <= |d| && ScanItems(d, i, kind, first).Done?
    ensures AllGood(d, ScanItems(d, i, kind, first).events)
    decreases |d| - i, 1
  {
    hide ScanKey, ScanValue, SkipWhitespace, AllGood;
    var p := SkipWhitespace(d, i);
    if d[p] == Close(kind) {
      OneGood(d, Event(Closing(kind), p, 1));
    } else {
      var q := RoundStart(d, i, first);
      var k := RoundKey(d, q, kind);
      var v := ScanValue(d, k.end);
      var comma := CommaEvents(p, first);
      CommaGood(d, p, first);
      KeyGood(d, q, kind);
      ValueGood(d, k.end);
      ItemsGood(d, v.end, kind, false);
      GoodCat(d, k.events, v.events);
      GoodCat(d, comma, k.events + v.events);
      GoodCat(d, comma + (k.events + v.events), ScanItems(d, v.end, kind, false).events);
    }
  }

  lemma CommaGood(d: Bytes, p: nat, first: bool)
    requires p < |d| && (first || d[p] == COMMA)
    ensures AllGood(d, CommaEvents(p, first))
  {
  }

  lemma KeyGood(d: Bytes, q: nat, kind: Kind)
    requires q <= |d| && RoundKey(d, q, kind).Done?
    ensures AllGood(d, RoundKey(d, q, kind).events)
  {
    hide StringEnd, SkipWhitespace;
  }

  // ---- token texts against covered bytes ----

  /** A key that packing keeps whole: too long to be packed, or without a zero byte. */
  predicate KeySurvives(d: Bytes, ev: Event) {
    ev.typ.KeyString? && |Unquoted(d, ev)| <= 16 ==> 0 !in Unquoted(d, ev)
  }

  lemma QuotedName(d: Bytes, ev: Event)
    requires GoodEvent(d, ev) && ev.typ.KeyString?
    ensures Covered(d, ev) == Quoted(Unquoted(d, ev))
  {
    var s := d[ev.offset..ev.offset + ev.length];
    assert s == [s[0]] + (s[1..|s| - 1] + [s[|s| - 1]]);
    forall k | 0 <= k < |s| - 2
      ensures s[1..|s| - 1][k] == Unquoted(d, ev)[k]
    {
      assert s[k + 1] == d[ev.offset + k + 1];
    }
  }

  /** A token spells the bytes its event covers, or the part of a packed key before its first zero byte. */
  lemma KeySpells(d: Bytes, name: Bytes, offset: nat, length: nat)
    requires |name| <= 16
    ensures Requoted(d, KeyToken(AtomKeys, name, offset, length)) == Quoted(UpToNul(name))
  {
    hide Atom64Of, Atom128Of, Text64, Text128, Quoted, UpToNul;
    if |name| <= 8 {
      Atom64RoundTrip(name);
    } else {
      Atom128RoundTrip(name);
    }
  }

  lemma PlainSpells(d: Bytes, typ: TokenType, offset: nat, length: nat)
    requires 1 <= length && offset + length <= |d| < 0x1_0000_0000 && typ != TokenKey64 && typ != TokenKey128
    ensures Requoted(d, PlainToken(typ, offset, length)) == d[offset..offset + length]
  {
  }

  lemma TokenSpells(mode: KeyMode, d: Bytes, ev: Event)
    requires GoodEvent(d, ev) && |d| < 0x1_0000_0000
    ensures Requoted(d, TokenOf(mode, d, ev)) ==
      if mode.AtomKeys? && ev.typ.KeyString? && |Unquoted(d, ev)| <= 16 then Quoted(UpToNul(Unquoted(d, ev)))
      else Covered(d, ev)
  {
    hide Atom64Of, Atom128Of, Requoted, Quoted, Unquoted, UpToNul, TokenBegins;
    var name := Unquoted(d, ev);
    if mode.AtomKeys? && ev.typ.KeyString? && |name| <= 16 {
      KeySpells(d, name, ev.offset, ev.length);
    } else {
      PlainSpells(d, PlainType(ev.typ), ev.offset, ev.length);
    }
  }

  lemma TokenSpellsExactly(mode: KeyMode, d: Bytes, ev: Event)
    requires GoodEvent(d, ev) && |d| < 0x1_0000_0000
    ensures |Requoted(d, TokenOf(mode, d, ev))| <= |Covered(d, ev)|
    ensures |Requoted(d, TokenOf(mode, d, ev))| == |Covered(d, ev)| <==> mode.StringKeys? || KeySurvives(d, ev)
    ensures mode.StringKeys? || KeySurvives(d, ev) ==> Requoted(d, TokenOf(mode, d, ev)) == Covered(d, ev)
  {
    hide TokenOf, Requoted, Covered, Unquoted, Quoted, GoodEvent;
    TokenSpells(mode, d, ev);
    if ev.typ.KeyString? {
      var name := Unquoted(d, ev);
      QuotedName(d, ev);
      NulFree(name);
      QuotedLength(name);
      QuotedLength(UpToNul(name));
    }
  }

  lemma {:induction false} JoinTokens(mode: KeyMode, d: Bytes, evs: seq<Event>)
    requires AllGood(d, evs) && |d| < 0x1_0000_0000
    ensures |Join(d, Encode(mode, d, evs))| <= |CoveredAll(d, evs)|
    ensures Join(d, Encode(mode, d, evs)) == CoveredAll(d, evs) <==>
      mode.StringKeys? || forall i | 0 <= i < |evs| :: KeySurvives(d, evs[i])
  {
    hide TokenOf, Requoted, Covered, KeySurvives, GoodEvent;
    var ts := Encode(mode, d, evs);
    if evs != [] {
      var ev, rest := evs[0], evs[1..];
      assert ts[0] == TokenOf(mode, d, ev) && ts[1..] == Encode(mode, d, rest);
      TokenSpellsExactly(mode, d, ev);
      JoinTokens(mode, d, rest);
      SplitQuantifier(d, evs);
      if Join(d, ts) == CoveredAll(d, evs) {
        SplitEqual(Requoted(d, ts[0]), Join(d, ts[1..]), Covered(d, ev), CoveredAll(d, rest));
      }
    }
  }

  lemma SplitQuantifier(d: Bytes, evs: seq<Event>)
    requires evs != []
    ensures (forall i | 0 <= i < |evs| :: KeySurvives(d, evs[i])) <==>
      KeySurvives(d, evs[0]) && forall i | 0 <= i < |evs[1..]| :: KeySurvives(d, evs[1..][i])
  {
    hide KeySurvives;
    if forall i | 0 <= i < |evs[1..]| :: KeySurvives(d, evs[1..][i]) {
      forall i | 1 <= i < |evs|
        ensures KeySurvives(d, evs[i])
      {
        assert evs[i] == evs[1..][i - 1];
      }
    }
  }

  lemma SplitEqual(a: Bytes, b: Bytes, c: Bytes, d: Bytes)
    requires a + b == c + d && |a| <= |c| && |b| <= |d|
    ensures |a| == |c| && a == c && b == d
  {
    assert |a + b| == |c + d|;
    assert a == (a + b)[..|a|] && c == (c + d)[..|c|];
    assert b == (a + b)[|a|..] && d == (c + d)[|c|..];
  }

  /**
   The tokens of an accepted input spell it, without the whitespace between tokens, exactly when
   keys stay strings or no packed key holds a zero byte.
   */
  lemma Lossless(mode: KeyMode, d: Bytes)
    requires ScanValue(d, 0).Done? && |d| < 0x1_0000_0000
    ensures var r := ScanValue(d, 0);
      Join(d, Encode(mode, d, r.events)) == Squeeze(d[..r.end], false) <==>
        mode.StringKeys? || forall i | 0 <= i < |r.events| :: KeySurvives(d, r.events[i])
  {
    hide ScanValue, Squeeze, CoveredAll, Join, Encode, KeySurvives, AllGood;
    EventsCoverInput(d);
    ValueGood(d, 0);
    JoinTokens(mode, d, ScanValue(d, 0).events);
  }

  lemma KeyTypes(mode: KeyMode, d: Bytes, ev: Event)
    requires GoodEvent(d, ev)
    ensures TokenBegins(TokenOf(mode, d, ev).typ, d[ev.offset])
    ensures var typ := TokenOf(mode, d, ev).typ; typ == TokenKey64 || typ == TokenKey128 ==> ev.typ == KeyString && mode == AtomKeys
  {
    hide Atom64Of, Atom128Of, Unquoted;
  }

  /** Every token of an accepted input has the type that its first byte calls for; only member names are packed. */
  lemma TokenTypes(mode: KeyMode, d: Bytes, i: nat)
    requires ScanValue(d, 0).Done? && i < |ScanValue(d, 0).events|
    ensures var ev := ScanValue(d, 0).events[i]; var typ := Encode(mode, d, ScanValue(d, 0).events)[i].typ;
      && ev.offset < |d| && TokenBegins(typ, d[ev.offset])
      && (typ == TokenKey64 || typ == TokenKey128 ==> ev.typ == KeyString && mode == AtomKeys)
  {
    hide ScanValue, TokenOf, TokenBegins;
    ValueGood(d, 0);
    var ev := ScanValue(d, 0).events[i];
    assert GoodEvent(d, ev);
    KeyTypes(mode, d, ev);
  }

  // ---- any two parsers agree ----

  /**
   Two parsers, created with any scanners at all, accept the same inputs, stop at the same byte and
   report the same tokens, except that a member name may be encoded differently.
   */
  method ParseBothWays(a: Ops, b: Ops, d: Bytes)
      returns (outA: Outcome, outB: Outcome, endA: nat, endB: nat, tokensA: seq<Token>, tokensB: seq<Token>)
    ensures outA == outB
    ensures outA.Accepted? ==> endA == endB && |tokensA| == |tokensB|
    ensures outA.Accepted? && a.keys == b.keys ==> tokensA == tokensB
    ensures outA.Accepted? ==> ScanValue(d, 0).Done? && |ScanValue(d, 0).events| == |tokensA|
    ensures outA.Accepted? ==> forall i | 0 <= i < |tokensA| ::
      tokensA[i] == tokensB[i] || ScanValue(d, 0).events[i].typ == KeyString
  {
    hide ScanValue;
    var p := new FastJSONParser(a);
    outA := p.Parse(d);
    endA, tokensA := p.pos, p.tokens;
    var q := new FastJSONParser(b);
    outB := q.Parse(d);
    endB, tokensB := q.pos, q.tokens;
  }

  /**
   Two parsers from any two configurations: whether SIMD is on, eight or sixteen bytes wide, changes
   nothing at all, and atoms change only how member names are encoded.
   */
  method ParseConfigured(a: Config, b: Config, d: Bytes)
      returns (outA: Outcome, outB: Outcome, endA: nat, endB: nat, tokensA: seq<Token>, tokensB: seq<Token>)
    ensures outA == outB
    ensures outA.Accepted? ==> endA == endB && |tokensA| == |tokensB|
    ensures outA.Accepted? ==> ScanValue(d, 0).Done? && |ScanValue(d, 0).events| == |tokensA|
    ensures outA.Accepted? && a.enableAtoms == b.enableAtoms ==> tokensA == tokensB
    ensures outA.Accepted? ==> forall i | 0 <= i < |tokensA| ::
      tokensA[i] == tokensB[i] || ScanValue(d, 0).events[i].typ == KeyString
  {
    hide ScanValue;
    var p := new FastJSONParser.FromConfig(a);
    outA := p.Parse(d);
    endA, tokensA := p.pos, p.tokens;
    var q := new FastJSONParser.FromConfig(b);
    outB := q.Parse(d);
    endB, tokensB := q.pos, q.tokens;
  }

  // ---- comparing a token with a string ----

  predicate ZerosFrom(s: Bytes, n: nat) {
    forall i | n <= i < |s| :: s[i] == 0
  }

  /** One is the other with zero bytes after it. */
  predicate SamePadded(a: Bytes, b: Bytes) {
    (|a| <= |b| && b[..|a|] == a && ZerosFrom(b, |a|)) || (|b| <= |a| && a[..|b|] == b && ZerosFrom(a, |b|))
  }

  /** How many bytes the atom of a key of at most sixteen bytes has room for. */
  function Room(name: Bytes): nat {
    if |name| <= 8 then 8 else 16
  }

  /** A target too long for the atom counts as the empty key. */
  predicate PackAlike(name: Bytes, target: Bytes) {
    SamePadded(name, if |target| <= Room(name) then target else [])
  }

  lemma PaddedAlike(a: Bytes, b: Bytes, n: nat)
    requires |a| <= n && |b| <= n
    ensures Padded(a, n) == Padded(b, n) <==> SamePadded(a, b)
  {
    var p, q := Padded(a, n), Padded(b, n);
    if SamePadded(a, b) {
      var short, long := if |a| <= |b| then a else b, if |a| <= |b| then b else a;
      forall i | 0 <= i < n
        ensures p[i] == q[i]
      {
        if i < |short| {
          assert long[..|short|][i] == long[i];
        }
      }
    }
    if p == q {
      forall i | 0 <= i < n
        ensures (if i < |a| then a[i] else 0) == (if i < |b| then b[i] else 0)
      {
        assert p[i] == q[i];
      }
    }
  }

  lemma LongTarget(name: Bytes, target: Bytes)
    requires |name| <= 16 && |target| > Room(name)
    ensures Atom64Of(target) == Atom64Of([]) && (|target| > 16 ==> Atom128Of(target) == Atom128Of([]))
  {
    hide Load, ByteOf;
    ZeroWord();
    LoadIs(0, Padded([], 8));
    assert Padded([], 16)[..8] == Padded([], 8) && Padded([], 16)[8..] == Padded([], 8);
  }

  /** What the fast comparison of a packed key decides, in terms of the key. */
  lemma FastCompareMeaning(d: Bytes, name: Bytes, offset: nat, length: nat, target: Bytes)
    requires |name| <= 16
    ensures FastMatch(d, KeyToken(AtomKeys, name, offset, length), target) <==> PackAlike(name, target)
  {
    hide Atom64Of, Atom128Of;
    var fits := if |target| <= Room(name) then target else [];
    if |target| > Room(name) {
      LongTarget(name, target);
    }
    PaddedAlike(name, fits, Room(name));
    if |name| <= 8 {
      Atom64Injective(name, fits);
    } else {
      Atom128Injective(name, fits);
    }
  }

  /**
   The fast comparison of a packed key is a comparison with its text exactly when, for the text
   itself, nothing but zero bytes was cut from the key, and, for any other target, the two are not
   packed alike.
   */
  lemma FastCompareExact(d: Bytes, name: Bytes, offset: nat, length: nat, target: Bytes)
    requires |name| <= 16
    ensures var t := KeyToken(AtomKeys, name, offset, length);
      (FastMatch(d, t, target) <==> TokenText(d, t) == target) <==>
        if target == UpToNul(name) then ZerosFrom(name, |target|) else !PackAlike(name, target)
  {
    hide Atom64Of, Atom128Of, Text64, Text128, UpToNul;
    FastCompareMeaning(d, name, offset, length, target);
    if |name| <= 8 {
      Atom64RoundTrip(name);
    } else {
      Atom128RoundTrip(name);
    }
    assert target == UpToNul(name) ==> (PackAlike(name, target) <==> ZerosFrom(name, |target|));
  }

  /** `target` is `name` followed by one or more zero bytes. */
  predicate OnlyPadded(name: Bytes, target: Bytes) {
    |name| < |target| && target[..|name|] == name && ZerosFrom(target, |name|)
  }

  /**
   For a key without zero bytes that leaves two differences: the empty key against a target too long
   to pack, and a target that is the key with zero bytes after it.
   */
  lemma FastCompareNulFree(d: Bytes, name: Bytes, offset: nat, length: nat, target: Bytes)
    requires |name| <= 16 && 0 !in name
    ensures var t := KeyToken(AtomKeys, name, offset, length);
      (FastMatch(d, t, target) <==> TokenText(d, t) == target) <==>
        !(name == [] && |target| > 8) && !(|target| <= Room(name) && OnlyPadded(name, target))
  {
    hide FastMatch, TokenText, UpToNul;
    FastCompareExact(d, name, offset, length, target);
    NulFree(name);
    NulFreeAlike(name, if |target| <= Room(name) then target else []);
  }

  lemma NulFreeAlike(name: Bytes, target: Bytes)
    requires 0 !in name
    ensures SamePadded(name, target) <==> name == target || OnlyPadded(name, target)
  {
    if |target| < |name| {
      assert name[|target|] in name;
    }
  }
}
