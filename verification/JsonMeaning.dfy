/**
 The scanner functions against the grammar: `ScanValue` succeeds on exactly the byte strings that
 start with whitespace and a rendered tree, it consumes exactly those bytes, and the events it
 reports are those of the tree.
 */
module JsonMeaning {
  import opened Words
  import opened JsonGrammar
  import opened JsonScan

  // ---- the events of a tree that starts at byte `at` ----

  ghost function Events(t: Json, at: nat): seq<Event> {
    match t
    case Lit(l) => [Event(Word(l), at, |LiteralText(l)|)]
    case Num(n) => [Event(NumberText, at, |RenderNumber(n)|)]
    case Str(b) => [Event(ValueString, at, |Quoted(b)|)]
    case Container(kind, pad, items) => [Event(Opening(kind), at, 1)] + ItemEvents(items, kind, at + 1 + |pad|, true)
  }

  ghost function KeyEvents(k: Key, at: nat): seq<Event> {
    if k.NoKey? then []
    else [Event(KeyString, at, |Quoted(k.name)|), Event(ColonMark, at + |Quoted(k.name)| + |k.beforeColon|, 1)]
  }

  ghost function ItemEvents(items: Items, kind: Kind, at: nat, first: bool): seq<Event> {
    match items
    case Nil => [Event(Closing(kind), at, 1)]
    case Cons(lead, key, value, after, rest) =>
      var k := at + |Separator(lead, first)|;
      var v := k + |RenderKey(key)|;
      var r := v + |Render(value)| + |after|;
      CommaEvents(at, first) + (KeyEvents(key, k) + (Events(value, v) + ItemEvents(rest, kind, r, false)))
  }

  // ---- where a number must not go on ----

  ghost predicate NumberStops(n: Number, d: Bytes, j: nat) {
    if n.exponent.Exponent? then !DigitAt(d, j)
    else if n.fraction != [] then !DigitAt(d, j) && !MarkAt(d, j)
    else (n.integer == [ZERO] || !DigitAt(d, j)) && !ByteAt(d, j, DOT) && !MarkAt(d, j)
  }

  /** Only a number can be continued by the byte that follows it. */
  ghost predicate Stops(t: Json, d: Bytes, j: nat) {
    t.Num? ==> NumberStops(t.num, d, j)
  }

  // ---- pieces of text ----

  lemma TextCat(d: Bytes, i: nat, a: Bytes, b: Bytes)
    ensures TextAt(d, i, a + b) <==> TextAt(d, i, a) && TextAt(d, i + |a|, b)
  {
    if i + |a + b| <= |d| {
      var s := d[i..i + |a + b|];
      assert s[..|a|] == d[i..i + |a|] && s[|a|..] == d[i + |a|..i + |a| + |b|];
      assert (a + b)[..|a|] == a && (a + b)[|a|..] == b;
      assert s == s[..|a|] + s[|a|..];
    }
  }

  lemma TextByte(d: Bytes, i: nat, x: bv8)
    ensures TextAt(d, i, [x]) <==> ByteAt(d, i, x)
  {
    if i < |d| {
      assert d[i..i + 1] == [d[i]];
    }
  }

  lemma TextSlice(d: Bytes, i: nat, j: nat)
    requires i <= j <= |d|
    ensures TextAt(d, i, d[i..j])
  {
  }

  // ---- strings ----

  lemma {:induction false} StringEndComplete(d: Bytes, i: nat, b: Bytes)
    requires StringBody(b) && TextAt(d, i, b + [QUOTE])
    ensures StringEnd(d, i) == Some(i + |b|)
    decreases |b|
  {
    hide TextAt;
    TextCat(d, i, b, [QUOTE]);
    TextByte(d, i + |b|, QUOTE);
    TextFits(d, i, b);
    if b != [] {
      var n := if b[0] == BACKSLASH then 2 else 1;
      FirstByte(d, i, b);
      assert b == b[..n] + b[n..];
      TextCat(d, i, b[..n], b[n..]);
      TextCat(d, i + n, b[n..], [QUOTE]);
      StringEndComplete(d, i + n, b[n..]);
    }
  }

  lemma {:induction false} StringEndSound(d: Bytes, i: nat)
    requires StringEnd(d, i).Some?
    ensures StringBody(d[i..StringEnd(d, i).value])
    ensures TextAt(d, i, d[i..StringEnd(d, i).value] + [QUOTE])
    decreases |d| - i
  {
    var e := StringEnd(d, i).value;
    var b := d[i..e];
    if d[i] != QUOTE {
      var n := if d[i] == BACKSLASH then 2 else 1;
      StringEndSound(d, i + n);
      assert b[n..] == d[i + n..e];
    }
    TextCat(d, i, b, [QUOTE]);
    TextByte(d, e, QUOTE);
  }

  // ---- numbers ----

  lemma {:induction false} DigitsTo(d: Bytes, i: nat, s: Bytes)
    requires AllDigits(s) && TextAt(d, i, s) && !DigitAt(d, i + |s|)
    ensures DigitsEnd(d, i) == i + |s|
    decreases |s|
  {
    if s != [] {
      assert d[i] == d[i..i + |s|][0];
      assert d[i + 1..i + |s|] == d[i..i + |s|][1..];
      DigitsTo(d, i + 1, s[1..]);
    }
  }

  lemma ExponentComplete(d: Bytes, i: nat, e: Exponent)
    requires i <= |d| && WellFormedExponent(e) && TextAt(d, i, RenderExponent(e))
    requires if e.NoExponent? then !MarkAt(d, i) else !DigitAt(d, i + |RenderExponent(e)|)
    ensures ExponentEnd(d, i) == Some(i + |RenderExponent(e)|)
  {
    if e.Exponent? {
      TextCat(d, i, [e.mark], e.sign + e.digits);
      TextByte(d, i, e.mark);
      TextCat(d, i + 1, e.sign, e.digits);
      var p := i + 1 + |e.sign|;
      assert d[p] == d[p..p + |e.digits|][0];
      if e.sign != [] {
        TextByte(d, i + 1, e.sign[0]);
      }
      DigitsTo(d, p, e.digits);
    }
  }

  lemma ExponentSound(d: Bytes, i: nat) returns (e: Exponent)
    requires i <= |d| && ExponentEnd(d, i).Some?
    ensures WellFormedExponent(e) && TextAt(d, i, RenderExponent(e))
    ensures ExponentEnd(d, i).value == i + |RenderExponent(e)|
    ensures if e.NoExponent? then !MarkAt(d, i) else !DigitAt(d, ExponentEnd(d, i).value)
  {
    if !MarkAt(d, i) {
      e := NoExponent;
    } else {
      var p := if SignAt(d, i + 1) then i + 2 else i + 1;
      e := Exponent(d[i], if SignAt(d, i + 1) then [d[i + 1]] else [], d[p..DigitsEnd(d, p)]);
      hide TextAt, AllDigits;
      DigitsBetween(d, p);
      TextSlice(d, i + 1, i + 1);
      TextByte(d, i, d[i]);
      if SignAt(d, i + 1) {
        TextByte(d, i + 1, d[i + 1]);
      }
      ExponentText(d, i, e);
    }
  }

  lemma DigitsBetween(d: Bytes, p: nat)
    requires DigitAt(d, p)
    ensures var s := d[p..DigitsEnd(d, p)]; s != [] && AllDigits(s) && TextAt(d, p, s) && !DigitAt(d, DigitsEnd(d, p))
  {
  }

  lemma ExponentText(d: Bytes, i: nat, e: Exponent)
    requires e.Exponent? && TextAt(d, i, [e.mark]) && TextAt(d, i + 1, e.sign) && TextAt(d, i + 1 + |e.sign|, e.digits)
    ensures TextAt(d, i, RenderExponent(e))
  {
    hide TextAt;
    TextCat(d, i + 1, e.sign, e.digits);
    TextCat(d, i, [e.mark], e.sign + e.digits);
  }

  lemma FractionComplete(d: Bytes, i: nat, f: Bytes)
    requires i <= |d| && AllDigits(f) && TextAt(d, i, RenderFraction(f))
    requires if f == [] then !ByteAt(d, i, DOT) else !DigitAt(d, i + |RenderFraction(f)|)
    ensures FractionEnd(d, i) == Some(i + |RenderFraction(f)|)
  {
    if f != [] {
      TextCat(d, i, [DOT], f);
      TextByte(d, i, DOT);
      assert d[i + 1] == d[i + 1..i + 1 + |f|][0];
      DigitsTo(d, i + 1, f);
    }
  }

  lemma FractionSound(d: Bytes, i: nat) returns (f: Bytes)
    requires i <= |d| && FractionEnd(d, i).Some?
    ensures AllDigits(f) && TextAt(d, i, RenderFraction(f))
    ensures FractionEnd(d, i).value == i + |RenderFraction(f)|
    ensures if f == [] then !ByteAt(d, i, DOT) else !DigitAt(d, FractionEnd(d, i).value)
  {
    if !ByteAt(d, i, DOT) {
      f := [];
    } else {
      f := d[i + 1..DigitsEnd(d, i + 1)];
      TextByte(d, i, DOT);
      TextCat(d, i, [DOT], f);
    }
  }

  lemma IntegerComplete(d: Bytes, i: nat, s: Bytes)
    requires i <= |d| && s != [] && AllDigits(s) && (s[0] == ZERO ==> |s| == 1) && TextAt(d, i, s)
    requires s == [ZERO] || !DigitAt(d, i + |s|)
    ensures IntegerEnd(d, i) == Some(i + |s|)
  {
    assert d[i] == d[i..i + |s|][0];
    if s[0] != ZERO {
      DigitsTo(d, i, s);
    }
  }

  lemma IntegerSound(d: Bytes, i: nat) returns (s: Bytes)
    requires i <= |d| && IntegerEnd(d, i).Some?
    ensures s != [] && AllDigits(s) && (s[0] == ZERO ==> |s| == 1) && TextAt(d, i, s)
    ensures IntegerEnd(d, i).value == i + |s|
    ensures s == [ZERO] || !DigitAt(d, i + |s|)
  {
    s := d[i..IntegerEnd(d, i).value];
  }

  /** What follows the integer part never starts with a digit, and what follows the fraction neither. */
  lemma NumberComplete(d: Bytes, i: nat, n: Number)
    requires i <= |d| && WellFormedNumber(n) && TextAt(d, i, RenderNumber(n))
    requires NumberStops(n, d, i + |RenderNumber(n)|)
    ensures NumberEnd(d, i) == Some(i + |RenderNumber(n)|)
  {
    hide TextAt, IntegerEnd, FractionEnd, ExponentEnd, RenderFraction, RenderExponent, AllDigits, WellFormedExponent,
      DigitAt, ByteAt, MarkAt;
    var m: Bytes := if n.negative then [MINUS] else [];
    NoFraction();
    var f, e := RenderFraction(n.fraction), RenderExponent(n.exponent);
    TextCat(d, i, m, n.integer + (f + e));
    TextCat(d, i + |m|, n.integer, f + e);
    var p := i + |m| + |n.integer|;
    TextCat(d, p, f, e);
    FirstBytes(d, i, m, n.integer);
    TailBytes(d, p, n.fraction, n.exponent);
    TextFits(d, i + |m|, n.integer);
    TextFits(d, p, f);
    IntegerComplete(d, i + |m|, n.integer);
    FractionComplete(d, p, n.fraction);
    ExponentComplete(d, p + |f|, n.exponent);
  }

  lemma NoFraction()
    ensures RenderFraction([]) == [] && RenderExponent(NoExponent) == []
  {
  }

  lemma TextFits(d: Bytes, i: nat, s: Bytes)
    requires TextAt(d, i, s)
    ensures i + |s| <= |d|
  {
  }

  lemma FirstBytes(d: Bytes, i: nat, m: Bytes, s: Bytes)
    requires s != [] && AllDigits(s) && (m == [] || m == [MINUS])
    requires TextAt(d, i, m) && TextAt(d, i + |m|, s)
    ensures ByteAt(d, i, MINUS) <==> m != []
  {
    assert d[i + |m|] == d[i + |m|..i + |m| + |s|][0];
    if m != [] {
      TextByte(d, i, MINUS);
    }
  }

  lemma TailBytes(d: Bytes, p: nat, f: Bytes, e: Exponent)
    requires WellFormedExponent(e) && TextAt(d, p, RenderFraction(f)) && TextAt(d, p + |RenderFraction(f)|, RenderExponent(e))
    ensures f != [] ==> ByteAt(d, p, DOT) && !DigitAt(d, p) && !MarkAt(d, p)
    ensures var q := p + |RenderFraction(f)|; e.Exponent? ==> MarkAt(d, q) && !DigitAt(d, q) && !ByteAt(d, q, DOT)
  {
    if f != [] {
      TextCat(d, p, [DOT], f);
      TextByte(d, p, DOT);
    }
    var q := p + |RenderFraction(f)|;
    if e.Exponent? {
      TextCat(d, q, [e.mark], e.sign + e.digits);
      TextByte(d, q, e.mark);
    }
  }

  lemma NumberSound(d: Bytes, i: nat) returns (n: Number)
    requires i <= |d| && NumberEnd(d, i).Some?
    ensures WellFormedNumber(n) && TextAt(d, i, RenderNumber(n))
    ensures NumberEnd(d, i).value == i + |RenderNumber(n)|
    ensures NumberStops(n, d, NumberEnd(d, i).value)
  {
    hide TextAt, DigitsEnd, DigitAt, MarkAt, ByteAt, AllDigits, IntegerEnd, FractionEnd, ExponentEnd, RenderFraction,
      RenderExponent, RenderNumber, WellFormedExponent;
    NoFraction();
    var negative := ByteAt(d, i, MINUS);
    var p := if negative then i + 1 else i;
    var integer := IntegerSound(d, p);
    var fraction := FractionSound(d, p + |integer|);
    var exponent := ExponentSound(d, p + |integer| + |RenderFraction(fraction)|);
    n := Number(negative, integer, fraction, exponent);
    NumberPieces(d, i, n);
  }

  lemma NumberPieces(d: Bytes, i: nat, n: Number)
    requires i <= |d| && (n.negative ==> ByteAt(d, i, MINUS))
    requires var p := if n.negative then i + 1 else i;
      var q := p + |n.integer|;
      TextAt(d, p, n.integer) && TextAt(d, q, RenderFraction(n.fraction)) &&
      TextAt(d, q + |RenderFraction(n.fraction)|, RenderExponent(n.exponent))
    ensures TextAt(d, i, RenderNumber(n))
    ensures |RenderNumber(n)| ==
      (if n.negative then 1 else 0) + |n.integer| + |RenderFraction(n.fraction)| + |RenderExponent(n.exponent)|
  {
    hide TextAt, RenderFraction, RenderExponent;
    var m: Bytes := if n.negative then [MINUS] else [];
    var f, e := RenderFraction(n.fraction), RenderExponent(n.exponent);
    var p := i + |m|;
    TextByte(d, i, MINUS);
    TextEmpty(d, i);
    TextCat(d, p + |n.integer|, f, e);
    TextCat(d, p, n.integer, f + e);
    TextCat(d, i, m, n.integer + (f + e));
  }

  lemma TextEmpty(d: Bytes, i: nat)
    requires i <= |d|
    ensures TextAt(d, i, [])
  {
  }

  // ---- items: separator, key, value, whitespace, rest ----

  lemma FivePieces(d: Bytes, p: nat, s: Bytes, k: Bytes, v: Bytes, a: Bytes, r: Bytes, c: Bytes)
    ensures var q := p + |s|; var u := q + |k|; var w := u + |v|; var x := w + |a|;
      TextAt(d, p, (s + (k + (v + (a + r)))) + c) <==>
        TextAt(d, p, s) && TextAt(d, q, k) && TextAt(d, u, v) && TextAt(d, w, a) && TextAt(d, x, r + c)
  {
    hide TextAt;
    var q := p + |s|;
    var u := q + |k|;
    var w := u + |v|;
    TextCat(d, w, a, r + c);
    TextCat(d, u, v, a + (r + c));
    TextCat(d, q, k, v + (a + (r + c)));
    TextCat(d, p, s, k + (v + (a + (r + c))));
    assert (s + (k + (v + (a + r)))) + c == s + (k + (v + (a + (r + c))));
  }

  lemma QuotedPieces(d: Bytes, q: nat, b: Bytes)
    ensures TextAt(d, q, Quoted(b)) <==> ByteAt(d, q, QUOTE) && TextAt(d, q + 1, b + [QUOTE])
  {
    TextCat(d, q, [QUOTE], b + [QUOTE]);
    TextByte(d, q, QUOTE);
  }

  lemma KeyPieces(d: Bytes, q: nat, k: Key)
    requires k.Key?
    ensures var c := q + |Quoted(k.name)|; var m := c + |k.beforeColon|;
      TextAt(d, q, RenderKey(k)) <==>
        TextAt(d, q, Quoted(k.name)) && TextAt(d, c, k.beforeColon) && ByteAt(d, m, COLON) && TextAt(d, m + 1, k.afterColon)
  {
    hide TextAt, Quoted;
    var c := q + |Quoted(k.name)|;
    var m := c + |k.beforeColon|;
    TextByte(d, m, COLON);
    TextCat(d, m, [COLON], k.afterColon);
    TextCat(d, c, k.beforeColon, [COLON] + k.afterColon);
    TextCat(d, q, Quoted(k.name), k.beforeColon + ([COLON] + k.afterColon));
  }

  lemma SeparatorPieces(d: Bytes, p: nat, lead: Bytes)
    ensures TextAt(d, p, Separator(lead, false)) <==> ByteAt(d, p, COMMA) && TextAt(d, p + 1, lead)
  {
    TextByte(d, p, COMMA);
    TextCat(d, p, [COMMA], lead);
  }

  lemma ContainerPieces(d: Bytes, p: nat, kind: Kind, pad: Bytes, body: Bytes)
    ensures TextAt(d, p, [Open(kind)] + (pad + body)) <==>
      ByteAt(d, p, Open(kind)) && TextAt(d, p + 1, pad) && TextAt(d, p + 1 + |pad|, body)
  {
    TextByte(d, p, Open(kind));
    TextCat(d, p + 1, pad, body);
    TextCat(d, p, [Open(kind)], pad + body);
  }

  // ---- soundness: whatever is accepted is a rendered tree ----

  ghost predicate Reads(d: Bytes, p: nat, t: Json, r: Result) {
    && WellFormed(t, Relaxed) && TextAt(d, p, Render(t))
    && r == Done(p + |Render(t)|, Events(t, p))
    && Stops(t, d, p + |Render(t)|)
  }

  ghost predicate ReadsItems(d: Bytes, p: nat, items: Items, kind: Kind, first: bool, r: Result) {
    && WellFormedItems(items, kind, first, Relaxed)
    && TextAt(d, p, RenderItems(items, first) + [Close(kind)])
    && r == Done(p + |RenderItems(items, first)| + 1, ItemEvents(items, kind, p, first))
  }

  lemma {:induction false} ValueSound(d: Bytes, i: nat) returns (t: Json)
    requires i <= |d| && ScanValue(d, i).Done?
    ensures Reads(d, SkipWhitespace(d, i), t, ScanValue(d, i))
    decreases |d| - i, 0
  {
    hide StringEnd, NumberEnd, SkipWhitespace, TextAt, NumberStops, WellFormedNumber, RenderNumber;
    var p := SkipWhitespace(d, i);
    if d[p] == Open(Obj) {
      t := ContainerSound(d, p, Obj);
    } else if d[p] == Open(Arr) {
      t := ContainerSound(d, p, Arr);
    } else if d[p] == QUOTE {
      t := StringSound(d, p);
    } else if StartsLiteral(d[p]) {
      t := Lit(LiteralAt(d, p).value);
    } else {
      var n := NumberSound(d, p);
      t := Num(n);
    }
  }

  lemma StringSound(d: Bytes, p: nat) returns (t: Json)
    requires p < |d| && d[p] == QUOTE && StringEnd(d, p + 1).Some?
    ensures var e := StringEnd(d, p + 1).value; Reads(d, p, t, Done(e + 1, [Event(ValueString, p, e + 1 - p)]))
  {
    var e := StringEnd(d, p + 1).value;
    t := Str(d[p + 1..e]);
    StringEndSound(d, p + 1);
    QuotedPieces(d, p, t.body);
  }

  lemma {:induction false} ContainerSound(d: Bytes, p: nat, kind: Kind) returns (t: Json)
    requires p < |d| && d[p] == Open(kind) && ScanItems(d, p + 1, kind, true).Done?
    ensures Reads(d, p, t, Prepend([Event(Opening(kind), p, 1)], ScanItems(d, p + 1, kind, true)))
    decreases |d| - p - 1, 2
  {
    hide TextAt, RenderItems, ItemEvents, ScanItems;
    var q := SkipWhitespace(d, p + 1);
    var items := ItemsSound(d, p + 1, kind, true);
    var pad := d[p + 1..q];
    TextSlice(d, p + 1, q);
    t := Container(kind, pad, items);
    ContainerPieces(d, p, kind, pad, RenderItems(items, true) + [Close(kind)]);
  }

  lemma RoundUnfolds(d: Bytes, i: nat, kind: Kind, first: bool)
    requires i <= |d| && ScanItems(d, i, kind, first).Done?
    ensures var p := SkipWhitespace(d, i); p < |d|
    ensures var p := SkipWhitespace(d, i); d[p] != Close(kind) ==>
      && (first || d[p] == COMMA)
      && var q := RoundStart(d, i, first); var k := RoundKey(d, q, kind);
      && k.Done? && var v := ScanValue(d, k.end);
      && v.Done? && var r := ScanItems(d, v.end, kind, false);
      && r.Done?
      && ScanItems(d, i, kind, first) == Done(r.end, CommaEvents(p, first) + (k.events + (v.events + r.events)))
  {
    hide StringEnd, ScanKey, ScanValue, SkipWhitespace, RoundStart, RoundKey, CommaEvents;
    var p := SkipWhitespace(d, i);
    if d[p] != Close(kind) {
      var q := RoundStart(d, i, first);
      var item := ScanItem(d, q, kind);
      var k := RoundKey(d, q, kind);
      assert item == Prepend(k.events, ScanValue(d, k.end));
    }
  }

  lemma {:induction false} ItemsSound(d: Bytes, i: nat, kind: Kind, first: bool) returns (items: Items)
    requires i <= |d| && ScanItems(d, i, kind, first).Done?
    ensures ReadsItems(d, SkipWhitespace(d, i), items, kind, first, ScanItems(d, i, kind, first))
    decreases |d| - i, 1
  {
    hide TextAt, RenderItems, ItemEvents, ScanKey, ScanValue;
    RoundUnfolds(d, i, kind, first);
    var p := SkipWhitespace(d, i);
    if d[p] == Close(kind) {
      items := NoItemsSound(d, i, kind, first);
    } else {
      hide ScanItems, Reads, ReadsItems;
      var q := RoundStart(d, i, first);
      var k := RoundKey(d, q, kind);
      var v := ScanValue(d, k.end);
      var value := ValueSound(d, k.end);
      var rest := ItemsSound(d, v.end, kind, false);
      var key := KeySound(d, q, kind, k);
      items := ItemSound(d, p, q, kind, first, key, k, value, v, rest, ScanItems(d, v.end, kind, false));
    }
  }

  lemma NoItemsSound(d: Bytes, i: nat, kind: Kind, first: bool) returns (items: Items)
    requires i <= |d|
    requires var p := SkipWhitespace(d, i); p < |d| && d[p] == Close(kind)
    ensures ReadsItems(d, SkipWhitespace(d, i), items, kind, first, ScanItems(d, i, kind, first))
  {
    items := Nil;
    TextByte(d, SkipWhitespace(d, i), Close(kind));
    assert RenderItems(items, first) + [Close(kind)] == [Close(kind)];
  }

  /** One round of the loop, given what its key, its value and the rest of the loop read. */
  lemma ItemSound(d: Bytes, p: nat, q: nat, kind: Kind, first: bool, key: Key, k: Result, value: Json, v: Result, rest: Items, r: Result)
      returns (items: Items)
    requires p < |d| && (first || d[p] == COMMA) && q == if first then p else SkipWhitespace(d, p + 1)
    requires k.Done? && k.end <= |d| && WellFormedKey(key, kind, Relaxed) && TextAt(d, q, RenderKey(key))
    requires SkipWhitespace(d, k.end) == q + |RenderKey(key)| && k.events == KeyEvents(key, q)
    requires Reads(d, SkipWhitespace(d, k.end), value, v) && v.end <= |d|
    requires ReadsItems(d, SkipWhitespace(d, v.end), rest, kind, false, r)
    ensures ReadsItems(d, p, items, kind, first, Done(r.end, CommaEvents(p, first) + (k.events + (v.events + r.events))))
  {
    hide TextAt, Render, Events, WellFormed, Stops, RenderKey, KeyEvents, CommaEvents, WellFormedKey;
    hide SkipWhitespace, AllWhitespace, Separator, RenderItems, ItemEvents, WellFormedItems;
    var x := SkipWhitespace(d, v.end);
    var lead: Bytes := if first then [] else d[p + 1..q];
    var after := d[v.end..x];
    items := Cons(lead, key, value, after, rest);
    SkippedSound(d, v.end);
    SeparatorSound(d, p, q, first);
    FivePieces(d, p, Separator(lead, first), RenderKey(key), Render(value), after, RenderItems(rest, false), [Close(kind)]);
    ConsUnfolds(lead, key, value, after, rest, kind, first, p);
  }

  /** The definitions of a non-empty item list, side by side. */
  lemma ConsUnfolds(lead: Bytes, key: Key, value: Json, after: Bytes, rest: Items, kind: Kind, first: bool, p: nat)
    ensures var items := Cons(lead, key, value, after, rest);
      var k := p + |Separator(lead, first)|;
      var v := k + |RenderKey(key)|;
      var r := v + |Render(value)| + |after|;
      && RenderItems(items, first) == Separator(lead, first) + (RenderKey(key) + (Render(value) + (after + RenderItems(rest, false))))
      && |RenderItems(items, first)| + p == r + |RenderItems(rest, false)|
      && ItemEvents(items, kind, p, first) ==
           CommaEvents(p, first) + (KeyEvents(key, k) + (Events(value, v) + ItemEvents(rest, kind, r, false)))
      && (WellFormedItems(items, kind, first, Relaxed) <==>
           && AllWhitespace(lead) && (first ==> lead == []) && WellFormedKey(key, kind, Relaxed)
           && WellFormed(value, Relaxed) && AllWhitespace(after) && WellFormedItems(rest, kind, false, Relaxed))
  {
    hide Separator, RenderKey, Render, CommaEvents, KeyEvents, Events, WellFormedKey, WellFormed, AllWhitespace;
  }

  lemma SkippedSound(d: Bytes, i: nat)
    requires i <= |d|
    ensures var w := d[i..SkipWhitespace(d, i)]; AllWhitespace(w) && TextAt(d, i, w)
  {
    TextSlice(d, i, SkipWhitespace(d, i));
  }

  lemma SeparatorSound(d: Bytes, p: nat, q: nat, first: bool)
    requires p < |d| && (first || d[p] == COMMA) && q == if first then p else SkipWhitespace(d, p + 1)
    ensures var lead: Bytes := if first then [] else d[p + 1..q];
      TextAt(d, p, Separator(lead, first)) && |Separator(lead, first)| == q - p && AllWhitespace(lead)
  {
    if first {
      TextEmpty(d, p);
    } else {
      TextSlice(d, p + 1, q);
      SeparatorPieces(d, p, d[p + 1..q]);
    }
  }

  lemma KeySound(d: Bytes, q: nat, kind: Kind, k: Result) returns (key: Key)
    requires q <= |d| && (q < |d| ==> !IsWhitespace(d[q]))
    requires k == RoundKey(d, q, kind) && k.Done?
    ensures WellFormedKey(key, kind, Relaxed) && TextAt(d, q, RenderKey(key))
    ensures SkipWhitespace(d, k.end) == q + |RenderKey(key)| && k.events == KeyEvents(key, q)
  {
    if kind.Arr? {
      key := NoKey;
      TextEmpty(d, q);
    } else {
      hide TextAt;
      var e := StringEnd(d, q + 1).value;
      var c := SkipWhitespace(d, e + 1);
      key := MemberKeySound(d, q, e, c);
    }
  }

  lemma MemberKeySound(d: Bytes, q: nat, e: nat, c: nat) returns (key: Key)
    requires ByteAt(d, q, QUOTE) && StringEnd(d, q + 1) == Some(e) && c == SkipWhitespace(d, e + 1) && ByteAt(d, c, COLON)
    ensures WellFormedKey(key, Obj, Relaxed) && TextAt(d, q, RenderKey(key))
    ensures SkipWhitespace(d, c + 1) == q + |RenderKey(key)|
    ensures KeyEvents(key, q) == [Event(KeyString, q, e + 1 - q), Event(ColonMark, c, 1)]
  {
    hide TextAt, StringEnd, StringBody;
    var u := SkipWhitespace(d, c + 1);
    key := Key(d[q + 1..e], d[e + 1..c], d[c + 1..u]);
    StringEndSound(d, q + 1);
    QuotedPieces(d, q, key.name);
    TextSlice(d, e + 1, c);
    TextSlice(d, c + 1, u);
    KeyPieces(d, q, key);
  }

  // ---- completeness: every rendered tree is accepted ----

  /** The bytes from `i` up to `p` are all whitespace. */
  ghost predicate BlankTo(d: Bytes, i: nat, p: nat) {
    i <= p <= |d| && AllWhitespace(d[i..p])
  }

  lemma SkipsBlank(d: Bytes, i: nat, p: nat)
    requires BlankTo(d, i, p) && (p < |d| ==> !IsWhitespace(d[p]))
    ensures i <= p <= |d| && SkipWhitespace(d, i) == p
  {
  }

  /** A byte that can stand right after a value: whitespace, a comma or a closing bracket. */
  predicate EndsValue(b: bv8) {
    IsWhitespace(b) || b == COMMA || b == Close(Obj) || b == Close(Arr)
  }

  predicate StartsValue(b: bv8) {
    b == Open(Obj) || b == Open(Arr) || b == QUOTE || StartsLiteral(b) || StartsNumber(b)
  }

  lemma StartIsNotEnd(b: bv8)
    requires StartsValue(b)
    ensures !EndsValue(b)
  {
  }

  lemma FirstByte(d: Bytes, p: nat, s: Bytes)
    requires s != [] && TextAt(d, p, s)
    ensures p < |d| && d[p] == s[0]
  {
    assert d[p] == d[p..p + |s|][0];
  }

  lemma ValueStart(d: Bytes, p: nat, t: Json)
    requires WellFormed(t, Relaxed) && TextAt(d, p, Render(t))
    ensures p < |d| && StartsValue(d[p])
    ensures match t
      case Lit(l) => d[p] == LiteralText(l)[0]
      case Num(_) => StartsNumber(d[p])
      case Str(_) => d[p] == QUOTE
      case Container(kind, _, _) => d[p] == Open(kind)
  {
    FirstByte(d, p, Render(t));
    if t.Num? {
      assert IsDigit(t.num.integer[0]);
    }
  }

  lemma LiteralComplete(d: Bytes, p: nat, l: Literal)
    requires TextAt(d, p, LiteralText(l))
    ensures LiteralAt(d, p) == Some(l)
  {
    if TextAt(d, p, TRUE_TEXT) {
      FirstByte(d, p, TRUE_TEXT);
    }
    if TextAt(d, p, FALSE_TEXT) {
      FirstByte(d, p, FALSE_TEXT);
    }
    FirstByte(d, p, LiteralText(l));
  }

  ghost function Size(t: Json): nat {
    if t.Container? then 1 + ItemsSize(t.items) else 1
  }

  ghost function ItemsSize(items: Items): nat {
    match items case Nil => 0 case Cons(_, _, value, _, rest) => 1 + Size(value) + ItemsSize(rest)
  }

  lemma {:induction false} ValueComplete(d: Bytes, i: nat, p: nat, t: Json)
    requires BlankTo(d, i, p)
    requires WellFormed(t, Relaxed) && TextAt(d, p, Render(t)) && Stops(t, d, p + |Render(t)|)
    ensures i <= |d| && Reads(d, p, t, ScanValue(d, i))
    decreases Size(t), 1
  {
    hide Reads, TextAt, BlankTo, Render, WellFormed, Stops, ScanValue, SkipWhitespace, StartsValue, EndsValue, StartsNumber;
    hide LiteralAt, NumberEnd, StringEnd, ScanItems, IsWhitespace, StartsLiteral, Events, Prepend;
    SkipsToValue(d, i, p, t);
    if t.Container? {
      ContainerComplete(d, p, t);
      ContainerScan(d, i, p, t.kind);
    } else {
      ScalarComplete(d, i, p, t);
    }
  }

  lemma SkipsToValue(d: Bytes, i: nat, p: nat, t: Json)
    requires BlankTo(d, i, p) && WellFormed(t, Relaxed) && TextAt(d, p, Render(t))
    ensures i <= |d| && p < |d| && SkipWhitespace(d, i) == p
    ensures t.Container? ==> d[p] == Open(t.kind)
  {
    hide TextAt, WellFormed, SkipWhitespace, StartsValue, StartsNumber, StartsLiteral;
    ValueStart(d, p, t);
    StartIsNotEnd(d[p]);
    SkipsBlank(d, i, p);
    if t.Container? {
      FirstByte(d, p, Render(t));
    }
  }

  lemma ContainerScan(d: Bytes, i: nat, p: nat, kind: Kind)
    requires i <= |d| && SkipWhitespace(d, i) == p < |d| && d[p] == Open(kind)
    ensures ScanValue(d, i) == Prepend([Event(Opening(kind), p, 1)], ScanItems(d, p + 1, kind, true))
  {
    hide ScanItems, SkipWhitespace, Prepend;
  }

  lemma ScalarComplete(d: Bytes, i: nat, p: nat, t: Json)
    requires i <= |d| && SkipWhitespace(d, i) == p
    requires WellFormed(t, Relaxed) && TextAt(d, p, Render(t)) && Stops(t, d, p + |Render(t)|)
    requires !t.Container?
    ensures Reads(d, p, t, ScanValue(d, i))
  {
    match t
    case Lit(_) => LiteralValueComplete(d, i, p, t);
    case Num(_) => NumberValueComplete(d, i, p, t);
    case Str(_) => StringValueComplete(d, i, p, t);
  }

  lemma LiteralValueComplete(d: Bytes, i: nat, p: nat, t: Json)
    requires i <= |d| && SkipWhitespace(d, i) == p && t.Lit? && TextAt(d, p, Render(t))
    ensures Reads(d, p, t, ScanValue(d, i))
  {
    ValueStart(d, p, t);
    ScanValueAt(d, i, p);
    hide TextAt, StartsLiteral, SkipWhitespace, ScanValue, LiteralText, StartsNumber, NumberEnd, StringEnd;
    LiteralComplete(d, p, t.lit);
  }

  lemma NumberValueComplete(d: Bytes, i: nat, p: nat, t: Json)
    requires i <= |d| && SkipWhitespace(d, i) == p && t.Num?
    requires WellFormed(t, Relaxed) && TextAt(d, p, Render(t)) && Stops(t, d, p + |Render(t)|)
    ensures Reads(d, p, t, ScanValue(d, i))
  {
    hide TextAt, StartsNumber, WellFormedNumber, NumberStops, SkipWhitespace, ScanValue, ScanItems, Prepend, LiteralAt, LiteralText,
      StringEnd, NumberEnd, RenderNumber, StartsLiteral;
    ValueStart(d, p, t);
    ScanValueAt(d, i, p);
    NumberComplete(d, p, t.num);
  }

  lemma StringValueComplete(d: Bytes, i: nat, p: nat, t: Json)
    requires i <= |d| && SkipWhitespace(d, i) == p && t.Str?
    requires WellFormed(t, Relaxed) && TextAt(d, p, Render(t))
    ensures Reads(d, p, t, ScanValue(d, i))
  {
    ValueStart(d, p, t);
    ScanValueAt(d, i, p);
    hide TextAt, StringBody, SkipWhitespace, ScanValue, LiteralAt, NumberEnd, StringEnd, StartsLiteral, StartsNumber, Quoted;
    NameComplete(d, p, t.body);
    QuotedLength(t.body);
  }

  /** `ScanValue`, one equation for each kind of first byte. */
  lemma ScanValueAt(d: Bytes, i: nat, p: nat)
    requires i <= |d| && SkipWhitespace(d, i) == p < |d|
    ensures d[p] == Open(Obj) ==> ScanValue(d, i) == Prepend([Event(Opening(Obj), p, 1)], ScanItems(d, p + 1, Obj, true))
    ensures d[p] == Open(Arr) ==> ScanValue(d, i) == Prepend([Event(Opening(Arr), p, 1)], ScanItems(d, p + 1, Arr, true))
    ensures d[p] == QUOTE && StringEnd(d, p + 1).Some? ==>
      var e := StringEnd(d, p + 1).value; ScanValue(d, i) == Done(e + 1, [Event(ValueString, p, e + 1 - p)])
    ensures StartsLiteral(d[p]) && LiteralAt(d, p).Some? ==>
      var l := LiteralAt(d, p).value; ScanValue(d, i) == Done(p + |LiteralText(l)|, [Event(Word(l), p, |LiteralText(l)|)])
    ensures StartsNumber(d[p]) && NumberEnd(d, p).Some? ==>
      var e := NumberEnd(d, p).value; ScanValue(d, i) == Done(e, [Event(NumberText, p, e - p)])
  {
    hide StringEnd, LiteralAt, NumberEnd, ScanItems, StartsLiteral, StartsNumber, SkipWhitespace, ScanValue;
    ScanContainerAt(d, i, p);
    ScanTextAt(d, i, p);
  }

  lemma ScanContainerAt(d: Bytes, i: nat, p: nat)
    requires i <= |d| && SkipWhitespace(d, i) == p < |d|
    ensures d[p] == Open(Obj) ==> ScanValue(d, i) == Prepend([Event(Opening(Obj), p, 1)], ScanItems(d, p + 1, Obj, true))
    ensures d[p] == Open(Arr) ==> ScanValue(d, i) == Prepend([Event(Opening(Arr), p, 1)], ScanItems(d, p + 1, Arr, true))
  {
    StartsApart(d[p]);
    hide StringEnd, LiteralAt, NumberEnd, ScanItems, StartsLiteral, StartsNumber, SkipWhitespace, Prepend;
  }

  lemma ScanTextAt(d: Bytes, i: nat, p: nat)
    requires i <= |d| && SkipWhitespace(d, i) == p < |d|
    ensures d[p] == QUOTE && StringEnd(d, p + 1).Some? ==>
      var e := StringEnd(d, p + 1).value; ScanValue(d, i) == Done(e + 1, [Event(ValueString, p, e + 1 - p)])
    ensures StartsLiteral(d[p]) && LiteralAt(d, p).Some? ==>
      var l := LiteralAt(d, p).value; ScanValue(d, i) == Done(p + |LiteralText(l)|, [Event(Word(l), p, |LiteralText(l)|)])
    ensures StartsNumber(d[p]) && NumberEnd(d, p).Some? ==>
      var e := NumberEnd(d, p).value; ScanValue(d, i) == Done(e, [Event(NumberText, p, e - p)])
  {
    StartsApart(d[p]);
    hide StringEnd, LiteralAt, NumberEnd, ScanItems, StartsLiteral, StartsNumber, SkipWhitespace, Prepend, Open, LiteralText;
  }

  lemma StartsApart(b: bv8)
    ensures StartsNumber(b) ==> !StartsLiteral(b)
    ensures StartsNumber(b) || StartsLiteral(b) ==> b != QUOTE && b != Open(Obj) && b != Open(Arr)
    ensures QUOTE != Open(Obj) && QUOTE != Open(Arr) && Open(Obj) != Open(Arr)
  {
  }

  lemma {:induction false} ContainerComplete(d: Bytes, p: nat, t: Json)
    requires t.Container? && WellFormed(t, Relaxed) && TextAt(d, p, Render(t))
    ensures p + 1 <= |d|
    ensures Reads(d, p, t, Prepend([Event(Opening(t.kind), p, 1)], ScanItems(d, p + 1, t.kind, true)))
    decreases Size(t), 0
  {
    hide TextAt, AllWhitespace, RenderItems, ItemEvents, ScanItems, WellFormedItems;
    ContainerPieces(d, p, t.kind, t.pad, RenderItems(t.items, true) + [Close(t.kind)]);
    TextWhitespace(d, p + 1, t.pad);
    ItemsComplete(d, p + 1, p + 1 + |t.pad|, t.items, t.kind, true);
  }

  lemma TextWhitespace(d: Bytes, i: nat, w: Bytes)
    requires TextAt(d, i, w) && AllWhitespace(w)
    ensures BlankTo(d, i, i + |w|)
  {
  }

  lemma {:induction false} ItemsComplete(d: Bytes, i: nat, p: nat, items: Items, kind: Kind, first: bool)
    requires BlankTo(d, i, p)
    requires WellFormedItems(items, kind, first, Relaxed) && TextAt(d, p, RenderItems(items, first) + [Close(kind)])
    ensures i <= |d| && ReadsItems(d, p, items, kind, first, ScanItems(d, i, kind, first))
    ensures p < |d| && (EndsValue(d[p]) || first)
    decreases ItemsSize(items), 1
  {
    if items.Nil? {
      NoItemsComplete(d, i, p, kind, first);
    } else {
      ConsComplete(d, i, p, items, kind, first);
    }
  }

  lemma {:induction false} ConsComplete(d: Bytes, i: nat, p: nat, items: Items, kind: Kind, first: bool)
    requires items.Cons? && BlankTo(d, i, p)
    requires WellFormedItems(items, kind, first, Relaxed) && TextAt(d, p, RenderItems(items, first) + [Close(kind)])
    ensures i <= |d| && ReadsItems(d, p, items, kind, first, ScanItems(d, i, kind, first))
    ensures p < |d| && (EndsValue(d[p]) || first)
    decreases ItemsSize(items), 0
  {
    hide TextAt, AllWhitespace, BlankTo;
    hide Separator, RenderKey, Render, CommaEvents, KeyEvents, Events, WellFormedKey, WellFormed, ScanItems, RenderItems, ItemEvents, WellFormedItems, EndsValue;
    hide SkipWhitespace, RoundStart, RoundKey, ScanValue, ScanKey, Stops, Reads, ReadsItems;
    var Cons(lead, key, value, after, rest) := items;
    ConsUnfolds(lead, key, value, after, rest, kind, first, p);
    FivePieces(d, p, Separator(lead, first), RenderKey(key), Render(value), after, RenderItems(rest, false), [Close(kind)]);
    var q := p + |Separator(lead, first)|;
    var u := q + |RenderKey(key)|;
    var w := u + |Render(value)|;
    ItemStart(d, i, p, lead, key, value, kind, first);
    var k := KeyComplete(d, q, key, value, kind);
    TextWhitespace(d, w, after);
    ItemsComplete(d, w, w + |after|, rest, kind, false);
    AfterValue(d, w, after, value);
    ValueComplete(d, k, u, value);
    RoundComplete(d, i, p, q, k, items, kind, first);
  }

  lemma RoundComplete(d: Bytes, i: nat, p: nat, q: nat, k: nat, items: Items, kind: Kind, first: bool)
    requires items.Cons? && WellFormedItems(items, kind, first, Relaxed) && TextAt(d, p, RenderItems(items, first) + [Close(kind)])
    requires i <= p < |d| && SkipWhitespace(d, i) == p && d[p] != Close(kind) && (first || d[p] == COMMA)
    requires q == p + |Separator(items.lead, first)| && q == RoundStart(d, i, first) && q <= k <= |d|
    requires RoundKey(d, q, kind) == Done(k, KeyEvents(items.key, q))
    requires Reads(d, q + |RenderKey(items.key)|, items.value, ScanValue(d, k))
    requires var w := q + |RenderKey(items.key)| + |Render(items.value)|;
      w <= |d| && ReadsItems(d, w + |items.after|, items.rest, kind, false, ScanItems(d, w, kind, false))
    ensures ReadsItems(d, p, items, kind, first, ScanItems(d, i, kind, first))
  {
    hide Separator, RenderKey, Render, CommaEvents, KeyEvents, Events, WellFormedKey, WellFormed, ScanItems, RenderItems, ItemEvents, WellFormedItems;
    hide TextAt, SkipWhitespace, RoundStart, RoundKey, ScanValue, ScanKey, Stops;
    ConsUnfolds(items.lead, items.key, items.value, items.after, items.rest, kind, first, p);
    RoundFolds(d, i, p, q, k, q + |RenderKey(items.key)| + |Render(items.value)|, kind, first);
  }

  lemma NoItemsComplete(d: Bytes, i: nat, p: nat, kind: Kind, first: bool)
    requires BlankTo(d, i, p) && TextAt(d, p, [] + [Close(kind)])
    ensures i <= |d| && ReadsItems(d, p, Nil, kind, first, ScanItems(d, i, kind, first))
    ensures p < |d| && EndsValue(d[p])
  {
    FirstByte(d, p, [] + [Close(kind)]);
    SkipsBlank(d, i, p);
  }

  lemma ItemStart(d: Bytes, i: nat, p: nat, lead: Bytes, key: Key, value: Json, kind: Kind, first: bool)
    requires BlankTo(d, i, p) && AllWhitespace(lead) && (first ==> lead == [])
    requires WellFormedKey(key, kind, Relaxed) && WellFormed(value, Relaxed)
    requires TextAt(d, p, Separator(lead, first))
    requires var q := p + |Separator(lead, first)|; TextAt(d, q, RenderKey(key)) && TextAt(d, q + |RenderKey(key)|, Render(value))
    ensures p < |d| && SkipWhitespace(d, i) == p && d[p] != Close(kind)
    ensures first || (d[p] == COMMA && EndsValue(d[p]))
    ensures RoundStart(d, i, first) == p + |Separator(lead, first)|
  {
    hide TextAt, WellFormed, Render, StartsValue;
    var q := p + |Separator(lead, first)|;
    KeyOrValueStart(d, q, key, value);
    StartIsNotEnd(d[q]);
    if !first {
      SeparatorPieces(d, p, lead);
      TextWhitespace(d, p + 1, lead);
      SkipsBlank(d, p + 1, q);
    }
    SkipsBlank(d, i, p);
  }

  lemma KeyOrValueStart(d: Bytes, q: nat, key: Key, value: Json)
    requires WellFormed(value, Relaxed) && TextAt(d, q, RenderKey(key)) && TextAt(d, q + |RenderKey(key)|, Render(value))
    ensures q < |d| && StartsValue(d[q])
    ensures key.Key? ==> d[q] == QUOTE
  {
    if key.Key? {
      FirstByte(d, q, RenderKey(key));
    } else {
      ValueStart(d, q, value);
    }
  }

  lemma KeyComplete(d: Bytes, q: nat, key: Key, value: Json, kind: Kind) returns (k: nat)
    requires WellFormedKey(key, kind, Relaxed) && WellFormed(value, Relaxed)
    requires TextAt(d, q, RenderKey(key)) && TextAt(d, q + |RenderKey(key)|, Render(value))
    ensures q <= k && BlankTo(d, k, q + |RenderKey(key)|)
    ensures RoundKey(d, q, kind) == Done(k, KeyEvents(key, q))
  {
    if key.NoKey? {
      k := q;
      TextFits(d, q, Render(value));
    } else {
      k := MemberKeyComplete(d, q, key);
    }
  }

  lemma MemberKeyComplete(d: Bytes, q: nat, key: Key) returns (k: nat)
    requires WellFormedKey(key, Obj, Relaxed) && TextAt(d, q, RenderKey(key))
    ensures q <= k && BlankTo(d, k, q + |RenderKey(key)|)
    ensures ScanKey(d, q) == Done(k, KeyEvents(key, q))
  {
    hide TextAt, StringBody, Quoted, StringEnd, SkipWhitespace, AllWhitespace;
    KeyPieces(d, q, key);
    var c := q + |Quoted(key.name)|;
    var m := c + |key.beforeColon|;
    k := m + 1;
    TextWhitespace(d, k, key.afterColon);
    TextWhitespace(d, c, key.beforeColon);
    NameComplete(d, q, key.name);
    SkipsBlank(d, c, m);
    QuotedLength(key.name);
  }

  lemma QuotedLength(b: Bytes)
    ensures |Quoted(b)| == |b| + 2
  {
  }

  lemma NameComplete(d: Bytes, q: nat, b: Bytes)
    requires StringBody(b) && TextAt(d, q, Quoted(b))
    ensures ByteAt(d, q, QUOTE) && StringEnd(d, q + 1) == Some(q + |Quoted(b)| - 1)
  {
    QuotedPieces(d, q, b);
    StringEndComplete(d, q + 1, b);
  }

  /** A value inside an object or array is followed by whitespace, a comma or the closing bracket. */
  lemma AfterValue(d: Bytes, w: nat, after: Bytes, value: Json)
    requires TextAt(d, w, after) && AllWhitespace(after)
    requires w + |after| < |d| && EndsValue(d[w + |after|])
    ensures Stops(value, d, w)
  {
    if after != [] {
      FirstByte(d, w, after);
    }
  }

  lemma RoundFolds(d: Bytes, i: nat, p: nat, q: nat, kend: nat, vend: nat, kind: Kind, first: bool)
    requires i <= p < |d| && SkipWhitespace(d, i) == p && d[p] != Close(kind) && (first || d[p] == COMMA)
    requires q == RoundStart(d, i, first) && q <= kend <= |d| && vend <= |d|
    requires RoundKey(d, q, kind).Done? && RoundKey(d, q, kind).end == kend
    requires ScanValue(d, kend).Done? && ScanValue(d, kend).end == vend
    requires ScanItems(d, vend, kind, false).Done?
    ensures ScanItems(d, i, kind, first) ==
      Done(ScanItems(d, vend, kind, false).end,
           CommaEvents(p, first) + (RoundKey(d, q, kind).events + (ScanValue(d, kend).events + ScanItems(d, vend, kind, false).events)))
  {
    hide StringEnd, ScanKey, ScanValue, SkipWhitespace, RoundStart, RoundKey, CommaEvents;
    assert ScanItem(d, q, kind) == Prepend(RoundKey(d, q, kind).events, ScanValue(d, kend));
  }

  // ---- what Parse accepts ----

  /** The input starts with whitespace up to `p` and then the tree `t`, which the input does not continue. */
  ghost predicate StartsWith(d: Bytes, p: nat, t: Json) {
    BlankTo(d, 0, p) && WellFormed(t, Relaxed) && TextAt(d, p, Render(t)) && Stops(t, d, p + |Render(t)|)
  }

  lemma StartsWithScans(d: Bytes, p: nat, t: Json)
    requires StartsWith(d, p, t)
    ensures ScanValue(d, 0) == Done(p + |Render(t)|, Events(t, p))
  {
    hide TextAt, Render, WellFormed, Stops, ScanValue, Events, BlankTo;
    ValueComplete(d, 0, p, t);
  }

  lemma ScanStartsWith(d: Bytes) returns (p: nat, t: Json)
    requires ScanValue(d, 0).Done?
    ensures StartsWith(d, p, t)
  {
    hide TextAt, Render, WellFormed, Stops, ScanValue, Events;
    t := ValueSound(d, 0);
    p := SkipWhitespace(d, 0);
    SkippedSound(d, 0);
  }

  /**
   The scanner accepts exactly the inputs that start with whitespace and a value of the grammar,
   whatever follows it, and then reports the end of that value and its events.
   */
  lemma AcceptsGrammar(d: Bytes)
    ensures ScanValue(d, 0).Done? <==> exists p: nat, t :: StartsWith(d, p, t)
    ensures forall p: nat, t :: StartsWith(d, p, t) ==> ScanValue(d, 0) == Done(p + |Render(t)|, Events(t, p))
  {
    hide ScanValue, StartsWith, Render, Events;
    forall p: nat, t | StartsWith(d, p, t)
      ensures ScanValue(d, 0) == Done(p + |Render(t)|, Events(t, p))
    {
      StartsWithScans(d, p, t);
    }
    if ScanValue(d, 0).Done? {
      var p, t := ScanStartsWith(d);
    }
  }

  /** A whole RFC 8259 text, `ws value ws`, is accepted and consumed to the end of its value. */
  lemma AcceptsRfcText(before: Bytes, t: Json, after: Bytes)
    requires AllWhitespace(before) && AllWhitespace(after) && WellFormed(t, Section7)
    ensures ScanValue(before + Render(t) + after, 0) == Done(|before| + |Render(t)|, Events(t, |before|))
  {
    hide ScanValue, Render, Events, WellFormed;
    RfcTreeIsRelaxed(t);
    RfcTextStarts(before, t, after);
    StartsWithScans(before + Render(t) + after, |before|, t);
  }

  lemma RfcTextStarts(before: Bytes, t: Json, after: Bytes)
    requires AllWhitespace(before) && AllWhitespace(after) && WellFormed(t, Relaxed)
    ensures StartsWith(before + Render(t) + after, |before|, t)
  {
    hide Render, WellFormed;
    var s := Render(t);
    var d := before + s + after;
    var e := |before + s|;
    assert d[0..|before|] == before && d[|before|..e] == s;
    if after != [] {
      assert d[e] == after[0];
    }
  }
}
