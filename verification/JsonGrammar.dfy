/**
 The JSON grammar of RFC 8259, sections 2 to 6, as concrete syntax trees that keep every byte:
 `Render` writes a tree back, and a byte string is a value exactly when it is the rendering of a
 well-formed tree. Strings are the parser's relaxed ones: any bytes, with escapes taken in pairs;
 `RfcString` is the string grammar of section 7 itself.
 */
module JsonGrammar {
  import opened Words

  type Bytes = seq<bv8>

  const QUOTE: bv8 := 0x22
  const BACKSLASH: bv8 := 0x5C
  const COMMA: bv8 := 0x2C
  const COLON: bv8 := 0x3A
  const MINUS: bv8 := 0x2D
  const PLUS: bv8 := 0x2B
  const DOT: bv8 := 0x2E
  const ZERO: bv8 := 0x30
  const NINE: bv8 := 0x39
  const LOWER_E: bv8 := 0x65
  const UPPER_E: bv8 := 0x45

  const TRUE_TEXT: Bytes := [0x74, 0x72, 0x75, 0x65]
  const FALSE_TEXT: Bytes := [0x66, 0x61, 0x6C, 0x73, 0x65]
  const NULL_TEXT: Bytes := [0x6E, 0x75, 0x6C, 0x6C]

  predicate IsDigit(b: bv8) {
    ZERO <= b <= NINE
  }

  datatype Kind = Obj | Arr

  function Open(k: Kind): bv8 { if k.Obj? then 0x7B else 0x5B }
  function Close(k: Kind): bv8 { if k.Obj? then 0x7D else 0x5D }

  datatype Literal = True | False | Null

  function LiteralText(l: Literal): Bytes {
    match l case True => TRUE_TEXT case False => FALSE_TEXT case Null => NULL_TEXT
  }

  datatype Exponent = NoExponent | Exponent(mark: bv8, sign: Bytes, digits: Bytes)

  /** `fraction` is the digits after the point; the empty string stands for no fraction at all. */
  datatype Number = Number(negative: bool, integer: Bytes, fraction: Bytes, exponent: Exponent)

  datatype Json =
    | Lit(lit: Literal)
    | Num(num: Number)
    | Str(body: Bytes)
    | Container(kind: Kind, pad: Bytes, items: Items)

  /** The name of an object member, with the whitespace around its colon. */
  datatype Key = NoKey | Key(name: Bytes, beforeColon: Bytes, afterColon: Bytes)

  /** Array elements or object members; `lead` follows the comma before an item, `after` follows its value. */
  datatype Items = Nil | Cons(lead: Bytes, key: Key, value: Json, after: Bytes, rest: Items)

  // ---- well-formedness ----

  predicate AllWhitespace(w: Bytes) {
    forall k | 0 <= k < |w| :: IsWhitespace(w[k])
  }

  predicate AllDigits(s: Bytes) {
    forall k | 0 <= k < |s| :: IsDigit(s[k])
  }

  /** The relaxed inside of a string: no bare quote, and every backslash is followed by some byte. */
  predicate StringBody(b: Bytes) {
    if b == [] then true
    else if b[0] == BACKSLASH then |b| >= 2 && StringBody(b[2..])
    else b[0] != QUOTE && StringBody(b[1..])
  }

  predicate WellFormedExponent(e: Exponent) {
    e.Exponent? ==>
      && (e.mark == LOWER_E || e.mark == UPPER_E)
      && (e.sign == [] || e.sign == [PLUS] || e.sign == [MINUS])
      && e.digits != [] && AllDigits(e.digits)
  }

  predicate WellFormedNumber(n: Number) {
    && n.integer != [] && AllDigits(n.integer)
    && (n.integer[0] == ZERO ==> |n.integer| == 1)
    && AllDigits(n.fraction)
    && WellFormedExponent(n.exponent)
  }

  /** Which strings a grammar admits: any the parser takes, or those of section 7 only. */
  datatype Strings = Relaxed | Section7

  predicate StringOk(b: Bytes, strings: Strings) {
    if strings.Relaxed? then StringBody(b) else RfcString(b)
  }

  predicate WellFormedKey(k: Key, kind: Kind, strings: Strings) {
    && (k.Key? <==> kind.Obj?)
    && (k.Key? ==> StringOk(k.name, strings) && AllWhitespace(k.beforeColon) && AllWhitespace(k.afterColon))
  }

  predicate WellFormed(t: Json, strings: Strings) {
    match t
    case Lit(_) => true
    case Num(n) => WellFormedNumber(n)
    case Str(b) => StringOk(b, strings)
    case Container(kind, pad, items) => AllWhitespace(pad) && WellFormedItems(items, kind, true, strings)
  }

  predicate WellFormedItems(items: Items, kind: Kind, first: bool, strings: Strings) {
    match items
    case Nil => true
    case Cons(lead, key, value, after, rest) =>
      && AllWhitespace(lead) && (first ==> lead == [])
      && WellFormedKey(key, kind, strings)
      && WellFormed(value, strings)
      && AllWhitespace(after)
      && WellFormedItems(rest, kind, false, strings)
  }

  // ---- rendering ----

  function RenderExponent(e: Exponent): Bytes {
    if e.NoExponent? then [] else [e.mark] + (e.sign + e.digits)
  }

  function RenderFraction(f: Bytes): Bytes {
    if f == [] then [] else [DOT] + f
  }

  function RenderNumber(n: Number): Bytes {
    (if n.negative then [MINUS] else []) + (n.integer + (RenderFraction(n.fraction) + RenderExponent(n.exponent)))
  }

  function Quoted(b: Bytes): Bytes {
    [QUOTE] + (b + [QUOTE])
  }

  function RenderKey(k: Key): Bytes {
    if k.NoKey? then [] else Quoted(k.name) + (k.beforeColon + ([COLON] + k.afterColon))
  }

  function Render(t: Json): Bytes {
    match t
    case Lit(l) => LiteralText(l)
    case Num(n) => RenderNumber(n)
    case Str(b) => Quoted(b)
    case Container(kind, pad, items) => [Open(kind)] + (pad + (RenderItems(items, true) + [Close(kind)]))
  }

  function RenderItems(items: Items, first: bool): Bytes {
    match items
    case Nil => []
    case Cons(lead, key, value, after, rest) =>
      Separator(lead, first) + (RenderKey(key) + (Render(value) + (after + RenderItems(rest, false))))
  }

  function Separator(lead: Bytes, first: bool): Bytes {
    if first then [] else [COMMA] + lead
  }

  // ---- section 7, strings ----

  predicate IsHex(b: bv8) {
    IsDigit(b) || 0x41 <= b <= 0x46 || 0x61 <= b <= 0x66
  }

  /** The bytes that may follow a backslash alone: `" \ / b f n r t`. */
  predicate IsSimpleEscape(b: bv8) {
    b in {0x22, 0x5C, 0x2F, 0x62, 0x66, 0x6E, 0x72, 0x74}
  }

  /** The inside of a section 7 string: no control characters, and only the escapes listed there. */
  predicate RfcString(b: Bytes) {
    if b == [] then true
    else if b[0] == BACKSLASH then
      || (|b| >= 2 && IsSimpleEscape(b[1]) && RfcString(b[2..]))
      || (|b| >= 6 && b[1] == 0x75 && IsHex(b[2]) && IsHex(b[3]) && IsHex(b[4]) && IsHex(b[5]) && RfcString(b[6..]))
    else b[0] != QUOTE && b[0] >= 0x20 && RfcString(b[1..])
  }

  /** Every section 7 string is a relaxed string, so accepting relaxed strings rejects no JSON text. */
  lemma {:induction false} RfcStringIsRelaxed(b: Bytes)
    requires RfcString(b)
    ensures StringBody(b)
  {
    if b == [] {
    } else if b[0] == BACKSLASH {
      if IsSimpleEscape(b[1]) && RfcString(b[2..]) {
        RfcStringIsRelaxed(b[2..]);
      } else {
        RfcStringIsRelaxed(b[6..]);
        PlainBytesAreRelaxed(b[2..6], b[6..]);
        assert b[2..6] + b[6..] == b[2..];
      }
    } else {
      RfcStringIsRelaxed(b[1..]);
    }
  }

  lemma {:induction false} PlainBytesAreRelaxed(a: Bytes, b: Bytes)
    requires StringBody(b) && forall k | 0 <= k < |a| :: IsHex(a[k])
    ensures StringBody(a + b)
  {
    if a == [] {
      assert a + b == b;
    } else {
      PlainBytesAreRelaxed(a[1..], b);
      assert (a + b)[1..] == a[1..] + b;
      assert IsHex(a[0]);
    }
  }

  /** Hence every RFC 8259 tree is one of the relaxed grammar. */
  lemma {:induction false} RfcTreeIsRelaxed(t: Json)
    requires WellFormed(t, Section7)
    ensures WellFormed(t, Relaxed)
  {
    match t
    case Lit(_) =>
    case Num(_) =>
    case Str(b) => RfcStringIsRelaxed(b);
    case Container(kind, pad, items) => RfcItemsAreRelaxed(items, kind, true);
  }

  lemma {:induction false} RfcItemsAreRelaxed(items: Items, kind: Kind, first: bool)
    requires WellFormedItems(items, kind, first, Section7)
    ensures WellFormedItems(items, kind, first, Relaxed)
  {
    match items
    case Nil =>
    case Cons(lead, key, value, after, rest) =>
      if key.Key? {
        RfcStringIsRelaxed(key.name);
      }
      RfcTreeIsRelaxed(value);
      RfcItemsAreRelaxed(rest, kind, false);
  }
}
