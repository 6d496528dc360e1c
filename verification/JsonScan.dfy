/**
 The parser as functions of the input: where whitespace, strings, literals and numbers end, and
 what events a value produces. `FastJSONParser` is proved against these functions, whichever
 scanners it was created with.
 */
module JsonScan {
  import opened Words
  import opened JsonGrammar

  datatype Option<T> = None | Some(value: T)

  datatype EventType =
    | KeyString | ValueString | NumberText | Word(lit: Literal)
    | Opening(kind: Kind) | Closing(kind: Kind) | ColonMark | CommaMark

  /** One token before its key is encoded: what it is and the input bytes it covers. */
  datatype Event = Event(typ: EventType, offset: nat, length: nat)

  /** `RanOff` is the read past the end of the input that follows a trailing comma in an object. */
  datatype Failure = Malformed | RanOff

  datatype Result = Fail(why: Failure) | Done(end: nat, events: seq<Event>)

  function SkipWhitespace(d: Bytes, i: nat): (r: nat)
    requires i <= |d|
    ensures i <= r <= |d|
    ensures r < |d| ==> !IsWhitespace(d[r])
    ensures forall k | i <= k < r :: IsWhitespace(d[k])
    decreases |d| - i
  {
    if i < |d| && IsWhitespace(d[i]) then SkipWhitespace(d, i + 1) else i
  }

  /** The closing quote of the string whose content starts at `i`. */
  function StringEnd(d: Bytes, i: nat): (r: Option<nat>)
    ensures r.Some? ==> i <= r.value < |d| && d[r.value] == QUOTE
    decreases |d| - i
  {
    if i >= |d| then None
    else if d[i] == QUOTE then Some(i)
    else if d[i] == BACKSLASH then StringEnd(d, i + 2)
    else StringEnd(d, i + 1)
  }

  function DigitsEnd(d: Bytes, i: nat): (r: nat)
    requires i <= |d|
    ensures i <= r <= |d|
    ensures r < |d| ==> !IsDigit(d[r])
    ensures forall k | i <= k < r :: IsDigit(d[k])
    decreases |d| - i
  {
    if i < |d| && IsDigit(d[i]) then DigitsEnd(d, i + 1) else i
  }

  predicate DigitAt(d: Bytes, i: nat) {
    i < |d| && IsDigit(d[i])
  }

  predicate ByteAt(d: Bytes, i: nat, b: bv8) {
    i < |d| && d[i] == b
  }

  function IntegerEnd(d: Bytes, i: nat): (r: Option<nat>)
    requires i <= |d|
    ensures r.Some? ==> i < r.value <= |d|
  {
    if !DigitAt(d, i) then None else if d[i] == ZERO then Some(i + 1) else Some(DigitsEnd(d, i))
  }

  function FractionEnd(d: Bytes, i: nat): (r: Option<nat>)
    requires i <= |d|
    ensures r.Some? ==> i <= r.value <= |d|
  {
    if !ByteAt(d, i, DOT) then Some(i)
    else if !DigitAt(d, i + 1) then None
    else Some(DigitsEnd(d, i + 1))
  }

  predicate SignAt(d: Bytes, i: nat) {
    ByteAt(d, i, PLUS) || ByteAt(d, i, MINUS)
  }

  predicate MarkAt(d: Bytes, i: nat) {
    ByteAt(d, i, LOWER_E) || ByteAt(d, i, UPPER_E)
  }

  function ExponentEnd(d: Bytes, i: nat): (r: Option<nat>)
    requires i <= |d|
    ensures r.Some? ==> i <= r.value <= |d|
  {
    if !MarkAt(d, i) then Some(i)
    else
      var p := if SignAt(d, i + 1) then i + 2 else i + 1;
      if !DigitAt(d, p) then None else Some(DigitsEnd(d, p))
  }

  function NumberEnd(d: Bytes, i: nat): (r: Option<nat>)
    requires i <= |d|
    ensures r.Some? ==> i < r.value <= |d|
  {
    var p := IntegerEnd(d, if ByteAt(d, i, MINUS) then i + 1 else i);
    if p.None? then None
    else
      var q := FractionEnd(d, p.value);
      if q.None? then None else ExponentEnd(d, q.value)
  }

  predicate TextAt(d: Bytes, i: nat, s: Bytes) {
    i + |s| <= |d| && d[i..i + |s|] == s
  }

  function LiteralAt(d: Bytes, i: nat): (r: Option<Literal>)
    ensures r.Some? ==> TextAt(d, i, LiteralText(r.value))
  {
    if TextAt(d, i, TRUE_TEXT) then Some(True)
    else if TextAt(d, i, FALSE_TEXT) then Some(False)
    else if TextAt(d, i, NULL_TEXT) then Some(Null)
    else None
  }

  predicate StartsLiteral(b: bv8) {
    b == TRUE_TEXT[0] || b == FALSE_TEXT[0] || b == NULL_TEXT[0]
  }

  predicate StartsNumber(b: bv8) {
    b == MINUS || IsDigit(b)
  }

  /** One value at `i`, after any whitespace. */
  function ScanValue(d: Bytes, i: nat): (r: Result)
    requires i <= |d|
    ensures r.Done? ==> i < r.end <= |d|
    decreases |d| - i, 0
  {
    var p := SkipWhitespace(d, i);
    if p >= |d| then Fail(Malformed)
    else if d[p] == Open(Obj) then Prepend([Event(Opening(Obj), p, 1)], ScanItems(d, p + 1, Obj, true))
    else if d[p] == Open(Arr) then Prepend([Event(Opening(Arr), p, 1)], ScanItems(d, p + 1, Arr, true))
    else if d[p] == QUOTE then
      var e := StringEnd(d, p + 1);
      if e.None? then Fail(Malformed) else Done(e.value + 1, [Event(ValueString, p, e.value + 1 - p)])
    else if StartsLiteral(d[p]) then
      var l := LiteralAt(d, p);
      if l.None? then Fail(Malformed)
      else Done(p + |LiteralText(l.value)|, [Event(Word(l.value), p, |LiteralText(l.value)|)])
    else if StartsNumber(d[p]) then
      var e := NumberEnd(d, p);
      if e.None? then Fail(Malformed) else Done(e.value, [Event(NumberText, p, e.value - p)])
    else Fail(Malformed)
  }

  /** A result with earlier events put in front. */
  function Prepend(evs: seq<Event>, r: Result): (s: Result)
    ensures s.Done? <==> r.Done?
    ensures r.Done? ==> s.end == r.end
  {
    match r case Fail(_) => r case Done(end, events) => Done(end, evs + events)
  }

  /** The rest of an object or array, from the top of its loop to its closing bracket. */
  function ScanItems(d: Bytes, i: nat, kind: Kind, first: bool): (r: Result)
    requires i <= |d|
    ensures r.Done? ==> i < r.end <= |d|
    decreases |d| - i, 2
  {
    var p := SkipWhitespace(d, i);
    if p >= |d| then Fail(Malformed)
    else if d[p] == Close(kind) then Done(p + 1, [Event(Closing(kind), p, 1)])
    else if !first && d[p] != COMMA then Fail(Malformed)
    else
      var r := ScanItem(d, RoundStart(d, i, first), kind);
      if r.Fail? then r
      else Prepend(CommaEvents(p, first) + r.events, ScanItems(d, r.end, kind, false))
  }

  /** The key, if any, and the value of one round. */
  function ScanItem(d: Bytes, q: nat, kind: Kind): (r: Result)
    requires q <= |d|
    ensures r.Done? ==> q < r.end <= |d|
    decreases |d| - q, 1
  {
    var k := RoundKey(d, q, kind);
    if k.Fail? then k else Prepend(k.events, ScanValue(d, k.end))
  }

  /** Where the key or value of a round starts: after the comma, except in the first round. */
  function RoundStart(d: Bytes, i: nat, first: bool): (q: nat)
    requires i <= |d| && (first || SkipWhitespace(d, i) < |d|)
    ensures i <= q <= |d|
  {
    var p := SkipWhitespace(d, i);
    if first then p else SkipWhitespace(d, p + 1)
  }

  function RoundKey(d: Bytes, q: nat, kind: Kind): (k: Result)
    requires q <= |d|
    ensures k.Done? ==> q <= k.end <= |d|
  {
    if kind.Obj? then ScanKey(d, q) else Done(q, [])
  }

  function CommaEvents(at: nat, first: bool): seq<Event> {
    if first then [] else [Event(CommaMark, at, 1)]
  }

  /** A member name and its colon; the end is the byte after the colon. */
  function ScanKey(d: Bytes, q: nat): (r: Result)
    requires q <= |d|
    ensures r.Done? ==> q < r.end <= |d|
  {
    if q >= |d| then Fail(RanOff)
    else if d[q] != QUOTE then Fail(Malformed)
    else
      var e := StringEnd(d, q + 1);
      if e.None? then Fail(Malformed)
      else
        var c := SkipWhitespace(d, e.value + 1);
        if !ByteAt(d, c, COLON) then Fail(Malformed)
        else Done(c + 1, [Event(KeyString, q, e.value + 1 - q), Event(ColonMark, c, 1)])
  }
}
