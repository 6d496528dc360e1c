/**
 Where the parser reads past its input. It does so exactly on inputs that end, but for whitespace,
 after a comma inside an object, everything before that comma being the beginning of a value.
 */
module JsonRunsOff {
  import opened Words
  import opened JsonGrammar
  import opened JsonScan
  import opened JsonMeaning

  // ---- values that are cut off after a comma of an object ----

  datatype Cut = Cut(kind: Kind, pad: Bytes, items: CutItems)

  /** What is there of the items: nothing after a comma, an item that is itself cut, or an item and more. */
  datatype CutItems =
    | AfterComma(lead: Bytes)
    | Within(lead: Bytes, key: Key, value: Cut)
    | Past(lead: Bytes, key: Key, item: Json, after: Bytes, rest: CutItems)

  function RenderCut(c: Cut): Bytes {
    [Open(c.kind)] + (c.pad + RenderCutItems(c.items, true))
  }

  function RenderCutItems(items: CutItems, first: bool): Bytes {
    match items
    case AfterComma(lead) => Separator(lead, first)
    case Within(lead, key, value) => Separator(lead, first) + (RenderKey(key) + RenderCut(value))
    case Past(lead, key, item, after, rest) =>
      Separator(lead, first) + (RenderKey(key) + (Render(item) + (after + RenderCutItems(rest, false))))
  }

  predicate CutOk(c: Cut) {
    AllWhitespace(c.pad) && CutItemsOk(c.items, c.kind, true)
  }

  predicate CutItemsOk(items: CutItems, kind: Kind, first: bool) {
    && AllWhitespace(items.lead) && (first ==> items.lead == [])
    && match items
       case AfterComma(_) => kind == Obj && !first
       case Within(_, key, value) => WellFormedKey(key, kind, Relaxed) && CutOk(value)
       case Past(_, key, item, after, rest) =>
         WellFormedKey(key, kind, Relaxed) && WellFormed(item, Relaxed) && AllWhitespace(after) && CutItemsOk(rest, kind, false)
  }

  /** From `p` to the end the input is this cut value. */
  ghost predicate ReadsCut(d: Bytes, p: nat, c: Cut) {
    CutOk(c) && TextAt(d, p, RenderCut(c)) && p + |RenderCut(c)| == |d|
  }

  ghost predicate ReadsCutItems(d: Bytes, p: nat, items: CutItems, kind: Kind, first: bool) {
    CutItemsOk(items, kind, first) && TextAt(d, p, RenderCutItems(items, first)) && p + |RenderCutItems(items, first)| == |d|
  }

  // ---- running off means a cut value ----

  lemma {:induction false} CutSound(d: Bytes, i: nat) returns (c: Cut)
    requires i <= |d| && ScanValue(d, i) == Fail(RanOff)
    ensures ReadsCut(d, SkipWhitespace(d, i), c)
    decreases |d| - i, 0
  {
    hide StringEnd, NumberEnd, LiteralAt, SkipWhitespace, TextAt, RenderCutItems, CutItemsOk, ScanItems, AllWhitespace;
    var p := SkipWhitespace(d, i);
    var kind := if d[p] == Open(Obj) then Obj else Arr;
    var q := SkipWhitespace(d, p + 1);
    var items := CutItemsSound(d, p + 1, kind, true);
    c := Cut(kind, d[p + 1..q], items);
    SkippedSound(d, p + 1);
    TextByte(d, p, d[p]);
    TextCat(d, p + 1, c.pad, RenderCutItems(items, true));
    TextCat(d, p, [Open(kind)], c.pad + RenderCutItems(items, true));
  }

  /** The loop runs off at this round's key, inside its value, or in a later round. */
  lemma RanOffUnfolds(d: Bytes, i: nat, kind: Kind, first: bool)
    requires i <= |d| && ScanItems(d, i, kind, first) == Fail(RanOff)
    ensures var p := SkipWhitespace(d, i); p < |d| && (first || d[p] == COMMA)
    ensures var p := SkipWhitespace(d, i); var q := RoundStart(d, i, first); var k := RoundKey(d, q, kind);
      if k.Fail? then kind == Obj && !first && q == |d|
      else ScanValue(d, k.end) == Fail(RanOff) || (ScanValue(d, k.end).Done? && ScanItems(d, ScanValue(d, k.end).end, kind, false) == Fail(RanOff))
  {
    hide StringEnd, ScanValue, SkipWhitespace, CommaEvents;
    var p := SkipWhitespace(d, i);
    var q := RoundStart(d, i, first);
    var item := ScanItem(d, q, kind);
    var k := RoundKey(d, q, kind);
    assert k.Done? ==> item == Prepend(k.events, ScanValue(d, k.end));
  }

  lemma CommaSound(d: Bytes, p: nat, lead: Bytes)
    requires AllWhitespace(lead) && TextAt(d, p, Separator(lead, false)) && p + |Separator(lead, false)| == |d|
    ensures ReadsCutItems(d, p, AfterComma(lead), Obj, false)
  {
  }

  lemma WithinSound(d: Bytes, p: nat, lead: Bytes, key: Key, value: Cut, kind: Kind, first: bool)
    requires AllWhitespace(lead) && (first ==> lead == []) && WellFormedKey(key, kind, Relaxed) && TextAt(d, p, Separator(lead, first))
    requires var q := p + |Separator(lead, first)|; TextAt(d, q, RenderKey(key)) && ReadsCut(d, q + |RenderKey(key)|, value)
    ensures ReadsCutItems(d, p, Within(lead, key, value), kind, first)
  {
    hide TextAt, Separator, RenderKey, RenderCut, CutOk, AllWhitespace, WellFormedKey;
    var q := p + |Separator(lead, first)|;
    TextCat(d, q, RenderKey(key), RenderCut(value));
    TextCat(d, p, Separator(lead, first), RenderKey(key) + RenderCut(value));
  }

  lemma PastSound(d: Bytes, p: nat, items: CutItems, kind: Kind, first: bool)
    requires items.Past? && AllWhitespace(items.lead) && (first ==> items.lead == []) && WellFormedKey(items.key, kind, Relaxed)
    requires WellFormed(items.item, Relaxed) && AllWhitespace(items.after) && TextAt(d, p, Separator(items.lead, first))
    requires var q := p + |Separator(items.lead, first)|; var u := q + |RenderKey(items.key)|; var w := u + |Render(items.item)|;
      && TextAt(d, q, RenderKey(items.key)) && TextAt(d, u, Render(items.item)) && TextAt(d, w, items.after)
      && ReadsCutItems(d, w + |items.after|, items.rest, kind, false)
    ensures ReadsCutItems(d, p, items, kind, first)
  {
    hide TextAt, Separator, RenderKey, Render, RenderCutItems, AllWhitespace, WellFormedKey, WellFormed;
    PastText(d, p, items, first);
  }

  lemma {:induction false} CutItemsSound(d: Bytes, i: nat, kind: Kind, first: bool) returns (items: CutItems)
    requires i <= |d| && ScanItems(d, i, kind, first) == Fail(RanOff)
    ensures ReadsCutItems(d, SkipWhitespace(d, i), items, kind, first)
    decreases |d| - i, 1
  {
    hide TextAt, ScanKey, ScanValue, ScanItems, ReadsCut, ReadsCutItems, Render, WellFormed, Events, AllWhitespace, Separator, RenderKey,
      WellFormedKey, Stops, KeyEvents, RoundKey, SkipWhitespace;
    RanOffUnfolds(d, i, kind, first);
    var p := SkipWhitespace(d, i);
    var q := RoundStart(d, i, first);
    var k := RoundKey(d, q, kind);
    var lead: Bytes := if first then [] else d[p + 1..q];
    SeparatorSound(d, p, q, first);
    if k.Fail? {
      items := AfterComma(lead);
      CommaSound(d, p, lead);
    } else {
      RoundStartSolid(d, i, first);
      var key := KeySound(d, q, kind, k);
      if ScanValue(d, k.end).Fail? {
        var value := CutSound(d, k.end);
        items := Within(lead, key, value);
        WithinSound(d, p, lead, key, value, kind, first);
      } else {
        var item := ValueSound(d, k.end);
        var w := ScanValue(d, k.end).end;
        var x := SkipWhitespace(d, w);
        var rest := CutItemsSound(d, w, kind, false);
        items := Past(lead, key, item, d[w..x], rest);
        SkippedSound(d, w);
        PastSound(d, p, items, kind, first);
      }
    }
  }

  lemma RoundStartSolid(d: Bytes, i: nat, first: bool)
    requires i <= |d| && (first || SkipWhitespace(d, i) < |d|)
    ensures var q := RoundStart(d, i, first); q < |d| ==> !IsWhitespace(d[q])
  {
  }

  /** An item and more, piece by piece. */
  lemma PastText(d: Bytes, p: nat, items: CutItems, first: bool)
    requires items.Past?
    ensures var q := p + |Separator(items.lead, first)|; var u := q + |RenderKey(items.key)|; var w := u + |Render(items.item)|;
      var x := w + |items.after|;
      && (TextAt(d, p, RenderCutItems(items, first)) <==>
           && TextAt(d, p, Separator(items.lead, first)) && TextAt(d, q, RenderKey(items.key)) && TextAt(d, u, Render(items.item))
           && TextAt(d, w, items.after) && TextAt(d, x, RenderCutItems(items.rest, false)))
      && |RenderCutItems(items, first)| + p == x + |RenderCutItems(items.rest, false)|
  {
    hide TextAt, Separator, RenderKey, Render;
    var rest := RenderCutItems(items.rest, false);
    var q := p + |Separator(items.lead, first)|;
    var u := q + |RenderKey(items.key)|;
    var w := u + |Render(items.item)|;
    TextCat(d, w, items.after, rest);
    TextCat(d, u, Render(items.item), items.after + rest);
    TextCat(d, q, RenderKey(items.key), Render(items.item) + (items.after + rest));
    TextCat(d, p, Separator(items.lead, first), RenderKey(items.key) + (Render(items.item) + (items.after + rest)));
  }

  // ---- a cut value runs off ----

  lemma {:induction false} CutComplete(d: Bytes, i: nat, p: nat, c: Cut)
    requires BlankTo(d, i, p) && ReadsCut(d, p, c)
    ensures i <= |d| && ScanValue(d, i) == Fail(RanOff)
    decreases c, 1
  {
    hide TextAt, RenderCutItems, CutItemsOk, ScanItems, ScanValue, SkipWhitespace, AllWhitespace;
    var rest := c.pad + RenderCutItems(c.items, true);
    FirstByte(d, p, RenderCut(c));
    OpenIsSolid(c.kind);
    SkipsBlank(d, i, p);
    TextCat(d, p, [Open(c.kind)], rest);
    TextCat(d, p + 1, c.pad, RenderCutItems(c.items, true));
    TextWhitespace(d, p + 1, c.pad);
    CutItemsComplete(d, p + 1, p + 1 + |c.pad|, c.items, c.kind, true);
    ContainerScan(d, i, p, c.kind);
  }

  lemma OpenIsSolid(kind: Kind)
    ensures !IsWhitespace(Open(kind)) && Open(kind) != Close(Obj) && Open(kind) != Close(Arr)
    ensures !IsWhitespace(COMMA) && COMMA != Close(Obj) && COMMA != Close(Arr) && !IsWhitespace(QUOTE) && QUOTE != Close(Obj) && QUOTE != Close(Arr)
  {
  }

  lemma {:induction false} CutItemsComplete(d: Bytes, i: nat, p: nat, items: CutItems, kind: Kind, first: bool)
    requires BlankTo(d, i, p) && ReadsCutItems(d, p, items, kind, first)
    ensures i <= |d| && ScanItems(d, i, kind, first) == Fail(RanOff)
    ensures p < |d| && (first || d[p] == COMMA)
    decreases items, 1
  {
    match items
    case AfterComma(lead) => CommaComplete(d, i, p, lead, kind);
    case Within(lead, key, value) => WithinComplete(d, i, p, items, kind, first);
    case Past(_, _, _, _, _) => PastComplete(d, i, p, items, kind, first);
  }

  lemma CommaComplete(d: Bytes, i: nat, p: nat, lead: Bytes, kind: Kind)
    requires BlankTo(d, i, p) && AllWhitespace(lead) && kind == Obj
    requires TextAt(d, p, Separator(lead, false)) && p + |Separator(lead, false)| == |d|
    ensures i <= |d| && ScanItems(d, i, kind, false) == Fail(RanOff)
    ensures p < |d| && d[p] == COMMA
  {
    hide TextAt, AllWhitespace, SkipWhitespace;
    OpenIsSolid(kind);
    SeparatorPieces(d, p, lead);
    FirstByte(d, p, Separator(lead, false));
    TextWhitespace(d, p + 1, lead);
    SkipsBlank(d, p + 1, |d|);
    SkipsBlank(d, i, p);
    assert ScanItem(d, |d|, kind) == Fail(RanOff);
  }

  /** The loop's round, up to the value. */
  lemma RoundRunsOff(d: Bytes, i: nat, p: nat, q: nat, k: nat, kind: Kind, first: bool)
    requires i <= p < |d| && SkipWhitespace(d, i) == p && d[p] != Close(kind) && (first || d[p] == COMMA)
    requires q == RoundStart(d, i, first) && q <= k <= |d| && RoundKey(d, q, kind).Done? && RoundKey(d, q, kind).end == k
    ensures ScanValue(d, k) == Fail(RanOff) ==> ScanItems(d, i, kind, first) == Fail(RanOff)
    ensures ScanValue(d, k).Done? && ScanItems(d, ScanValue(d, k).end, kind, false) == Fail(RanOff) ==>
      ScanItems(d, i, kind, first) == Fail(RanOff)
  {
    hide StringEnd, ScanKey, ScanValue, SkipWhitespace, RoundStart, RoundKey, CommaEvents;
    assert ScanItem(d, q, kind) == Prepend(RoundKey(d, q, kind).events, ScanValue(d, k));
  }

  /** Where the round starts, given the first byte of its key or value. */
  lemma RoundBegins(d: Bytes, i: nat, p: nat, lead: Bytes, kind: Kind, first: bool)
    requires BlankTo(d, i, p) && AllWhitespace(lead) && (first ==> lead == []) && TextAt(d, p, Separator(lead, first))
    requires var q := p + |Separator(lead, first)|; q < |d| && !IsWhitespace(d[q]) && d[q] != Close(kind)
    ensures p < |d| && SkipWhitespace(d, i) == p && d[p] != Close(kind) && (first || d[p] == COMMA)
    ensures RoundStart(d, i, first) == p + |Separator(lead, first)|
  {
    hide TextAt, AllWhitespace, SkipWhitespace;
    OpenIsSolid(kind);
    var q := p + |Separator(lead, first)|;
    if !first {
      SeparatorPieces(d, p, lead);
      FirstByte(d, p, Separator(lead, false));
      TextWhitespace(d, p + 1, lead);
      SkipsBlank(d, p + 1, q);
    }
    SkipsBlank(d, i, p);
  }

  lemma CutKeyComplete(d: Bytes, q: nat, key: Key, kind: Kind) returns (k: nat)
    requires WellFormedKey(key, kind, Relaxed) && TextAt(d, q, RenderKey(key)) && q <= |d|
    ensures q <= k && BlankTo(d, k, q + |RenderKey(key)|)
    ensures RoundKey(d, q, kind) == Done(k, KeyEvents(key, q))
  {
    if key.NoKey? {
      k := q;
    } else {
      k := MemberKeyComplete(d, q, key);
    }
  }

  lemma {:induction false} WithinComplete(d: Bytes, i: nat, p: nat, items: CutItems, kind: Kind, first: bool)
    requires items.Within? && BlankTo(d, i, p) && ReadsCutItems(d, p, items, kind, first)
    ensures i <= |d| && ScanItems(d, i, kind, first) == Fail(RanOff)
    ensures p < |d| && (first || d[p] == COMMA)
    decreases items, 0
  {
    hide TextAt, AllWhitespace, BlankTo, Separator, RenderKey, RenderCut, WellFormedKey, CutOk, ScanItems, SkipWhitespace, RoundStart, RoundKey,
      ScanValue, KeyEvents;
    var Within(lead, key, value) := items;
    var q := p + |Separator(lead, first)|;
    var u := q + |RenderKey(key)|;
    TextCat(d, p, Separator(lead, first), RenderKey(key) + RenderCut(value));
    TextCat(d, q, RenderKey(key), RenderCut(value));
    CutStart(d, q, key, value);
    OpenIsSolid(kind);
    OpenIsSolid(value.kind);
    RoundBegins(d, i, p, lead, kind, first);
    var k := CutKeyComplete(d, q, key, kind);
    BlankFits(d, k, u);
    CutComplete(d, k, u, value);
    RoundRunsOff(d, i, p, q, k, kind, first);
  }

  lemma BlankFits(d: Bytes, i: nat, p: nat)
    requires BlankTo(d, i, p)
    ensures i <= p <= |d|
  {
  }

  lemma CutStart(d: Bytes, q: nat, key: Key, value: Cut)
    requires TextAt(d, q, RenderKey(key)) && TextAt(d, q + |RenderKey(key)|, RenderCut(value))
    ensures q < |d| && d[q] == if key.NoKey? then Open(value.kind) else QUOTE
  {
    hide TextAt;
    if key.NoKey? {
      FirstByte(d, q, RenderCut(value));
    } else {
      FirstByte(d, q, RenderKey(key));
    }
  }

  lemma {:induction false} PastComplete(d: Bytes, i: nat, p: nat, items: CutItems, kind: Kind, first: bool)
    requires items.Past? && BlankTo(d, i, p) && ReadsCutItems(d, p, items, kind, first)
    ensures i <= |d| && ScanItems(d, i, kind, first) == Fail(RanOff)
    ensures p < |d| && (first || d[p] == COMMA)
    decreases items, 0
  {
    hide TextAt, AllWhitespace, BlankTo, Separator, RenderKey, Render, WellFormedKey, WellFormed, ScanItems, SkipWhitespace, RoundStart, RoundKey,
      ScanValue, KeyEvents, RenderCutItems, Events, Stops, EndsValue;
    var Past(lead, key, item, after, rest) := items;
    var q := p + |Separator(lead, first)|;
    var u := q + |RenderKey(key)|;
    var w := u + |Render(item)|;
    PastText(d, p, items, first);
    ItemStart(d, i, p, lead, key, item, kind, first);
    var k := KeyComplete(d, q, key, item, kind);
    BlankFits(d, k, u);
    TextWhitespace(d, w, after);
    CutItemsComplete(d, w, w + |after|, rest, kind, false);
    CommaEnds();
    AfterValue(d, w, after, item);
    ValueComplete(d, k, u, item);
    BlankFits(d, i, p);
    RoundRunsOff(d, i, p, q, k, kind, first);
  }

  lemma CommaEnds()
    ensures EndsValue(COMMA)
  {
  }

  // ---- the main result ----

  /** The parser reads past its input exactly when the input is whitespace and a value cut off after a comma of an object. */
  lemma RunsOffExactly(d: Bytes)
    ensures ScanValue(d, 0) == Fail(RanOff) <==> exists p: nat, c: Cut :: BlankTo(d, 0, p) && ReadsCut(d, p, c)
  {
    hide ScanValue, ReadsCut, SkipWhitespace;
    if ScanValue(d, 0) == Fail(RanOff) {
      var c := CutSound(d, 0);
      SkippedSound(d, 0);
      assert BlankTo(d, 0, SkipWhitespace(d, 0));
    }
    if p: nat, c: Cut :| BlankTo(d, 0, p) && ReadsCut(d, p, c) {
      CutComplete(d, 0, p, c);
    }
  }
}
