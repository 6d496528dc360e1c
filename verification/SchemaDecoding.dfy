/** Reading a canonical string back: its words determine the normal form of the schema it was made from. */
module SchemaDecoding {
  import opened Values
  import opened Keys
  import opened Schemas
  import opened QueryRoundTrip
  import opened SchemaEquality
  import QueryLexer

  // ---- reading the words back ----

  predicate PlainKey(key: string) {
    forall i | 0 <= i < |key| :: key[i] !in {'='}
  }

  lemma SettingTextUnique(k: string, v: Option<string>, j: string, w: Option<string>)
    requires PlainKey(k) && PlainKey(j) && SettingText(k, v) == SettingText(j, w)
    ensures k == j && v == w
  {
    var a, b := if v.None? then "" else "=" + v.value, if w.None? then "" else "=" + w.value;
    Cut({'='}, k, a, j, b);
    if v.Some? && w.Some? {
      assert v.value == a[1..] && w.value == b[1..];
    }
  }

  /** The words start with a setting of this key. */
  ghost predicate Starts(ws: seq<Word>, key: string) {
    ws != [] && ws[0].delimiter == ';' && exists value :: ws[0].text == SettingText(key, value)
  }

  predicate HasKey(settings: seq<Setting>, key: string) {
    exists i | 0 <= i < |settings| :: settings[i].key == key
  }

  predicate Distinct(settings: seq<Setting>) {
    && (forall i | 0 <= i < |settings| :: PlainKey(settings[i].key))
    && forall i, j | 0 <= i < j < |settings| :: settings[i].key != settings[j].key
  }

  predicate SameKeys(x: seq<Setting>, y: seq<Setting>) {
    |x| == |y| && forall i | 0 <= i < |x| :: x[i].key == y[i].key
  }

  ghost predicate NoneStarts(settings: seq<Setting>, ws: seq<Word>) {
    forall i | 0 <= i < |settings| :: !Starts(ws, settings[i].key)
  }

  lemma {:induction false} NoLaterStarts(settings: seq<Setting>, ws: seq<Word>, key: string)
    requires Distinct(settings) && PlainKey(key) && !HasKey(settings, key) && !Starts(ws, key)
    ensures !Starts(SettingsWords(settings) + ws, key)
  {
    hide SettingText, PlainKey;
    if settings == [] {
      assert [] + ws == ws;
    } else if settings[0].state.None? {
      assert !HasKey(settings[1..], key);
      NoLaterStarts(settings[1..], ws, key);
      assert SettingsWords(settings) == SettingsWords(settings[1..]);
    } else {
      var text := SettingText(settings[0].key, settings[0].state.value);
      assert (SettingsWords(settings) + ws)[0] == Word(';', text);
      forall value
        ensures text != SettingText(key, value)
      {
        if text == SettingText(key, value) {
          SettingTextUnique(settings[0].key, settings[0].state.value, key, value);
        }
      }
    }
  }

  lemma {:induction false} SettingsUnique(x: seq<Setting>, y: seq<Setting>, u: seq<Word>, w: seq<Word>)
    requires SameKeys(x, y) && Distinct(x) && Distinct(y) && NoneStarts(x, u) && NoneStarts(y, w)
    requires SettingsWords(x) + u == SettingsWords(y) + w
    ensures x == y && u == w
  {
    hide SettingText, PlainKey;
    if x == [] {
      assert [] + u == u && [] + w == w;
    } else {
      SettingUnique(x, y, u, w);
      SettingsUnique(x[1..], y[1..], u, w);
      assert x == [x[0]] + x[1..] && y == [y[0]] + y[1..];
    }
  }

  lemma SettingUnique(x: seq<Setting>, y: seq<Setting>, u: seq<Word>, w: seq<Word>)
    requires x != [] && SameKeys(x, y) && Distinct(x) && Distinct(y) && NoneStarts(x, u) && NoneStarts(y, w)
    requires SettingsWords(x) + u == SettingsWords(y) + w
    ensures x[0] == y[0] && SettingsWords(x[1..]) + u == SettingsWords(y[1..]) + w
  {
    hide SettingText, PlainKey;
    var key := x[0].key;
    var a, b := SettingsWords(x[1..]) + u, SettingsWords(y[1..]) + w;
    NoLaterStarts(x[1..], u, key);
    NoLaterStarts(y[1..], w, key);
    FirstSetting(x, u);
    FirstSetting(y, w);
    if x[0].state.Some? && y[0].state.Some? {
      SettingTextUnique(key, x[0].state.value, key, y[0].state.value);
      assert ([Word(';', SettingText(key, x[0].state.value))] + a)[1..] == a;
      assert ([Word(';', SettingText(key, y[0].state.value))] + b)[1..] == b;
    }
  }

  /** The words of the first setting, when it is there. */
  lemma FirstSetting(x: seq<Setting>, u: seq<Word>)
    requires x != []
    ensures var rest := SettingsWords(x[1..]) + u;
      SettingsWords(x) + u ==
        if x[0].state.None? then rest else [Word(';', SettingText(x[0].key, x[0].state.value))] + rest
    ensures x[0].state.Some? ==> Starts(SettingsWords(x) + u, x[0].key)
  {
    hide SettingText;
    if x[0].state.None? {
      assert [] + SettingsWords(x[1..]) == SettingsWords(x[1..]);
    } else {
      var first := [Word(';', SettingText(x[0].key, x[0].state.value))];
      assert first + SettingsWords(x[1..]) + u == first + (SettingsWords(x[1..]) + u);
    }
  }

  // ---- reading a schema back ----

  /** What can follow a schema: nothing, the next field, or the end of the object. */
  predicate Stop(ws: seq<Word>) {
    ws == [] || ws[0].delimiter == ',' || ws[0].delimiter == '}'
  }

  lemma DecimalUnique(m: int, n: int)
    requires DecimalInt(m) == DecimalInt(n)
    ensures m == n
  {
    var i, j := if m < 0 then -m else m, if n < 0 then -n else n;
    DecimalRoundTrip(i);
    DecimalRoundTrip(j);
    assert QueryLexer.IsDigit(Decimal(i)[0]) && QueryLexer.IsDigit(Decimal(j)[0]);
    assert m < 0 ==> Decimal(i) == DecimalInt(m)[1..];
    assert n < 0 ==> Decimal(j) == DecimalInt(n)[1..];
  }

  lemma IntSettingUnique(key: string, a: Option<int>, b: Option<int>)
    requires IntSetting(key, a) == IntSetting(key, b)
    ensures a == b
  {
    hide DecimalInt;
    if a.Some? && b.Some? {
      DecimalUnique(a.value, b.value);
    }
  }

  lemma HeadUnique(s: Schema, t: Schema)
    requires Clean(s) && Clean(t) && Head(s) == Head(t)
    ensures s.StringSchema? <==> t.StringSchema?
    ensures s.NumberSchema? <==> t.NumberSchema?
    ensures s.BoolSchema? <==> t.BoolSchema?
    ensures s.ObjectSchema? <==> t.ObjectSchema?
    ensures s.ArraySchema? <==> t.ArraySchema?
  {
    hide Free, IsName;
    assert Head(s)[0] == Head(t)[0] && |Head(s)| == |Head(t)|;
  }

  function KeyList(s: Schema): seq<string> {
    match s
    case StringSchema(_, _, _, _, _, _, _) => ["req", "null", "fmt", "minLen", "maxLen", "pat"]
    case NumberSchema(_, _, _, _, _) => ["req", "null", "int", "min", "max", "mul"]
    case ObjectSchema(_, _, _, _, _, _) => ["req", "null", "additional"]
    case ArraySchema(_, _, _, _, _, _, _) => ["req", "null", "minItems", "maxItems"]
    case _ => ["req", "null"]
  }

  predicate GoodKeys(keys: seq<string>) {
    && (forall i | 0 <= i < |keys| :: PlainKey(keys[i]))
    && forall i, j | 0 <= i < j < |keys| :: keys[i] != keys[j]
  }

  lemma KeyListIs(g: Printer, s: Schema)
    ensures |SettingsOf(g, s)| == |KeyList(s)|
    ensures forall i | 0 <= i < |KeyList(s)| :: SettingsOf(g, s)[i].key == KeyList(s)[i]
  {
    hide DecimalInt;
  }

  lemma KeyListGood(s: Schema)
    ensures GoodKeys(KeyList(s))
  {
    hide PlainKey;
    KeysPlain();
  }

  lemma SettingsShape(g: Printer, s: Schema, t: Schema)
    requires Clean(s) && Clean(t) && Head(s) == Head(t)
    ensures SameKeys(SettingsOf(g, s), SettingsOf(g, t))
    ensures Distinct(SettingsOf(g, s)) && Distinct(SettingsOf(g, t))
    ensures KeyList(s) == KeyList(t)
  {
    hide PlainKey, SettingsOf, KeyList, Head, Clean;
    SameKeyList(s, t);
    KeyListIs(g, s);
    KeyListIs(g, t);
    KeyListGood(s);
  }

  lemma SameKeyList(s: Schema, t: Schema)
    requires Clean(s) && Clean(t) && Head(s) == Head(t)
    ensures KeyList(s) == KeyList(t)
  {
    HeadUnique(s, t);
  }

  lemma KeysPlain()
    ensures PlainKey("req") && PlainKey("null") && PlainKey("fmt") && PlainKey("minLen") && PlainKey("maxLen") && PlainKey("pat")
    ensures PlainKey("int") && PlainKey("min") && PlainKey("max") && PlainKey("mul") && PlainKey("additional")
    ensures PlainKey("minItems") && PlainKey("maxItems") && PlainKey("enum") && PlainKey("of")
  {
  }

  /** Neither an enum nor an element schema nor the end of a schema looks like one of its settings. */
  lemma NoneStart(g: Printer, s: Schema, ws: seq<Word>)
    requires ws != [] && ws[0].delimiter == ';' ==>
      exists key, value :: key !in KeyList(s) && PlainKey(key) && ws[0].text == SettingText(key, value)
    ensures NoneStarts(SettingsOf(g, s), ws)
  {
    hide SettingsOf, KeyList, SettingText, PlainKey;
    KeyListIs(g, s);
    KeyListGood(s);
    forall i | 0 <= i < |SettingsOf(g, s)|
      ensures !Starts(ws, SettingsOf(g, s)[i].key)
    {
      var own := SettingsOf(g, s)[i].key;
      if Starts(ws, own) {
        var value :| ws[0].text == SettingText(own, value);
        var key, other :| key !in KeyList(s) && PlainKey(key) && ws[0].text == SettingText(key, other);
        SettingTextUnique(own, value, key, other);
      }
    }
  }

  // ---- enums ----

  lemma {:induction false} ValuesUnique(a: seq<string>, b: seq<string>, u: seq<Word>, w: seq<Word>)
    requires ValuesWords(a) + u == ValuesWords(b) + w
    ensures a == b && u == w
  {
    FirstValue(a, u);
    FirstValue(b, w);
    if a != [] {
      ValuesUnique(a[1..], b[1..], u, w);
      assert a == [a[0]] + a[1..] && b == [b[0]] + b[1..];
    }
  }

  lemma FirstValue(a: seq<string>, u: seq<Word>)
    ensures var ws := ValuesWords(a) + u;
      && ws[0] == (if a == [] then Word(']', "") else Word(',', a[0]))
      && ws[1..] == (if a == [] then u else ValuesWords(a[1..]) + u)
  {
    if a == [] {
      assert ([Word(']', "")] + u)[1..] == u;
    } else {
      assert [Word(',', a[0])] + ValuesWords(a[1..]) + u == [Word(',', a[0])] + (ValuesWords(a[1..]) + u);
    }
  }

  lemma EnumUnique(a: seq<string>, b: seq<string>, u: seq<Word>, w: seq<Word>)
    requires EnumWords(a) + u == EnumWords(b) + w && Stop(u) && Stop(w)
    ensures a == b && u == w
  {
    hide ValuesWords;
    FirstEnum(a, u);
    FirstEnum(b, w);
    if a != [] && b != [] {
      ValuesUnique(a[1..], b[1..], u, w);
      assert a == [a[0]] + a[1..] && b == [b[0]] + b[1..];
    }
  }

  lemma FirstEnum(a: seq<string>, u: seq<Word>)
    ensures var ws := EnumWords(a) + u;
      if a == [] then ws == u
      else ws[0] == Word(';', "enum=") && |ws| > 1 && ws[1..][0] == Word('[', a[0]) && ws[1..][1..] == ValuesWords(a[1..]) + u
  {
    hide ValuesWords;
    if a == [] {
      assert [] + u == u;
    } else {
      ConsAppend(Word('[', a[0]), ValuesWords(a[1..]), u);
      ConsAppend(Word(';', "enum="), [Word('[', a[0])] + ValuesWords(a[1..]), u);
    }
  }

  lemma ConsAppend(x: Word, a: seq<Word>, b: seq<Word>)
    ensures ([x] + a) + b == [x] + (a + b)
    ensures ([x] + (a + b))[0] == x && ([x] + (a + b))[1..] == a + b
  {
  }

  // ---- the normal form is determined ----

  /** All but the parts below it. */
  predicate SameOwn(s: Schema, t: Schema) {
    s.base == t.base &&
    match s
    case StringSchema(_, min, max, pattern, _, format, _) =>
      && t.StringSchema? && min == t.minLength && max == t.maxLength && format == t.format
      && pattern.UnwrapOr("") == t.pattern.UnwrapOr("")
    case NumberSchema(_, min, max, mul, rules) =>
      t.NumberSchema? && min == t.min && max == t.max && mul == t.multipleOf && (Integer in rules <==> Integer in t.rules)
    case BoolSchema(_, _) => t.BoolSchema?
    case ObjectSchema(_, _, _, additional, _, _) => t.ObjectSchema? && additional == t.additional
    case ArraySchema(_, _, min, max, _, _, _) => t.ArraySchema? && min == t.minItems && max == t.maxItems
    case _ => false
  }

  lemma SettingsTell(g: Printer, s: Schema, t: Schema)
    requires Clean(s) && Clean(t) && Tells(g, s) && Tells(g, t) && Head(s) == Head(t) && SettingsOf(g, s) == SettingsOf(g, t)
    ensures SameOwn(s, t)
  {
    hide DecimalInt, Free, IsName, Head, IntSetting, RealSetting, Clean;
    HeadUnique(s, t);
    CleanBase(s);
    CleanBase(t);
    var x, y := SettingsOf(g, s), SettingsOf(g, t);
    assert x[0] == y[0] && x[1] == y[1];
    OwnTell(g, s, t);
  }

  lemma CleanBase(s: Schema)
    requires Clean(s)
    ensures s.base.meta == map[]
    ensures s.StringSchema? || s.NumberSchema? || s.BoolSchema? || s.ObjectSchema? || s.ArraySchema?
  {
  }

  lemma OwnTell(g: Printer, s: Schema, t: Schema)
    requires Tells(g, s) && Tells(g, t) && SettingsOf(g, s) == SettingsOf(g, t) && s.base == t.base
    requires s.StringSchema? || s.NumberSchema? || s.BoolSchema? || s.ObjectSchema? || s.ArraySchema?
    requires (s.StringSchema? <==> t.StringSchema?) && (s.NumberSchema? <==> t.NumberSchema?) && (s.BoolSchema? <==> t.BoolSchema?)
    requires (s.ObjectSchema? <==> t.ObjectSchema?) && (s.ArraySchema? <==> t.ArraySchema?)
    ensures SameOwn(s, t)
  {
    hide IntSetting, RealSetting, DecimalInt;
    var x, y := SettingsOf(g, s), SettingsOf(g, t);
    assert x[2..] == OwnSettings(g, s) && y[2..] == OwnSettings(g, t);
    var a, b := OwnSettings(g, s), OwnSettings(g, t);
    match s
    case StringSchema(_, _, _, _, _, _, _) =>
      assert a[0] == b[0] && a[1] == b[1] && a[2] == b[2] && a[3] == b[3];
      IntSettingUnique("minLen", s.minLength, t.minLength);
      IntSettingUnique("maxLen", s.maxLength, t.maxLength);
    case NumberSchema(_, _, _, _, _) =>
      assert a[0] == b[0] && a[1] == b[1] && a[2] == b[2] && a[3] == b[3];
      RealSettingUnique(g, "min", s.min, t.min);
      RealSettingUnique(g, "max", s.max, t.max);
      RealSettingUnique(g, "mul", s.multipleOf, t.multipleOf);
    case BoolSchema(_, _) =>
    case ObjectSchema(_, _, _, _, _, _) =>
      assert a[0] == b[0];
    case ArraySchema(_, _, _, _, _, _, _) =>
      assert a[0] == b[0] && a[1] == b[1];
      IntSettingUnique("minItems", s.minItems, t.minItems);
      IntSettingUnique("maxItems", s.maxItems, t.maxItems);
  }

  lemma RealSettingUnique(g: Printer, key: string, a: Option<real>, b: Option<real>)
    requires GoodPrinter(g) && KnownBound(g, a) && KnownBound(g, b) && RealSetting(g, key, a) == RealSetting(g, key, b)
    ensures a == b
  {
    hide Free;
  }

  /** The words of a schema and what follows it can be told apart: unique decodability. */
  lemma {:induction false} WordsDecode(g: Printer, delimiter: char, lead: string, s: Schema, t: Schema, u: seq<Word>, w: seq<Word>)
    requires Clean(s) && Clean(t) && Tells(g, s) && Tells(g, t) && Stop(u) && Stop(w)
    requires Words(g, delimiter, lead, s) + u == Words(g, delimiter, lead, t) + w
    ensures Norm(s) == Norm(t) && u == w
    decreases s, 3
  {
    hide Head, SettingsOf, SettingsWords, RestWords, Clean, Tells, Stop, KeyList;
    var x, y := SettingsOf(g, s), SettingsOf(g, t);
    var a, b := RestWords(g, s) + u, RestWords(g, t) + w;
    WordsSplit(g, delimiter, lead, s, u);
    WordsSplit(g, delimiter, lead, t, w);
    assert Head(s) == (lead + Head(s))[|lead|..] == (lead + Head(t))[|lead|..] == Head(t);
    SettingsShape(g, s, t);
    RestNoneStart(g, s, u);
    RestNoneStart(g, t, w);
    SettingsUnique(x, y, a, b);
    SettingsTell(g, s, t);
    RestDecode(g, s, t, u, w);
  }

  lemma WordsSplit(g: Printer, delimiter: char, lead: string, s: Schema, u: seq<Word>)
    ensures var ws := Words(g, delimiter, lead, s) + u;
      && ws != [] && ws[0] == Word(delimiter, lead + Head(s))
      && ws[1..] == SettingsWords(SettingsOf(g, s)) + (RestWords(g, s) + u)
  {
    hide SettingsOf, SettingsWords, RestWords, Head;
    var a, b := SettingsWords(SettingsOf(g, s)), RestWords(g, s);
    ConsAppend(Word(delimiter, lead + Head(s)), a + b, u);
    assert (a + b) + u == a + (b + u);
  }

  lemma RestNoneStart(g: Printer, s: Schema, u: seq<Word>)
    requires Clean(s) && Stop(u)
    ensures NoneStarts(SettingsOf(g, s), RestWords(g, s) + u)
  {
    hide SettingsOf, Words, FieldsWords, ValuesWords, Elements, Ascending, Clean, NoneStarts, Head;
    var ws := RestWords(g, s) + u;
    match s
    case StringSchema(_, _, _, _, enum, _, _) =>
      FirstEnum(enum, u);
      if enum != [] {
        assert ws[0].text == SettingText("enum", Some(""));
      }
      NoneStart(g, s, ws);
    case ObjectSchema(_, fields, _, _, _, _) =>
      FirstField(g, s, Sorted(fields.Keys), 0, u);
      NoneStart(g, s, ws);
    case ArraySchema(_, element, _, _, _, _, _) =>
      if element.Some? {
        WordsSplit(g, ';', "of=", element.value, u);
        OfSetting(Head(element.value));
      } else {
        assert ws == u;
      }
      NoneStart(g, s, ws);
    case _ =>
      assert ws == u;
      NoneStart(g, s, ws);
  }

  lemma OfSetting(head: string)
    ensures "of=" + head == SettingText("of", Some(head))
  {
    assert "of" + ("=" + head) == "of=" + head;
  }

  lemma FirstField(g: Printer, s: Schema, names: seq<string>, i: nat, u: seq<Word>)
    requires s.ObjectSchema? && i <= |names| && forall i | 0 <= i < |names| :: names[i] in s.fields
    ensures var ws := FieldsWords(g, s, names, i) + u;
      if i == |names| then
        if i == 0 then ws[0] == Word('{', "") && |ws| > 1 && ws[1..][0] == Word('}', "") && ws[1..][1..] == u
        else ws[0] == Word('}', "") && ws[1..] == u
      else
        && ws[0] == Word(if i == 0 then '{' else ',', names[i])
        && ws[1..] == Words(g, ':', "", s.fields[names[i]]) + (FieldsWords(g, s, names, i + 1) + u)
  {
    hide Words;
    if i == |names| {
      var end := [Word('}', "")];
      if i == 0 {
        ConsAppend(Word('{', ""), end, u);
      }
      assert end + u == [Word('}', "")] + u && ([Word('}', "")] + u)[1..] == u;
      assert [] + end == end;
    } else {
      var a, b := Words(g, ':', "", s.fields[names[i]]), FieldsWords(g, s, names, i + 1);
      ConsAppend(Word(if i == 0 then '{' else ',', names[i]), a + b, u);
      assert (a + b) + u == a + (b + u);
    }
  }

  lemma {:induction false} RestDecode(g: Printer, s: Schema, t: Schema, u: seq<Word>, w: seq<Word>)
    requires Clean(s) && Clean(t) && Tells(g, s) && Tells(g, t) && Stop(u) && Stop(w) && SameOwn(s, t)
    requires RestWords(g, s) + u == RestWords(g, t) + w
    ensures Norm(s) == Norm(t) && u == w
    decreases s, 2
  {
    hide Words, FieldsWords, EnumWords, Free, IsName, Tells, Stop, Elements, Ascending;
    if s.StringSchema? {
      EnumUnique(s.enum, t.enum, u, w);
      assert s.pattern.UnwrapOr("") == t.pattern.UnwrapOr("");
    } else if s.ObjectSchema? {
      ObjectDecode(g, s, t, u, w);
    } else if s.ArraySchema? {
      ElementDecode(g, s, t, u, w);
    } else {
      assert [] + u == u && [] + w == w;
    }
  }

  lemma {:induction false} ElementDecode(g: Printer, s: Schema, t: Schema, u: seq<Word>, w: seq<Word>)
    requires Clean(s) && Clean(t) && Tells(g, s) && Tells(g, t) && Stop(u) && Stop(w) && s.ArraySchema? && t.ArraySchema?
    requires RestWords(g, s) + u == RestWords(g, t) + w
    ensures u == w && (s.element.Some? <==> t.element.Some?)
    ensures s.element.Some? ==> Norm(s.element.value) == Norm(t.element.value)
    decreases s, 1
  {
    hide Words, RestWords, GoodPrinter, Norm, Free, IsName;
    FirstElement(g, s, u);
    FirstElement(g, t, w);
    if s.element.Some? && t.element.Some? {
      WordsDecode(g, ';', "of=", s.element.value, t.element.value, u, w);
    }
  }

  lemma FirstElement(g: Printer, s: Schema, u: seq<Word>)
    requires s.ArraySchema?
    ensures s.element.None? ==> RestWords(g, s) + u == u
    ensures s.element.Some? ==> RestWords(g, s) + u == Words(g, ';', "of=", s.element.value) + u
    ensures s.element.Some? ==> (RestWords(g, s) + u) != [] && (RestWords(g, s) + u)[0].delimiter == ';'
  {
    hide Words;
    assert [] + u == u;
    if s.element.Some? {
      WordsSplit(g, ';', "of=", s.element.value, u);
    }
  }

  lemma {:induction false} FieldsDecode(g: Printer, s: Schema, t: Schema, names: seq<string>, other: seq<string>, i: nat,
                                        u: seq<Word>, w: seq<Word>)
    requires Clean(s) && Clean(t) && Tells(g, s) && Tells(g, t) && Stop(u) && Stop(w) && s.ObjectSchema? && t.ObjectSchema?
    requires (forall i | 0 <= i < |names| :: names[i] in s.fields) && (forall i | 0 <= i < |other| :: other[i] in t.fields)
    requires i <= |names| && i <= |other|
    requires FieldsWords(g, s, names, i) + u == FieldsWords(g, t, other, i) + w
    ensures names[i..] == other[i..] && u == w
    ensures forall k | i <= k < |names| :: names[k] in t.fields && Norm(s.fields[names[k]]) == Norm(t.fields[names[k]])
    decreases s, 0, |names| - i
  {
    hide Words, GoodPrinter, Norm, IsName, FieldsWords, Clean;
    FirstField(g, s, names, i, u);
    FirstField(g, t, other, i, w);
    CleanNames(s, names);
    CleanNames(t, other);
    if i < |names| && i < |other| {
      var a, b := FieldsWords(g, s, names, i + 1) + u, FieldsWords(g, t, other, i + 1) + w;
      FirstField(g, s, names, i + 1, u);
      FirstField(g, t, other, i + 1, w);
      WordsDecode(g, ':', "", s.fields[names[i]], t.fields[other[i]], a, b);
      FieldsDecode(g, s, t, names, other, i + 1, u, w);
      assert names[i..] == [names[i]] + names[i + 1..] && other[i..] == [other[i]] + other[i + 1..];
    }
  }

  lemma CleanNames(s: Schema, names: seq<string>)
    requires Clean(s) && s.ObjectSchema? && forall i | 0 <= i < |names| :: names[i] in s.fields
    ensures forall i | 0 <= i < |names| :: names[i] != "" && Clean(s.fields[names[i]])
  {
  }

  lemma {:induction false} ObjectDecode(g: Printer, s: Schema, t: Schema, u: seq<Word>, w: seq<Word>)
    requires Clean(s) && Clean(t) && Tells(g, s) && Tells(g, t) && Stop(u) && Stop(w) && SameOwn(s, t) && s.ObjectSchema?
    requires RestWords(g, s) + u == RestWords(g, t) + w
    ensures Norm(s) == Norm(t) && u == w
    decreases s, 1
  {
    hide FieldsWords, Tells, Elements, Ascending, Norm, Stop, Clean;
    var names, other := Sorted(s.fields.Keys), Sorted(t.fields.Keys);
    FieldsDecode(g, s, t, names, other, 0, u, w);
    assert names == names[0..] == other[0..] == other;
    SameNorms(s, t);
  }

  lemma SameNorms(s: Schema, t: Schema)
    requires Clean(s) && Clean(t) && SameOwn(s, t) && s.ObjectSchema?
    requires Sorted(s.fields.Keys) == Sorted(t.fields.Keys)
    requires var names := Sorted(s.fields.Keys);
      forall k | 0 <= k < |names| :: names[k] in t.fields && Norm(s.fields[names[k]]) == Norm(t.fields[names[k]])
    ensures Norm(s) == Norm(t)
  {
    hide Ascending, Norm, Clean;
    assert s.fields.Keys == Elements(Sorted(s.fields.Keys)) == t.fields.Keys;
    forall k | k in s.fields
      ensures Norm(s.fields[k]) == Norm(t.fields[k]) && s.fields[k].base == t.fields[k].base
    {
      SortedHas(s.fields.Keys, k);
      NormKeepsBase(s.fields[k]);
      NormKeepsBase(t.fields[k]);
    }
    SameFields(s, t);
  }

  lemma SameFields(s: Schema, t: Schema)
    requires Clean(s) && Clean(t) && SameOwn(s, t) && s.ObjectSchema? && s.fields.Keys == t.fields.Keys
    requires forall k | k in s.fields :: Norm(s.fields[k]) == Norm(t.fields[k]) && s.fields[k].base == t.fields[k].base
    ensures Norm(s) == Norm(t)
  {
    hide IsName, Free;
    assert Norm(s).fields == Norm(t).fields;
  }

  lemma NormKeepsBase(s: Schema)
    ensures Norm(s).base == s.base
  {
  }

  /** Equal canonical strings mean equal normal forms. */
  lemma EqualMeansSameNorm(g: Printer, s: Schema, t: Schema)
    requires Clean(s) && Clean(t) && Tells(g, s) && Tells(g, t) && Equal(g, s, t)
    ensures Norm(s) == Norm(t)
  {
    hide Words, Canon, Clean, Norm, Tells;
    var a, b := Words(g, ':', "", s), Words(g, ':', "", t);
    WordsSpell(g, ':', "", s);
    WordsSpell(g, ':', "", t);
    OtherKeysFree();
    PunctuationDelimits();
    WordsProper(g, ':', "", s);
    WordsProper(g, ':', "", t);
    WordsUnique(a, b);
    WordsDecode(g, ':', "", s, t, [], []);
  }
}
