/**
 Canonical strings of schemas. Equal compares them, so it is sound only if a canonical string can be
 read back in one way. For schemas whose texts avoid the delimiters it can: a canonical string is a
 list of words, each a delimiter and a text, and the words determine the schema's normal form.
 */
module SchemaEquality {
  import opened Values
  import opened Keys
  import opened Schemas
  import opened QueryRoundTrip
  import QueryLexer

  /** How a float64 is printed by %g, and a metadata value by %v; `known` are the numbers a float64 can hold. */
  datatype Printer = Printer(number: real -> string, known: real -> bool, value: Value -> string)

  // ---- canonical strings ----

  /** An optional part of a canonical string: absent, a flag, or a key with a value. */
  datatype Setting = Setting(key: string, state: Option<Option<string>>)

  function SettingText(key: string, value: Option<string>): string {
    key + (match value case None => "" case Some(v) => "=" + v)
  }

  function SettingsText(settings: seq<Setting>): string {
    if settings == [] then ""
    else
      (match settings[0].state case None => "" case Some(value) => ";" + SettingText(settings[0].key, value))
      + SettingsText(settings[1..])
  }

  function Flag(key: string, on: bool): Setting {
    Setting(key, if on then Some(None) else None)
  }

  function IntSetting(key: string, value: Option<int>): Setting {
    Setting(key, match value case None => None case Some(n) => Some(Some(DecimalInt(n))))
  }

  function RealSetting(g: Printer, key: string, value: Option<real>): Setting {
    Setting(key, match value case None => None case Some(r) => Some(Some(g.number(r))))
  }

  function TextSetting(key: string, value: string): Setting {
    Setting(key, if value == "" then None else Some(Some(value)))
  }

  /** A canonical string starts with the kind of the schema, or with what it wraps. */
  function Head(s: Schema): string {
    match s
    case StringSchema(_, _, _, _, _, _, _) => "string"
    case NumberSchema(_, _, _, _, _) => "number"
    case BoolSchema(_, _) => "bool"
    case ObjectSchema(_, _, _, _, _, _) => "object"
    case ArraySchema(_, _, _, _, _, _, _) => "array"
    case CustomSchema(_, _) => "custom"
    case _ => ""
  }

  function BaseSettings(base: Base): seq<Setting> {
    [Flag("req", base.required), Flag("null", base.nullable)]
  }

  function OwnSettings(g: Printer, s: Schema): seq<Setting> {
    match s
    case StringSchema(_, min, max, pattern, _, format, _) =>
      [TextSetting("fmt", format), IntSetting("minLen", min), IntSetting("maxLen", max), TextSetting("pat", pattern.UnwrapOr(""))]
    case NumberSchema(_, min, max, mul, rules) =>
      [Flag("int", Integer in rules), RealSetting(g, "min", min), RealSetting(g, "max", max), RealSetting(g, "mul", mul)]
    case ObjectSchema(_, _, _, additional, _, _) =>
      [Setting("additional", match additional case None => None case Some(b) => Some(Some(if b then "true" else "false")))]
    case ArraySchema(_, _, min, max, _, _, _) => [IntSetting("minItems", min), IntSetting("maxItems", max)]
    case _ => []
  }

  function SettingsOf(g: Printer, s: Schema): seq<Setting> {
    BaseSettings(s.base) + OwnSettings(g, s)
  }

  function CommaJoined(values: seq<string>): string {
    if values == [] then "" else "," + values[0] + CommaJoined(values[1..])
  }

  function EnumText(values: seq<string>): string {
    if values == [] then "" else ";enum=" + "[" + values[0] + CommaJoined(values[1..]) + "]"
  }

  ghost function MetaText(g: Printer, meta: map<string, Value>): string {
    if meta == map[] then "" else ";meta{" + MetaItems(g, meta, Sorted(meta.Keys), 0) + "}"
  }

  function MetaItems(g: Printer, meta: map<string, Value>, keys: seq<string>, i: nat): string
    requires i <= |keys| && forall i | 0 <= i < |keys| :: keys[i] in meta
    decreases |keys| - i
  {
    if i == |keys| then ""
    else (if i > 0 then "," else "") + keys[i] + "=" + g.value(meta[keys[i]]) + MetaItems(g, meta, keys, i + 1)
  }

  /** The flags and metadata; And, Or and Not leave theirs out. */
  ghost function BaseText(g: Printer, s: Schema): string {
    if s.AndSchema? || s.OrSchema? || s.NotSchema? then ""
    else SettingsText(BaseSettings(s.base)) + MetaText(g, s.base.meta)
  }

  /** The canonical string. */
  ghost function Canon(g: Printer, s: Schema): string
    decreases s, 2, 0
  {
    Opening(g, s) + BaseText(g, s) + SettingsText(OwnSettings(g, s)) + Rest(g, s)
  }

  ghost function Opening(g: Printer, s: Schema): string
    decreases s, 1, 0
  {
    match s
    case TransformSchema(_, inner, _) => "transform(" + Canon(g, inner) + ")"
    case AndSchema(_, parts) => "and(" + PartsText(g, s, 0) + ")"
    case OrSchema(_, parts) => "or(" + PartsText(g, s, 0) + ")"
    case NotSchema(_, inner) => "not(" + Canon(g, inner) + ")"
    case _ => Head(s)
  }

  /** The parts from number `i` on. */
  ghost function PartsText(g: Printer, s: Schema, i: nat): string
    requires (s.AndSchema? || s.OrSchema?) && i <= |s.parts|
    decreases s, 0, |s.parts| - i
  {
    if i == |s.parts| then "" else (if i > 0 then "," else "") + Canon(g, s.parts[i]) + PartsText(g, s, i + 1)
  }

  ghost function Rest(g: Printer, s: Schema): string
    decreases s, 1, 0
  {
    match s
    case StringSchema(_, _, _, _, enum, _, _) => EnumText(enum)
    case ObjectSchema(_, fields, _, _, _, _) => "{" + FieldsText(g, s, Sorted(fields.Keys), 0) + "}"
    case ArraySchema(_, element, _, _, _, _, _) => if element.None? then "" else ";of=" + Canon(g, element.value)
    case _ => ""
  }

  /** The fields from number `i` on. */
  ghost function FieldsText(g: Printer, s: Schema, names: seq<string>, i: nat): string
    requires s.ObjectSchema? && i <= |names| && forall i | 0 <= i < |names| :: names[i] in s.fields
    decreases s, 0, |names| - i
  {
    if i == |names| then ""
    else
      (if i > 0 then "," else "") + names[i] + ":" + Canon(g, s.fields[names[i]]) + FieldsText(g, s, names, i + 1)
  }

  ghost predicate Equal(g: Printer, a: Schema, b: Schema) {
    Canon(g, a) == Canon(g, b)
  }

  // ---- the schemas it can tell apart ----

  predicate Delimiter(c: char) {
    c in ";,:{}[]"
  }

  predicate Free(t: string) {
    forall i | 0 <= i < |t| :: !Delimiter(t[i])
  }

  /** The numbers that exist, here every float64, are printed without delimiters and all apart. */
  ghost predicate GoodPrinter(g: Printer) {
    && (forall r | g.known(r) :: Free(g.number(r)))
    && (forall r, q | g.known(r) && g.known(q) && g.number(r) == g.number(q) :: r == q)
  }

  /** The numbers in a schema are among those that exist. */
  ghost predicate Tells(g: Printer, s: Schema)
    decreases s
  {
    GoodPrinter(g) &&
    match s
    case NumberSchema(_, min, max, mul, _) => KnownBound(g, min) && KnownBound(g, max) && KnownBound(g, mul)
    case ObjectSchema(_, fields, _, _, _, _) => forall k | k in fields :: Tells(g, fields[k])
    case ArraySchema(_, element, _, _, _, _, _) => element.Some? ==> Tells(g, element.value)
    case _ => true
  }

  predicate KnownBound(g: Printer, bound: Option<real>) {
    bound.Some? ==> g.known(bound.value)
  }

  ghost predicate Clean(s: Schema)
    decreases s
  {
    s.base.meta == map[] &&
    match s
    case StringSchema(_, _, _, pattern, enum, format, rules) =>
      rules == [] && Free(pattern.UnwrapOr("")) && Free(format) && forall i | 0 <= i < |enum| :: Free(enum[i])
    case NumberSchema(_, _, _, _, rules) => forall i | 0 <= i < |rules| :: rules[i] == Integer
    case BoolSchema(_, rules) => rules == []
    case ObjectSchema(_, fields, required, _, rules, _) =>
      && rules == []
      && (forall k | k in fields :: IsName(k) && Clean(fields[k]))
      && required == set k | k in fields && fields[k].base.required
    case ArraySchema(_, element, _, _, unique, rules, _) =>
      rules == [] && !unique && (element.Some? ==> Clean(element.value))
    case _ => false
  }

  /** What the canonical string keeps: not whether a pattern is empty or absent, nor how often Integer was called. */
  function Norm(s: Schema): Schema
    decreases s
  {
    match s
    case StringSchema(base, min, max, pattern, enum, format, rules) =>
      StringSchema(base, min, max, if pattern.UnwrapOr("") == "" then None else pattern, enum, format, rules)
    case NumberSchema(base, min, max, mul, rules) =>
      NumberSchema(base, min, max, mul, if Integer in rules then [Integer] else [])
    case ObjectSchema(base, fields, required, additional, rules, _) =>
      ObjectSchema(base, map k | k in fields :: Norm(fields[k]), required, additional, rules, true)
    case ArraySchema(base, element, min, max, unique, rules, _) =>
      ArraySchema(base, if element.None? then None else Some(Norm(element.value)), min, max, unique, rules, true)
    case _ => s
  }

  // ---- words ----

  /** A delimiter and the text up to the next one. */
  datatype Word = Word(delimiter: char, text: string)

  function Joined(ws: seq<Word>): string {
    if ws == [] then "" else [ws[0].delimiter] + ws[0].text + Joined(ws[1..])
  }

  predicate ProperWord(w: Word) {
    Delimiter(w.delimiter) && Free(w.text)
  }

  predicate Proper(ws: seq<Word>) {
    forall i | 0 <= i < |ws| :: ProperWord(ws[i])
  }

  function Until(stops: set<char>, s: string): nat {
    if s == "" || s[0] in stops then 0 else 1 + Until(stops, s[1..])
  }

  lemma {:induction false} UntilStop(stops: set<char>, a: string, u: string)
    requires (forall i | 0 <= i < |a| :: a[i] !in stops) && (u != [] ==> u[0] in stops)
    ensures Until(stops, a + u) == |a|
  {
    if a == "" {
      assert a + u == u;
    } else {
      assert (a + u)[1..] == a[1..] + u;
      UntilStop(stops, a[1..], u);
    }
  }

  /** Two strings of characters outside `stops`, each followed by nothing or a character in it. */
  lemma Cut(stops: set<char>, a: string, u: string, b: string, w: string)
    requires a + u == b + w
    requires (forall i | 0 <= i < |a| :: a[i] !in stops) && (forall i | 0 <= i < |b| :: b[i] !in stops)
    requires (u != [] ==> u[0] in stops) && (w != [] ==> w[0] in stops)
    ensures a == b && u == w
  {
    UntilStop(stops, a, u);
    UntilStop(stops, b, w);
    assert a == (a + u)[..|a|] == b;
    assert u == (a + u)[|a|..] == w;
  }

  const DELIMITERS: set<char> := {';', ',', ':', '{', '}', '[', ']'}

  lemma {:induction false} WordsUnique(ws: seq<Word>, vs: seq<Word>)
    requires Proper(ws) && Proper(vs) && Joined(ws) == Joined(vs)
    ensures ws == vs
    decreases |ws|
  {
    if ws != [] && vs != [] {
      var a, b := ws[0], vs[0];
      JoinedTail(ws);
      JoinedTail(vs);
      assert Joined(ws)[0] == a.delimiter && Joined(vs)[0] == b.delimiter;
      Cut(DELIMITERS, a.text, Joined(ws[1..]), b.text, Joined(vs[1..]));
      WordsUnique(ws[1..], vs[1..]);
      assert ws == [a] + ws[1..] && vs == [b] + vs[1..];
    }
  }

  lemma JoinedTail(ws: seq<Word>)
    requires ws != []
    ensures Joined(ws)[1..] == ws[0].text + Joined(ws[1..])
  {
    assert Joined(ws) == [ws[0].delimiter] + (ws[0].text + Joined(ws[1..]));
  }

  lemma {:induction false} JoinedAppend(a: seq<Word>, b: seq<Word>)
    ensures Joined(a + b) == Joined(a) + Joined(b)
  {
    if a == [] {
      assert a + b == b;
    } else {
      JoinedAppend(a[1..], b);
      assert (a + b)[0] == a[0] && (a + b)[1..] == a[1..] + b;
      var first := [a[0].delimiter] + a[0].text;
      assert (first + Joined(a[1..])) + Joined(b) == first + (Joined(a[1..]) + Joined(b));
    }
  }

  // ---- the words of a schema ----

  function SettingsWords(settings: seq<Setting>): seq<Word> {
    if settings == [] then []
    else
      (match settings[0].state case None => [] case Some(value) => [Word(';', SettingText(settings[0].key, value))])
      + SettingsWords(settings[1..])
  }

  function ValuesWords(values: seq<string>): seq<Word> {
    if values == [] then [Word(']', "")] else [Word(',', values[0])] + ValuesWords(values[1..])
  }

  function EnumWords(values: seq<string>): seq<Word> {
    if values == [] then [] else [Word(';', "enum=")] + ([Word('[', values[0])] + ValuesWords(values[1..]))
  }

  /** The words of a schema that follows `delimiter` and `lead`. */
  ghost function Words(g: Printer, delimiter: char, lead: string, s: Schema): seq<Word>
    decreases s, 2, 0
  {
    [Word(delimiter, lead + Head(s))] + (SettingsWords(SettingsOf(g, s)) + RestWords(g, s))
  }

  ghost function RestWords(g: Printer, s: Schema): seq<Word>
    decreases s, 1, 0
  {
    match s
    case StringSchema(_, _, _, _, enum, _, _) => EnumWords(enum)
    case ObjectSchema(_, fields, _, _, _, _) => FieldsWords(g, s, Sorted(fields.Keys), 0)
    case ArraySchema(_, element, _, _, _, _, _) => if element.None? then [] else Words(g, ';', "of=", element.value)
    case _ => []
  }

  ghost function FieldsWords(g: Printer, s: Schema, names: seq<string>, i: nat): seq<Word>
    requires s.ObjectSchema? && i <= |names| && forall i | 0 <= i < |names| :: names[i] in s.fields
    decreases s, 0, |names| - i
  {
    if i == |names| then (if i == 0 then [Word('{', "")] else []) + [Word('}', "")]
    else
      [Word(if i == 0 then '{' else ',', names[i])]
      + (Words(g, ':', "", s.fields[names[i]]) + FieldsWords(g, s, names, i + 1))
  }

  // ---- the words spell the canonical string ----

  lemma {:induction false} SettingsSpell(settings: seq<Setting>)
    ensures Joined(SettingsWords(settings)) == SettingsText(settings)
  {
    hide SettingText, Joined;
    if settings == [] {
      JoinedNone();
    } else {
      SettingsSpell(settings[1..]);
      if settings[0].state.None? {
        assert [] + SettingsWords(settings[1..]) == SettingsWords(settings[1..]);
        assert "" + SettingsText(settings[1..]) == SettingsText(settings[1..]);
      } else {
        var text := SettingText(settings[0].key, settings[0].state.value);
        ConsSpells(Word(';', text), SettingsWords(settings[1..]));
        assert [';'] + text + SettingsText(settings[1..]) == ";" + text + SettingsText(settings[1..]);
      }
    }
  }

  lemma {:induction false} ValuesSpell(values: seq<string>)
    ensures Joined(ValuesWords(values)) == CommaJoined(values) + "]"
  {
    if values == [] {
      assert Joined([Word(']', "")]) == "]" + "" + "";
    } else {
      ValuesSpell(values[1..]);
      assert ([Word(',', values[0])] + ValuesWords(values[1..]))[1..] == ValuesWords(values[1..]);
    }
  }

  lemma ConsSpells(w: Word, ws: seq<Word>)
    ensures Joined([w] + ws) == [w.delimiter] + w.text + Joined(ws)
  {
    assert ([w] + ws)[1..] == ws;
  }

  lemma EnumSpells(values: seq<string>)
    ensures Joined(EnumWords(values)) == EnumText(values)
  {
    if values != [] {
      ValuesSpell(values[1..]);
      ConsSpells(Word('[', values[0]), ValuesWords(values[1..]));
      ConsSpells(Word(';', "enum="), [Word('[', values[0])] + ValuesWords(values[1..]));
    }
  }

  lemma Regroup(a: string, b: string, c: string)
    ensures (a + b) + c == a + (b + c)
  {
  }

  lemma {:induction false} SettingsAppend(a: seq<Setting>, b: seq<Setting>)
    ensures SettingsText(a + b) == SettingsText(a) + SettingsText(b)
  {
    hide SettingText;
    if a == [] {
      assert a + b == b;
    } else {
      SettingsAppend(a[1..], b);
      assert (a + b)[0] == a[0] && (a + b)[1..] == a[1..] + b;
      Regroup(match a[0].state case None => "" case Some(value) => ";" + SettingText(a[0].key, value),
        SettingsText(a[1..]), SettingsText(b));
    }
  }

  /** Without composites and metadata, a head, the settings, and the rest. */
  lemma CanonOfClean(g: Printer, s: Schema)
    requires Clean(s)
    ensures Canon(g, s) == Head(s) + SettingsText(SettingsOf(g, s)) + Rest(g, s)
  {
    hide SettingsText, Rest, OwnSettings, BaseSettings, Head, Free, IsName;
    SettingsAppend(BaseSettings(s.base), OwnSettings(g, s));
    assert SettingsText(BaseSettings(s.base)) + "" == SettingsText(BaseSettings(s.base));
    Regroup(Head(s), SettingsText(BaseSettings(s.base)), SettingsText(OwnSettings(g, s)));
  }

  lemma {:induction false} WordsSpell(g: Printer, delimiter: char, lead: string, s: Schema)
    requires Clean(s)
    ensures Joined(Words(g, delimiter, lead, s)) == [delimiter] + lead + Canon(g, s)
    decreases s, 2
  {
    hide SettingsText, SettingsWords, RestWords, Rest, SettingsOf, Joined, Canon, Clean;
    var settings, rest := SettingsWords(SettingsOf(g, s)), RestWords(g, s);
    ConsSpells(Word(delimiter, lead + Head(s)), settings + rest);
    JoinedAppend(settings, rest);
    SettingsSpell(SettingsOf(g, s));
    RestSpells(g, s);
    CanonOfClean(g, s);
  }

  lemma {:induction false} RestSpells(g: Printer, s: Schema)
    requires Clean(s)
    ensures Joined(RestWords(g, s)) == Rest(g, s)
    decreases s, 1
  {
    hide EnumWords, EnumText, FieldsWords, FieldsText, Joined, Canon, Words, Elements, Ascending;
    match s
    case StringSchema(_, _, _, _, enum, _, _) => EnumSpells(enum);
    case ObjectSchema(_, fields, _, _, _, _) => FieldsSpell(g, s, Sorted(fields.Keys), 0);
    case ArraySchema(_, element, _, _, _, _, _) =>
      if element.None? {
        JoinedNone();
      } else {
        WordsSpell(g, ';', "of=", element.value);
      }
    case _ => JoinedNone();
  }

  lemma JoinedNone()
    ensures Joined([]) == ""
  {
  }

  lemma {:induction false} FieldsSpell(g: Printer, s: Schema, names: seq<string>, i: nat)
    requires s.ObjectSchema? && Clean(s) && i <= |names| && forall i | 0 <= i < |names| :: names[i] in s.fields
    ensures Joined(FieldsWords(g, s, names, i)) == (if i == 0 then "{" else "") + FieldsText(g, s, names, i) + "}"
    decreases s, 0, |names| - i
  {
    hide Canon, Words, Joined, IsName;
    JoinedNone();
    if i == |names| {
      ConsSpells(Word('}', ""), []);
      ConsSpells(Word('{', ""), [Word('}', "")]);
      assert [Word('}', "")] + [] == [Word('}', "")] && [] + [Word('}', "")] == [Word('}', "")];
    } else {
      var words, rest := Words(g, ':', "", s.fields[names[i]]), FieldsWords(g, s, names, i + 1);
      ConsSpells(Word(if i == 0 then '{' else ',', names[i]), words + rest);
      JoinedAppend(words, rest);
      WordsSpell(g, ':', "", s.fields[names[i]]);
      FieldsSpell(g, s, names, i + 1);
      FieldSpells(i == 0, names[i], Canon(g, s.fields[names[i]]), FieldsText(g, s, names, i + 1));
    }
  }

  lemma FieldSpells(first: bool, name: string, canon: string, text: string)
    ensures [if first then '{' else ','] + name + ((":" + "" + canon) + ("" + text + "}")) ==
      (if first then "{" else "") + ((if !first then "," else "") + name + ":" + canon + text) + "}"
  {
    var left := [if first then '{' else ','] + name;
    assert left + ((":" + canon) + (text + "}")) == left + ":" + canon + text + "}";
    assert (if first then "{" else "") + ((if !first then "," else "") + name) == left;
    assert ":" + "" + canon == ":" + canon && "" + text + "}" == text + "}";
    var tail := ":" + canon + text;
    assert (if !first then "," else "") + name + ":" + canon + text == (if !first then "," else "") + name + tail;
    assert (if first then "{" else "") + ((if !first then "," else "") + name + tail) == left + tail;
  }

  // ---- the words are proper ----

  lemma FreeAppend(a: string, b: string)
    ensures Free(a + b) <==> Free(a) && Free(b)
  {
    forall i | 0 <= i < |b|
      ensures (a + b)[|a| + i] == b[i]
    {
    }
    if Free(a + b) {
      forall i | 0 <= i < |a|
        ensures !Delimiter(a[i])
      {
        assert (a + b)[i] == a[i];
      }
    }
  }

  lemma DecimalFree(n: int)
    ensures Free(DecimalInt(n))
  {
    FreeAppend("-", Decimal(if n < 0 then -n else n));
  }

  predicate FreeSetting(x: Setting) {
    Free(x.key) && (x.state.Some? && x.state.value.Some? ==> Free(x.state.value.value))
  }

  predicate FreeSettings(settings: seq<Setting>) {
    forall i | 0 <= i < |settings| :: FreeSetting(settings[i])
  }

  lemma {:induction false} SettingsProper(settings: seq<Setting>)
    requires FreeSettings(settings)
    ensures Proper(SettingsWords(settings))
  {
    hide Free;
    if settings != [] {
      assert FreeSetting(settings[0]);
      SettingsProper(settings[1..]);
      if settings[0].state.Some? {
        FreeSettingText(settings[0].key, settings[0].state.value);
      }
    }
  }

  lemma FreeSettingText(key: string, value: Option<string>)
    requires Free(key) && (value.Some? ==> Free(value.value))
    ensures Free(SettingText(key, value))
  {
    assert Free("=") && Free("");
    if value.Some? {
      FreeAppend("=", value.value);
      FreeAppend(key, "=" + value.value);
    } else {
      FreeAppend(key, "");
    }
  }

  lemma NameFree(name: string)
    requires IsName(name)
    ensures Free(name) && name != ""
  {
    forall i | 0 <= i < |name|
      ensures !Delimiter(name[i])
    {
      assert QueryLexer.IsNameChar(name[i]);
    }
  }

  lemma KeysFree()
    ensures Free("req") && Free("null") && Free("fmt") && Free("minLen") && Free("maxLen") && Free("pat")
    ensures Free("int") && Free("min") && Free("max") && Free("mul") && Free("additional") && Free("minItems") && Free("maxItems")
    ensures Free("enum=") && Free("true") && Free("false") && Free("")
  {
    TextKeysFree();
    OtherKeysFree();
  }

  lemma TextKeysFree()
    ensures Free("req") && Free("null") && Free("fmt") && Free("minLen") && Free("maxLen") && Free("pat")
  {
  }

  lemma OtherKeysFree()
    ensures Free("additional") && Free("enum=") && Free("true") && Free("false") && Free("")
  {
  }

  lemma HeadFree(s: Schema)
    ensures Free(Head(s))
  {
  }

  lemma SettingsFree(g: Printer, s: Schema)
    requires Clean(s) && Tells(g, s)
    ensures FreeSettings(SettingsOf(g, s))
  {
    hide Free, DecimalInt, IsName;
    KeysFree();
    forall n: int
      ensures Free(DecimalInt(n))
    {
      DecimalFree(n);
    }
    match s
    case StringSchema(_, _, _, _, _, _, _) =>
    case NumberSchema(_, _, _, _, _) =>
    case BoolSchema(_, _) =>
    case ObjectSchema(_, _, _, _, _, _) =>
    case ArraySchema(_, _, _, _, _, _, _) =>
  }

  lemma {:induction false} ValuesProper(values: seq<string>)
    requires forall i | 0 <= i < |values| :: Free(values[i])
    ensures Proper(ValuesWords(values))
  {
    hide Free;
    OtherKeysFree();
    if values != [] {
      ValuesProper(values[1..]);
    }
  }

  lemma EnumProper(values: seq<string>)
    requires forall i | 0 <= i < |values| :: Free(values[i])
    ensures Proper(EnumWords(values))
  {
    hide Free;
    OtherKeysFree();
    if values != [] {
      ValuesProper(values[1..]);
    }
  }

  lemma {:induction false} WordsProper(g: Printer, delimiter: char, lead: string, s: Schema)
    requires Clean(s) && Tells(g, s) && Delimiter(delimiter) && Free(lead)
    ensures Proper(Words(g, delimiter, lead, s))
    decreases s, 2
  {
    hide Free, SettingsOf, RestWords, Clean, Tells, Delimiter;
    HeadFree(s);
    FreeAppend(lead, Head(s));
    SettingsFree(g, s);
    SettingsProper(SettingsOf(g, s));
    RestProper(g, s);
  }

  lemma {:induction false} RestProper(g: Printer, s: Schema)
    requires Clean(s) && Tells(g, s)
    ensures Proper(RestWords(g, s))
    decreases s, 1
  {
    hide Free, FieldsWords, Words, IsName, EnumWords, Elements, Ascending, Proper;
    match s
    case StringSchema(_, _, _, _, enum, _, _) => EnumProper(enum);
    case ObjectSchema(_, fields, _, _, _, _) => FieldsProper(g, s, Sorted(fields.Keys), 0);
    case ArraySchema(_, element, _, _, _, _, _) =>
      NothingProper();
      if element.Some? {
        OfFree();
        WordsProper(g, ';', "of=", element.value);
      }
    case _ => NothingProper();
  }

  lemma NothingProper()
    ensures Proper([])
  {
  }

  lemma OfFree()
    ensures Free("of=")
  {
  }

  lemma {:induction false} FieldsProper(g: Printer, s: Schema, names: seq<string>, i: nat)
    requires s.ObjectSchema? && Clean(s) && Tells(g, s)
    requires i <= |names| && forall i | 0 <= i < |names| :: names[i] in s.fields
    ensures Proper(FieldsWords(g, s, names, i))
    decreases s, 0, |names| - i
  {
    hide Free, Words, IsName, Proper, Delimiter;
    OtherKeysFree();
    PunctuationDelimits();
    if i < |names| {
      var words, rest := Words(g, ':', "", s.fields[names[i]]), FieldsWords(g, s, names, i + 1);
      NameFree(names[i]);
      WordsProper(g, ':', "", s.fields[names[i]]);
      FieldsProper(g, s, names, i + 1);
      ProperAppend(words, rest);
      ProperOne(Word(if i == 0 then '{' else ',', names[i]));
      ProperAppend([Word(if i == 0 then '{' else ',', names[i])], words + rest);
    } else {
      NothingProper();
      ProperOne(Word('{', ""));
      ProperOne(Word('}', ""));
      ProperAppend([Word('{', "")], [Word('}', "")]);
      ProperAppend([], [Word('}', "")]);
    }
  }

  lemma PunctuationDelimits()
    ensures Delimiter('{') && Delimiter('}') && Delimiter(',') && Delimiter(':')
  {
  }

  lemma ProperOne(w: Word)
    ensures Proper([w]) <==> ProperWord(w)
  {
    hide ProperWord;
    assert Proper([w]) ==> ProperWord([w][0]);
  }

  lemma ProperAppend(a: seq<Word>, b: seq<Word>)
    requires Proper(a) && Proper(b)
    ensures Proper(a + b)
  {
    hide ProperWord;
  }

  // ---- the canonicalisers, which write into a string builder ----

  class Builder {
    var text: string

    constructor ()
      ensures text == ""
    {
      text := "";
    }

    method WriteString(s: string)
      modifies this
      ensures text == old(text) + s
    {
      text := text + s;
    }
  }

  method WriteSettings(b: Builder, settings: seq<Setting>)
    modifies b
    ensures b.text == old(b.text) + SettingsText(settings)
  {
    hide SettingText;
    ghost var start := b.text;
    assert settings[0..] == settings;
    for i := 0 to |settings|
      invariant b.text + SettingsText(settings[i..]) == start + SettingsText(settings)
    {
      ghost var before := b.text;
      assert settings[i..][0] == settings[i] && settings[i..][1..] == settings[i + 1..];
      if settings[i].state.Some? {
        var piece := ";" + SettingText(settings[i].key, settings[i].state.value);
        b.WriteString(piece);
        Regroup(before, piece, SettingsText(settings[i + 1..]));
      } else {
        assert "" + SettingsText(settings[i + 1..]) == SettingsText(settings[i + 1..]);
      }
    }
    assert b.text + "" == b.text;
  }

  method WriteEnum(b: Builder, values: seq<string>)
    modifies b
    ensures b.text == old(b.text) + EnumText(values)
  {
    ghost var start := b.text;
    if |values| == 0 {
      assert start + "" == start;
      return;
    }
    b.WriteString(";enum=");
    b.WriteString("[");
    b.WriteString(values[0]);
    ghost var soFar := b.text;
    assert values[1..][0..] == values[1..];
    for i := 1 to |values|
      invariant b.text + CommaJoined(values[i..]) == soFar + CommaJoined(values[1..])
    {
      ghost var before := b.text;
      assert values[i..][0] == values[i] && values[i..][1..] == values[i + 1..];
      b.WriteString(",");
      b.WriteString(values[i]);
      assert b.text == before + ("," + values[i]);
      Regroup(before, "," + values[i], CommaJoined(values[i + 1..]));
    }
    assert b.text + "" == b.text;
    b.WriteString("]");
    EnumAssembles(start, values);
  }

  lemma EnumAssembles(start: string, values: seq<string>)
    requires values != []
    ensures start + ";enum=" + "[" + values[0] + CommaJoined(values[1..]) + "]" == start + EnumText(values)
  {
    var rest := CommaJoined(values[1..]);
    assert start + ";enum=" + "[" + values[0] + rest + "]" == start + (";enum=" + "[" + values[0] + rest + "]");
  }

  method CanonicaliseMeta(g: Printer, b: Builder, meta: map<string, Value>)
    modifies b
    ensures b.text == old(b.text) + MetaText(g, meta)
  {
    hide Elements, Ascending, MetaItems;
    ghost var start := b.text;
    assert meta.Keys == {} <==> meta == map[];
    if meta.Keys == {} {
      assert start + "" == start;
      return;
    }
    var keys := SortKeys(meta.Keys);
    b.WriteString(";meta{");
    CanonicaliseEntries(g, b, meta, keys);
    b.WriteString("}");
    FieldAssembles(start, ";meta{", MetaItems(g, meta, keys, 0), "}");
  }

  method CanonicaliseEntries(g: Printer, b: Builder, meta: map<string, Value>, keys: seq<string>)
    requires forall i | 0 <= i < |keys| :: keys[i] in meta
    modifies b
    ensures b.text == old(b.text) + MetaItems(g, meta, keys, 0)
  {
    ghost var start := b.text;
    for i := 0 to |keys|
      invariant b.text + MetaItems(g, meta, keys, i) == start + MetaItems(g, meta, keys, 0)
    {
      ghost var before := b.text;
      if i > 0 {
        b.WriteString(",");
      }
      b.WriteString(keys[i]);
      b.WriteString("=");
      ghost var named := (if i > 0 then "," else "") + keys[i] + "=";
      assert b.text == before + named;
      b.WriteString(g.value(meta[keys[i]]));
      FieldAssembles(before, named, g.value(meta[keys[i]]), MetaItems(g, meta, keys, i + 1));
    }
    assert b.text + "" == b.text;
  }

  method CanonicaliseBase(g: Printer, b: Builder, s: Schema)
    modifies b
    ensures b.text == old(b.text) + BaseText(g, s)
  {
    hide SettingsText, BaseSettings, MetaText;
    ghost var start := b.text;
    assert start + "" == start;
    if !(s.AndSchema? || s.OrSchema? || s.NotSchema?) {
      WriteSettings(b, BaseSettings(s.base));
      CanonicaliseMeta(g, b, s.base.meta);
      Regroup(start, SettingsText(BaseSettings(s.base)), MetaText(g, s.base.meta));
    }
  }

  method CanonicaliseNode(g: Printer, b: Builder, s: Schema)
    modifies b
    ensures b.text == old(b.text) + Canon(g, s)
    decreases s, 2
  {
    hide SettingsText, OwnSettings, Rest, Opening, BaseText;
    ghost var start := b.text;
    CanonicaliseOpening(g, b, s);
    CanonicaliseBase(g, b, s);
    WriteSettings(b, OwnSettings(g, s));
    CanonicaliseRest(g, b, s);
    ghost var x, y, z := Opening(g, s), BaseText(g, s), SettingsText(OwnSettings(g, s));
    Regroup(start, x, y);
    Regroup(start, x + y, z);
    Regroup(start, x + y + z, Rest(g, s));
  }

  method CanonicaliseOpening(g: Printer, b: Builder, s: Schema)
    modifies b
    ensures b.text == old(b.text) + Opening(g, s)
    decreases s, 1
  {
    hide Canon, PartsText;
    ghost var start := b.text;
    match s
    case TransformSchema(_, inner, _) =>
      b.WriteString("transform(");
      CanonicaliseNode(g, b, inner);
      b.WriteString(")");
      FieldAssembles(start, "transform(", Canon(g, inner), ")");
    case AndSchema(_, _) =>
      b.WriteString("and(");
      CanonicaliseParts(g, b, s);
      b.WriteString(")");
      FieldAssembles(start, "and(", PartsText(g, s, 0), ")");
    case OrSchema(_, _) =>
      b.WriteString("or(");
      CanonicaliseParts(g, b, s);
      b.WriteString(")");
      FieldAssembles(start, "or(", PartsText(g, s, 0), ")");
    case NotSchema(_, inner) =>
      b.WriteString("not(");
      CanonicaliseNode(g, b, inner);
      b.WriteString(")");
      FieldAssembles(start, "not(", Canon(g, inner), ")");
    case _ => b.WriteString(Head(s));
  }

  method CanonicaliseParts(g: Printer, b: Builder, s: Schema)
    requires s.AndSchema? || s.OrSchema?
    modifies b
    ensures b.text == old(b.text) + PartsText(g, s, 0)
    decreases s, 0
  {
    hide Canon;
    ghost var start := b.text;
    for i := 0 to |s.parts|
      invariant b.text + PartsText(g, s, i) == start + PartsText(g, s, 0)
    {
      ghost var before := b.text;
      ghost var comma := if i > 0 then "," else "";
      assert before + "" == before;
      if i > 0 {
        b.WriteString(",");
      }
      assert b.text == before + comma;
      CanonicaliseNode(g, b, s.parts[i]);
      FieldAssembles(before, comma, Canon(g, s.parts[i]), PartsText(g, s, i + 1));
    }
    assert b.text + "" == b.text;
  }

  method CanonicaliseRest(g: Printer, b: Builder, s: Schema)
    modifies b
    ensures b.text == old(b.text) + Rest(g, s)
    decreases s, 1
  {
    hide Canon, EnumText, FieldsText;
    ghost var start := b.text;
    assert start + "" == start;
    match s
    case StringSchema(_, _, _, _, enum, _, _) => WriteEnum(b, enum);
    case ObjectSchema(_, _, _, _, _, _) => CanonicaliseFields(g, b, s);
    case ArraySchema(_, element, _, _, _, _, _) =>
      if element.Some? {
        b.WriteString(";of=");
        CanonicaliseNode(g, b, element.value);
        Regroup(start, ";of=", Canon(g, element.value));
      }
    case _ =>
  }

  method CanonicaliseFields(g: Printer, b: Builder, s: Schema)
    requires s.ObjectSchema?
    modifies b
    ensures b.text == old(b.text) + Rest(g, s)
    decreases s, 0
  {
    hide Canon, Elements, Ascending;
    ghost var start := b.text;
    var names := SortKeys(s.fields.Keys);
    b.WriteString("{");
    for i := 0 to |names|
      invariant b.text + FieldsText(g, s, names, i) == start + "{" + FieldsText(g, s, names, 0)
    {
      ghost var before := b.text;
      if i > 0 {
        b.WriteString(",");
      }
      b.WriteString(names[i]);
      b.WriteString(":");
      ghost var named := (if i > 0 then "," else "") + names[i] + ":";
      assert b.text == before + named;
      CanonicaliseNode(g, b, s.fields[names[i]]);
      FieldAssembles(before, named, Canon(g, s.fields[names[i]]), FieldsText(g, s, names, i + 1));
    }
    assert b.text + "" == b.text;
    b.WriteString("}");
    FieldAssembles(start, "{", FieldsText(g, s, names, 0), "}");
  }

  lemma FieldAssembles(before: string, named: string, canon: string, rest: string)
    ensures before + named + canon + rest == before + (named + canon + rest)
  {
  }

  method EqualSchemas(g: Printer, a: Schema, b: Schema) returns (same: bool)
    ensures same == Equal(g, a, b)
  {
    hide Canon;
    var x := new Builder();
    var y := new Builder();
    CanonicaliseNode(g, x, a);
    CanonicaliseNode(g, y, b);
    assert "" + Canon(g, a) == Canon(g, a) && "" + Canon(g, b) == Canon(g, b);
    same := x.text == y.text;
  }
}
