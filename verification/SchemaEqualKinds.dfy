/**
 Equal beyond the schemas it is sound for: it tells the kinds of schemas apart, looks through Not and
 Transform, compares the parts of And and Or one by one, and compares metadata as it prints.
 */
module SchemaEqualKinds {
  import opened Values
  import opened Keys
  import opened Schemas
  import opened SchemaEquality
  import opened SchemaDecoding
  import opened SchemaEqualSound

  // ---- kinds ----

  /** Two letters that no other kind of schema starts with. */
  function Initials(s: Schema): string {
    match s
    case StringSchema(_, _, _, _, _, _, _) => "st"
    case NumberSchema(_, _, _, _, _) => "nu"
    case BoolSchema(_, _) => "bo"
    case ObjectSchema(_, _, _, _, _, _) => "ob"
    case ArraySchema(_, _, _, _, _, _, _) => "ar"
    case CustomSchema(_, _) => "cu"
    case TransformSchema(_, _, _) => "tr"
    case AndSchema(_, _) => "an"
    case OrSchema(_, _) => "or"
    case NotSchema(_, _) => "no"
  }

  lemma OpensWith(g: Printer, s: Schema)
    ensures |Canon(g, s)| >= 2 && Canon(g, s)[..2] == Initials(s)
  {
    hide BaseText, SettingsText, OwnSettings, Rest, PartsText;
    var opening := Opening(g, s);
    assert Canon(g, s) == opening + BaseText(g, s) + SettingsText(OwnSettings(g, s)) + Rest(g, s);
    assert |opening| >= 2 && opening[0] == Initials(s)[0] && opening[1] == Initials(s)[1];
  }

  /** Schemas of different kinds are never Equal. */
  lemma KindsToldApart(g: Printer, s: Schema, t: Schema)
    requires Equal(g, s, t)
    ensures s.StringSchema? == t.StringSchema? && s.NumberSchema? == t.NumberSchema? && s.BoolSchema? == t.BoolSchema?
    ensures s.ObjectSchema? == t.ObjectSchema? && s.ArraySchema? == t.ArraySchema? && s.CustomSchema? == t.CustomSchema?
    ensures s.TransformSchema? == t.TransformSchema? && s.AndSchema? == t.AndSchema? && s.OrSchema? == t.OrSchema?
    ensures s.NotSchema? == t.NotSchema?
  {
    hide Canon;
    OpensWith(g, s);
    OpensWith(g, t);
    var a, b := Initials(s), Initials(t);
    assert a[0] == b[0] && a[1] == b[1];
  }

  // ---- Not ----

  lemma NotCanon(g: Printer, s: Schema)
    requires s.NotSchema?
    ensures Canon(g, s) == "not(" + Canon(g, s.inner) + ")"
  {
  }

  lemma Bracketed(open: string, a: string, b: string, close: string)
    ensures open + a + close == open + b + close <==> a == b
  {
    var x, y := open + a + close, open + b + close;
    if x == y {
      assert |x| == |open| + |a| + |close| && |y| == |open| + |b| + |close|;
      assert a == x[|open|..|open| + |a|] && b == y[|open|..|open| + |b|];
    }
  }

  /** Two negations are Equal exactly when what they negate is, whatever their own flags. */
  lemma NotEqual(g: Printer, s: Schema, t: Schema)
    requires s.NotSchema? && t.NotSchema?
    ensures Equal(g, s, t) <==> Equal(g, s.inner, t.inner)
  {
    hide Canon;
    NotCanon(g, s);
    NotCanon(g, t);
    Bracketed("not(", Canon(g, s.inner), Canon(g, t.inner), ")");
  }

  // ---- And and Or ----

  ghost function Listed(g: Printer, parts: seq<Schema>): seq<Word> {
    if parts == [] then [] else Words(g, ',', "", parts[0]) + Listed(g, parts[1..])
  }

  ghost predicate CleanParts(g: Printer, parts: seq<Schema>) {
    forall i | 0 <= i < |parts| :: Clean(parts[i]) && Tells(g, parts[i])
  }

  lemma {:induction false} ListedProper(g: Printer, parts: seq<Schema>)
    requires CleanParts(g, parts)
    ensures Proper(Listed(g, parts))
  {
    hide Words, Clean, Tells, Proper, Free;
    if parts == [] {
      NothingProper();
    } else {
      PunctuationDelimits();
      OtherKeysFree();
      WordsProper(g, ',', "", parts[0]);
      ListedProper(g, parts[1..]);
      ProperAppend(Words(g, ',', "", parts[0]), Listed(g, parts[1..]));
    }
  }

  lemma {:induction false} PartsSpell(g: Printer, s: Schema, i: nat)
    requires (s.AndSchema? || s.OrSchema?) && i <= |s.parts| && CleanParts(g, s.parts)
    ensures Joined(Listed(g, s.parts[i..])) == (if i == 0 && s.parts != [] then "," else "") + PartsText(g, s, i)
    decreases |s.parts| - i
  {
    hide Words, Clean, Tells, Canon, Joined;
    if i == |s.parts| {
      JoinedNone();
      assert s.parts[i..] == [];
    } else {
      var part, rest := s.parts[i], s.parts[i + 1..];
      assert s.parts[i..][0] == part && s.parts[i..][1..] == rest;
      PartsSpell(g, s, i + 1);
      WordsSpell(g, ',', "", part);
      JoinedAppend(Words(g, ',', "", part), Listed(g, rest));
      PartSpells(Canon(g, part), PartsText(g, s, i + 1));
    }
  }

  lemma PartSpells(canon: string, tail: string)
    ensures [','] + "" + canon + ("" + tail) == "," + canon + tail
    ensures "" + ("," + canon + tail) == "," + canon + tail
    ensures "," + ("" + canon + tail) == "," + canon + tail
  {
  }

  lemma ListedStops(g: Printer, parts: seq<Schema>)
    ensures Stop(Listed(g, parts))
  {
    hide Words;
    if parts != [] {
      WordsSplit(g, ',', "", parts[0], Listed(g, parts[1..]));
    }
  }

  lemma {:induction false} ListedDecode(g: Printer, a: seq<Schema>, b: seq<Schema>)
    requires CleanParts(g, a) && CleanParts(g, b) && Listed(g, a) == Listed(g, b)
    ensures |a| == |b| && forall i | 0 <= i < |a| :: Norm(a[i]) == Norm(b[i])
    decreases |a|
  {
    hide Words, Clean, Tells, Norm, Stop;
    if a != [] {
      WordsSplit(g, ',', "", a[0], Listed(g, a[1..]));
    }
    if b != [] {
      WordsSplit(g, ',', "", b[0], Listed(g, b[1..]));
    }
    if a != [] && b != [] {
      ListedStops(g, a[1..]);
      ListedStops(g, b[1..]);
      WordsDecode(g, ',', "", a[0], b[0], Listed(g, a[1..]), Listed(g, b[1..]));
      ListedDecode(g, a[1..], b[1..]);
    }
  }

  lemma {:induction false} SamePartsText(g: Printer, s: Schema, t: Schema, i: nat)
    requires (s.AndSchema? || s.OrSchema?) && (t.AndSchema? || t.OrSchema?) && |s.parts| == |t.parts| && i <= |s.parts|
    requires forall k | 0 <= k < |s.parts| :: Equal(g, s.parts[k], t.parts[k])
    ensures PartsText(g, s, i) == PartsText(g, t, i)
    decreases |s.parts| - i
  {
    hide Canon;
    if i < |s.parts| {
      SamePartsText(g, s, t, i + 1);
    }
  }

  lemma PartsCanon(g: Printer, s: Schema)
    requires s.AndSchema? || s.OrSchema?
    ensures Canon(g, s) == (if s.AndSchema? then "and(" else "or(") + PartsText(g, s, 0) + ")"
    ensures PartsText(g, s, 0) == "" <==> s.parts == []
  {
    if s.parts != [] {
      OpensWith(g, s.parts[0]);
    }
  }

  lemma SameListed(g: Printer, s: Schema, t: Schema)
    requires (s.AndSchema? || s.OrSchema?) && (t.AndSchema? || t.OrSchema?) && CleanParts(g, s.parts) && CleanParts(g, t.parts)
    requires PartsText(g, s, 0) == PartsText(g, t, 0)
    ensures Listed(g, s.parts) == Listed(g, t.parts)
  {
    hide Words, Clean, Tells, Canon, Joined, Proper, PartsText, Listed;
    PartsSpell(g, s, 0);
    PartsSpell(g, t, 0);
    assert s.parts[0..] == s.parts && t.parts[0..] == t.parts;
    PartsCanon(g, s);
    PartsCanon(g, t);
    ListedProper(g, s.parts);
    ListedProper(g, t.parts);
    WordsUnique(Listed(g, s.parts), Listed(g, t.parts));
  }

  /** Composites of schemas that Equal tells apart are Equal exactly when their parts are, one by one. */
  lemma PartsEqual(g: Printer, s: Schema, t: Schema)
    requires (s.AndSchema? && t.AndSchema?) || (s.OrSchema? && t.OrSchema?)
    requires CleanParts(g, s.parts) && CleanParts(g, t.parts)
    ensures Equal(g, s, t) <==> |s.parts| == |t.parts| && forall i | 0 <= i < |s.parts| :: Equal(g, s.parts[i], t.parts[i])
  {
    hide Canon, Listed, PartsText, Norm, Clean, Tells;
    PartsCanon(g, s);
    PartsCanon(g, t);
    Bracketed(if s.AndSchema? then "and(" else "or(", PartsText(g, s, 0), PartsText(g, t, 0), ")");
    if PartsText(g, s, 0) == PartsText(g, t, 0) {
      SameListed(g, s, t);
      ListedDecode(g, s.parts, t.parts);
      forall i | 0 <= i < |s.parts|
        ensures Equal(g, s.parts[i], t.parts[i])
      {
        EqualIsSameNorm(g, s.parts[i], t.parts[i]);
      }
    }
    if |s.parts| == |t.parts| && forall i | 0 <= i < |s.parts| :: Equal(g, s.parts[i], t.parts[i]) {
      SamePartsText(g, s, t, 0);
    }
  }

  function WithBase(s: Schema, base: Base): Schema {
    s.(base := base)
  }

  /** The flags of a composite are not in its canonical string, which matters for null alone. */
  lemma CompositeFlagsUnseen(g: Printer, e: Env, s: Schema, base: Base, v: Value, mode: Mode, path: seq<string>)
    requires s.AndSchema? || s.OrSchema? || s.NotSchema?
    ensures var t := WithBase(s, base);
      && Equal(g, s, t)
      && (SameAnswer(e, s, t, v, mode, path) <==>
           !v.Null? || ((!s.base.required && s.base.nullable) <==> (!base.required && base.nullable)))
  {
    hide PartsText, Canon, AllParts, SomePart, At;
    var t := WithBase(s, base);
    if s.NotSchema? {
      NotEqual(g, s, t);
    } else {
      SamePartsText(g, s, t, 0);
      PartsCanon(g, s);
      PartsCanon(g, t);
    }
    if v.Null? {
      NullAnswers(e, s, mode, path);
      NullAnswers(e, t, mode, path);
    } else {
      SameBelow(e, s, base, v, mode, path);
    }
  }

  lemma NullAnswers(e: Env, s: Schema, mode: Mode, path: seq<string>)
    requires !s.TransformSchema?
    ensures Check(e, s, Null, mode, path).errors == [] <==> !s.base.required && s.base.nullable
  {
  }

  lemma SameBelow(e: Env, s: Schema, base: Base, v: Value, mode: Mode, path: seq<string>)
    requires (s.AndSchema? || s.OrSchema? || s.NotSchema?) && !v.Null?
    ensures Check(e, WithBase(s, base), v, mode, path) == Check(e, s, v, mode, path)
  {
    hide At;
    if s.AndSchema? {
      SameAll(e, s, WithBase(s, base), |s.parts|, v, mode, path);
    } else if s.OrSchema? {
      SameSome(e, s, WithBase(s, base), |s.parts|, v, mode);
    }
  }

  lemma {:induction false} SameAll(e: Env, s: Schema, t: Schema, n: nat, v: Value, mode: Mode, path: seq<string>)
    requires s.AndSchema? && t.AndSchema? && s.parts == t.parts && n <= |s.parts|
    ensures AllParts(e, s, n, v, mode, path) == AllParts(e, t, n, v, mode, path)
  {
    hide Check;
    if n > 0 {
      SameAll(e, s, t, n - 1, v, mode, path);
    }
  }

  lemma {:induction false} SameSome(e: Env, s: Schema, t: Schema, n: nat, v: Value, mode: Mode)
    requires s.OrSchema? && t.OrSchema? && s.parts == t.parts && n <= |s.parts|
    ensures SomePart(e, s, n, v, mode) == SomePart(e, t, n, v, mode)
  {
    hide Check;
    if n > 0 {
      SameSome(e, s, t, n - 1, v, mode);
    }
  }

  // ---- Transform ----

  function Flags(base: Base): string {
    (if base.required then ";req" else "") + (if base.nullable then ";null" else "")
  }

  lemma FlagsAre(base: Base)
    ensures SettingsText(BaseSettings(base)) == Flags(base)
  {
    var r, n := Flag("req", base.required), Flag("null", base.nullable);
    assert [r, n][1..] == [n] && [n][1..] == [];
    assert SettingsText([]) == "";
    assert SettingText("req", None) == "req" && SettingText("null", None) == "null";
    assert ";" + "req" == ";req" && ";" + "null" == ";null";
    assert SettingsText([n]) == (if base.nullable then ";null" else "") + "";
    assert SettingsText([r, n]) == (if base.required then ";req" else "") + SettingsText([n]);
  }

  lemma TransformCanon(g: Printer, s: Schema)
    requires s.TransformSchema? && s.base.meta == map[]
    ensures Canon(g, s) == "transform(" + (Canon(g, s.inner) + ")" + Flags(s.base))
  {
    hide SettingsText, Flags, BaseSettings;
    FlagsAre(s.base);
    SettingsNone();
    Assembled(Canon(g, s.inner), Flags(s.base));
    assert Opening(g, s) == "transform(" + Canon(g, s.inner) + ")";
    assert BaseText(g, s) == Flags(s.base) + "" && OwnSettings(g, s) == [] && Rest(g, s) == "";
  }

  lemma Assembled(canon: string, flags: string)
    ensures ("transform(" + canon + ")") + (flags + "") + "" + "" == "transform(" + (canon + ")" + flags)
  {
  }

  lemma SettingsNone()
    ensures SettingsText([]) == ""
  {
  }

  lemma FlagsTold(a: string, b: string, p: Base, q: Base)
    requires a + ")" + Flags(p) == b + ")" + Flags(q)
    ensures p.required == q.required && p.nullable == q.nullable && a == b
  {
    var x, y := a + ")" + Flags(p), b + ")" + Flags(q);
    assert x[|x| - 1] == y[|y| - 1];
    if |x| >= 6 && p.nullable && q.nullable {
      assert x[|x| - 6] == y[|y| - 6];
    }
    assert Flags(p) == Flags(q);
    assert |a| == |b| && a == x[..|a|] && b == y[..|b|];
  }

  lemma Prefixed(open: string, a: string, b: string)
    requires open + a == open + b
    ensures a == b
  {
    assert a == (open + a)[|open|..] && b == (open + b)[|open|..];
  }

  /** Two Transforms without metadata are Equal exactly when their flags are the same and what they wrap is Equal. */
  lemma TransformEqual(g: Printer, s: Schema, t: Schema)
    requires s.TransformSchema? && t.TransformSchema? && s.base.meta == map[] == t.base.meta
    ensures Equal(g, s, t) <==>
      s.base.required == t.base.required && s.base.nullable == t.base.nullable && Equal(g, s.inner, t.inner)
  {
    hide Canon, Flags;
    TransformCanon(g, s);
    TransformCanon(g, t);
    if Equal(g, s, t) {
      Prefixed("transform(", Canon(g, s.inner) + ")" + Flags(s.base), Canon(g, t.inner) + ")" + Flags(t.base));
      FlagsTold(Canon(g, s.inner), Canon(g, t.inner), s.base, t.base);
    }
    if s.base.required == t.base.required && s.base.nullable == t.base.nullable {
      assert Flags(s.base) == Flags(t.base) by {
        SameFlags(s.base, t.base);
      }
    }
  }

  lemma SameFlags(a: Base, b: Base)
    requires a.required == b.required && a.nullable == b.nullable
    ensures Flags(a) == Flags(b)
  {
  }

  // ---- metadata ----

  function WithMeta(s: Schema, meta: map<string, Value>): Schema {
    s.(base := s.base.(meta := meta))
  }

  lemma MetaAside(g: Printer, s: Schema, meta: map<string, Value>)
    ensures var t := WithMeta(s, meta);
      && Opening(g, t) == Opening(g, s) && OwnSettings(g, t) == OwnSettings(g, s) && Rest(g, t) == Rest(g, s)
      && BaseSettings(t.base) == BaseSettings(s.base)
      && (t.AndSchema? || t.OrSchema? || t.NotSchema? <==> s.AndSchema? || s.OrSchema? || s.NotSchema?)
  {
    hide Canon, FieldsText, EnumText, SettingsText, IntSetting, MetaText, Elements, Ascending;
    if s.AndSchema? || s.OrSchema? {
      SamePartsText(g, s, WithMeta(s, meta), 0);
    } else if s.ObjectSchema? {
      SameFieldsText(g, s, WithMeta(s, meta), Sorted(s.fields.Keys), 0);
    }
  }

  lemma {:induction false} SameFieldsText(g: Printer, s: Schema, t: Schema, names: seq<string>, i: nat)
    requires s.ObjectSchema? && t.ObjectSchema? && s.fields == t.fields && i <= |names| && forall i | 0 <= i < |names| :: names[i] in s.fields
    ensures FieldsText(g, s, names, i) == FieldsText(g, t, names, i)
    decreases |names| - i
  {
    hide Canon;
    if i < |names| {
      SameFieldsText(g, s, t, names, i + 1);
    }
  }

  /** Changing the metadata is noticed exactly when it prints differently, and never on And, Or and Not. */
  lemma MetaSeen(g: Printer, s: Schema, meta: map<string, Value>)
    ensures Equal(g, s, WithMeta(s, meta)) <==>
      s.AndSchema? || s.OrSchema? || s.NotSchema? || MetaText(g, s.base.meta) == MetaText(g, meta)
  {
    hide SettingsText, OwnSettings, BaseSettings, MetaText, Opening, Rest;
    var t := WithMeta(s, meta);
    MetaAside(g, s, meta);
    if !(s.AndSchema? || s.OrSchema? || s.NotSchema?) {
      var open, flags := Opening(g, s), SettingsText(BaseSettings(s.base));
      var own, rest := SettingsText(OwnSettings(g, s)), Rest(g, s);
      Nested(open, flags, MetaText(g, s.base.meta), own, rest);
      Nested(open, flags, MetaText(g, meta), own, rest);
      Bracketed(open + flags, MetaText(g, s.base.meta), MetaText(g, meta), own + rest);
    }
  }

  lemma Nested(a: string, b: string, c: string, d: string, e: string)
    ensures a + (b + c) + d + e == (a + b) + c + (d + e)
  {
  }

  /** Keys and printed values that do not look like the punctuation around them. */
  predicate TidyMeta(g: Printer, meta: map<string, Value>) {
    forall k | k in meta :: Free(k) && PlainKey(k) && Free(g.value(meta[k]))
  }

  function MetaWords(g: Printer, meta: map<string, Value>, keys: seq<string>, i: nat): seq<Word>
    requires i <= |keys| && forall i | 0 <= i < |keys| :: keys[i] in meta
    decreases |keys| - i
  {
    if i == |keys| then [] else [Word(',', keys[i] + "=" + g.value(meta[keys[i]]))] + MetaWords(g, meta, keys, i + 1)
  }

  lemma {:induction false} MetaSpells(g: Printer, meta: map<string, Value>, keys: seq<string>, i: nat)
    requires i <= |keys| && forall i | 0 <= i < |keys| :: keys[i] in meta
    ensures Joined(MetaWords(g, meta, keys, i)) == (if i == 0 && keys != [] then "," else "") + MetaItems(g, meta, keys, i)
    decreases |keys| - i
  {
    hide Joined;
    if i == |keys| {
      JoinedNone();
    } else {
      var w := keys[i] + "=" + g.value(meta[keys[i]]);
      MetaSpells(g, meta, keys, i + 1);
      ConsSpells(Word(',', w), MetaWords(g, meta, keys, i + 1));
      var tail := MetaItems(g, meta, keys, i + 1);
      assert [','] + w + ("" + tail) == "," + (keys[i] + "=" + g.value(meta[keys[i]]) + tail);
      assert "," + ("" + keys[i] + "=" + g.value(meta[keys[i]]) + tail) == "," + (keys[i] + "=" + g.value(meta[keys[i]]) + tail);
      assert "" + ("," + keys[i] + "=" + g.value(meta[keys[i]]) + tail) == "," + (keys[i] + "=" + g.value(meta[keys[i]]) + tail);
    }
  }

  lemma {:induction false} MetaProper(g: Printer, meta: map<string, Value>, keys: seq<string>, i: nat)
    requires i <= |keys| && (forall i | 0 <= i < |keys| :: keys[i] in meta) && TidyMeta(g, meta)
    ensures Proper(MetaWords(g, meta, keys, i))
    decreases |keys| - i
  {
    hide Free, Proper, PlainKey;
    if i == |keys| {
      NothingProper();
    } else {
      PunctuationDelimits();
      MetaProper(g, meta, keys, i + 1);
      var text := keys[i] + "=" + g.value(meta[keys[i]]);
      EqualsFree();
      FreeAppend(keys[i], "=");
      FreeAppend(keys[i] + "=", g.value(meta[keys[i]]));
      ProperOne(Word(',', text));
      ProperAppend([Word(',', text)], MetaWords(g, meta, keys, i + 1));
    }
  }

  lemma EqualsFree()
    ensures Free("=")
  {
  }

  lemma PairUnique(k: string, v: string, j: string, w: string)
    requires PlainKey(k) && PlainKey(j) && k + "=" + v == j + "=" + w
    ensures k == j && v == w
  {
    assert k + "=" + v == k + ("=" + v) && j + "=" + w == j + ("=" + w);
    Cut({'='}, k, "=" + v, j, "=" + w);
    assert v == ("=" + v)[1..] && w == ("=" + w)[1..];
  }

  lemma {:induction false} MetaWordsUnique(g: Printer, a: map<string, Value>, b: map<string, Value>, ks: seq<string>, js: seq<string>, i: nat)
    requires i <= |ks| && i <= |js| && (forall i | 0 <= i < |ks| :: ks[i] in a) && (forall i | 0 <= i < |js| :: js[i] in b)
    requires TidyMeta(g, a) && TidyMeta(g, b) && MetaWords(g, a, ks, i) == MetaWords(g, b, js, i)
    ensures |ks| == |js| && forall k | i <= k < |ks| :: ks[k] == js[k] && g.value(a[ks[k]]) == g.value(b[js[k]])
    decreases |ks| - i
  {
    hide Free, PlainKey;
    if i < |ks| && i < |js| {
      var x, y := MetaWords(g, a, ks, i), MetaWords(g, b, js, i);
      assert x[0] == y[0] && x[1..] == MetaWords(g, a, ks, i + 1) && y[1..] == MetaWords(g, b, js, i + 1);
      PairUnique(ks[i], g.value(a[ks[i]]), js[i], g.value(b[js[i]]));
      MetaWordsUnique(g, a, b, ks, js, i + 1);
    }
  }

  lemma {:induction false} SameItems(g: Printer, a: map<string, Value>, b: map<string, Value>, keys: seq<string>, i: nat)
    requires i <= |keys| && (forall i | 0 <= i < |keys| :: keys[i] in a && keys[i] in b && g.value(a[keys[i]]) == g.value(b[keys[i]]))
    ensures MetaItems(g, a, keys, i) == MetaItems(g, b, keys, i)
    decreases |keys| - i
  {
    if i < |keys| {
      SameItems(g, a, b, keys, i + 1);
    }
  }

  lemma MetaTextShape(g: Printer, meta: map<string, Value>)
    ensures meta == map[] <==> Sorted(meta.Keys) == []
    ensures meta == map[] ==> MetaText(g, meta) == ""
    ensures meta != map[] ==> MetaText(g, meta) == ";meta{" + MetaItems(g, meta, Sorted(meta.Keys), 0) + "}"
    ensures meta != map[] ==> |MetaText(g, meta)| > 0
  {
    hide Ascending, MetaItems;
    assert Elements(Sorted(meta.Keys)) == meta.Keys;
    assert meta.Keys == {} <==> meta == map[];
    if meta != map[] {
      var k :| k in meta.Keys;
      assert k in Elements(Sorted(meta.Keys));
    }
  }

  lemma MetaTextUnique(g: Printer, a: map<string, Value>, b: map<string, Value>)
    requires TidyMeta(g, a) && TidyMeta(g, b) && MetaText(g, a) == MetaText(g, b)
    ensures a.Keys == b.Keys && forall k | k in a :: g.value(a[k]) == g.value(b[k])
  {
    hide Ascending, Elements, MetaItems, MetaText, MetaWords, TidyMeta, Joined, Proper;
    MetaTextShape(g, a);
    MetaTextShape(g, b);
    if a != map[] {
      var ks, js := Sorted(a.Keys), Sorted(b.Keys);
      Bracketed(";meta{", MetaItems(g, a, ks, 0), MetaItems(g, b, js, 0), "}");
      MetaSpells(g, a, ks, 0);
      MetaSpells(g, b, js, 0);
      MetaProper(g, a, ks, 0);
      MetaProper(g, b, js, 0);
      WordsUnique(MetaWords(g, a, ks, 0), MetaWords(g, b, js, 0));
      MetaWordsUnique(g, a, b, ks, js, 0);
      assert ks == js;
      forall k | k in a
        ensures g.value(a[k]) == g.value(b[k])
      {
        SortedHas(a.Keys, k);
        var i :| 0 <= i < |ks| && ks[i] == k;
      }
    }
  }

  /** Tidy metadata prints the same exactly when it has the same keys and each value prints the same. */
  lemma MetaTold(g: Printer, a: map<string, Value>, b: map<string, Value>)
    requires TidyMeta(g, a) && TidyMeta(g, b)
    ensures MetaText(g, a) == MetaText(g, b) <==> a.Keys == b.Keys && forall k | k in a :: g.value(a[k]) == g.value(b[k])
  {
    hide Ascending, Elements, MetaItems, MetaText, TidyMeta;
    MetaTextShape(g, a);
    MetaTextShape(g, b);
    if MetaText(g, a) == MetaText(g, b) {
      MetaTextUnique(g, a, b);
    }
    if a.Keys == b.Keys && forall k | k in a :: g.value(a[k]) == g.value(b[k]) {
      SameItems(g, a, b, Sorted(a.Keys), 0);
      assert a == map[] <==> b == map[] by {
        assert a.Keys == {} <==> a == map[];
        assert b.Keys == {} <==> b == map[];
      }
    }
  }
}
