/**
 What a JSON Schema document means once it is imported. The keywords are read directly: the imported
 schema accepts exactly the values that the keywords allow, for every document.
 */
module JsonSchemaMeaning {
  import opened Values
  import opened Keys
  import opened Schemas
  import opened SchemaReports
  import opened SchemaCompileCorrect
  import opened SchemaMeaning
  import opened JsonSchema
  import opened JsonRoundTrip

  // ---- reading keywords ----

  predicate TextKey(raw: Doc, key: string, t: string) {
    key in raw && raw[key] == Str(t)
  }

  predicate NumberKey(raw: Doc, key: string, r: real) {
    key in raw && raw[key] == Num(Float64, r)
  }

  predicate FlagKey(raw: Doc, key: string, b: bool) {
    key in raw && raw[key] == Bool(b)
  }

  /** The last name in a type list, not counting "null". */
  predicate NamedLast(items: seq<Value>, name: string) {
    name != "null" && exists i | 0 <= i < |items| ::
      items[i] == Str(name) && forall j | i < j < |items| :: items[j].Str? ==> items[j].s == "null"
  }

  /** The type that is given, by name or in a list, or shown by the keywords that are there. */
  predicate TypeIs(raw: Doc, name: string) {
    if "type" in raw then
      raw["type"] == Str(name) || (raw["type"].List? && NamedLast(raw["type"].items, name))
    else if "properties" in raw then name == "object"
    else "items" in raw && name == "array"
  }

  predicate TypeKnown(raw: Doc) {
    || TypeIs(raw, "string") || TypeIs(raw, "number") || TypeIs(raw, "integer") || TypeIs(raw, "boolean")
    || TypeIs(raw, "object") || TypeIs(raw, "array")
  }

  predicate NullAllowed(raw: Doc) {
    || ("type" in raw && raw["type"].List? && Str("null") in raw["type"].items)
    || FlagKey(raw, "nullable", true)
    || "_nullable" in raw
  }

  // ---- text ----

  /** The formats that stand for a pattern. */
  predicate FormatPattern(format: string, pattern: string) {
    || (format == "email" && pattern == EMAIL)
    || ((format == "uri" || format == "url") && pattern == URL)
    || (format == "uuid" && pattern == UUID)
  }

  predicate OwnFormat(format: string) {
    format in {"email", "uri", "url", "uuid", "date", "time", "date-time"}
  }

  ghost predicate PatternGiven(c: Codec, raw: Doc, pattern: string) {
    || (exists format :: TextKey(raw, "format", format) && FormatPattern(format, pattern))
    || ((forall format, p :: TextKey(raw, "format", format) ==> !FormatPattern(format, p))
        && TextKey(raw, "pattern", pattern) && c.compiles(pattern))
  }

  predicate ListsTexts(raw: Doc) {
    && "enum" in raw && raw["enum"].List? && raw["enum"].items != []
    && forall i | 0 <= i < |raw["enum"].items| :: raw["enum"].items[i].Str?
  }

  predicate EnumAllows(raw: Doc, t: string) {
    ListsTexts(raw) ==> Str(t) in raw["enum"].items
  }

  ghost predicate TextAllowed(c: Codec, e: Env, raw: Doc, t: string) {
    && (forall r | NumberKey(raw, "minLength", r) :: c.toInt(r) <= |t|)
    && (forall r | NumberKey(raw, "maxLength", r) :: |t| <= c.toInt(r))
    && (forall p | PatternGiven(c, raw, p) :: e.matches(p, t))
    && EnumAllows(raw, t)
    && (forall f | TextKey(raw, "format", f) && !OwnFormat(f) && c.registered(f) :: e.format(f, Str(t)) == None)
  }

  // ---- numbers ----

  /** An exclusive bound is taken as it stands, in place of the inclusive one. */
  ghost predicate AmountAllowed(raw: Doc, r: real) {
    && (forall b | NumberKey(raw, "exclusiveMinimum", b) :: b <= r)
    && (forall b | NumberKey(raw, "minimum", b) :: b <= r || exists x :: NumberKey(raw, "exclusiveMinimum", x))
    && (forall b | NumberKey(raw, "exclusiveMaximum", b) :: r <= b)
    && (forall b | NumberKey(raw, "maximum", b) :: r <= b || exists x :: NumberKey(raw, "exclusiveMaximum", x))
    && (forall d | NumberKey(raw, "multipleOf", d) && d != 0.0 :: (r / d).Floor as real == r / d)
  }

  // ---- objects ----

  /** A property that is described by an object. */
  predicate HasProperty(raw: Doc, k: string) {
    "properties" in raw && raw["properties"].Map? && k in raw["properties"].entries && raw["properties"].entries[k].Map?
  }

  predicate Requires(raw: Doc, k: string) {
    "required" in raw && raw["required"].List? && Str(k) in raw["required"].items
  }

  /** Unless the document says so, other keys are allowed in loose mode only. */
  predicate OthersAllowed(raw: Doc, mode: Mode) {
    if "additionalProperties" in raw && (raw["additionalProperties"].Bool? || raw["additionalProperties"].Map?) then
      raw["additionalProperties"] != Bool(false)
    else mode == Loose
  }

  ghost predicate CountsAllowed(c: Codec, e: Env, raw: Doc, items: seq<Value>) {
    && (forall r | NumberKey(raw, "minItems", r) :: c.toInt(r) <= |items|)
    && (forall r | NumberKey(raw, "maxItems", r) :: |items| <= c.toInt(r))
    && (FlagKey(raw, "uniqueItems", true) ==> forall i, j | 0 <= i < j < |items| :: e.show(items[i]) != e.show(items[j]))
  }

  /** A required property that is null counts as missing. */
  ghost predicate Allows(c: Codec, e: Env, required: bool, doc: Value, v: Value, mode: Mode)
    requires doc.Map?
    decreases doc, 1
  {
    var raw := doc.entries;
    if v.Null? then !required && TypeKnown(raw) && NullAllowed(raw)
    else if TypeIs(raw, "string") then exists t :: ReadsText(e, v, mode, t) && TextAllowed(c, e, raw, t)
    else if TypeIs(raw, "number") then exists r :: ReadsNumber(e, v, mode, r) && AmountAllowed(raw, r)
    else if TypeIs(raw, "integer") then
      exists r: real :: ReadsNumber(e, v, mode, r) && AmountAllowed(raw, r) && r == r.Floor as real
    else if TypeIs(raw, "boolean") then ReadsBool(v, mode)
    else if TypeIs(raw, "object") then v.Map? && EntriesAllowed(c, e, doc, v.entries, mode)
    else if TypeIs(raw, "array") then
      && v.List? && CountsAllowed(c, e, raw, v.items)
      && ("items" in raw && raw["items"].Map? ==>
            forall i | 0 <= i < |v.items| :: Allows(c, e, false, raw["items"], v.items[i], mode))
    else exists t :: ReadsText(e, v, mode, t)
  }

  ghost predicate EntriesAllowed(c: Codec, e: Env, doc: Value, entries: map<string, Value>, mode: Mode)
    requires doc.Map?
    decreases doc, 0
  {
    var raw := doc.entries;
    && (forall k | HasProperty(raw, k) ::
          if k in entries then Allows(c, e, Requires(raw, k), raw["properties"].entries[k], entries[k], mode) else !Requires(raw, k))
    && (OthersAllowed(raw, mode) || forall k | k in entries :: HasProperty(raw, k))
  }

  // ---- the keywords as the import reads them ----

  lemma {:induction false} LastNamed(items: seq<Value>, name: string)
    requires name != "" && name != "null"
    ensures LastName(items) == name <==> NamedLast(items, name)
    decreases |items|
  {
    if items != [] {
      var n := |items| - 1;
      var last, before := items[n], items[..n];
      LastNamed(before, name);
      if last.Str? && last.s != "null" {
        if last.s == name {
          assert items[n] == Str(name);
        }
      } else {
        if i :| 0 <= i < |before| && before[i] == Str(name) && forall j | i < j < |before| :: before[j].Str? ==> before[j].s == "null" {
          assert items[i] == Str(name);
          forall j | i < j < |items|
            ensures items[j].Str? ==> items[j].s == "null"
          {
            assert j < n ==> before[j] == items[j];
          }
        }
        if i :| 0 <= i < |items| && items[i] == Str(name) && forall j | i < j < |items| :: items[j].Str? ==> items[j].s == "null" {
          assert before[i] == Str(name);
          forall j | i < j < |before|
            ensures before[j].Str? ==> before[j].s == "null"
          {
            assert before[j] == items[j];
          }
        }
      }
    }
  }

  lemma TypeNamed(raw: Doc, name: string)
    requires name != "" && name != "null"
    ensures TypeName(raw) == name <==> TypeIs(raw, name)
  {
    hide LastName, NamedLast;
    if "type" in raw && raw["type"].List? {
      LastNamed(raw["type"].items, name);
    }
  }

  lemma TypesNamed(raw: Doc)
    ensures TypeName(raw) == "string" <==> TypeIs(raw, "string")
    ensures TypeName(raw) == "number" <==> TypeIs(raw, "number")
    ensures TypeName(raw) == "integer" <==> TypeIs(raw, "integer")
    ensures TypeName(raw) == "boolean" <==> TypeIs(raw, "boolean")
    ensures TypeName(raw) == "object" <==> TypeIs(raw, "object")
    ensures TypeName(raw) == "array" <==> TypeIs(raw, "array")
  {
    hide TypeName, TypeIs;
    TypeNames();
    assert |"string"| > 0 && |"number"| > 0 && |"integer"| > 0 && |"boolean"| > 0 && |"object"| > 0 && |"array"| > 0;
    TypeNamed(raw, "string");
    TypeNamed(raw, "number");
    TypeNamed(raw, "integer");
    TypeNamed(raw, "boolean");
    TypeNamed(raw, "object");
    TypeNamed(raw, "array");
  }

  lemma NullIs(raw: Doc)
    ensures IsNullable(raw) == NullAllowed(raw)
  {
  }

  lemma NumberKeyIs(raw: Doc, key: string)
    ensures forall r :: NumberKey(raw, key, r) <==> GetFloat(raw, key) == Some(r)
  {
  }

  lemma TextKeyIs(raw: Doc, key: string)
    ensures forall t :: TextKey(raw, key, t) <==> GetString(raw, key) == Some(t)
  {
  }

  lemma IntKeyIs(c: Codec, raw: Doc, key: string)
    ensures GetInt(c, raw, key).None? <==> forall r :: !NumberKey(raw, key, r)
    ensures forall r | NumberKey(raw, key, r) :: GetInt(c, raw, key) == Some(c.toInt(r))
  {
    hide GetFloat, NumberKey;
    NumberKeyIs(raw, key);
  }

  // ---- text ----

  /** The built-in formats are the ones with a pattern. */
  lemma BuiltInIs(c: Codec, f: string)
    ensures UseOf(c, f).BuiltIn? <==> exists p :: FormatPattern(f, p)
    ensures UseOf(c, f).BuiltIn? ==> forall p :: FormatPattern(f, p) <==> p == UseOf(c, f).pattern
    ensures UseOf(c, f).Validator? <==> !OwnFormat(f) && c.registered(f)
    ensures UseOf(c, f).Validator? ==> UseOf(c, f).name == f
  {
    if UseOf(c, f).BuiltIn? {
      assert FormatPattern(f, UseOf(c, f).pattern);
    }
  }

  lemma PatternIs(c: Codec, raw: Doc, p: string, store: bool)
    ensures PatternGiven(c, raw, p) <==> ImportString(store, c, raw).pattern == Some(p)
  {
    hide UseOf, FormatPattern, OwnFormat, GetInt, GetStrings, ImportedBase, TextKey, GetString;
    TextKeyIs(raw, "format");
    TextKeyIs(raw, "pattern");
    var format := GetString(raw, "format");
    if format.Some? {
      BuiltInIs(c, format.value);
      assert TextKey(raw, "format", format.value);
      if UseOf(c, format.value).BuiltIn? {
        assert FormatPattern(format.value, UseOf(c, format.value).pattern);
      }
    }
  }

  lemma EnumIs(c: Codec, raw: Doc, t: string, store: bool)
    ensures EnumAllows(raw, t) <==> var enum := ImportString(store, c, raw).enum; enum == [] || t in enum
  {
    hide UseOf, GetInt, ImportedBase, GetString;
    var enum := GetStrings(raw, "enum").UnwrapOr([]);
    assert ImportString(store, c, raw).enum == enum;
    if "enum" in raw && raw["enum"].List? && AllStrings(raw["enum"].items) {
      var items := raw["enum"].items;
      if t in enum {
        var i :| 0 <= i < |enum| && enum[i] == t;
        assert items[i] == Str(t);
      }
      if Str(t) in items {
        var i :| 0 <= i < |items| && items[i] == Str(t);
        assert enum[i] == t;
      }
    }
  }

  lemma FormatIs(c: Codec, e: Env, raw: Doc, t: string, store: bool)
    ensures RulesPass(e, ImportString(store, c, raw).rules, Str(t)) <==>
      forall f | TextKey(raw, "format", f) && !OwnFormat(f) && c.registered(f) :: e.format(f, Str(t)) == None
  {
    hide UseOf, FormatPattern, OwnFormat, GetInt, GetStrings, ImportedBase, TextKey, GetString;
    TextKeyIs(raw, "format");
    var format := GetString(raw, "format");
    if format.Some? {
      BuiltInIs(c, format.value);
      assert TextKey(raw, "format", format.value);
    }
    var rules := ImportString(store, c, raw).rules;
    assert rules != [] ==> rules == [Format(format.value)] && (RulesPass(e, rules, Str(t)) <==> RulePasses(e, rules[0], Str(t)));
  }

  lemma LengthsAre(c: Codec, raw: Doc, t: string, store: bool)
    ensures var s := ImportString(store, c, raw);
      Within(s.minLength, |t|, s.maxLength) <==>
        (forall r | NumberKey(raw, "minLength", r) :: c.toInt(r) <= |t|) && (forall r | NumberKey(raw, "maxLength", r) :: |t| <= c.toInt(r))
  {
    hide UseOf, GetInt, GetStrings, ImportedBase, GetString, NumberKey;
    IntKeyIs(c, raw, "minLength");
    IntKeyIs(c, raw, "maxLength");
    var s := ImportString(store, c, raw);
    assert s.minLength == GetInt(c, raw, "minLength") && s.maxLength == GetInt(c, raw, "maxLength");
  }

  lemma TextMeaning(c: Codec, e: Env, raw: Doc, t: string, store: bool)
    ensures TextConforms(e, ImportString(store, c, raw), t) <==> TextAllowed(c, e, raw, t)
  {
    hide ImportString, Within, PatternGiven, EnumAllows, RulesPass, NumberKey, TextKey, OwnFormat;
    StringImported(store, c, raw);
    LengthsAre(c, raw, t, store);
    EnumIs(c, raw, t, store);
    FormatIs(c, e, raw, t, store);
    forall p
      ensures PatternGiven(c, raw, p) <==> ImportString(store, c, raw).pattern == Some(p)
    {
      PatternIs(c, raw, p, store);
    }
  }

  lemma StringImported(store: bool, c: Codec, raw: Doc)
    ensures ImportString(store, c, raw).StringSchema?
    ensures ImportString(store, c, raw).base.required == false && ImportString(store, c, raw).base.nullable == IsNullable(raw)
  {
    hide UseOf, GetInt, GetStrings, GetString, IsNullable;
  }

  // ---- numbers ----

  lemma AmountMeaning(e: Env, raw: Doc, r: real, store: bool, integer: bool)
    ensures var s := ImportNumber(store, raw, integer);
      LimitsHold(s, r) && RulesPass(e, s.rules, AsNumber(r)) <==>
        AmountAllowed(raw, r) && (integer ==> r == r.Floor as real)
  {
    hide GetFloat, NumberKey, ImportedBase;
    NumberKeyIs(raw, "minimum");
    NumberKeyIs(raw, "maximum");
    NumberKeyIs(raw, "exclusiveMinimum");
    NumberKeyIs(raw, "exclusiveMaximum");
    NumberKeyIs(raw, "multipleOf");
    var s := ImportNumber(store, raw, integer);
    assert integer ==> (RulesPass(e, s.rules, AsNumber(r)) <==> RulePasses(e, s.rules[0], AsNumber(r)));
  }

  // ---- the main result ----

  /** Every import is a plain schema, not marked as required, and nullable where the document says so. */
  lemma BaseMeaning(store: bool, c: Codec, doc: Value)
    requires doc.Map?
    ensures var s := Import(store, c, doc);
      !s.TransformSchema? && !s.base.required && s.base.nullable == (TypeKnown(doc.entries) && NullAllowed(doc.entries))
  {
    hide TypeName, TypeIs, ImportString, ImportNumber, IsNullable, NullAllowed, ImportedFields, Properties, RequiredNames, Additional, AdditionalMeta;
    TypesNamed(doc.entries);
    NullIs(doc.entries);
    StringImported(store, c, doc.entries);
    NumberImported(store, doc.entries, true);
    NumberImported(store, doc.entries, false);
  }

  lemma NumberImported(store: bool, raw: Doc, integer: bool)
    ensures var s := ImportNumber(store, raw, integer);
      s.NumberSchema? && !s.base.required && s.base.nullable == IsNullable(raw)
  {
    hide GetFloat, IsNullable;
  }

  lemma MarkedBase(s: Schema, required: bool)
    requires !s.TransformSchema?
    ensures Marked(s, required).base.required == (required || s.base.required) && Marked(s, required).base.nullable == s.base.nullable
    ensures IsRequired(Marked(s, required)) == (required || s.base.required) && !Marked(s, required).TransformSchema?
  {
  }

  /** Being required only matters for null. */
  lemma MarkedConforms(e: Env, s: Schema, required: bool, v: Value, mode: Mode)
    requires !s.TransformSchema?
    ensures Conforms(e, Marked(s, required), v, mode) <==>
      if v.Null? then !(required || s.base.required) && s.base.nullable else Conforms(e, s, v, mode)
  {
    hide RulesPass, Within, Distinct;
  }

  /** An imported document accepts exactly what its keywords allow, at every node. */
  lemma {:induction false} NodeMeaning(store: bool, c: Codec, e: Env, required: bool, doc: Value, v: Value, mode: Mode)
    requires doc.Map?
    ensures Conforms(e, Marked(Import(store, c, doc), required), v, mode) <==> Allows(c, e, required, doc, v, mode)
    decreases doc, 4
  {
    hide Conforms, Import, Marked, TypeKnown, NullAllowed, TypeIs, TextAllowed, AmountAllowed, CountsAllowed, EntriesAllowed, ReadsText, ReadsNumber;
    BaseMeaning(store, c, doc);
    MarkedConforms(e, Import(store, c, doc), required, v, mode);
    if !v.Null? {
      ValueMeaning(store, c, e, doc, v, mode);
      RequiredIdle(c, e, required, doc, v, mode);
    }
  }

  lemma RequiredIdle(c: Codec, e: Env, required: bool, doc: Value, v: Value, mode: Mode)
    requires doc.Map? && !v.Null?
    ensures Allows(c, e, required, doc, v, mode) <==> Allows(c, e, false, doc, v, mode)
  {
    hide TypeIs, TextAllowed, AmountAllowed, CountsAllowed, EntriesAllowed, ReadsText, ReadsNumber;
  }

  lemma {:induction false} ValueMeaning(store: bool, c: Codec, e: Env, doc: Value, v: Value, mode: Mode)
    requires doc.Map? && !v.Null?
    ensures Conforms(e, Import(store, c, doc), v, mode) <==> Allows(c, e, false, doc, v, mode)
    decreases doc, 3
  {
    hide TypeIs, TextAllowed, AmountAllowed, CountsAllowed, EntriesAllowed, ReadsText, ReadsNumber, TypeName, ImportString, ImportNumber, Conforms, Import;
    var name := TypeName(doc.entries);
    TypesNamed(doc.entries);
    TypeNames();
    if name == "string" {
      TextNode(store, c, e, doc, v, mode);
    } else if name == "number" || name == "integer" {
      NumberNode(store, c, e, doc, v, mode);
    } else if name == "object" {
      ObjectNode(store, c, e, doc, v, mode);
    } else if name == "array" {
      ArrayNode(store, c, e, doc, v, mode);
    } else {
      OtherNode(store, c, e, doc, v, mode);
    }
  }

  lemma TextNode(store: bool, c: Codec, e: Env, doc: Value, v: Value, mode: Mode)
    requires doc.Map? && !v.Null? && TypeName(doc.entries) == "string" && TypeIs(doc.entries, "string")
    ensures Conforms(e, Import(store, c, doc), v, mode) <==> Allows(c, e, false, doc, v, mode)
  {
    hide TypeIs, TextAllowed, ReadsText, TypeName, ImportString, TextOf, TextConforms;
    StringImported(store, c, doc.entries);
    TextRead(e, v, mode);
    if t :| TextOf(e, v, mode) == Some(t) {
      TextMeaning(c, e, doc.entries, t, store);
      assert ReadsText(e, v, mode, t);
    }
  }

  lemma NumberNode(store: bool, c: Codec, e: Env, doc: Value, v: Value, mode: Mode)
    requires doc.Map? && !v.Null? && (TypeName(doc.entries) == "number" || TypeName(doc.entries) == "integer")
    ensures Conforms(e, Import(store, c, doc), v, mode) <==> Allows(c, e, false, doc, v, mode)
  {
    hide TypeIs, AmountAllowed, ReadsNumber, TypeName, ImportNumber, NumberOf, LimitsHold, RulesPass;
    var integer := TypeName(doc.entries) == "integer";
    TypesNamed(doc.entries);
    TypeNames();
    NumberImported(store, doc.entries, integer);
    NumberRead(e, v, mode);
    assert Import(store, c, doc) == ImportNumber(store, doc.entries, integer);
    if r :| NumberOf(e, v, mode) == Some(r) {
      AmountMeaning(e, doc.entries, r, store, integer);
      assert ReadsNumber(e, v, mode, r);
    }
  }

  lemma OtherNode(store: bool, c: Codec, e: Env, doc: Value, v: Value, mode: Mode)
    requires doc.Map? && !v.Null?
    requires var name := TypeName(doc.entries);
      name != "string" && name != "number" && name != "integer" && name != "object" && name != "array"
    ensures Conforms(e, Import(store, c, doc), v, mode) <==> Allows(c, e, false, doc, v, mode)
  {
    hide TypeIs, ReadsText, TypeName, TextOf;
    TypesNamed(doc.entries);
    TextRead(e, v, mode);
  }

  lemma {:induction false} ArrayNode(store: bool, c: Codec, e: Env, doc: Value, v: Value, mode: Mode)
    requires doc.Map? && !v.Null? && TypeName(doc.entries) == "array"
    ensures Conforms(e, Import(store, c, doc), v, mode) <==> Allows(c, e, false, doc, v, mode)
    decreases doc, 1
  {
    hide TypeIs, TypeName, CountsAllowed, GetInt, GetBool, Within, Distinct, ImportedBase;
    var raw := doc.entries;
    assert doc == Map(raw);
    TypesNamed(raw);
    TypeNames();
    ImportArray(store, c, raw);
    if v.List? {
      CountsMeaning(c, e, raw, v.items);
      if "items" in raw && raw["items"].Map? {
        hide Conforms, Import;
        assert Allows(c, e, false, doc, v, mode) <==>
          CountsAllowed(c, e, raw, v.items) && forall i | 0 <= i < |v.items| :: Allows(c, e, false, raw["items"], v.items[i], mode);
        forall i | 0 <= i < |v.items|
          ensures Conforms(e, Import(store, c, raw["items"]), v.items[i], mode) <==> Allows(c, e, false, raw["items"], v.items[i], mode)
        {
          NodeMeaning(store, c, e, false, raw["items"], v.items[i], mode);
        }
      }
    }
  }

  lemma CountsMeaning(c: Codec, e: Env, raw: Doc, items: seq<Value>)
    ensures CountsAllowed(c, e, raw, items) <==>
      Within(GetInt(c, raw, "minItems"), |items|, GetInt(c, raw, "maxItems")) && (GetBool(raw, "uniqueItems") == Some(true) ==> Distinct(e, items))
  {
    hide GetInt, NumberKey;
    IntKeyIs(c, raw, "minItems");
    IntKeyIs(c, raw, "maxItems");
  }

  // ---- objects ----

  lemma RequiresIs(raw: Doc, k: string)
    ensures Requires(raw, k) <==> k in RequiredNames(raw)
  {
    if Requires(raw, k) {
      var items := raw["required"].items;
      var i :| 0 <= i < |items| && items[i] == Str(k);
      assert items[i].s == k;
    }
  }

  lemma OthersIs(raw: Doc, mode: Mode)
    ensures OthersAllowed(raw, mode) <==> if Additional(raw).Some? then Additional(raw).value else mode == Loose
  {
  }

  lemma {:induction false} PropertyMeaning(store: bool, c: Codec, e: Env, doc: Value, k: string, entries: map<string, Value>, mode: Mode)
    requires doc.Map? && HasProperty(doc.entries, k)
    ensures var raw := doc.entries; var field := Marked(Import(store, c, raw["properties"].entries[k]), k in RequiredNames(raw));
      (if k in entries then Conforms(e, field, entries[k], mode) else !IsRequired(field)) <==>
      (if k in entries then Allows(c, e, Requires(raw, k), raw["properties"].entries[k], entries[k], mode) else !Requires(raw, k))
    decreases doc, 0
  {
    hide Conforms, Import, Marked, Allows, RequiredNames, Requires, IsRequired;
    var raw := doc.entries;
    var prop := raw["properties"].entries[k];
    RequiresIs(raw, k);
    BaseMeaning(store, c, prop);
    MarkedBase(Import(store, c, prop), Requires(raw, k));
    assert raw["properties"] == Map(raw["properties"].entries);
    if k in entries {
      NodeMeaning(store, c, e, Requires(raw, k), prop, entries[k], mode);
    }
  }

  lemma {:induction false} ObjectNode(store: bool, c: Codec, e: Env, doc: Value, v: Value, mode: Mode)
    requires doc.Map? && !v.Null? && TypeName(doc.entries) == "object"
    ensures Conforms(e, Import(store, c, doc), v, mode) <==> Allows(c, e, false, doc, v, mode)
    decreases doc, 2
  {
    hide TypeIs, TypeName, ImportedBase, EntriesAllowed, RequiredNames, Additional, AdditionalMeta, Conforms, Import;
    var raw := doc.entries;
    assert doc == Map(raw);
    TypesNamed(raw);
    TypeNames();
    ImportObject(store, c, raw);
    var s := Import(store, c, doc);
    if v.Map? {
      assert v == Map(v.entries);
      ObjectConforms(e, s, v.entries, mode);
      EntriesMeaning(store, c, e, doc, v.entries, mode);
    } else {
      NotObject(e, s, v, mode);
    }
  }

  lemma NotObject(e: Env, s: Schema, v: Value, mode: Mode)
    requires s.ObjectSchema? && !v.Map? && !v.Null?
    ensures !Conforms(e, s, v, mode)
  {
  }

  lemma ObjectConforms(e: Env, s: Schema, entries: map<string, Value>, mode: Mode)
    requires s.ObjectSchema? && s.rules == []
    ensures Conforms(e, s, Map(entries), mode) <==>
      && s.requiredFields <= entries.Keys
      && (forall k | k in s.fields :: if k in entries then Conforms(e, s.fields[k], entries[k], mode) else !IsRequired(s.fields[k]))
      && (RejectsExtra(s, mode) ==> entries.Keys <= s.fields.Keys)
  {
    hide IsRequired, RejectsExtra;
  }

  lemma {:induction false} EntriesMeaning(store: bool, c: Codec, e: Env, doc: Value, entries: map<string, Value>, mode: Mode)
    requires doc.Map? && TypeName(doc.entries) == "object"
    ensures var s := Import(store, c, doc);
      EntriesAllowed(c, e, doc, entries, mode) <==>
        && s.requiredFields <= entries.Keys
        && (forall k | k in s.fields :: if k in entries then Conforms(e, s.fields[k], entries[k], mode) else !IsRequired(s.fields[k]))
        && (RejectsExtra(s, mode) ==> entries.Keys <= s.fields.Keys)
    decreases doc, 1
  {
    hide TypeName, ImportedBase, RequiredNames, Additional, AdditionalMeta, Conforms, Import, Allows, Requires, IsRequired, Marked;
    var raw := doc.entries;
    assert doc == Map(raw);
    ImportObject(store, c, raw);
    OthersIs(raw, mode);
    var s := Import(store, c, doc);
    forall k
      ensures k in s.fields <==> HasProperty(raw, k)
      ensures k in s.requiredFields <==> HasProperty(raw, k) && Requires(raw, k)
    {
      RequiresIs(raw, k);
    }
    forall k | HasProperty(raw, k)
      ensures (if k in entries then Conforms(e, s.fields[k], entries[k], mode) else !IsRequired(s.fields[k])) <==>
        (if k in entries then Allows(c, e, Requires(raw, k), raw["properties"].entries[k], entries[k], mode) else !Requires(raw, k))
    {
      PropertyMeaning(store, c, e, doc, k, entries, mode);
    }
    forall k | k in s.requiredFields
      ensures IsRequired(s.fields[k])
    {
      BaseMeaning(store, c, raw["properties"].entries[k]);
      MarkedBase(Import(store, c, raw["properties"].entries[k]), true);
    }
  }

  /** The main result: validation against an imported document accepts exactly the values its keywords allow. */
  lemma ImportMeaning(store: bool, c: Codec, e: Env, doc: Value, v: Value, mode: Mode)
    requires doc.Map?
    ensures Accepts(e, Import(store, c, doc), v, mode) <==> Allows(c, e, false, doc, v, mode)
  {
    hide Conforms, Import, Allows, Check;
    AcceptsMeansConforms(e, Import(store, c, doc), v, mode, []);
    NodeMeaning(store, c, e, false, doc, v, mode);
  }

  // ---- metadata ----

  /** Keywords that are kept on request: those the import neither knows nor refuses. */
  predicate Carried(key: string) {
    key !in RECOGNISED && key !in UNSUPPORTED && key != "_nullable"
  }

  /** What the known keywords leave as metadata: an unusable format, an exclusive bound, a schema for other keys. */
  predicate LeftBy(c: Codec, raw: Doc, key: string, m: Value) {
    if TypeIs(raw, "string") then
      key == "format" && m.Str? && raw.Keys >= {"format"} && raw["format"] == m && UseOf(c, m.s).OnlyMeta?
    else if TypeIs(raw, "number") || TypeIs(raw, "integer") then
      (key == "exclusiveMinimum" || key == "exclusiveMaximum") && key in raw && raw[key] == m && m.Num? && m.kind.Float64?
    else
      TypeIs(raw, "object") && key == "additionalPropertiesSchema" && m.Map?
      && "additionalProperties" in raw && raw["additionalProperties"] == m
  }

  function OwnMeta(c: Codec, raw: Doc): Doc {
    if TypeName(raw) == "string" then
      match GetString(raw, "format")
      case None => map[]
      case Some(name) => if UseOf(c, name).OnlyMeta? then map["format" := Str(name)] else map[]
    else if TypeName(raw) == "number" || TypeName(raw) == "integer" then
      ExclusiveMeta(raw, "exclusiveMinimum") + ExclusiveMeta(raw, "exclusiveMaximum")
    else if TypeName(raw) == "object" then AdditionalMeta(raw)
    else map[]
  }

  lemma ImportBase(store: bool, c: Codec, doc: Value)
    requires doc.Map? && TypeKnown(doc.entries)
    ensures Import(store, c, doc).base == ImportedBase(store, doc.entries, OwnMeta(c, doc.entries))
  {
    hide TypeName, TypeIs, ImportedBase, UseOf, GetInt, GetFloat, GetStrings, ImportedFields, Properties, RequiredNames, Additional, AdditionalMeta;
    TypesNamed(doc.entries);
    TypeNames();
    if TypeName(doc.entries) == "string" && GetString(doc.entries, "format").Some? {
      UseOfName(c, GetString(doc.entries, "format").value);
    }
  }

  lemma OwnMetaIs(c: Codec, raw: Doc, key: string, m: Value)
    ensures key in OwnMeta(c, raw) && OwnMeta(c, raw)[key] == m <==> LeftBy(c, raw, key, m)
  {
    hide TypeName, TypeIs, UseOf;
    TypesNamed(raw);
    TypeNames();
    NotEqualBounds();
  }

  lemma NotEqualBounds()
    ensures "exclusiveMinimum" != "exclusiveMaximum"
  {
    assert "exclusiveMinimum"[10] == 'i' && "exclusiveMaximum"[10] == 'a';
  }

  /** The metadata of an imported document: what is carried over comes first, then what its own keywords leave. */
  lemma MetaMeaning(store: bool, c: Codec, doc: Value, key: string, m: Value)
    requires doc.Map? && TypeKnown(doc.entries)
    ensures var raw, meta := doc.entries, Import(store, c, doc).base.meta;
      key in meta && meta[key] == m <==>
        if store && key in raw && Carried(key) then m == raw[key] else LeftBy(c, raw, key, m)
  {
    hide OwnMeta, Import, TypeKnown, LeftBy;
    ImportBase(store, c, doc);
    OwnMetaIs(c, doc.entries, key, m);
    assert Carried(key) == Unknown(key);
  }

  // ---- what an exported document means ----

  lemma ViewTextConforms(full: bool, e: Env, s: Schema, t: string)
    requires s.StringSchema? && EmptyMatches(e)
    ensures TextConforms(e, View(full, s), t) <==> TextConforms(e, s, t)
  {
    hide RulesPass;
    assert e.matches("", t);
  }

  lemma ViewTextSchema(full: bool, e: Env, s: Schema, v: Value, mode: Mode)
    requires s.StringSchema? && EmptyMatches(e)
    ensures Conforms(e, View(full, s), v, mode) <==> Conforms(e, s, v, mode)
  {
    hide EmptyMatches, TextConforms, TextOf, ExclusivePart;
    if t :| TextOf(e, v, mode) == Some(t) {
      ViewTextConforms(full, e, s, t);
    }
  }

  /** Neither metadata nor an empty pattern matters for what conforms. */
  lemma {:induction false} ViewConforms(full: bool, e: Env, s: Schema, v: Value, mode: Mode)
    requires EmptyMatches(e)
    ensures Conforms(e, View(full, s), v, mode) <==> Conforms(e, s, v, mode)
    decreases s, 1
  {
    if s.StringSchema? {
      ViewTextSchema(full, e, s, v, mode);
    } else if s.ObjectSchema? && v.Map? {
      ViewObjectConforms(full, e, s, v, mode);
    } else if s.ArraySchema? && s.element.Some? && v.List? {
      ViewArrayConforms(full, e, s, v, mode);
    } else {
      ViewElse(full, e, s, v, mode);
    }
  }

  lemma ViewElse(full: bool, e: Env, s: Schema, v: Value, mode: Mode)
    requires !s.StringSchema? && !(s.ObjectSchema? && v.Map?) && !(s.ArraySchema? && s.element.Some? && v.List?)
    ensures Conforms(e, View(full, s), v, mode) <==> Conforms(e, s, v, mode)
  {
    hide RulesPass, Distinct, Within, ExclusivePart;
  }

  lemma {:induction false} ViewObjectConforms(full: bool, e: Env, s: Schema, v: Value, mode: Mode)
    requires s.ObjectSchema? && v.Map? && EmptyMatches(e)
    ensures Conforms(e, View(full, s), v, mode) <==> Conforms(e, s, v, mode)
    decreases s, 0
  {
    hide EmptyMatches, RulesPass, ViewBase, View, IsRequired;
    ViewObject(full, s);
    assert RejectsExtra(View(full, s), mode) == RejectsExtra(s, mode);
    forall k | k in s.fields
      ensures k in v.entries ==> (Conforms(e, View(full, s.fields[k]), v.entries[k], mode) <==> Conforms(e, s.fields[k], v.entries[k], mode))
      ensures IsRequired(View(full, s.fields[k])) == IsRequired(s.fields[k])
    {
      ViewRequired(full, s.fields[k]);
      if k in v.entries {
        ViewConforms(full, e, s.fields[k], v.entries[k], mode);
      }
    }
  }

  lemma {:induction false} ViewArrayConforms(full: bool, e: Env, s: Schema, v: Value, mode: Mode)
    requires s.ArraySchema? && s.element.Some? && v.List? && EmptyMatches(e)
    ensures Conforms(e, View(full, s), v, mode) <==> Conforms(e, s, v, mode)
    decreases s, 0
  {
    hide EmptyMatches, RulesPass, Distinct, Within, ViewBase;
    forall i | 0 <= i < |v.items|
      ensures Conforms(e, View(full, s.element.value), v.items[i], mode) <==> Conforms(e, s.element.value, v.items[i], mode)
    {
      ViewConforms(full, e, s.element.value, v.items[i], mode);
    }
  }

  lemma ViewRequired(full: bool, s: Schema)
    ensures IsRequired(View(full, s)) == IsRequired(s)
  {
    hide ExclusivePart;
  }

  /** The document that an importable schema is exported to allows exactly the values the schema accepts. */
  lemma ExportMeaning(withMeta: bool, c: Codec, e: Env, s: Schema, v: Value, mode: Mode)
    requires Importable(c, s) && GoodCodec(c) && EmptyMatches(e)
    ensures Accepts(e, s, v, mode) <==> Allows(c, e, s.base.required, Json(Map(Export(withMeta, s))), v, mode)
  {
    hide Conforms, Import, Allows, Check, View, Export, JsonDoc, GoodCodec, EmptyMatches, Marked;
    var doc := Map(JsonDoc(Export(withMeta, s)));
    var back := Import(false, c, doc);
    JsonOfDoc(Export(withMeta, s));
    NodeBack(false, false, c, withMeta, s);
    AcceptsMeansConforms(e, s, v, mode, []);
    NodeMeaning(false, c, e, s.base.required, doc, v, mode);
    ViewMarked(false, back, s.base.required);
    ViewMarked(false, s, s.base.required);
    ViewConforms(false, e, s, v, mode);
    ViewConforms(false, e, Marked(back, s.base.required), v, mode);
  }
}
