/**
 Export undoes import. A schema that an import can produce comes back from its exported document the
 same at every node, up to metadata when the options drop it; and every import of a parsed document
 produces such a schema.
 */
module JsonRoundTrip {
  import opened Values
  import opened Keys
  import opened Schemas
  import opened JsonSchema

  // ---- what is compared ----

  function ExclusivePart(meta: Doc): Doc {
    map k | k in meta && IsExclusive(k) :: meta[k]
  }

  function UnknownPart(meta: Doc): Doc {
    map k | k in meta && Unknown(k) :: meta[k]
  }

  function ViewBase(full: bool, base: Base): Base {
    base.(meta := if full then base.meta else ExclusivePart(base.meta))
  }

  /** The whole schema, an empty pattern counting as none; without `full`, of the metadata only the exclusive bounds. */
  function View(full: bool, s: Schema): Schema
    decreases s
  {
    match s
    case StringSchema(base, min, max, pattern, enum, format, rules) =>
      StringSchema(ViewBase(full, base), min, max, if pattern.UnwrapOr("") == "" then None else pattern, enum, format, rules)
    case NumberSchema(base, min, max, mul, rules) => NumberSchema(ViewBase(full, base), min, max, mul, rules)
    case BoolSchema(base, rules) => BoolSchema(ViewBase(full, base), rules)
    case ObjectSchema(base, fields, required, additional, rules, transformable) =>
      ObjectSchema(ViewBase(full, base), map k | k in fields :: View(full, fields[k]), required, additional, rules, transformable)
    case ArraySchema(base, element, min, max, unique, rules, transformable) =>
      ArraySchema(ViewBase(full, base), if element.None? then None else Some(View(full, element.value)), min, max, unique,
        rules, transformable)
    case _ => s
  }

  function Unmarked(s: Schema): Schema {
    s.(base := s.base.(required := false))
  }

  // ---- the schemas an import can produce ----

  const INT_LIMIT: int := 0x8000_0000_0000_0000

  predicate IsInt64(n: int) {
    -INT_LIMIT <= n < INT_LIMIT
  }

  /** Conversion to int yields an int64, and yields an int64 that is already there. */
  ghost predicate GoodInts(c: Codec) {
    && (forall r :: IsInt64(c.toInt(r)))
    && (forall n: int :: IsInt64(n) ==> c.toInt(n as real) == n)
  }

  /** Besides, no format is registered under the empty name. */
  ghost predicate GoodCodec(c: Codec) {
    GoodInts(c) && !c.registered("")
  }

  predicate IntFits(n: Option<int>) {
    n.Some? ==> IsInt64(n.value)
  }

  predicate FormatFits(c: Codec, s: Schema)
    requires s.StringSchema?
  {
    if s.format == "" then
      && s.rules == []
      && ("format" in s.base.meta ==>
            s.base.meta["format"].Str? && UseOf(c, s.base.meta["format"].s) == OnlyMeta(s.base.meta["format"].s))
    else
      && "format" !in s.base.meta
      && match UseOf(c, s.format)
         case BuiltIn(format, pattern) => s.format == format && s.pattern == Some(pattern) && s.rules == []
         case Validator(name) => s.rules == [Format(name)]
         case OnlyMeta(_) => false
  }

  predicate PatternFits(c: Codec, s: Schema)
    requires s.StringSchema?
  {
    s.pattern.UnwrapOr("") == "" || c.compiles(s.pattern.value) || UseOf(c, s.format).BuiltIn?
  }

  predicate ExclusiveFits(meta: Doc, key: string, bound: Option<real>) {
    key in meta ==> bound.Some? && meta[key] == AsNumber(bound.value)
  }

  ghost predicate MetaFits(meta: Doc, extra: set<string>) {
    forall k | k in meta :: (Unknown(k) || k in extra) && IsJson(meta[k])
  }

  const EXCLUSIVE: set<string> := {"exclusiveMinimum", "exclusiveMaximum"}

  ghost predicate Importable(c: Codec, s: Schema)
    decreases s
  {
    match s
    case StringSchema(base, min, max, _, _, _, _) =>
      MetaFits(base.meta, {"format"}) && IntFits(min) && IntFits(max) && FormatFits(c, s) && PatternFits(c, s)
    case NumberSchema(base, min, max, _, rules) =>
      && MetaFits(base.meta, EXCLUSIVE) && (rules == [] || rules == [Integer])
      && ExclusiveFits(base.meta, "exclusiveMinimum", min) && ExclusiveFits(base.meta, "exclusiveMaximum", max)
    case BoolSchema(base, rules) => MetaFits(base.meta, {}) && rules == []
    case ObjectSchema(base, fields, required, _, rules, transformable) =>
      && MetaFits(base.meta, {}) && rules == [] && transformable
      && (forall k | k in fields :: Importable(c, fields[k]))
      && required == set k | k in fields && fields[k].base.required
    case ArraySchema(base, element, min, max, _, rules, transformable) =>
      && MetaFits(base.meta, {}) && rules == [] && transformable
      && IntFits(min) && IntFits(max)
      && (element.Some? ==> Importable(c, element.value) && !element.value.base.required)
    case _ => false
  }

  // ---- reading what was marshalled ----

  function JsonDoc(m: Doc): Doc {
    map k | k in m :: Json(m[k])
  }

  lemma JsonFloat(m: Doc, key: string)
    ensures GetFloat(JsonDoc(m), key) == if key in m && m[key].Num? then Some(m[key].r) else None
  {
  }

  lemma JsonText(m: Doc, key: string)
    ensures GetString(JsonDoc(m), key) == GetString(m, key)
    ensures GetBool(JsonDoc(m), key) == GetBool(m, key)
  {
  }

  lemma JsonStrings(m: Doc, key: string)
    requires key in m ==> m[key].List? && AllStrings(m[key].items)
    ensures key in m ==> JsonDoc(m)[key] == m[key]
    ensures GetStrings(JsonDoc(m), key) == GetStrings(m, key)
  {
    if key in m {
      JsonOfStrings(m[key].items);
    }
  }

  lemma JsonOfStrings(items: seq<Value>)
    requires AllStrings(items)
    ensures Json(List(items)) == List(items)
  {
    forall i | 0 <= i < |items|
      ensures Json(items[i]) == items[i]
    {
    }
  }

  // ---- metadata does not get in the way ----

  predicate OnlyRecognised(out: Doc) {
    forall k | k in out :: k in RECOGNISED
  }

  /** A keyword is found as it was written, whatever the metadata. */
  lemma MetaInvisible(withMeta: bool, meta: Doc, out: Doc, extra: set<string>, key: string)
    requires MetaFits(meta, extra) && !Unknown(key) && (key !in extra || IsExclusive(key))
    ensures key in IncludeMeta(withMeta, meta, out) <==> key in out
    ensures key in out ==> IncludeMeta(withMeta, meta, out)[key] == out[key]
  {
    hide Unknown;
  }

  lemma UnknownOut(withMeta: bool, meta: Doc, out: Doc, extra: set<string>)
    requires MetaFits(meta, extra) && OnlyRecognised(out)
    ensures UnknownPart(JsonDoc(IncludeMeta(withMeta, meta, out))) == if withMeta then UnknownPart(meta) else map[]
  {
    hide IsJson;
    var m := IncludeMeta(withMeta, meta, out);
    ExclusiveRecognised();
    forall k | k in meta
      ensures Json(meta[k]) == meta[k]
    {
      JsonIs(meta[k]);
    }
    var back := UnknownPart(JsonDoc(m));
    if withMeta {
      assert back.Keys == UnknownPart(meta).Keys;
    }
  }

  lemma JsonIs(v: Value)
    requires IsJson(v)
    ensures Json(v) == v
  {
  }

  lemma ExclusiveRecognised()
    ensures "exclusiveMinimum" in RECOGNISED && "exclusiveMaximum" in RECOGNISED
    ensures forall k :: IsExclusive(k) ==> !Unknown(k)
    ensures forall k :: IsExclusive(k) <==> k in EXCLUSIVE
  {
  }

  /** The metadata that comes back, given what the keywords store again. */
  lemma ViewedMeta(full: bool, store: bool, withMeta: bool, meta: Doc, back: Doc, own: Doc, special: Doc, extra: set<string>)
    requires MetaFits(meta, extra) && (full ==> store && withMeta)
    requires UnknownPart(back) == if withMeta then UnknownPart(meta) else map[]
    requires special == map k | k in meta && !Unknown(k) :: meta[k]
    requires full ==> own == special
    requires ExclusivePart(own) == ExclusivePart(special)
    ensures
      var got := own + if store then UnknownPart(back) else map[];
      (if full then got else ExclusivePart(got)) == (if full then meta else ExclusivePart(meta))
  {
    hide Unknown, IsJson;
    ExclusiveNotUnknown();
    var got := own + if store then UnknownPart(back) else map[];
    if full {
      assert got == meta;
    } else {
      assert ExclusivePart(meta) == ExclusivePart(special);
      forall k | IsExclusive(k)
        ensures k in got <==> k in own
        ensures k in own ==> got[k] == own[k]
      {
      }
      assert ExclusivePart(got) == ExclusivePart(own);
    }
  }

  lemma ExclusiveNotUnknown()
    ensures forall k :: IsExclusive(k) ==> !Unknown(k)
  {
    ExclusiveRecognised();
  }

  // ---- the type keyword ----

  lemma LastOfPair(name: string)
    requires name != "null"
    ensures LastName([Str(name), Str("null")]) == name
  {
    var items := [Str(name), Str("null")];
    assert items[..1] == [Str(name)];
    assert LastName([Str(name)]) == name;
  }

  lemma TypeBack(m: Doc, name: string, nullable: bool)
    requires "type" in m && m["type"] == TypeEntry(name, nullable)["type"] && name != "null"
    requires "_nullable" !in m && "nullable" !in m
    ensures TypeName(JsonDoc(m)) == name && IsNullable(JsonDoc(m)) == nullable
  {
    if nullable {
      LastOfPair(name);
      JsonOfStrings([Str(name), Str("null")]);
      assert Str("null") in [Str(name), Str("null")];
    }
    JsonText(m, "nullable");
  }

  lemma TypeNames()
    ensures "string" != "null" && "number" != "null" && "integer" != "null" && "boolean" != "null" && "object" != "null" && "array" != "null"
    ensures "number" != "string" && "integer" != "string" && "integer" != "number" && "boolean" != "string" && "boolean" != "number"
    ensures "boolean" != "integer" && "object" != "string" && "object" != "number" && "object" != "integer" && "object" != "boolean"
    ensures "array" != "string" && "array" != "number" && "array" != "integer" && "array" != "boolean" && "array" != "object"
  {
    assert "string"[0] == 's' && "number"[0] == 'n' && "integer"[0] == 'i' && "boolean"[0] == 'b' && "object"[0] == 'o';
  }

  lemma NullableKeys()
    ensures "_nullable" !in RECOGNISED && !Unknown("_nullable") && !Unknown("nullable") && !Unknown("type")
    ensures "nullable" != "type"
  {
    assert "_nullable"[0] == '_';
    forall k | k in RECOGNISED
      ensures k[0] != '_'
    {
    }
  }

  // ---- strings ----

  lemma StringDocIs(s: Schema)
    requires s.StringSchema?
    ensures var out := StringDoc(s);
      && OnlyRecognised(out) && "nullable" !in out
      && "type" in out && out["type"] == TypeEntry("string", s.base.nullable)["type"]
      && ("minLength" in out <==> s.minLength.Some?) && (s.minLength.Some? ==> out["minLength"] == Num(Int, s.minLength.value as real))
      && ("maxLength" in out <==> s.maxLength.Some?) && (s.maxLength.Some? ==> out["maxLength"] == Num(Int, s.maxLength.value as real))
      && ("pattern" in out <==> s.pattern.UnwrapOr("") != "") && (s.pattern.UnwrapOr("") != "" ==> out["pattern"] == Str(s.pattern.value))
      && ("enum" in out <==> s.enum != []) && (s.enum != [] ==> Some(out["enum"]) == ListValue(s.enum))
      && ("format" in out <==> s.format != "") && (s.format != "" ==> out["format"] == Str(s.format))
  {
  }

  /** What an import of the exported document finds under each keyword. */
  lemma StringFound(c: Codec, withMeta: bool, s: Schema)
    requires s.StringSchema? && Importable(c, s) && GoodCodec(c)
    ensures var j := JsonDoc(IncludeMeta(withMeta, s.base.meta, StringDoc(s)));
      && TypeName(j) == "string" && IsNullable(j) == s.base.nullable
      && GetInt(c, j, "minLength") == s.minLength && GetInt(c, j, "maxLength") == s.maxLength
      && GetString(j, "pattern") == (if s.pattern.UnwrapOr("") == "" then None else s.pattern)
      && GetStrings(j, "enum").UnwrapOr([]) == s.enum
  {
    hide IncludeMeta, StringDoc, OnlyRecognised, Unknown, IsNullable, TypeName, JsonDoc, UseOf;
    var out := StringDoc(s);
    var m := IncludeMeta(withMeta, s.base.meta, out);
    StringDocIs(s);
    NullableKeys();
    TypeNames();
    KnownKeys();
    MetaInvisible(withMeta, s.base.meta, out, {"format"}, "type");
    MetaInvisible(withMeta, s.base.meta, out, {"format"}, "minLength");
    MetaInvisible(withMeta, s.base.meta, out, {"format"}, "maxLength");
    MetaInvisible(withMeta, s.base.meta, out, {"format"}, "pattern");
    MetaInvisible(withMeta, s.base.meta, out, {"format"}, "enum");
    MetaInvisible(withMeta, s.base.meta, out, {"format"}, "nullable");
    NoNullableMark(withMeta, s.base.meta, out, {"format"});
    TypeBack(m, "string", s.base.nullable);
    JsonFloat(m, "minLength");
    JsonFloat(m, "maxLength");
    JsonText(m, "pattern");
    EnumBack(m, s.enum);
  }

  lemma KnownKeys()
    ensures !Unknown("minLength") && !Unknown("maxLength") && !Unknown("pattern") && !Unknown("enum") && !Unknown("format")
    ensures !Unknown("type") && !Unknown("nullable") && !Unknown("_nullable")
  {
  }

  lemma NoNullableMark(withMeta: bool, meta: Doc, out: Doc, extra: set<string>)
    requires MetaFits(meta, extra) && OnlyRecognised(out) && "_nullable" !in extra
    ensures "_nullable" !in IncludeMeta(withMeta, meta, out)
  {
    hide Unknown;
    NullableKeys();
  }

  lemma EnumBack(m: Doc, values: seq<string>)
    requires "enum" in m <==> values != []
    requires values != [] ==> Some(m["enum"]) == ListValue(values)
    ensures GetStrings(JsonDoc(m), "enum").UnwrapOr([]) == values
  {
    hide JsonDoc;
    JsonStrings(m, "enum");
    if values == [] {
      NotThere(m, "enum");
    } else {
      assert GetStrings(m, "enum").value == values;
    }
  }

  lemma NotThere(m: Doc, key: string)
    requires key !in m
    ensures key !in JsonDoc(m)
  {
  }

  function Special(meta: Doc): Doc {
    map k | k in meta && !Unknown(k) :: meta[k]
  }

  /** The base of a schema that comes back, once its own keywords are known to store what they stored. */
  lemma BaseBack(full: bool, store: bool, withMeta: bool, base: Base, out: Doc, own: Doc, extra: set<string>)
    requires MetaFits(base.meta, extra) && OnlyRecognised(out) && (full ==> store && withMeta)
    requires IsNullable(JsonDoc(IncludeMeta(withMeta, base.meta, out))) == base.nullable
    requires full ==> own == Special(base.meta)
    requires ExclusivePart(own) == ExclusivePart(Special(base.meta))
    ensures ViewBase(full, ImportedBase(store, JsonDoc(IncludeMeta(withMeta, base.meta, out)), own)) ==
      ViewBase(full, base.(required := false))
  {
    hide IncludeMeta, OnlyRecognised, Unknown, IsNullable, JsonDoc, MetaFits;
    var j := JsonDoc(IncludeMeta(withMeta, base.meta, out));
    UnknownOut(withMeta, base.meta, out, extra);
    ViewedMeta(full, store, withMeta, base.meta, j, own, Special(base.meta), extra);
  }

  lemma FormatFound(c: Codec, withMeta: bool, s: Schema)
    requires s.StringSchema? && Importable(c, s)
    ensures var found := GetString(JsonDoc(IncludeMeta(withMeta, s.base.meta, StringDoc(s))), "format");
      if s.format != "" then found == Some(s.format)
      else if withMeta && "format" in s.base.meta then found == Some(s.base.meta["format"].s)
      else found == None
  {
    hide StringDoc, Unknown, JsonDoc, UseOf, IsJson;
    var m := IncludeMeta(withMeta, s.base.meta, StringDoc(s));
    StringDocIs(s);
    JsonText(m, "format");
    FormatNotExclusive();
  }

  lemma FormatNotExclusive()
    ensures !IsExclusive("format") && !Unknown("format")
  {
    assert |"format"| != |"exclusiveMinimum"| && |"format"| != |"exclusiveMaximum"|;
  }

  lemma FormatSpecial(meta: Doc)
    requires MetaFits(meta, {"format"})
    ensures Special(meta) == if "format" in meta then map["format" := meta["format"]] else map[]
    ensures ExclusivePart(Special(meta)) == map[] && ExclusivePart(map["format" := Str("")]) == map[]
    ensures forall v :: ExclusivePart(map["format" := v]) == map[]
  {
    hide Unknown, IsJson;
    FormatNotExclusive();
  }

  lemma StringBack(full: bool, store: bool, c: Codec, withMeta: bool, s: Schema)
    requires s.StringSchema? && Importable(c, s) && GoodCodec(c) && (full ==> store && withMeta)
    ensures View(full, Import(store, c, Map(JsonDoc(Export(withMeta, s))))) == View(full, Unmarked(s))
  {
    hide IncludeMeta, StringDoc, OnlyRecognised, Unknown, IsNullable, TypeName, JsonDoc, UseOf, MetaFits, ImportedBase,
      ViewBase, ExclusivePart, Special, GetInt, GetStrings, GetString, View, Import, ImportString, Export, FormatFits, PatternFits;
    var out := StringDoc(s);
    var j := JsonDoc(IncludeMeta(withMeta, s.base.meta, out));
    StringFound(c, withMeta, s);
    FormatFound(c, withMeta, s);
    StringDocIs(s);
    FormatSpecial(s.base.meta);
    NoExclusive();
    var own := FormatOwn(c, GetString(j, "format"));
    FormatOwnIs(c, withMeta, s, GetString(j, "format"));
    BaseBack(full, store, withMeta, s.base, out, own, {"format"});
    StringExport(withMeta, s);
    ImportStringIs(store, c, j);
    StringFieldsBack(store, c, s, j);
    SameStringView(full, ImportString(store, c, j), Unmarked(s));
  }

  function FormatOwn(c: Codec, found: Option<string>): Doc {
    if found.Some? && UseOf(c, found.value).OnlyMeta? then map["format" := Str(UseOf(c, found.value).name)] else map[]
  }

  lemma FormatOwnIs(c: Codec, withMeta: bool, s: Schema, found: Option<string>)
    requires s.StringSchema? && FormatFits(c, s) && MetaFits(s.base.meta, {"format"})
    requires if s.format != "" then found == Some(s.format)
      else if withMeta && "format" in s.base.meta then found == Some(s.base.meta["format"].s)
      else found == None
    ensures withMeta ==> FormatOwn(c, found) == Special(s.base.meta)
    ensures ExclusivePart(FormatOwn(c, found)) == map[] == ExclusivePart(Special(s.base.meta))
  {
    hide Unknown, UseOf, IsJson, Special, ExclusivePart, MetaFits;
    FormatSpecial(s.base.meta);
    NoExclusive();
    if found.Some? {
      UseOfName(c, found.value);
    }
  }

  lemma StringExport(withMeta: bool, s: Schema)
    requires s.StringSchema?
    ensures Export(withMeta, s) == IncludeMeta(withMeta, s.base.meta, StringDoc(s))
  {
  }

  lemma ImportStringIs(store: bool, c: Codec, j: Doc)
    requires TypeName(j) == "string"
    ensures Import(store, c, Map(j)) == ImportString(store, c, j)
  {
  }

  lemma StringFieldsBack(store: bool, c: Codec, s: Schema, j: Doc)
    requires s.StringSchema? && FormatFits(c, s) && PatternFits(c, s) && !c.registered("")
    requires GetInt(c, j, "minLength") == s.minLength && GetInt(c, j, "maxLength") == s.maxLength
    requires GetString(j, "pattern") == (if s.pattern.UnwrapOr("") == "" then None else s.pattern)
    requires GetStrings(j, "enum").UnwrapOr([]) == s.enum
    requires if s.format != "" then GetString(j, "format") == Some(s.format)
      else GetString(j, "format") == None || ("format" in s.base.meta && GetString(j, "format") == Some(s.base.meta["format"].s))
    ensures var r := ImportString(store, c, j);
      && r.StringSchema? && r.minLength == s.minLength && r.maxLength == s.maxLength && r.enum == s.enum && r.format == s.format && r.rules == s.rules
      && (if r.pattern.UnwrapOr("") == "" then None else r.pattern) == (if s.pattern.UnwrapOr("") == "" then None else s.pattern)
      && r.base == ImportedBase(store, j, FormatOwn(c, GetString(j, "format")))
  {
    hide UseOf, GetInt, GetStrings, GetString, ImportedBase;
    EmptyUse(c);
    var name := GetString(j, "format");
    if name.Some? {
      UseOfName(c, name.value);
    }
  }

  lemma SameStringView(full: bool, a: Schema, b: Schema)
    requires a.StringSchema? && b.StringSchema? && ViewBase(full, a.base) == ViewBase(full, b.base)
    requires a.minLength == b.minLength && a.maxLength == b.maxLength && a.enum == b.enum && a.format == b.format && a.rules == b.rules
    requires (if a.pattern.UnwrapOr("") == "" then None else a.pattern) == (if b.pattern.UnwrapOr("") == "" then None else b.pattern)
    ensures View(full, a) == View(full, b)
  {
    hide ViewBase;
  }

  lemma EmptyUse(c: Codec)
    requires !c.registered("")
    ensures UseOf(c, "") == OnlyMeta("")
  {
    assert |"email"| > 0 && |"uri"| > 0 && |"url"| > 0 && |"uuid"| > 0;
  }

  lemma UseOfName(c: Codec, name: string)
    ensures UseOf(c, name).Validator? ==> UseOf(c, name).name == name
    ensures UseOf(c, name).OnlyMeta? ==> UseOf(c, name).name == name
  {
  }

  lemma NoExclusive()
    ensures ExclusivePart(map[]) == map[]
  {
  }

  // ---- numbers ----

  predicate BoundWritten(out: Doc, meta: Doc, exclusive: string, inclusive: string, bound: Option<real>) {
    && (exclusive in out <==> exclusive in meta) && (exclusive in meta ==> out[exclusive] == meta[exclusive])
    && (inclusive in out <==> exclusive !in meta && bound.Some?)
    && (exclusive !in meta && bound.Some? ==> out[inclusive] == AsNumber(bound.value))
  }

  lemma NumberDocIs(s: Schema)
    requires s.NumberSchema?
    ensures var out, meta := NumberDoc(s), s.base.meta;
      && OnlyRecognised(out) && "nullable" !in out
      && "type" in out && out["type"] == TypeEntry(if Integer in s.rules then "integer" else "number", s.base.nullable)["type"]
      && BoundWritten(out, meta, "exclusiveMinimum", "minimum", s.min)
      && BoundWritten(out, meta, "exclusiveMaximum", "maximum", s.max)
      && ("multipleOf" in out <==> s.multipleOf.Some?) && (s.multipleOf.Some? ==> out["multipleOf"] == AsNumber(s.multipleOf.value))
  {
  }

  lemma BoundBack(withMeta: bool, s: Schema, out: Doc, exclusive: string, inclusive: string, bound: Option<real>)
    requires MetaFits(s.base.meta, EXCLUSIVE) && ExclusiveFits(s.base.meta, exclusive, bound) && IsExclusive(exclusive)
    requires BoundWritten(out, s.base.meta, exclusive, inclusive, bound) && inclusive in RECOGNISED && inclusive !in EXCLUSIVE
    ensures var j := JsonDoc(IncludeMeta(withMeta, s.base.meta, out));
      && Bound(j, inclusive, exclusive) == bound
      && ExclusiveMeta(j, exclusive) == if exclusive in s.base.meta then map[exclusive := s.base.meta[exclusive]] else map[]
  {
    hide IncludeMeta, JsonDoc, MetaFits;
    var m := IncludeMeta(withMeta, s.base.meta, out);
    ExclusiveRecognised();
    MetaInvisible(withMeta, s.base.meta, out, EXCLUSIVE, exclusive);
    MetaInvisible(withMeta, s.base.meta, out, EXCLUSIVE, inclusive);
    JsonFloat(m, exclusive);
    JsonFloat(m, inclusive);
  }

  lemma NumberFound(withMeta: bool, s: Schema)
    requires s.NumberSchema? && MetaFits(s.base.meta, EXCLUSIVE)
    ensures var j := JsonDoc(IncludeMeta(withMeta, s.base.meta, NumberDoc(s)));
      && TypeName(j) == (if Integer in s.rules then "integer" else "number") && IsNullable(j) == s.base.nullable
      && GetFloat(j, "multipleOf") == s.multipleOf
  {
    hide IncludeMeta, NumberDoc, OnlyRecognised, Unknown, IsNullable, TypeName, JsonDoc, MetaFits, BoundWritten;
    var out := NumberDoc(s);
    var m := IncludeMeta(withMeta, s.base.meta, out);
    NumberDocIs(s);
    NullableKeys();
    TypeNames();
    MultipleKnown();
    MetaInvisible(withMeta, s.base.meta, out, EXCLUSIVE, "type");
    MetaInvisible(withMeta, s.base.meta, out, EXCLUSIVE, "multipleOf");
    MetaInvisible(withMeta, s.base.meta, out, EXCLUSIVE, "nullable");
    NoNullableMark(withMeta, s.base.meta, out, EXCLUSIVE);
    TypeBack(m, if Integer in s.rules then "integer" else "number", s.base.nullable);
    JsonFloat(m, "multipleOf");
  }

  lemma MultipleKnown()
    ensures !Unknown("multipleOf")
    ensures "type" !in EXCLUSIVE && "multipleOf" !in EXCLUSIVE && "nullable" !in EXCLUSIVE && "_nullable" !in EXCLUSIVE
    ensures "minimum" !in EXCLUSIVE && "maximum" !in EXCLUSIVE
  {
    assert |"exclusiveMinimum"| == 16 && |"exclusiveMaximum"| == 16;
  }

  lemma ExclusiveSpecial(meta: Doc)
    requires MetaFits(meta, EXCLUSIVE)
    ensures Special(meta) ==
      (if "exclusiveMinimum" in meta then map["exclusiveMinimum" := meta["exclusiveMinimum"]] else map[])
      + if "exclusiveMaximum" in meta then map["exclusiveMaximum" := meta["exclusiveMaximum"]] else map[]
  {
    hide Unknown, IsJson;
    ExclusiveNotUnknown();
  }

  lemma NumberBack(full: bool, store: bool, c: Codec, withMeta: bool, s: Schema)
    requires s.NumberSchema? && Importable(c, s) && (full ==> store && withMeta)
    ensures View(full, Import(store, c, Map(JsonDoc(Export(withMeta, s))))) == View(full, Unmarked(s))
  {
    hide IncludeMeta, NumberDoc, OnlyRecognised, Unknown, IsNullable, TypeName, JsonDoc, MetaFits, ImportedBase,
      ViewBase, ExclusivePart, Special, GetFloat, Bound, ExclusiveMeta, BoundWritten;
    var out := NumberDoc(s);
    var j := JsonDoc(IncludeMeta(withMeta, s.base.meta, out));
    NumberDocIs(s);
    MultipleKnown();
    NumberFound(withMeta, s);
    BoundBack(withMeta, s, out, "exclusiveMinimum", "minimum", s.min);
    BoundBack(withMeta, s, out, "exclusiveMaximum", "maximum", s.max);
    ExclusiveSpecial(s.base.meta);
    BaseBack(full, store, withMeta, s.base, out, Special(s.base.meta), EXCLUSIVE);
    TypeNames();
    assert Export(withMeta, s) == IncludeMeta(withMeta, s.base.meta, out);
    assert Import(store, c, Map(j)) == ImportNumber(store, j, Integer in s.rules);
  }

  // ---- booleans ----

  lemma SimpleTypeFound(withMeta: bool, base: Base, out: Doc, name: string)
    requires MetaFits(base.meta, {}) && OnlyRecognised(out) && name != "null" && "nullable" !in out
    requires "type" in out && out["type"] == TypeEntry(name, base.nullable)["type"]
    ensures var j := JsonDoc(IncludeMeta(withMeta, base.meta, out)); TypeName(j) == name && IsNullable(j) == base.nullable
  {
    hide IncludeMeta, OnlyRecognised, Unknown, IsNullable, TypeName, JsonDoc, MetaFits;
    var m := IncludeMeta(withMeta, base.meta, out);
    NullableKeys();
    MetaInvisible(withMeta, base.meta, out, {}, "type");
    MetaInvisible(withMeta, base.meta, out, {}, "nullable");
    NoNullableMark(withMeta, base.meta, out, {});
    TypeBack(m, name, base.nullable);
  }

  lemma NothingSpecial(meta: Doc)
    requires MetaFits(meta, {})
    ensures Special(meta) == map[]
  {
    hide Unknown, IsJson;
  }

  lemma TypeRecognised(name: string, nullable: bool)
    ensures OnlyRecognised(TypeEntry(name, nullable)) && "nullable" !in TypeEntry(name, nullable)
  {
    NullableKeys();
  }

  lemma BoolBack(full: bool, store: bool, c: Codec, withMeta: bool, s: Schema)
    requires s.BoolSchema? && Importable(c, s) && (full ==> store && withMeta)
    ensures View(full, Import(store, c, Map(JsonDoc(Export(withMeta, s))))) == View(full, Unmarked(s))
  {
    hide IncludeMeta, OnlyRecognised, Unknown, IsNullable, TypeName, JsonDoc, MetaFits, ImportedBase, ViewBase, ExclusivePart, Special;
    var out := TypeEntry("boolean", s.base.nullable);
    TypeNames();
    TypeRecognised("boolean", s.base.nullable);
    SimpleTypeFound(withMeta, s.base, out, "boolean");
    NothingSpecial(s.base.meta);
    BaseBack(full, store, withMeta, s.base, out, map[], {});
  }

  // ---- arrays ----

  function ArrayDoc(withMeta: bool, s: Schema, element: Option<Value>): Doc
    requires s.ArraySchema?
  {
    var a := TypeEntry("array", s.base.nullable);
    var b := Put(Put(a, "minItems", IntValue(s.minItems)), "maxItems", IntValue(s.maxItems));
    Put(Put(b, "uniqueItems", if s.uniqueItems then Some(Bool(true)) else None), "items", element)
  }

  lemma ArrayKeywords()
    ensures "type" in RECOGNISED && "minItems" in RECOGNISED && "maxItems" in RECOGNISED && "uniqueItems" in RECOGNISED
    ensures "items" in RECOGNISED
    ensures !Unknown("minItems") && !Unknown("maxItems") && !Unknown("uniqueItems") && !Unknown("items")
  {
  }

  lemma ArrayDocIs(withMeta: bool, s: Schema, element: Option<Value>)
    requires s.ArraySchema?
    ensures var out := ArrayDoc(withMeta, s, element);
      && OnlyRecognised(out) && "nullable" !in out
      && "type" in out && out["type"] == TypeEntry("array", s.base.nullable)["type"]
      && ("minItems" in out <==> s.minItems.Some?) && (s.minItems.Some? ==> out["minItems"] == Num(Int, s.minItems.value as real))
      && ("maxItems" in out <==> s.maxItems.Some?) && (s.maxItems.Some? ==> out["maxItems"] == Num(Int, s.maxItems.value as real))
      && ("uniqueItems" in out <==> s.uniqueItems) && (s.uniqueItems ==> out["uniqueItems"] == Bool(true))
      && ("items" in out <==> element.Some?) && (element.Some? ==> out["items"] == element.value)
  {
    ArrayKeywords();
  }

  lemma ArrayFound(c: Codec, withMeta: bool, s: Schema, element: Option<Value>)
    requires s.ArraySchema? && MetaFits(s.base.meta, {}) && IntFits(s.minItems) && IntFits(s.maxItems) && GoodCodec(c)
    ensures var j := JsonDoc(IncludeMeta(withMeta, s.base.meta, ArrayDoc(withMeta, s, element)));
      && TypeName(j) == "array" && IsNullable(j) == s.base.nullable
      && GetInt(c, j, "minItems") == s.minItems && GetInt(c, j, "maxItems") == s.maxItems
      && (GetBool(j, "uniqueItems") == Some(true) <==> s.uniqueItems)
      && ("items" in j <==> element.Some?) && (element.Some? ==> j["items"] == Json(element.value))
  {
    hide IncludeMeta, ArrayDoc, OnlyRecognised, Unknown, IsNullable, TypeName, MetaFits;
    var out := ArrayDoc(withMeta, s, element);
    var m := IncludeMeta(withMeta, s.base.meta, out);
    ArrayDocIs(withMeta, s, element);
    ArrayKeywords();
    TypeNames();
    SimpleTypeFound(withMeta, s.base, out, "array");
    MetaInvisible(withMeta, s.base.meta, out, {}, "minItems");
    MetaInvisible(withMeta, s.base.meta, out, {}, "maxItems");
    MetaInvisible(withMeta, s.base.meta, out, {}, "uniqueItems");
    MetaInvisible(withMeta, s.base.meta, out, {}, "items");
    JsonFloat(m, "minItems");
    JsonFloat(m, "maxItems");
    JsonText(m, "uniqueItems");
  }

  lemma {:induction false} ArrayBack(full: bool, store: bool, c: Codec, withMeta: bool, s: Schema)
    requires s.ArraySchema? && Importable(c, s) && GoodCodec(c) && (full ==> store && withMeta)
    ensures View(full, Import(store, c, Map(JsonDoc(Export(withMeta, s))))) == View(full, Unmarked(s))
    decreases s, 0
  {
    hide IncludeMeta, ArrayDoc, OnlyRecognised, Unknown, IsNullable, TypeName, MetaFits, ImportedBase, ViewBase, ExclusivePart,
      Special, GetInt, GetBool, JsonDoc, GoodCodec, View, Import, Export;
    var element := if s.element.None? then None else Some(Map(Export(withMeta, s.element.value)));
    var out := ArrayDoc(withMeta, s, element);
    var j := JsonDoc(IncludeMeta(withMeta, s.base.meta, out));
    ArrayDocIs(withMeta, s, element);
    ArrayFound(c, withMeta, s, element);
    NothingSpecial(s.base.meta);
    BaseBack(full, store, withMeta, s.base, out, map[], {});
    ArrayExport(withMeta, s);
    ImportArray(store, c, j);
    if s.element.Some? {
      JsonOfDoc(Export(withMeta, s.element.value));
      NodeBack(full, store, c, withMeta, s.element.value);
    }
    SameArrayView(full, Import(store, c, Map(j)), Unmarked(s));
  }

  lemma ImportArray(store: bool, c: Codec, j: Doc)
    requires TypeName(j) == "array"
    ensures Import(store, c, Map(j)) ==
      ArraySchema(ImportedBase(store, j, map[]),
        if "items" in j && j["items"].Map? then Some(Import(store, c, j["items"])) else None,
        GetInt(c, j, "minItems"), GetInt(c, j, "maxItems"), GetBool(j, "uniqueItems") == Some(true), [], true)
  {
    TypeNames();
  }

  lemma SameArrayView(full: bool, a: Schema, b: Schema)
    requires a.ArraySchema? && b.ArraySchema? && ViewBase(full, a.base) == ViewBase(full, b.base)
    requires a.element.Some? <==> b.element.Some?
    requires a.element.Some? ==> View(full, a.element.value) == View(full, b.element.value)
    requires a.minItems == b.minItems && a.maxItems == b.maxItems && a.uniqueItems == b.uniqueItems
    requires a.rules == b.rules && a.transformable == b.transformable
    ensures View(full, a) == View(full, b)
  {
    hide ViewBase;
  }

  lemma ArrayExport(withMeta: bool, s: Schema)
    requires s.ArraySchema?
    ensures var element := if s.element.None? then None else Some(Map(Export(withMeta, s.element.value)));
      Export(withMeta, s) == IncludeMeta(withMeta, s.base.meta, ArrayDoc(withMeta, s, element))
  {
    hide IncludeMeta, Put, TypeEntry;
  }

  lemma JsonOfDoc(m: Doc)
    ensures Json(Map(m)) == Map(JsonDoc(m))
  {
  }

  // ---- objects ----

  ghost function PropertiesValue(withMeta: bool, s: Schema): Option<Value>
    requires s.ObjectSchema?
  {
    if s.fields == map[] then None else Some(Map(map k | k in s.fields :: Map(Export(withMeta, s.fields[k]))))
  }

  function ObjectDoc(s: Schema, properties: Option<Value>, required: Option<Value>): Doc
    requires s.ObjectSchema?
  {
    var a := Put(TypeEntry("object", s.base.nullable), "properties", properties);
    Put(Put(a, "required", required), "additionalProperties", match s.additional case None => None case Some(x) => Some(Bool(x)))
  }

  lemma ObjectExport(withMeta: bool, s: Schema)
    requires s.ObjectSchema?
    ensures Export(withMeta, s) ==
      IncludeMeta(withMeta, s.base.meta, ObjectDoc(s, PropertiesValue(withMeta, s), ListValue(RequiredOf(s))))
  {
    hide IncludeMeta, Put, TypeEntry, RequiredOf, ListValue;
  }

  lemma ObjectKeywords()
    ensures "type" in RECOGNISED && "properties" in RECOGNISED && "required" in RECOGNISED && "additionalProperties" in RECOGNISED
    ensures !Unknown("properties") && !Unknown("required") && !Unknown("additionalProperties")
  {
  }

  lemma ObjectDocIs(s: Schema, properties: Option<Value>, required: Option<Value>)
    requires s.ObjectSchema?
    ensures var out := ObjectDoc(s, properties, required);
      && OnlyRecognised(out) && "nullable" !in out
      && "type" in out && out["type"] == TypeEntry("object", s.base.nullable)["type"]
      && ("properties" in out <==> properties.Some?) && (properties.Some? ==> out["properties"] == properties.value)
      && ("required" in out <==> required.Some?) && (required.Some? ==> out["required"] == required.value)
      && ("additionalProperties" in out <==> s.additional.Some?)
      && (s.additional.Some? ==> out["additionalProperties"] == Bool(s.additional.value))
  {
    ObjectKeywords();
  }

  lemma ObjectFound(withMeta: bool, s: Schema, properties: Option<Value>, required: Option<Value>)
    requires s.ObjectSchema? && MetaFits(s.base.meta, {})
    ensures var j := JsonDoc(IncludeMeta(withMeta, s.base.meta, ObjectDoc(s, properties, required)));
      && TypeName(j) == "object" && IsNullable(j) == s.base.nullable
      && ("properties" in j <==> properties.Some?) && (properties.Some? ==> j["properties"] == Json(properties.value))
      && ("required" in j <==> required.Some?) && (required.Some? ==> j["required"] == Json(required.value))
      && Additional(j) == s.additional && AdditionalMeta(j) == map[]
  {
    hide IncludeMeta, ObjectDoc, OnlyRecognised, Unknown, IsNullable, TypeName, MetaFits;
    var out := ObjectDoc(s, properties, required);
    ObjectDocIs(s, properties, required);
    ObjectKeywords();
    TypeNames();
    SimpleTypeFound(withMeta, s.base, out, "object");
    MetaInvisible(withMeta, s.base.meta, out, {}, "properties");
    MetaInvisible(withMeta, s.base.meta, out, {}, "required");
    MetaInvisible(withMeta, s.base.meta, out, {}, "additionalProperties");
  }

  lemma RequiredBack(j: Doc, names: seq<string>)
    requires ("required" in j <==> ListValue(names).Some?) && (ListValue(names).Some? ==> j["required"] == Json(ListValue(names).value))
    ensures RequiredNames(j) == Elements(names)
  {
    if names != [] {
      var items := ListValue(names).value.items;
      JsonOfStrings(items);
      forall x
        ensures x in RequiredNames(j) <==> x in names
      {
        if x in names {
          var i :| 0 <= i < |names| && names[i] == x;
          assert items[i].s == x;
        }
      }
    }
  }

  lemma RequiredOfImportable(c: Codec, s: Schema)
    requires s.ObjectSchema? && Importable(c, s)
    ensures Elements(RequiredOf(s)) == s.requiredFields
    ensures forall k :: k in s.requiredFields <==> k in s.fields && s.fields[k].base.required
  {
    hide MetaFits;
    forall k | k in s.fields
      ensures IsRequired(s.fields[k]) == s.fields[k].base.required
    {
      assert Importable(c, s.fields[k]);
    }
  }

  lemma ViewMarked(full: bool, s: Schema, required: bool)
    ensures View(full, Marked(s, required)) == Marked(View(full, s), required)
    ensures required == s.base.required ==> Marked(View(full, Unmarked(s)), required) == View(full, s)
  {
    hide View;
    ViewUpdate(full, s, true);
    ViewUpdate(full, s, false);
    ViewUpdate(full, Unmarked(s), true);
    SameBase(s);
  }

  lemma ViewUpdate(full: bool, s: Schema, required: bool)
    ensures View(full, s.(base := s.base.(required := required))) ==
      View(full, s).(base := View(full, s).base.(required := required))
  {
    hide ExclusivePart;
  }

  lemma SameBase(s: Schema)
    ensures s.(base := s.base.(required := s.base.required)) == s
  {
  }

  lemma {:induction false} ObjectBack(full: bool, store: bool, c: Codec, withMeta: bool, s: Schema)
    requires s.ObjectSchema? && Importable(c, s) && GoodCodec(c) && (full ==> store && withMeta)
    ensures View(full, Import(store, c, Map(JsonDoc(Export(withMeta, s))))) == View(full, Unmarked(s))
    decreases s, 1
  {
    hide View, Import, Export, ImportedFields, Properties, PropertiesValue, IncludeMeta, ObjectDoc, OnlyRecognised, Unknown, IsNullable, TypeName, MetaFits, ImportedBase, ViewBase, ExclusivePart,
      Special, RequiredNames, JsonDoc, GoodCodec, ListValue, RequiredOf, Elements, Additional, AdditionalMeta, Importable;
    var properties, required := PropertiesValue(withMeta, s), ListValue(RequiredOf(s));
    var out := ObjectDoc(s, properties, required);
    var j := JsonDoc(IncludeMeta(withMeta, s.base.meta, out));
    ImportableObject(c, s);
    ObjectExport(withMeta, s);
    ObjectDocIs(s, properties, required);
    ObjectFound(withMeta, s, properties, required);
    NothingSpecial(s.base.meta);
    BaseBack(full, store, withMeta, s.base, out, map[], {});
    RequiredBack(j, RequiredOf(s));
    RequiredOfImportable(c, s);
    PropertiesBack(withMeta, s, j);
    ImportObject(store, c, j);
    FieldsBack(full, store, c, withMeta, s, j);
    SameObjectView(full, Import(store, c, Map(j)), Unmarked(s));
  }

  function ImportedFields(store: bool, c: Codec, j: Doc): map<string, Schema> {
    map k | k in Properties(j) && Properties(j)[k].Map? :: Marked(Import(store, c, Properties(j)[k]), k in RequiredNames(j))
  }

  lemma ImportObject(store: bool, c: Codec, j: Doc)
    requires TypeName(j) == "object"
    ensures Import(store, c, Map(j)) ==
      ObjectSchema(ImportedBase(store, j, AdditionalMeta(j)), ImportedFields(store, c, j),
        (set k | k in Properties(j) && Properties(j)[k].Map? && k in RequiredNames(j)), Additional(j), [], true)
  {
    hide RequiredNames, Properties, Additional, AdditionalMeta, ImportedBase, TypeName;
    TypeNames();
  }

  lemma {:induction false} FieldsBack(full: bool, store: bool, c: Codec, withMeta: bool, s: Schema, j: Doc)
    requires s.ObjectSchema? && GoodCodec(c) && (full ==> store && withMeta)
    requires forall k | k in s.fields :: Importable(c, s.fields[k])
    requires Properties(j).Keys == s.fields.Keys
    requires forall k | k in s.fields :: Properties(j)[k] == Map(JsonDoc(Export(withMeta, s.fields[k])))
    requires forall k | k in s.fields :: k in RequiredNames(j) <==> s.fields[k].base.required
    ensures ImportedFields(store, c, j).Keys == s.fields.Keys
    ensures forall k | k in s.fields :: View(full, ImportedFields(store, c, j)[k]) == View(full, s.fields[k])
    decreases s, 0
  {
    hide Import, Export, JsonDoc, View, RequiredNames, Properties, GoodCodec, Importable;
    forall k | k in s.fields
      ensures View(full, ImportedFields(store, c, j)[k]) == View(full, s.fields[k])
    {
      var doc := JsonDoc(Export(withMeta, s.fields[k]));
      NodeBack(full, store, c, withMeta, s.fields[k]);
      ViewMarked(full, Import(store, c, Map(doc)), k in RequiredNames(j));
      ViewMarked(full, s.fields[k], k in RequiredNames(j));
    }
  }

  lemma SameObjectView(full: bool, a: Schema, b: Schema)
    requires a.ObjectSchema? && b.ObjectSchema? && ViewBase(full, a.base) == ViewBase(full, b.base)
    requires a.fields.Keys == b.fields.Keys && forall k | k in a.fields :: View(full, a.fields[k]) == View(full, b.fields[k])
    requires a.requiredFields == b.requiredFields && a.additional == b.additional
    requires a.rules == b.rules && a.transformable == b.transformable
    ensures View(full, a) == View(full, b)
  {
    hide ViewBase, View;
    ViewObject(full, a);
    ViewObject(full, b);
    assert ViewFields(full, a.fields) == ViewFields(full, b.fields);
  }

  function ViewFields(full: bool, fields: map<string, Schema>): map<string, Schema> {
    map k | k in fields :: View(full, fields[k])
  }

  lemma ViewObject(full: bool, s: Schema)
    requires s.ObjectSchema?
    ensures View(full, s) == ObjectSchema(ViewBase(full, s.base), ViewFields(full, s.fields), s.requiredFields, s.additional, s.rules, s.transformable)
  {
    hide ViewBase;
  }

  lemma ImportableObject(c: Codec, s: Schema)
    requires s.ObjectSchema? && Importable(c, s)
    ensures MetaFits(s.base.meta, {}) && s.rules == [] && s.transformable
    ensures forall k | k in s.fields :: Importable(c, s.fields[k])
  {
  }

  lemma PropertiesBack(withMeta: bool, s: Schema, j: Doc)
    requires s.ObjectSchema?
    requires var properties := PropertiesValue(withMeta, s);
      ("properties" in j <==> properties.Some?) && (properties.Some? ==> j["properties"] == Json(properties.value))
    ensures Properties(j).Keys == s.fields.Keys
    ensures forall k | k in s.fields :: Properties(j)[k] == Map(JsonDoc(Export(withMeta, s.fields[k])))
  {
    hide Export;
    forall k | k in s.fields
      ensures Json(Map(Export(withMeta, s.fields[k]))) == Map(JsonDoc(Export(withMeta, s.fields[k])))
    {
      JsonOfDoc(Export(withMeta, s.fields[k]));
    }
  }

  // ---- the round trip ----

  /** Importing the exported document of an importable schema gives the schema back. */
  lemma {:induction false} NodeBack(full: bool, store: bool, c: Codec, withMeta: bool, s: Schema)
    requires Importable(c, s) && GoodCodec(c) && (full ==> store && withMeta)
    ensures View(full, Import(store, c, Map(JsonDoc(Export(withMeta, s))))) == View(full, Unmarked(s))
    decreases s, 2
  {
    hide Export, JsonDoc, View, Import, GoodCodec;
    if s.StringSchema? {
      StringBack(full, store, c, withMeta, s);
    } else if s.NumberSchema? {
      NumberBack(full, store, c, withMeta, s);
    } else if s.BoolSchema? {
      BoolBack(full, store, c, withMeta, s);
    } else if s.ObjectSchema? {
      ObjectBack(full, store, c, withMeta, s);
    } else {
      ArrayBack(full, store, c, withMeta, s);
    }
  }

  // ---- what an import produces ----

  lemma JsonParts(v: Value)
    requires IsJson(v)
    ensures v.Map? ==> forall k | k in v.entries :: IsJson(v.entries[k])
    ensures v.Num? ==> v.kind.Float64?
  {
    if v.Map? {
      assert Json(v).entries == v.entries;
      forall k | k in v.entries
        ensures IsJson(v.entries[k])
      {
        assert Json(v).entries[k] == Json(v.entries[k]);
      }
    }
  }

  lemma ImportedMetaFits(store: bool, raw: Doc, own: Doc, extra: set<string>)
    requires IsJson(Map(raw)) && forall k | k in own :: (Unknown(k) || k in extra) && IsJson(own[k])
    ensures MetaFits(ImportedBase(store, raw, own).meta, extra)
  {
    hide Unknown, IsNullable, IsJson;
    JsonParts(Map(raw));
  }

  lemma UseTwice(c: Codec, name: string)
    requires !c.registered("")
    ensures match UseOf(c, name)
      case BuiltIn(format, pattern) => format != "" && UseOf(c, format) == BuiltIn(format, pattern)
      case Validator(n) => n == name && n != ""
      case OnlyMeta(n) => n == name
  {
    assert |"email"| == 5 && |"url"| == 3 && |"uuid"| == 4 && |"uri"| == 3;
    assert "url" != "uri" by {
      assert "url"[2] != "uri"[2];
    }
  }

  lemma TextIsJson(t: string)
    ensures IsJson(Str(t))
  {
  }

  lemma ImportedString(store: bool, c: Codec, raw: Doc)
    requires IsJson(Map(raw)) && GoodCodec(c)
    ensures Importable(c, ImportString(store, c, raw)) && !ImportString(store, c, raw).base.required
  {
    hide UseOf, MetaFits, IsNullable, GetStrings, IsJson, Unknown;
    FormatNotExclusive();
    ImportedMetaFits(store, raw, map[], {"format"});
    var name := GetString(raw, "format");
    if name.Some? {
      UseTwice(c, name.value);
      TextIsJson(name.value);
      ImportedMetaFits(store, raw, map["format" := Str(name.value)], {"format"});
    }
  }

  lemma ExclusiveOwn(raw: Doc)
    ensures var own := ExclusiveMeta(raw, "exclusiveMinimum") + ExclusiveMeta(raw, "exclusiveMaximum");
      && (forall k | k in own :: k in EXCLUSIVE && IsJson(own[k]))
      && ("exclusiveMinimum" in own <==> GetFloat(raw, "exclusiveMinimum").Some?)
      && ("exclusiveMinimum" in own ==> own["exclusiveMinimum"] == AsNumber(GetFloat(raw, "exclusiveMinimum").value))
      && ("exclusiveMaximum" in own <==> GetFloat(raw, "exclusiveMaximum").Some?)
      && ("exclusiveMaximum" in own ==> own["exclusiveMaximum"] == AsNumber(GetFloat(raw, "exclusiveMaximum").value))
  {
    hide GetFloat;
  }

  lemma ImportedNumber(store: bool, c: Codec, raw: Doc, integer: bool)
    requires IsJson(Map(raw))
    ensures Importable(c, ImportNumber(store, raw, integer)) && !ImportNumber(store, raw, integer).base.required
  {
    hide MetaFits, IsNullable, IsJson, Unknown, GetFloat, ExclusiveMeta;
    var own := ExclusiveMeta(raw, "exclusiveMinimum") + ExclusiveMeta(raw, "exclusiveMaximum");
    ExclusiveOwn(raw);
    ExclusiveRecognised();
    ImportedMetaFits(store, raw, own, EXCLUSIVE);
  }

  /** Every import of a parsed document gives an importable schema, not marked as required. */
  lemma {:induction false} ImportedFits(store: bool, c: Codec, v: Value)
    requires v.Map? && IsJson(v) && GoodCodec(c)
    ensures Importable(c, Import(store, c, v)) && !Import(store, c, v).base.required
    decreases v, 2
  {
    hide ImportString, ImportNumber, MetaFits, TypeName, IsJson, ImportedBase, Importable, GoodCodec;
    var raw, name := v.entries, TypeName(v.entries);
    assert v == Map(raw);
    if name == "string" {
      ImportedString(store, c, raw);
    } else if name == "number" || name == "integer" {
      ImportedNumber(store, c, raw, name == "integer");
      TypeNames();
    } else if name == "boolean" {
      ImportedBool(store, c, raw);
    } else if name == "object" {
      ImportedObject(store, c, raw);
      ImportObject(store, c, raw);
    } else if name == "array" {
      ImportedArray(store, c, raw);
      ImportArray(store, c, raw);
    } else {
      FallbackFits(c);
    }
  }

  lemma FallbackFits(c: Codec)
    ensures Importable(c, Fallback())
  {
  }

  lemma ImportedBool(store: bool, c: Codec, raw: Doc)
    requires IsJson(Map(raw))
    ensures Importable(c, BoolSchema(ImportedBase(store, raw, map[]), [])) && !ImportedBase(store, raw, map[]).required
  {
    hide MetaFits, IsJson;
    ImportedMetaFits(store, raw, map[], {});
  }

  lemma AdditionalKeyUnknown()
    ensures Unknown("additionalPropertiesSchema")
  {
    var key := "additionalPropertiesSchema";
    assert |key| == 26;
    RecognisedShort();
    UnsupportedShort();
    assert |"_nullable"| == 9;
  }

  lemma RecognisedShort()
    ensures forall k | k in RECOGNISED :: |k| < 26
  {
  }

  lemma UnsupportedShort()
    ensures forall k | k in UNSUPPORTED :: |k| < 26
  {
  }

  lemma {:induction false} ImportedObject(store: bool, c: Codec, raw: Doc)
    requires IsJson(Map(raw)) && GoodCodec(c)
    ensures
      var s := ObjectSchema(ImportedBase(store, raw, AdditionalMeta(raw)), ImportedFields(store, c, raw),
        (set k | k in Properties(raw) && Properties(raw)[k].Map? && k in RequiredNames(raw)), Additional(raw), [], true);
      Importable(c, s) && !s.base.required
    decreases Map(raw), 1
  {
    hide MetaFits, IsJson, Unknown, Import, RequiredNames, GoodCodec, IsNullable, Importable, ImportedFields, Properties;
    ImportedObjectMeta(store, raw);
    ImportedFieldsFit(store, c, raw);
    ObjectFits(c, ImportedBase(store, raw, AdditionalMeta(raw)), ImportedFields(store, c, raw),
      (set k | k in Properties(raw) && Properties(raw)[k].Map? && k in RequiredNames(raw)), Additional(raw));
  }

  lemma ImportedObjectMeta(store: bool, raw: Doc)
    requires IsJson(Map(raw))
    ensures MetaFits(ImportedBase(store, raw, AdditionalMeta(raw)).meta, {})
  {
    hide MetaFits, IsJson, Unknown, IsNullable;
    JsonParts(Map(raw));
    AdditionalKeyUnknown();
    ImportedMetaFits(store, raw, AdditionalMeta(raw), {});
  }

  lemma ObjectFits(c: Codec, base: Base, fields: map<string, Schema>, required: set<string>, additional: Option<bool>)
    requires MetaFits(base.meta, {}) && forall k | k in fields :: Importable(c, fields[k])
    requires forall k :: k in required <==> k in fields && fields[k].base.required
    ensures Importable(c, ObjectSchema(base, fields, required, additional, [], true))
  {
    hide MetaFits;
  }

  lemma {:induction false} ImportedFieldsFit(store: bool, c: Codec, raw: Doc)
    requires IsJson(Map(raw)) && GoodCodec(c)
    ensures var fields := ImportedFields(store, c, raw);
      && (forall k | k in fields :: Importable(c, fields[k]))
      && forall k | k in fields :: fields[k].base.required <==> k in RequiredNames(raw)
    ensures forall k :: k in ImportedFields(store, c, raw) <==> k in Properties(raw) && Properties(raw)[k].Map?
    decreases Map(raw), 0
  {
    hide MetaFits, IsJson, Unknown, Import, RequiredNames, GoodCodec, IsNullable, Importable;
    JsonParts(Map(raw));
    forall k | k in ImportedFields(store, c, raw)
      ensures Importable(c, ImportedFields(store, c, raw)[k])
      ensures ImportedFields(store, c, raw)[k].base.required <==> k in RequiredNames(raw)
    {
      JsonParts(raw["properties"]);
      ImportedFits(store, c, Properties(raw)[k]);
      MarkedFits(c, Import(store, c, Properties(raw)[k]), k in RequiredNames(raw));
    }
  }

  lemma MarkedFits(c: Codec, s: Schema, required: bool)
    requires Importable(c, s)
    ensures Importable(c, Marked(s, required))
  {
    hide MetaFits, GoodCodec, UseOf;
  }

  lemma {:induction false} ImportedArray(store: bool, c: Codec, raw: Doc)
    requires IsJson(Map(raw)) && GoodCodec(c)
    ensures
      var s := ArraySchema(ImportedBase(store, raw, map[]),
        if "items" in raw && raw["items"].Map? then Some(Import(store, c, raw["items"])) else None,
        GetInt(c, raw, "minItems"), GetInt(c, raw, "maxItems"), GetBool(raw, "uniqueItems") == Some(true), [], true);
      Importable(c, s) && !s.base.required
    decreases Map(raw), 0
  {
    hide MetaFits, IsJson, Unknown, Import, IsNullable;
    JsonParts(Map(raw));
    ImportedMetaFits(store, raw, map[], {});
    if "items" in raw && raw["items"].Map? {
      ImportedFits(store, c, raw["items"]);
    }
  }

  /** The main result: import, export, import is import. */
  lemma ImportAfterExport(full: bool, first: bool, second: bool, c: Codec, withMeta: bool, v: Value)
    requires v.Map? && IsJson(v) && GoodCodec(c) && (full ==> second && withMeta)
    ensures var s := Import(first, c, v);
      View(full, Import(second, c, Json(Map(Export(withMeta, s))))) == View(full, s)
  {
    hide Import, Export, View, Importable, GoodCodec, Json, JsonDoc;
    var s := Import(first, c, v);
    ImportedFits(first, c, v);
    NodeBack(full, second, c, withMeta, s);
    JsonOfDoc(Export(withMeta, s));
  }

  lemma EmptyRegistered(c: Codec)
    requires c.registered("")
    ensures UseOf(c, "") == Validator("")
  {
    assert |"email"| > 0 && |"uri"| > 0 && |"url"| > 0 && |"uuid"| > 0 && |"date"| > 0 && |"time"| > 0 && |"date-time"| > 0;
  }

  /** A validator registered under the empty name is lost: the schema does not show it. */
  lemma EmptyFormatLost(c: Codec, full: bool, first: bool, second: bool, withMeta: bool)
    requires c.registered("")
    ensures
      var v := Map(map["type" := Str("string"), "format" := Str("")]);
      IsJson(v) && !Returns(full, first, second, c, withMeta, v)
  {
    hide UseOf, JsonDoc, Unknown, Import, Export, TypeName, View;
    var s := Import(first, c, Map(map["type" := Str("string"), "format" := Str("")]));
    var out := Export(withMeta, s);
    EmptyFormatDoc(c, first, withMeta);
    NotThere(out, "format");
    JsonText(out, "type");
    JsonOfDoc(out);
    NoRules(c, second, JsonDoc(out));
    ViewRules(full, s);
    ViewRules(full, Import(second, c, Map(JsonDoc(out))));
  }

  lemma EmptyFormatDoc(c: Codec, store: bool, withMeta: bool)
    requires c.registered("")
    ensures
      var s := Import(store, c, Map(map["type" := Str("string"), "format" := Str("")]));
      && s.StringSchema? && s.rules == [Format("")]
      && "format" !in Export(withMeta, s) && GetString(Export(withMeta, s), "type") == Some("string")
  {
    FormatNotExclusive();
    EmptyRegistered(c);
    hide UseOf, Unknown;
    var raw := map["type" := Str("string"), "format" := Str("")];
    assert GetString(raw, "format") == Some("");
    var s := Import(store, c, Map(raw));
    assert s.format == "" && "format" !in s.base.meta;
    assert Export(withMeta, s)["type"] == Str("string");
  }

  lemma NoRules(c: Codec, store: bool, raw: Doc)
    requires GetString(raw, "type") == Some("string") && "format" !in raw
    ensures Import(store, c, Map(raw)).StringSchema? && Import(store, c, Map(raw)).rules == []
  {
    hide IsNullable;
  }

  lemma ViewRules(full: bool, s: Schema)
    requires s.StringSchema?
    ensures View(full, s).StringSchema? && View(full, s).rules == s.rules
  {
  }

  /** Import, export, import is import, for this document and these options. */
  ghost predicate Returns(full: bool, first: bool, second: bool, c: Codec, withMeta: bool, v: Value)
    requires v.Map?
  {
    var s := Import(first, c, v);
    View(full, Import(second, c, Json(Map(Export(withMeta, s))))) == View(full, s)
  }

  /** Every document comes back, whatever the options, exactly when no format has the empty name. */
  lemma RoundTripExact(c: Codec)
    requires GoodInts(c)
    ensures !c.registered("") <==>
      forall full, first, second, withMeta, v: Value
        | v.Map? && IsJson(v) && (full ==> second && withMeta) :: Returns(full, first, second, c, withMeta, v)
  {
    hide Returns, GoodInts, IsJson;
    if c.registered("") {
      EmptyFormatLost(c, false, false, false, false);
    } else {
      forall full, first, second, withMeta, v: Value | v.Map? && IsJson(v) && (full ==> second && withMeta)
        ensures Returns(full, first, second, c, withMeta, v)
      {
        ComesBack(full, first, second, c, withMeta, v);
      }
    }
  }

  lemma ComesBack(full: bool, first: bool, second: bool, c: Codec, withMeta: bool, v: Value)
    requires v.Map? && IsJson(v) && GoodCodec(c) && (full ==> second && withMeta)
    ensures Returns(full, first, second, c, withMeta, v)
  {
    hide Import, Export, View, Json;
    ImportAfterExport(full, first, second, c, withMeta, v);
  }
}
