/**
 What an import reports besides the schema: errors and warnings with their places in the document.
 Nothing is reported exactly for documents of the supported subset, strict mode only turns warnings
 about unsupported keywords into errors, and documents that an export writes are quiet.
 */
module JsonSchemaProblems {
  import opened Values
  import opened Keys
  import opened Schemas
  import opened JsonSchema
  import opened JsonRoundTrip

  datatype Cause =
    | Unsupported | OddType | NoType(name: string) | BadRegex | NotAnObject
    | UnknownFormat(name: string) | NotEnforced

  datatype Problem = Problem(path: string, keyword: string, cause: Cause, warning: bool)

  function Inside(path: string, suffix: string): string {
    if path == "" then suffix else path + "." + suffix
  }

  /** The first `n` of `names` that the document has: warnings, or errors in strict mode. */
  function Flagged(strict: bool, raw: Doc, names: seq<string>, n: nat, path: string): seq<Problem>
    requires n <= |names|
  {
    if n == 0 then []
    else
      Flagged(strict, raw, names, n - 1, path) +
      if names[n - 1] in raw then [Problem(path, names[n - 1], Unsupported, !strict)] else []
  }

  function TypeProblems(raw: Doc, path: string): seq<Problem> {
    if "type" in raw && !raw["type"].Str? && !raw["type"].List? then [Problem(path, "type", OddType, false)] else []
  }

  /** Formats with a validator or a pattern of their own, and those kept as metadata without notice. */
  predicate FormatKnown(c: Codec, name: string) {
    !UseOf(c, name).OnlyMeta? || name == "date-time" || name == "date" || name == "time"
  }

  function TextProblems(c: Codec, raw: Doc, path: string): seq<Problem> {
    var pattern, format := GetString(raw, "pattern"), GetString(raw, "format");
    (if pattern.Some? && !c.compiles(pattern.value) then [Problem(path, "pattern", BadRegex, false)] else [])
    + (if format.Some? && !FormatKnown(c, format.value) then [Problem(path, "format", UnknownFormat(format.value), true)] else [])
  }

  function AdditionalProblems(raw: Doc, path: string): seq<Problem> {
    if "additionalProperties" in raw && raw["additionalProperties"].Map? then
      [Problem(path, "additionalProperties", NotEnforced, true)]
    else []
  }

  /** Everything that is reported about a node at `path`, in order. */
  ghost function Problems(c: Codec, strict: bool, v: Value, path: string): seq<Problem>
    requires v.Map?
    decreases v, 2
  {
    var names := Sorted(UNSUPPORTED);
    Flagged(strict, v.entries, names, |names|, path) + (TypeProblems(v.entries, path) + OwnProblems(c, strict, v, path))
  }

  ghost function OwnProblems(c: Codec, strict: bool, v: Value, path: string): seq<Problem>
    requires v.Map?
    decreases v, 1
  {
    var raw, name := v.entries, TypeName(v.entries);
    if name == "string" then TextProblems(c, raw, path)
    else if name == "number" || name == "integer" || name == "boolean" then []
    else if name == "object" then
      (if "properties" in raw then PropertiesProblems(c, strict, raw["properties"], path) else []) + AdditionalProblems(raw, path)
    else if name == "array" then
      (if "items" in raw then ItemsProblems(c, strict, raw["items"], Inside(path, "items")) else [])
    else [Problem(path, "type", NoType(name), false)]
  }

  ghost function ItemsProblems(c: Codec, strict: bool, items: Value, path: string): seq<Problem>
    decreases items, 3
  {
    if items.Map? then Problems(c, strict, items, path) else [Problem(path, "items", NotAnObject, false)]
  }

  ghost function PropertiesProblems(c: Codec, strict: bool, props: Value, path: string): seq<Problem>
    decreases props, 1
  {
    if !props.Map? then [Problem(path, "properties", NotAnObject, false)]
    else var keys := Sorted(props.entries.Keys); FieldsProblems(c, strict, props, keys, |keys|, path)
  }

  /** The first `n` properties. */
  ghost function FieldsProblems(c: Codec, strict: bool, props: Value, keys: seq<string>, n: nat, path: string): seq<Problem>
    requires props.Map? && n <= |keys| && forall i | 0 <= i < |keys| :: keys[i] in props.entries
    decreases props, 0, n
  {
    if n == 0 then []
    else
      FieldsProblems(c, strict, props, keys, n - 1, path) +
      FieldProblems(c, strict, props.entries[keys[n - 1]], Inside(path, "properties." + keys[n - 1]))
  }

  ghost function FieldProblems(c: Codec, strict: bool, field: Value, path: string): seq<Problem>
    decreases field, 3
  {
    if field.Map? then Problems(c, strict, field, path) else [Problem(path, "properties", NotAnObject, false)]
  }

  // ---- the supported subset ----

  predicate NoneUnsupported(raw: Doc) {
    forall k | k in raw :: k !in UNSUPPORTED
  }

  /** Documents made of the keywords that are carried over, and of nothing that is dropped or set aside. */
  predicate Supported(c: Codec, v: Value)
    decreases v, 1
  {
    v.Map? && NoneUnsupported(v.entries) && OwnSupported(c, v)
  }

  predicate OwnSupported(c: Codec, v: Value)
    requires v.Map?
    decreases v, 0
  {
    var raw, name := v.entries, TypeName(v.entries);
    if name == "string" then
      && (GetString(raw, "pattern").Some? ==> c.compiles(GetString(raw, "pattern").value))
      && (GetString(raw, "format").Some? ==> FormatKnown(c, GetString(raw, "format").value))
    else if name == "object" then
      && ("properties" in raw ==>
            raw["properties"].Map? &&
            forall k | k in raw["properties"].entries :: Supported(c, raw["properties"].entries[k]))
      && ("additionalProperties" in raw ==> !raw["additionalProperties"].Map?)
    else if name == "array" then "items" in raw ==> Supported(c, raw["items"])
    else name == "number" || name == "integer" || name == "boolean"
  }

  lemma {:induction false} FlaggedNone(strict: bool, raw: Doc, names: seq<string>, n: nat, path: string)
    requires n <= |names|
    ensures Flagged(strict, raw, names, n, path) == [] <==> forall i | 0 <= i < n :: names[i] !in raw
  {
    if n > 0 {
      FlaggedNone(strict, raw, names, n - 1, path);
    }
  }

  lemma UnsupportedNone(strict: bool, raw: Doc, path: string)
    ensures var names := Sorted(UNSUPPORTED); Flagged(strict, raw, names, |names|, path) == [] <==> NoneUnsupported(raw)
  {
    hide Elements, Ascending;
    var names := Sorted(UNSUPPORTED);
    FlaggedNone(strict, raw, names, |names|, path);
    forall k | k in UNSUPPORTED
      ensures exists i :: 0 <= i < |names| && names[i] == k
    {
      SortedHas(UNSUPPORTED, k);
    }
  }

  /** A type that is neither a name nor a list is no type: it is reported once more as missing. */
  lemma OddTypeHasNoName(c: Codec, v: Value, path: string)
    requires v.Map?
    ensures TypeProblems(v.entries, path) != [] ==> !OwnSupported(c, v)
  {
    assert |""| == 0;
  }

  /** The main result: an import reports nothing exactly for supported documents, strict or not, anywhere. */
  lemma {:induction false} NothingReported(c: Codec, strict: bool, v: Value, path: string)
    requires v.Map?
    ensures Problems(c, strict, v, path) == [] <==> Supported(c, v)
    decreases v, 2
  {
    hide Flagged, TypeName, TypeProblems, OwnProblems, OwnSupported, Elements, Ascending, NoneUnsupported;
    UnsupportedNone(strict, v.entries, path);
    OddTypeHasNoName(c, v, path);
    OwnNone(c, strict, v, path);
  }

  lemma {:induction false} OwnNone(c: Codec, strict: bool, v: Value, path: string)
    requires v.Map?
    ensures OwnProblems(c, strict, v, path) == [] <==> OwnSupported(c, v)
    decreases v, 1
  {
    hide TypeName, Problems, Elements, Ascending, FieldsProblems, FormatKnown, Supported;
    var raw, name := v.entries, TypeName(v.entries);
    TypeNames();
    if name == "object" && "properties" in raw && raw["properties"].Map? {
      PropertiesNone(c, strict, raw["properties"], path);
    } else if name == "array" && "items" in raw {
      ValueNone(c, strict, raw["items"], Inside(path, "items"));
    }
  }

  /** Where an object is expected, either kind of position. */
  lemma {:induction false} ValueNone(c: Codec, strict: bool, v: Value, path: string)
    ensures ItemsProblems(c, strict, v, path) == [] <==> Supported(c, v)
    ensures FieldProblems(c, strict, v, path) == [] <==> Supported(c, v)
    decreases v, 3
  {
    hide Problems, NoneUnsupported, OwnSupported;
    if v.Map? {
      NothingReported(c, strict, v, path);
    }
  }

  lemma {:induction false} PropertiesNone(c: Codec, strict: bool, props: Value, path: string)
    requires props.Map?
    ensures PropertiesProblems(c, strict, props, path) == [] <==>
      forall k | k in props.entries :: Supported(c, props.entries[k])
    decreases props, 1
  {
    hide Elements, Ascending, Supported;
    var keys := Sorted(props.entries.Keys);
    FieldsNone(c, strict, props, keys, |keys|, path);
    forall k | k in props.entries
      ensures exists i :: 0 <= i < |keys| && keys[i] == k
    {
      SortedHas(props.entries.Keys, k);
    }
  }

  lemma {:induction false} FieldsNone(c: Codec, strict: bool, props: Value, keys: seq<string>, n: nat, path: string)
    requires props.Map? && n <= |keys| && forall i | 0 <= i < |keys| :: keys[i] in props.entries
    ensures FieldsProblems(c, strict, props, keys, n, path) == [] <==>
      forall i | 0 <= i < n :: Supported(c, props.entries[keys[i]])
    decreases props, 0, n
  {
    hide Supported, FieldProblems, Problems, OwnProblems, PropertiesProblems, ItemsProblems, Inside;
    if n > 0 {
      var here := Inside(path, "properties." + keys[n - 1]);
      FieldsNone(c, strict, props, keys, n - 1, path);
      ValueNone(c, strict, props.entries[keys[n - 1]], here);
    }
  }

  // ---- strict mode ----

  /** What becomes of a problem without strict mode. */
  function Softened(p: Problem): Problem {
    if p.cause.Unsupported? then p.(warning := true) else p
  }

  function AllSoftened(ps: seq<Problem>): (r: seq<Problem>)
    ensures |r| == |ps| && forall i | 0 <= i < |ps| :: r[i] == Softened(ps[i])
  {
    seq(|ps|, i requires 0 <= i < |ps| => Softened(ps[i]))
  }

  lemma SoftenedAppend(a: seq<Problem>, b: seq<Problem>)
    ensures AllSoftened(a + b) == AllSoftened(a) + AllSoftened(b)
  {
    hide Softened;
  }

  /** Strict mode changes no schema and reports the same problems, unsupported keywords as errors. */
  lemma {:induction false} StrictHardens(c: Codec, v: Value, path: string)
    requires v.Map?
    ensures Problems(c, false, v, path) == AllSoftened(Problems(c, true, v, path))
    decreases v, 2
  {
    hide Flagged, TypeProblems, OwnProblems, Elements, Ascending, AllSoftened;
    var names := Sorted(UNSUPPORTED);
    FlaggedHardens(v.entries, names, |names|, path);
    NeverSoftened(c, v, path);
    OwnHardens(c, v, path);
    SoftenedAppend(TypeProblems(v.entries, path), OwnProblems(c, true, v, path));
    SoftenedAppend(Flagged(true, v.entries, names, |names|, path), TypeProblems(v.entries, path) + OwnProblems(c, true, v, path));
  }

  lemma {:induction false} FlaggedHardens(raw: Doc, names: seq<string>, n: nat, path: string)
    requires n <= |names|
    ensures Flagged(false, raw, names, n, path) == AllSoftened(Flagged(true, raw, names, n, path))
  {
    if n > 0 {
      FlaggedHardens(raw, names, n - 1, path);
      SoftenedAppend(Flagged(true, raw, names, n - 1, path),
        if names[n - 1] in raw then [Problem(path, names[n - 1], Unsupported, false)] else []);
    }
  }

  lemma NeverSoftened(c: Codec, v: Value, path: string)
    requires v.Map?
    ensures AllSoftened(TypeProblems(v.entries, path)) == TypeProblems(v.entries, path)
    ensures AllSoftened(TextProblems(c, v.entries, path)) == TextProblems(c, v.entries, path)
    ensures AllSoftened(AdditionalProblems(v.entries, path)) == AdditionalProblems(v.entries, path)
  {
    hide FormatKnown, GetString;
  }

  lemma {:induction false} OwnHardens(c: Codec, v: Value, path: string)
    requires v.Map?
    ensures OwnProblems(c, false, v, path) == AllSoftened(OwnProblems(c, true, v, path))
    decreases v, 1
  {
    hide TypeName, ItemsProblems, PropertiesProblems, TextProblems, AdditionalProblems;
    var raw, name := v.entries, TypeName(v.entries);
    NeverSoftened(c, v, path);
    if name == "object" {
      var props := if "properties" in raw then PropertiesProblems(c, true, raw["properties"], path) else [];
      SoftenedAppend(props, AdditionalProblems(raw, path));
      if "properties" in raw {
        PropertiesHarden(c, raw["properties"], path);
      }
    } else if name == "array" && "items" in raw {
      ValueHardens(c, raw["items"], Inside(path, "items"));
    }
  }

  lemma {:induction false} ValueHardens(c: Codec, v: Value, path: string)
    ensures ItemsProblems(c, false, v, path) == AllSoftened(ItemsProblems(c, true, v, path))
    ensures FieldProblems(c, false, v, path) == AllSoftened(FieldProblems(c, true, v, path))
    decreases v, 3
  {
    hide Problems;
    if v.Map? {
      StrictHardens(c, v, path);
    }
  }

  lemma {:induction false} PropertiesHarden(c: Codec, props: Value, path: string)
    ensures PropertiesProblems(c, false, props, path) == AllSoftened(PropertiesProblems(c, true, props, path))
    decreases props, 1
  {
    hide Elements, Ascending, FieldsProblems;
    if props.Map? {
      var keys := Sorted(props.entries.Keys);
      FieldsHarden(c, props, keys, |keys|, path);
    }
  }

  lemma {:induction false} FieldsHarden(c: Codec, props: Value, keys: seq<string>, n: nat, path: string)
    requires props.Map? && n <= |keys| && forall i | 0 <= i < |keys| :: keys[i] in props.entries
    ensures FieldsProblems(c, false, props, keys, n, path) == AllSoftened(FieldsProblems(c, true, props, keys, n, path))
    decreases props, 0, n
  {
    hide FieldProblems;
    if n > 0 {
      var field, here := props.entries[keys[n - 1]], Inside(path, "properties." + keys[n - 1]);
      FieldsHarden(c, props, keys, n - 1, path);
      ValueHardens(c, field, here);
      SoftenedAppend(FieldsProblems(c, true, props, keys, n - 1, path), FieldProblems(c, true, field, here));
    }
  }

  // ---- exported documents ----

  /** The patterns of the built-in formats are regular expressions. */
  predicate OwnPatterns(c: Codec) {
    c.compiles(EMAIL) && c.compiles(URL) && c.compiles(UUID)
  }

  /** No format that the import would only warn about is kept as metadata. */
  ghost predicate FormatsKnown(c: Codec, withMeta: bool, s: Schema)
    decreases s
  {
    match s
    case StringSchema(base, _, _, _, _, _, _) =>
      withMeta && "format" in base.meta && base.meta["format"].Str? ==> FormatKnown(c, base.meta["format"].s)
    case ObjectSchema(_, fields, _, _, _, _) => forall k | k in fields :: FormatsKnown(c, withMeta, fields[k])
    case ArraySchema(_, element, _, _, _, _, _) => element.Some? ==> FormatsKnown(c, withMeta, element.value)
    case _ => true
  }

  lemma RecognisedSupported()
    ensures forall k | k in UNSUPPORTED :: k !in RECOGNISED
  {
  }

  lemma KeysDisjoint()
    ensures forall k | k in UNSUPPORTED :: k !in RECOGNISED && !Unknown(k) && !IsExclusive(k) && k != "format"
  {
    ExclusiveRecognised();
    assert "format" in RECOGNISED;
    RecognisedSupported();
  }

  lemma NoneInExport(withMeta: bool, meta: Doc, out: Doc, extra: set<string>)
    requires MetaFits(meta, extra) && OnlyRecognised(out) && extra <= EXCLUSIVE + {"format"}
    ensures NoneUnsupported(JsonDoc(IncludeMeta(withMeta, meta, out)))
  {
    hide Unknown, IsExclusive;
    KeysDisjoint();
    ExclusiveRecognised();
  }

  lemma UseCompiles(c: Codec, s: Schema)
    requires s.StringSchema? && FormatFits(c, s) && PatternFits(c, s) && GoodCodec(c) && OwnPatterns(c)
    ensures s.pattern.UnwrapOr("") != "" ==> c.compiles(s.pattern.value)
    ensures s.format != "" ==> FormatKnown(c, s.format)
  {
    hide GoodInts;
    EmptyUse(c);
  }

  lemma TextQuiet(c: Codec, withMeta: bool, s: Schema)
    requires s.StringSchema? && Importable(c, s) && GoodCodec(c) && OwnPatterns(c)
    ensures Supported(c, Map(JsonDoc(Export(withMeta, s)))) <==> FormatsKnown(c, withMeta, s)
  {
    hide IncludeMeta, StringDoc, OnlyRecognised, TypeName, JsonDoc, MetaFits, GetString, Export, FormatKnown, UseOf, GoodCodec, OwnPatterns,
      PatternFits, NoneUnsupported;
    StringExport(withMeta, s);
    StringDocIs(s);
    StringFound(c, withMeta, s);
    FormatFound(c, withMeta, s);
    UseCompiles(c, s);
    NoneInExport(withMeta, s.base.meta, StringDoc(s), {"format"});
  }

  lemma NumberQuiet(c: Codec, withMeta: bool, s: Schema)
    requires s.NumberSchema? && Importable(c, s)
    ensures Supported(c, Map(JsonDoc(Export(withMeta, s))))
  {
    hide IncludeMeta, NumberDoc, OnlyRecognised, TypeName, JsonDoc, MetaFits, NoneUnsupported;
    TypeNames();
    NumberDocIs(s);
    NumberFound(withMeta, s);
    NoneInExport(withMeta, s.base.meta, NumberDoc(s), EXCLUSIVE);
  }

  lemma BoolQuiet(c: Codec, withMeta: bool, s: Schema)
    requires s.BoolSchema? && Importable(c, s)
    ensures Supported(c, Map(JsonDoc(Export(withMeta, s))))
  {
    hide IncludeMeta, OnlyRecognised, TypeName, JsonDoc, MetaFits, NoneUnsupported;
    var out := TypeEntry("boolean", s.base.nullable);
    TypeNames();
    TypeRecognised("boolean", s.base.nullable);
    SimpleTypeFound(withMeta, s.base, out, "boolean");
    NoneInExport(withMeta, s.base.meta, out, {});
  }

  lemma {:induction false} ArrayQuiet(c: Codec, withMeta: bool, s: Schema)
    requires s.ArraySchema? && Importable(c, s) && GoodCodec(c) && OwnPatterns(c)
    ensures Supported(c, Map(JsonDoc(Export(withMeta, s)))) <==> FormatsKnown(c, withMeta, s)
    decreases s, 0
  {
    hide IncludeMeta, ArrayDoc, OnlyRecognised, IsNullable, TypeName, MetaFits, JsonDoc, GoodCodec, OwnPatterns, Export, NoneUnsupported,
      GetInt, GetBool;
    var element := if s.element.None? then None else Some(Map(Export(withMeta, s.element.value)));
    var j := JsonDoc(IncludeMeta(withMeta, s.base.meta, ArrayDoc(withMeta, s, element)));
    TypeNames();
    ArrayDocIs(withMeta, s, element);
    ArrayFound(c, withMeta, s, element);
    ArrayExport(withMeta, s);
    NoneInExport(withMeta, s.base.meta, ArrayDoc(withMeta, s, element), {});
    assert Map(j).entries == j;
    if s.element.Some? {
      JsonOfDoc(Export(withMeta, s.element.value));
      ExportIsQuiet(c, withMeta, s.element.value);
    }
  }

  lemma {:induction false} ObjectQuiet(c: Codec, withMeta: bool, s: Schema)
    requires s.ObjectSchema? && Importable(c, s) && GoodCodec(c) && OwnPatterns(c)
    ensures Supported(c, Map(JsonDoc(Export(withMeta, s)))) <==> FormatsKnown(c, withMeta, s)
    decreases s, 1
  {
    hide IncludeMeta, ObjectDoc, OnlyRecognised, IsNullable, TypeName, MetaFits, JsonDoc, GoodCodec, OwnPatterns, Export, NoneUnsupported,
      PropertiesValue, ListValue, RequiredOf, Importable, Elements;
    var properties, required := PropertiesValue(withMeta, s), ListValue(RequiredOf(s));
    var out := ObjectDoc(s, properties, required);
    var j := JsonDoc(IncludeMeta(withMeta, s.base.meta, out));
    TypeNames();
    ImportableObject(c, s);
    ObjectExport(withMeta, s);
    ObjectDocIs(s, properties, required);
    ObjectFound(withMeta, s, properties, required);
    NoneInExport(withMeta, s.base.meta, out, {});
    PropertiesBack(withMeta, s, j);
    FieldsQuiet(c, withMeta, s);
    PropertiesThere(withMeta, s, j);
    NoneAdditional(j);
    assert OwnSupported(c, Map(j)) <==> forall k | k in s.fields :: Supported(c, Properties(j)[k]);
  }

  lemma NoneAdditional(j: Doc)
    ensures "additionalProperties" in j && j["additionalProperties"].Map? ==> "additionalPropertiesSchema" in AdditionalMeta(j)
  {
  }

  lemma {:induction false} FieldsQuiet(c: Codec, withMeta: bool, s: Schema)
    requires s.ObjectSchema? && Importable(c, s) && GoodCodec(c) && OwnPatterns(c)
    ensures forall k | k in s.fields ::
      Supported(c, Map(JsonDoc(Export(withMeta, s.fields[k])))) <==> FormatsKnown(c, withMeta, s.fields[k])
    decreases s, 0
  {
    hide Supported, Export, JsonDoc, GoodCodec, OwnPatterns, FormatsKnown, Importable;
    ImportableObject(c, s);
    forall k | k in s.fields
      ensures Supported(c, Map(JsonDoc(Export(withMeta, s.fields[k])))) <==> FormatsKnown(c, withMeta, s.fields[k])
    {
      ExportIsQuiet(c, withMeta, s.fields[k]);
    }
  }

  lemma PropertiesThere(withMeta: bool, s: Schema, j: Doc)
    requires s.ObjectSchema?
    requires var properties := PropertiesValue(withMeta, s);
      ("properties" in j <==> properties.Some?) && (properties.Some? ==> j["properties"] == Json(properties.value))
    ensures "properties" in j <==> s.fields != map[]
    ensures "properties" in j ==> j["properties"].Map?
  {
    hide Export;
  }

  /** An exported document reports nothing when it is read back, unless it carries a format unknown to the reader. */
  lemma {:induction false} ExportIsQuiet(c: Codec, withMeta: bool, s: Schema)
    requires Importable(c, s) && GoodCodec(c) && OwnPatterns(c)
    ensures Supported(c, Map(JsonDoc(Export(withMeta, s)))) <==> FormatsKnown(c, withMeta, s)
    decreases s, 2
  {
    hide Supported, Export, JsonDoc, GoodCodec, OwnPatterns;
    if s.StringSchema? {
      TextQuiet(c, withMeta, s);
    } else if s.NumberSchema? {
      NumberQuiet(c, withMeta, s);
    } else if s.BoolSchema? {
      BoolQuiet(c, withMeta, s);
    } else if s.ObjectSchema? {
      ObjectQuiet(c, withMeta, s);
    } else {
      ArrayQuiet(c, withMeta, s);
    }
  }

  lemma FormatsLeftOut(c: Codec, s: Schema)
    ensures FormatsKnown(c, false, s)
    decreases s
  {
  }

  /** What an import produced can be written without metadata and read back in strict mode without any report. */
  lemma ReimportIsQuiet(c: Codec, strict: bool, store: bool, v: Value, path: string)
    requires v.Map? && IsJson(v) && GoodCodec(c) && OwnPatterns(c)
    ensures Problems(c, strict, Json(Map(Export(false, Import(store, c, v)))), path) == []
  {
    hide Import, Export, Json, JsonDoc, GoodCodec, OwnPatterns, Problems, Supported, Importable, IsJson;
    var s := Import(store, c, v);
    ImportedFits(store, c, v);
    JsonOfDoc(Export(false, s));
    ExportIsQuiet(c, false, s);
    FormatsLeftOut(c, s);
    NothingReported(c, strict, Map(JsonDoc(Export(false, s))), path);
  }
}
