/**
 The converter, which collects problems as it goes, and the exporter: loops over documents and schemas
 that compute `Import` with its `Problems`, and `Export`.
 */
module JsonSchemaConverter {
  import opened Values
  import opened Keys
  import opened Schemas
  import opened JsonSchema
  import opened JsonSchemaProblems
  import JsonRoundTrip

  // ---- import ----

  lemma LastNameStep(items: seq<Value>, i: nat)
    requires i < |items|
    ensures LastName(items[..i + 1]) ==
      if items[i].Str? && items[i].s != "null" then items[i].s else LastName(items[..i])
  {
    assert items[..i + 1][..i] == items[..i];
  }

  method ReadNullable(raw: Doc, marked: bool) returns (nullable: bool)
    requires marked <==> "type" in raw && raw["type"].List? && Str("null") in raw["type"].items
    ensures nullable == IsNullable(raw)
  {
    nullable := "_nullable" in raw || marked;
    var declared := GetBool(raw, "nullable");
    if declared.Some? && declared.value {
      nullable := true;
    }
  }

  method ReadStrings(raw: Doc, key: string) returns (values: Option<seq<string>>)
    ensures values == GetStrings(raw, key)
  {
    if key !in raw || !raw[key].List? {
      return None;
    }
    var items, result := raw[key].items, [];
    for i := 0 to |items|
      invariant |result| == i && forall j | 0 <= j < i :: items[j].Str? && result[j] == items[j].s
    {
      if !items[i].Str? {
        return None;
      }
      result := result + [items[i].s];
    }
    assert result == GetStrings(raw, key).value;
    return Some(result);
  }

  method ReadRequired(raw: Doc) returns (names: set<string>)
    ensures names == RequiredNames(raw)
  {
    names := {};
    if "required" !in raw || !raw["required"].List? {
      return;
    }
    var items := raw["required"].items;
    for i := 0 to |items|
      invariant names == set j | 0 <= j < i && items[j].Str? :: items[j].s
    {
      if items[i].Str? {
        names := names + {items[i].s};
      }
    }
  }

  function Collected(raw: Doc, done: set<string>): Doc {
    map k | k in done && k in raw && Unknown(k) :: raw[k]
  }

  lemma CollectedStep(raw: Doc, done: set<string>, key: string)
    requires key in raw
    ensures Collected(raw, done + {key}) == if Unknown(key) then Collected(raw, done)[key := raw[key]] else Collected(raw, done)
  {
    hide Unknown;
  }

  /** Metadata of the schema: its own, and the unknown keywords when they are kept. */
  method StoreUnknown(store: bool, raw: Doc, own: Doc) returns (meta: Doc)
    ensures meta == own + if store then (map k | k in raw && Unknown(k) :: raw[k]) else map[]
  {
    hide Unknown, Collected;
    meta := own;
    assert own + map[] == own;
    if !store {
      return;
    }
    var rest := raw.Keys;
    ghost var done: set<string> := {};
    CollectedEnds(raw);
    while rest != {}
      invariant done + rest == raw.Keys
      invariant meta == own + Collected(raw, done)
      decreases |rest|
    {
      var key :| key in rest;
      CollectedStep(raw, done, key);
      if Unknown(key) {
        meta := meta[key := raw[key]];
      }
      rest, done := rest - {key}, done + {key};
    }
    assert done == raw.Keys;
  }

  lemma CollectedEnds(raw: Doc)
    ensures Collected(raw, {}) == map[]
    ensures Collected(raw, raw.Keys) == map k | k in raw && Unknown(k) :: raw[k]
  {
    hide Unknown;
  }

  lemma BaseIs(store: bool, raw: Doc, own: Doc, nullable: bool, meta: Doc)
    requires nullable == IsNullable(raw)
    requires meta == own + if store then (map k | k in raw && Unknown(k) :: raw[k]) else map[]
    ensures Base(false, nullable, meta) == ImportedBase(store, raw, own)
  {
  }

  lemma NoneConverted(store: bool, c: Codec, props: Doc, requiredSet: set<string>)
    ensures ConvertedFields(store, c, props, requiredSet, []) == map[] && MarkedNames(props, requiredSet, []) == {}
  {
  }

  lemma AllConverted(store: bool, c: Codec, props: Doc, requiredSet: set<string>, keys: seq<string>)
    requires keys == Sorted(props.Keys)
    ensures ConvertedFields(store, c, props, requiredSet, keys) ==
      map k | k in props && props[k].Map? :: Marked(Import(store, c, props[k]), k in requiredSet)
    ensures MarkedNames(props, requiredSet, keys) == set k | k in props && props[k].Map? && k in requiredSet
  {
    hide Import, Marked, Elements, Ascending;
    AllKeys(props, keys);
  }

  function ConvertedFields(store: bool, c: Codec, props: Doc, requiredSet: set<string>, keys: seq<string>): map<string, Schema> {
    map k | k in keys && k in props && props[k].Map? :: Marked(Import(store, c, props[k]), k in requiredSet)
  }

  function MarkedNames(props: Doc, requiredSet: set<string>, keys: seq<string>): set<string> {
    set k | k in keys && k in props && props[k].Map? && k in requiredSet
  }

  lemma ConvertedStep(store: bool, c: Codec, props: Doc, requiredSet: set<string>, keys: seq<string>, i: nat)
    requires i < |keys| && keys[i] in props
    ensures ConvertedFields(store, c, props, requiredSet, keys[..i + 1]) ==
      var before := ConvertedFields(store, c, props, requiredSet, keys[..i]);
      if props[keys[i]].Map? then before[keys[i] := Marked(Import(store, c, props[keys[i]]), keys[i] in requiredSet)] else before
    ensures MarkedNames(props, requiredSet, keys[..i + 1]) ==
      MarkedNames(props, requiredSet, keys[..i]) + if props[keys[i]].Map? && keys[i] in requiredSet then {keys[i]} else {}
  {
    hide Import, Marked;
    assert keys[..i + 1] == keys[..i] + [keys[i]];
  }

  lemma AllKeys(props: Doc, keys: seq<string>)
    requires keys == Sorted(props.Keys)
    ensures forall k :: k in keys <==> k in props
  {
    forall k
      ensures k in keys <==> k in props
    {
      SortedHas(props.Keys, k);
    }
  }

  method ConvertNumber(store: bool, raw: Doc, nullable: bool, integer: bool) returns (s: Schema)
    requires nullable == IsNullable(raw)
    ensures s == ImportNumber(store, raw, integer)
  {
    hide IsNullable, ImportedBase, GetFloat;
    var min, max, own := GetFloat(raw, "minimum"), GetFloat(raw, "maximum"), map[];
    var exMin, exMax := GetFloat(raw, "exclusiveMinimum"), GetFloat(raw, "exclusiveMaximum");
    if exMin.Some? {
      min, own := exMin, own["exclusiveMinimum" := AsNumber(exMin.value)];
    }
    assert own == ExclusiveMeta(raw, "exclusiveMinimum");
    if exMax.Some? {
      max, own := exMax, own["exclusiveMaximum" := AsNumber(exMax.value)];
    }
    assert own == ExclusiveMeta(raw, "exclusiveMinimum") + ExclusiveMeta(raw, "exclusiveMaximum");
    var meta := StoreUnknown(store, raw, own);
    BaseIs(store, raw, own, nullable, meta);
    s := NumberSchema(Base(false, nullable, meta), min, max, GetFloat(raw, "multipleOf"), if integer then [Integer] else []);
  }

  // ---- the converter ----

  class Converter {
    const strict: bool
    const store: bool
    const codec: Codec
    var errors: seq<Problem>

    constructor (strict: bool, store: bool, codec: Codec)
      ensures this.strict == strict && this.store == store && this.codec == codec && errors == []
    {
      this.strict, this.store, this.codec, errors := strict, store, codec, [];
    }

    method Add(path: string, keyword: string, cause: Cause, warning: bool)
      modifies this
      ensures errors == old(errors) + [Problem(path, keyword, cause, warning)]
    {
      errors := errors + [Problem(path, keyword, cause, warning)];
    }

    /** Whether the document is refused is for the caller to say; the conversion goes on. */
    method CheckUnsupported(raw: Doc, path: string) returns (fatal: bool)
      modifies this
      ensures var names := Sorted(UNSUPPORTED); errors == old(errors) + Flagged(strict, raw, names, |names|, path)
      ensures fatal <==> strict && !NoneUnsupported(raw)
    {
      hide Elements, Ascending, NoneUnsupported, Flagged;
      var names := SortKeys(UNSUPPORTED);
      fatal := Flag(raw, names, path);
      UnsupportedNone(strict, raw, path);
    }

    method Flag(raw: Doc, names: seq<string>, path: string) returns (fatal: bool)
      modifies this
      ensures errors == old(errors) + Flagged(strict, raw, names, |names|, path)
      ensures fatal <==> strict && Flagged(strict, raw, names, |names|, path) != []
    {
      fatal := false;
      for i := 0 to |names|
        invariant errors == old(errors) + Flagged(strict, raw, names, i, path)
        invariant fatal <==> strict && Flagged(strict, raw, names, i, path) != []
      {
        if names[i] in raw {
          Add(path, names[i], Unsupported, !strict);
          fatal := fatal || strict;
        }
      }
    }

    /** The type, and whether a type list names null; the source leaves the latter as a mark in the document. */
    method ResolveType(raw: Doc, path: string) returns (name: string, marked: bool)
      modifies this
      ensures name == TypeName(raw)
      ensures marked <==> "type" in raw && raw["type"].List? && Str("null") in raw["type"].items
      ensures errors == old(errors) + TypeProblems(raw, path)
    {
      name, marked := "", false;
      if "type" !in raw {
        if "properties" in raw {
          name := "object";
        } else if "items" in raw {
          name := "array";
        }
        return;
      }
      match raw["type"]
      case Str(s) => name := s;
      case List(items) =>
        for i := 0 to |items|
          invariant name == LastName(items[..i])
          invariant marked <==> Str("null") in items[..i]
          invariant errors == old(errors)
        {
          LastNameStep(items, i);
          if items[i].Str? {
            if items[i].s == "null" {
              marked := true;
            } else {
              name := items[i].s;
            }
          }
        }
        assert items[..|items|] == items;
      case _ => Add(path, "type", OddType, false);
    }

    /** The schema that is built and the problems that are met; the conversion never stops early. */
    method ConvertNode(v: Value, path: string) returns (s: Schema)
      requires v.Map?
      modifies this
      ensures s == Import(store, codec, v)
      ensures errors == old(errors) + Problems(codec, strict, v, path)
      decreases v, 2
    {
      hide ImportString, ImportNumber, ImportedBase, IsNullable, TypeName, Flagged, TypeProblems, Elements, Ascending, TextProblems,
        PropertiesProblems, ItemsProblems, AdditionalProblems;
      ghost var start := errors;
      var raw := v.entries;
      var fatal := CheckUnsupported(raw, path);
      ghost var flagged := errors[|start|..];
      var name, marked := ResolveType(raw, path);
      ghost var typed := errors[|start + flagged|..];
      var nullable := ReadNullable(raw, marked);
      ghost var before := errors;
      JsonRoundTrip.TypeNames();
      if name == "string" {
        s := ConvertString(raw, nullable, path);
      } else if name == "number" {
        s := ConvertNumber(store, raw, nullable, false);
      } else if name == "integer" {
        s := ConvertNumber(store, raw, nullable, true);
      } else if name == "boolean" {
        var meta := StoreUnknown(store, raw, map[]);
        s := BoolSchema(Base(false, nullable, meta), []);
        BaseIs(store, raw, map[], nullable, meta);
      } else if name == "object" {
        s := ConvertObject(v, nullable, path);
      } else if name == "array" {
        s := ConvertArray(v, nullable, path);
      } else {
        Add(path, "type", NoType(name), false);
        s := Fallback();
      }
      assert errors == before + OwnProblems(codec, strict, v, path);
      Grouped(start, flagged, typed, OwnProblems(codec, strict, v, path));
    }

    method ConvertString(raw: Doc, nullable: bool, path: string) returns (s: Schema)
      requires nullable == IsNullable(raw)
      modifies this
      ensures s == ImportString(store, codec, raw)
      ensures errors == old(errors) + TextProblems(codec, raw, path)
    {
      hide IsNullable, ImportedBase, UseOf;
      ghost var start := errors;
      var min, max := GetInt(codec, raw, "minLength"), GetInt(codec, raw, "maxLength");
      var pattern := GetString(raw, "pattern");
      if pattern.Some? && !codec.compiles(pattern.value) {
        Add(path, "pattern", BadRegex, false);
        pattern := None;
      }
      var enum := ReadStrings(raw, "enum");
      var format, rules, own := "", [], map[];
      var name := GetString(raw, "format");
      if name.Some? {
        match UseOf(codec, name.value)
        case BuiltIn(f, p) => format, pattern := f, Some(p);
        case Validator(f) => format, rules := f, [Format(f)];
        case OnlyMeta(f) =>
          own := map["format" := Str(f)];
          JsonRoundTrip.UseOfName(codec, name.value);
          if f != "date-time" && f != "date" && f != "time" {
            Add(path, "format", UnknownFormat(f), true);
          }
      }
      assert errors == start + TextProblems(codec, raw, path);
      var meta := StoreUnknown(store, raw, own);
      BaseIs(store, raw, own, nullable, meta);
      s := StringSchema(Base(false, nullable, meta), min, max, pattern, enum.UnwrapOr([]), format, rules);
    }

    method ConvertObject(v: Value, nullable: bool, path: string) returns (s: Schema)
      requires v.Map? && TypeName(v.entries) == "object" && nullable == IsNullable(v.entries)
      modifies this
      ensures s == Import(store, codec, v)
      ensures errors == old(errors) + OwnProblems(codec, strict, v, path)
      decreases v, 1
    {
      hide IsNullable, TypeName, RequiredNames, Import, ImportedBase, PropertiesProblems, Additional, AdditionalMeta, AdditionalProblems;
      ghost var start := errors;
      var raw := v.entries;
      assert v == Map(raw);
      var requiredSet := ReadRequired(raw);
      var fields, required := ConvertProperties(v, requiredSet, path);
      ghost var mid := errors[|start|..];
      var own, additional := ReadAdditional(raw, path);
      Regroup(start, mid, AdditionalProblems(raw, path));
      var meta := StoreUnknown(store, raw, own);
      BaseIs(store, raw, own, nullable, meta);
      JsonRoundTrip.ImportObject(store, codec, raw);
      JsonRoundTrip.TypeNames();
      assert fields == JsonRoundTrip.ImportedFields(store, codec, raw);
      s := ObjectSchema(Base(false, nullable, meta), fields, required, additional, [], true);
    }

    method ReadAdditional(raw: Doc, path: string) returns (own: Doc, additional: Option<bool>)
      modifies this
      ensures own == AdditionalMeta(raw) && additional == Additional(raw)
      ensures errors == old(errors) + AdditionalProblems(raw, path)
    {
      own, additional := map[], None;
      if "additionalProperties" in raw {
        match raw["additionalProperties"]
        case Bool(b) => additional := Some(b);
        case Map(_) =>
          own, additional := map["additionalPropertiesSchema" := raw["additionalProperties"]], Some(true);
          Add(path, "additionalProperties", NotEnforced, true);
        case _ =>
      }
    }

    method ConvertProperties(v: Value, requiredSet: set<string>, path: string)
      returns (fields: map<string, Schema>, required: set<string>)
      requires v.Map?
      modifies this
      ensures var props := Properties(v.entries);
        && fields == (map k | k in props && props[k].Map? :: Marked(Import(store, codec, props[k]), k in requiredSet))
        && required == set k | k in props && props[k].Map? && k in requiredSet
      ensures errors == old(errors) +
        if "properties" in v.entries then PropertiesProblems(codec, strict, v.entries["properties"], path) else []
      decreases v, 0
    {
      hide Import, Marked, ConvertedFields, MarkedNames, FieldsProblems, Elements, Ascending;
      fields, required := map[], {};
      if "properties" in v.entries && v.entries["properties"].Map? {
        fields, required := ConvertFields(v.entries["properties"], requiredSet, path);
        return;
      }
      if "properties" in v.entries {
        Add(path, "properties", NotAnObject, false);
      }
      assert Properties(v.entries) == map[];
    }

    method ConvertFields(v: Value, requiredSet: set<string>, path: string)
      returns (fields: map<string, Schema>, required: set<string>)
      requires v.Map?
      modifies this
      ensures var props := v.entries;
        && fields == (map k | k in props && props[k].Map? :: Marked(Import(store, codec, props[k]), k in requiredSet))
        && required == set k | k in props && props[k].Map? && k in requiredSet
      ensures errors == old(errors) + PropertiesProblems(codec, strict, v, path)
      decreases v, 0
    {
      hide Import, Marked, Elements, Ascending, ConvertedFields, MarkedNames, FieldProblems, Inside;
      ghost var start := errors;
      var props := v.entries;
      NoneConverted(store, codec, props, requiredSet);
      var keys := SortKeys(props.Keys);
      fields, required := map[], {};
      for i := 0 to |keys|
        invariant fields == ConvertedFields(store, codec, props, requiredSet, keys[..i])
        invariant required == MarkedNames(props, requiredSet, keys[..i])
        invariant errors == start + FieldsProblems(codec, strict, v, keys, i, path)
      {
        ConvertedStep(store, codec, props, requiredSet, keys, i);
        var here := Inside(path, "properties." + keys[i]);
        Regroup(start, FieldsProblems(codec, strict, v, keys, i, path), FieldProblems(codec, strict, props[keys[i]], here));
        var field := ConvertField(props[keys[i]], here);
        if field.Some? {
          fields := fields[keys[i] := Marked(field.value, keys[i] in requiredSet)];
          if keys[i] in requiredSet {
            required := required + {keys[i]};
          }
        }
      }
      assert keys[..|keys|] == keys;
      AllConverted(store, codec, props, requiredSet, keys);
    }

    /** A property that is not an object is reported and left out. */
    method ConvertField(v: Value, path: string) returns (field: Option<Schema>)
      modifies this
      ensures field == if v.Map? then Some(Import(store, codec, v)) else None
      ensures errors == old(errors) + FieldProblems(codec, strict, v, path)
      decreases v, 3
    {
      hide Import, Problems;
      if v.Map? {
        var schema := ConvertNode(v, path);
        return Some(schema);
      }
      Add(path, "properties", NotAnObject, false);
      return None;
    }

    method ConvertArray(v: Value, nullable: bool, path: string) returns (s: Schema)
      requires v.Map? && TypeName(v.entries) == "array" && nullable == IsNullable(v.entries)
      modifies this
      ensures s == Import(store, codec, v)
      ensures errors == old(errors) + OwnProblems(codec, strict, v, path)
      decreases v, 1
    {
      hide IsNullable, TypeName, Import, ImportedBase, Problems;
      var raw := v.entries;
      JsonRoundTrip.TypeNames();
      var element := None;
      if "items" in raw {
        if raw["items"].Map? {
          var inner := ConvertNode(raw["items"], Inside(path, "items"));
          element := Some(inner);
        } else {
          Add(Inside(path, "items"), "items", NotAnObject, false);
        }
      }
      var unique := GetBool(raw, "uniqueItems");
      var meta := StoreUnknown(store, raw, map[]);
      BaseIs(store, raw, map[], nullable, meta);
      JsonRoundTrip.ImportArray(store, codec, raw);
      assert v == Map(raw);
      s := ArraySchema(Base(false, nullable, meta), element, GetInt(codec, raw, "minItems"), GetInt(codec, raw, "maxItems"),
        unique.Some? && unique.value, [], true);
    }
  }

  /** FromJSON, after parsing: the schema, and everything there is to say about the document. */
  method FromDocument(strict: bool, store: bool, codec: Codec, v: Value) returns (s: Schema, problems: seq<Problem>)
    requires v.Map?
    ensures s == Import(store, codec, v)
    ensures problems == Problems(codec, strict, v, "")
    ensures problems == [] <==> Supported(codec, v)
  {
    hide Import, Problems, Supported;
    var c := new Converter(strict, store, codec);
    s := c.ConvertNode(v, "");
    problems := c.errors;
    assert [] + Problems(codec, strict, v, "") == Problems(codec, strict, v, "");
    NothingReported(codec, strict, v, "");
  }

  lemma Regroup(a: seq<Problem>, b: seq<Problem>, c: seq<Problem>)
    ensures (a + b) + c == a + (b + c)
  {
  }

  lemma Grouped(a: seq<Problem>, b: seq<Problem>, c: seq<Problem>, d: seq<Problem>)
    ensures a + b + c + d == a + (b + (c + d))
  {
  }

  // ---- export ----

  method StringList(values: seq<string>) returns (list: Value)
    ensures values != [] ==> Some(list) == ListValue(values)
  {
    var items := [];
    for i := 0 to |values|
      invariant |items| == i && forall j | 0 <= j < i :: items[j] == Str(values[j])
    {
      items := items + [Str(values[i])];
    }
    list := List(items);
    if values != [] {
      assert items == ListValue(values).value.items;
    }
  }

  function Copied(meta: Doc, base: Doc, done: set<string>): Doc {
    map k | k in done && k in meta && k !in base && !IsExclusive(k) :: meta[k]
  }

  lemma CopiedStep(meta: Doc, base: Doc, done: set<string>, key: string)
    requires key in meta && key !in done
    ensures Copied(meta, base, done + {key}) ==
      if key in base + Copied(meta, base, done) || IsExclusive(key) then Copied(meta, base, done)
      else Copied(meta, base, done)[key := meta[key]]
  {
    hide IsExclusive;
  }

  lemma CopiedEnds(meta: Doc, base: Doc)
    ensures Copied(meta, base, {}) == map[]
    ensures Copied(meta, base, meta.Keys) == map k | k in meta && k !in base && !IsExclusive(k) :: meta[k]
  {
    hide IsExclusive;
  }

  method CopyMeta(withMeta: bool, meta: Doc, base: Doc) returns (out: Doc)
    ensures out == IncludeMeta(withMeta, meta, base)
  {
    hide IsExclusive, Copied;
    out := base;
    assert base + map[] == base;
    if !withMeta {
      return;
    }
    var rest := meta.Keys;
    CopiedEnds(meta, base);
    assert meta.Keys - rest == {};
    while rest != {}
      invariant rest <= meta.Keys && out == base + Copied(meta, base, meta.Keys - rest)
      decreases |rest|
    {
      var key :| key in rest;
      CopyStep(meta, base, rest, key);
      if !(key in out || IsExclusive(key)) {
        out := out[key := meta[key]];
      }
      rest := rest - {key};
    }
    assert meta.Keys - {} == meta.Keys;
  }

  lemma CopyStep(meta: Doc, base: Doc, rest: set<string>, key: string)
    requires rest <= meta.Keys && key in rest
    ensures var out := base + Copied(meta, base, meta.Keys - rest);
      base + Copied(meta, base, meta.Keys - (rest - {key})) ==
        if key in out || IsExclusive(key) then out else out[key := meta[key]]
  {
    hide Copied, IsExclusive;
    var done := meta.Keys - rest;
    assert meta.Keys - (rest - {key}) == done + {key};
    CopiedStep(meta, base, done, key);
  }

  method ExportString(withMeta: bool, s: Schema) returns (out: Doc)
    requires s.StringSchema?
    ensures out == Export(withMeta, s)
  {
    hide IncludeMeta;
    out := TypeEntry("string", s.base.nullable);
    if s.minLength.Some? {
      out := out["minLength" := Num(Int, s.minLength.value as real)];
    }
    if s.maxLength.Some? {
      out := out["maxLength" := Num(Int, s.maxLength.value as real)];
    }
    var p := s.pattern.UnwrapOr("");
    if p != "" {
      out := out["pattern" := Str(p)];
    }
    if |s.enum| > 0 {
      var list := StringList(s.enum);
      out := out["enum" := list];
    }
    if s.format != "" {
      out := out["format" := Str(s.format)];
    }
    assert out == StringDoc(s);
    out := CopyMeta(withMeta, s.base.meta, out);
  }

  method ExportNumber(withMeta: bool, s: Schema) returns (out: Doc)
    requires s.NumberSchema?
    ensures out == Export(withMeta, s)
  {
    hide IncludeMeta;
    out := TypeEntry(if Integer in s.rules then "integer" else "number", s.base.nullable);
    if "exclusiveMinimum" in s.base.meta {
      out := out["exclusiveMinimum" := s.base.meta["exclusiveMinimum"]];
    } else if s.min.Some? {
      out := out["minimum" := AsNumber(s.min.value)];
    }
    if "exclusiveMaximum" in s.base.meta {
      out := out["exclusiveMaximum" := s.base.meta["exclusiveMaximum"]];
    } else if s.max.Some? {
      out := out["maximum" := AsNumber(s.max.value)];
    }
    if s.multipleOf.Some? {
      out := out["multipleOf" := AsNumber(s.multipleOf.value)];
    }
    assert out == NumberDoc(s);
    out := CopyMeta(withMeta, s.base.meta, out);
  }

  method ExportProperties(withMeta: bool, s: Schema) returns (properties: Doc)
    requires s.ObjectSchema?
    ensures s.fields != map[] ==> JsonRoundTrip.PropertiesValue(withMeta, s) == Some(Map(properties))
    decreases s, 0
  {
    hide Export, Elements, Ascending;
    var names := SortKeys(s.fields.Keys);
    properties := map[];
    for i := 0 to |names|
      invariant properties == map k | k in names[..i] && k in s.fields :: Map(Export(withMeta, s.fields[k]))
    {
      assert names[..i + 1] == names[..i] + [names[i]];
      var inner := ExportNode(withMeta, s.fields[names[i]]);
      properties := properties[names[i] := Map(inner)];
    }
    assert names[..|names|] == names;
    forall k
      ensures k in names <==> k in s.fields
    {
      SortedHas(s.fields.Keys, k);
    }
    if s.fields != map[] {
      assert JsonRoundTrip.PropertiesValue(withMeta, s).value.entries == properties;
    }
  }

  /** RequiredFieldNames: those marked on the object, and those whose own schema says so, sorted. */
  method RequiredFieldNames(s: Schema) returns (names: seq<string>)
    requires s.ObjectSchema?
    ensures names == RequiredOf(s)
  {
    var all, rest := s.requiredFields, s.fields.Keys;
    while rest != {}
      invariant rest <= s.fields.Keys
      invariant all == s.requiredFields + set k | k in s.fields.Keys - rest && IsRequired(s.fields[k])
      decreases |rest|
    {
      var name :| name in rest;
      if IsRequired(s.fields[name]) {
        all := all + {name};
      }
      rest := rest - {name};
    }
    names := SortKeys(all);
    assert all == s.requiredFields + set k | k in s.fields && IsRequired(s.fields[k]);
  }

  lemma NoProperties(withMeta: bool, s: Schema)
    requires s.ObjectSchema?
    ensures s.fields == map[] ==> JsonRoundTrip.PropertiesValue(withMeta, s) == None
  {
  }

  method ExportObject(withMeta: bool, s: Schema) returns (out: Doc)
    requires s.ObjectSchema?
    ensures out == Export(withMeta, s)
    decreases s, 1
  {
    hide IncludeMeta, Export, RequiredOf, TypeEntry, Elements, JsonRoundTrip.PropertiesValue;
    NoProperties(withMeta, s);
    out := TypeEntry("object", s.base.nullable);
    assert s.fields.Keys == {} <==> s.fields == map[];
    if s.fields.Keys != {} {
      var properties := ExportProperties(withMeta, s);
      out := out["properties" := Map(properties)];
    }
    var names := RequiredFieldNames(s);
    if |names| > 0 {
      var list := StringList(names);
      out := out["required" := list];
    }
    assert out == JsonRoundTrip.ObjectDoc(s.(additional := None), JsonRoundTrip.PropertiesValue(withMeta, s), ListValue(names));
    if s.additional.Some? {
      out := out["additionalProperties" := Bool(s.additional.value)];
    }
    assert out == JsonRoundTrip.ObjectDoc(s, JsonRoundTrip.PropertiesValue(withMeta, s), ListValue(RequiredOf(s)));
    out := CopyMeta(withMeta, s.base.meta, out);
    JsonRoundTrip.ObjectExport(withMeta, s);
  }

  method ExportArray(withMeta: bool, s: Schema) returns (out: Doc)
    requires s.ArraySchema?
    ensures out == Export(withMeta, s)
    decreases s, 1
  {
    hide IncludeMeta, Export;
    out := TypeEntry("array", s.base.nullable);
    if s.minItems.Some? {
      out := out["minItems" := Num(Int, s.minItems.value as real)];
    }
    if s.maxItems.Some? {
      out := out["maxItems" := Num(Int, s.maxItems.value as real)];
    }
    if s.uniqueItems {
      out := out["uniqueItems" := Bool(true)];
    }
    var element := None;
    if s.element.Some? {
      var inner := ExportNode(withMeta, s.element.value);
      element := Some(Map(inner));
      out := out["items" := Map(inner)];
    }
    assert out == JsonRoundTrip.ArrayDoc(withMeta, s, element);
    out := CopyMeta(withMeta, s.base.meta, out);
    JsonRoundTrip.ArrayExport(withMeta, s);
  }

  method ExportNode(withMeta: bool, s: Schema) returns (out: Doc)
    ensures out == Export(withMeta, s)
    decreases s, 2
  {
    hide IncludeMeta, StringDoc, NumberDoc;
    match s
    case StringSchema(_, _, _, _, _, _, _) => out := ExportString(withMeta, s);
    case NumberSchema(_, _, _, _, _) => out := ExportNumber(withMeta, s);
    case BoolSchema(base, _) => out := CopyMeta(withMeta, base.meta, TypeEntry("boolean", base.nullable));
    case ObjectSchema(_, _, _, _, _, _) => out := ExportObject(withMeta, s);
    case ArraySchema(_, _, _, _, _, _, _) => out := ExportArray(withMeta, s);
    case TransformSchema(_, inner, _) => out := ExportNode(withMeta, inner);
    case _ => out := map[];
  }
}
