/**
 JSON Schema import and export: what a document becomes, and what a schema is written as. Which
 regular expressions compile, which formats are registered, and the conversion of a number to int are
 parameters.
 */
module JsonSchema {
  import opened Values
  import opened Keys
  import opened Schemas

  type Doc = map<string, Value>

  datatype Codec = Codec(compiles: string -> bool, registered: string -> bool, toInt: real -> int)

  const EMAIL: string := "^[a-zA-Z0-9._%+-]+@[a-zA-Z0-9.-]+\\.[a-zA-Z]{2,}$"
  const URL: string := "^https?://[^\\s/$.?#].[^\\s]*$"
  const UUID: string := "^[0-9a-fA-F]{8}-[0-9a-fA-F]{4}-[0-9a-fA-F]{4}-[0-9a-fA-F]{4}-[0-9a-fA-F]{12}$"

  const RECOGNISED: set<string> := {
    "type", "properties", "required", "additionalProperties", "items", "minLength", "maxLength", "pattern",
    "minimum", "maximum", "exclusiveMinimum", "exclusiveMaximum", "multipleOf", "enum", "format", "nullable",
    "minItems", "maxItems", "uniqueItems", "title", "description", "default", "examples", "const",
    "$schema", "$id", "$comment"}

  const UNSUPPORTED: set<string> := {
    "$ref", "$defs", "definitions", "oneOf", "anyOf", "allOf", "not", "if", "then", "else", "dependentRequired",
    "dependentSchemas", "patternProperties", "unevaluatedProperties", "unevaluatedItems", "prefixItems", "contains",
    "additionalItems"}

  /** A keyword that is kept as metadata when the options ask for it. */
  predicate Unknown(key: string) {
    key !in RECOGNISED && key !in UNSUPPORTED && key != "_nullable"
  }

  // ---- reading a document ----

  function GetString(raw: Doc, key: string): Option<string> {
    if key in raw && raw[key].Str? then Some(raw[key].s) else None
  }

  /** Numbers of a parsed document are all float64. */
  function GetFloat(raw: Doc, key: string): Option<real> {
    if key in raw && raw[key].Num? && raw[key].kind.Float64? then Some(raw[key].r) else None
  }

  function GetBool(raw: Doc, key: string): Option<bool> {
    if key in raw && raw[key].Bool? then Some(raw[key].b) else None
  }

  function GetInt(c: Codec, raw: Doc, key: string): Option<int> {
    match GetFloat(raw, key) case None => None case Some(r) => Some(c.toInt(r))
  }

  predicate AllStrings(items: seq<Value>) {
    forall i | 0 <= i < |items| :: items[i].Str?
  }

  function GetStrings(raw: Doc, key: string): Option<seq<string>> {
    if key in raw && raw[key].List? && AllStrings(raw[key].items) then
      var items := raw[key].items;
      Some(seq(|items|, i requires 0 <= i < |items| => items[i].s))
    else None
  }

  /** The last name in a type list other than "null". */
  function LastName(items: seq<Value>): string {
    if items == [] then ""
    else
      var last := items[|items| - 1];
      if last.Str? && last.s != "null" then last.s else LastName(items[..|items| - 1])
  }

  function TypeName(raw: Doc): string {
    if "type" !in raw then
      if "properties" in raw then "object" else if "items" in raw then "array" else ""
    else
      match raw["type"]
      case Str(s) => s
      case List(items) => LastName(items)
      case _ => ""
  }

  predicate IsNullable(raw: Doc) {
    || "_nullable" in raw
    || ("type" in raw && raw["type"].List? && Str("null") in raw["type"].items)
    || GetBool(raw, "nullable") == Some(true)
  }

  function RequiredNames(raw: Doc): set<string> {
    if "required" in raw && raw["required"].List? then
      set i | 0 <= i < |raw["required"].items| && raw["required"].items[i].Str? :: raw["required"].items[i].s
    else {}
  }

  /** The metadata a document leaves: what its keywords store, then the unknown keywords. */
  function ImportedBase(store: bool, raw: Doc, own: Doc): Base {
    Base(false, IsNullable(raw), own + if store then (map k | k in raw && Unknown(k) :: raw[k]) else map[])
  }

  // ---- import ----

  const NO_BASE: Base := Base(false, false, map[])

  function Fallback(): Schema {
    StringSchema(NO_BASE, None, None, None, [], "", [])
  }

  /** How a format name is taken: built in, a registered validator, or only metadata. */
  datatype FormatUse = BuiltIn(format: string, pattern: string) | Validator(name: string) | OnlyMeta(name: string)

  function UseOf(c: Codec, name: string): FormatUse {
    if name == "email" then BuiltIn("email", EMAIL)
    else if name == "uri" || name == "url" then BuiltIn("url", URL)
    else if name == "uuid" then BuiltIn("uuid", UUID)
    else if name == "date-time" || name == "date" || name == "time" then OnlyMeta(name)
    else if c.registered(name) then Validator(name)
    else OnlyMeta(name)
  }

  function ImportString(store: bool, c: Codec, raw: Doc): Schema {
    var pattern := GetString(raw, "pattern");
    var kept := if pattern.Some? && c.compiles(pattern.value) then pattern else None;
    var min, max, enum := GetInt(c, raw, "minLength"), GetInt(c, raw, "maxLength"), GetStrings(raw, "enum").UnwrapOr([]);
    match GetString(raw, "format")
    case None => StringSchema(ImportedBase(store, raw, map[]), min, max, kept, enum, "", [])
    case Some(name) =>
      match UseOf(c, name)
      case BuiltIn(format, builtIn) => StringSchema(ImportedBase(store, raw, map[]), min, max, Some(builtIn), enum, format, [])
      case Validator(format) => StringSchema(ImportedBase(store, raw, map[]), min, max, kept, enum, format, [Format(format)])
      case OnlyMeta(format) => StringSchema(ImportedBase(store, raw, map["format" := Str(format)]), min, max, kept, enum, "", [])
  }

  function Bound(raw: Doc, inclusive: string, exclusive: string): Option<real> {
    if GetFloat(raw, exclusive).Some? then GetFloat(raw, exclusive) else GetFloat(raw, inclusive)
  }

  function ExclusiveMeta(raw: Doc, key: string): Doc {
    match GetFloat(raw, key) case None => map[] case Some(r) => map[key := AsNumber(r)]
  }

  function ImportNumber(store: bool, raw: Doc, integer: bool): Schema {
    var own := ExclusiveMeta(raw, "exclusiveMinimum") + ExclusiveMeta(raw, "exclusiveMaximum");
    NumberSchema(ImportedBase(store, raw, own), Bound(raw, "minimum", "exclusiveMinimum"), Bound(raw, "maximum", "exclusiveMaximum"),
      GetFloat(raw, "multipleOf"), if integer then [Integer] else [])
  }

  function Marked(s: Schema, required: bool): Schema {
    if required then s.(base := s.base.(required := true)) else s
  }

  function Properties(raw: Doc): Doc {
    if "properties" in raw && raw["properties"].Map? then raw["properties"].entries else map[]
  }

  function Additional(raw: Doc): Option<bool> {
    if "additionalProperties" !in raw then None
    else
      match raw["additionalProperties"]
      case Bool(b) => Some(b)
      case Map(_) => Some(true)
      case _ => None
  }

  function AdditionalMeta(raw: Doc): Doc {
    if "additionalProperties" in raw && raw["additionalProperties"].Map? then
      map["additionalPropertiesSchema" := raw["additionalProperties"]]
    else map[]
  }

  /** A document node. The names of fields that are required are those listed that have a usable property. */
  function Import(store: bool, c: Codec, v: Value): Schema
    requires v.Map?
    decreases v
  {
    var raw, name := v.entries, TypeName(v.entries);
    if name == "string" then ImportString(store, c, raw)
    else if name == "number" then ImportNumber(store, raw, false)
    else if name == "integer" then ImportNumber(store, raw, true)
    else if name == "boolean" then BoolSchema(ImportedBase(store, raw, map[]), [])
    else if name == "object" then
      var props := Properties(raw);
      ObjectSchema(ImportedBase(store, raw, AdditionalMeta(raw)),
        map k | k in props && props[k].Map? :: Marked(Import(store, c, props[k]), k in RequiredNames(raw)),
        (set k | k in props && props[k].Map? && k in RequiredNames(raw)),
        Additional(raw), [], true)
    else if name == "array" then
      ArraySchema(ImportedBase(store, raw, map[]),
        if "items" in raw && raw["items"].Map? then Some(Import(store, c, raw["items"])) else None,
        GetInt(c, raw, "minItems"), GetInt(c, raw, "maxItems"), GetBool(raw, "uniqueItems") == Some(true), [], true)
    else Fallback()
  }

  // ---- export ----

  function Put(out: Doc, key: string, value: Option<Value>): Doc {
    match value case None => out case Some(v) => out[key := v]
  }

  function TypeEntry(name: string, nullable: bool): Doc {
    map["type" := if nullable then List([Str(name), Str("null")]) else Str(name)]
  }

  function IntValue(n: Option<int>): Option<Value> {
    match n case None => None case Some(i) => Some(Num(Int, i as real))
  }

  function RealValue(n: Option<real>): Option<Value> {
    match n case None => None case Some(r) => Some(AsNumber(r))
  }

  function TextValue(s: string): Option<Value> {
    if s == "" then None else Some(Str(s))
  }

  function ListValue(values: seq<string>): Option<Value> {
    if values == [] then None else Some(List(seq(|values|, i requires 0 <= i < |values| => Str(values[i]))))
  }

  predicate IsExclusive(key: string) {
    key == "exclusiveMinimum" || key == "exclusiveMaximum"
  }

  function IncludeMeta(withMeta: bool, meta: Doc, out: Doc): Doc {
    if withMeta then out + (map k | k in meta && k !in out && !IsExclusive(k) :: meta[k]) else out
  }

  function StringDoc(s: Schema): Doc
    requires s.StringSchema?
  {
    var a := TypeEntry("string", s.base.nullable);
    var b := Put(Put(a, "minLength", IntValue(s.minLength)), "maxLength", IntValue(s.maxLength));
    Put(Put(Put(b, "pattern", TextValue(s.pattern.UnwrapOr(""))), "enum", ListValue(s.enum)), "format", TextValue(s.format))
  }

  /** An exclusive bound, when it is known, replaces the inclusive one. */
  function BoundDoc(out: Doc, meta: Doc, exclusive: string, inclusive: string, bound: Option<real>): Doc {
    if exclusive in meta then out[exclusive := meta[exclusive]] else Put(out, inclusive, RealValue(bound))
  }

  function NumberDoc(s: Schema): Doc
    requires s.NumberSchema?
  {
    var a := TypeEntry(if Integer in s.rules then "integer" else "number", s.base.nullable);
    var b := BoundDoc(a, s.base.meta, "exclusiveMinimum", "minimum", s.min);
    var c := BoundDoc(b, s.base.meta, "exclusiveMaximum", "maximum", s.max);
    Put(c, "multipleOf", RealValue(s.multipleOf))
  }

  ghost function RequiredOf(s: Schema): seq<string>
    requires s.ObjectSchema?
  {
    Sorted(s.requiredFields + set k | k in s.fields && IsRequired(s.fields[k]))
  }

  ghost function Export(withMeta: bool, s: Schema): Doc
    decreases s
  {
    match s
    case StringSchema(base, _, _, _, _, _, _) => IncludeMeta(withMeta, base.meta, StringDoc(s))
    case NumberSchema(base, _, _, _, _) => IncludeMeta(withMeta, base.meta, NumberDoc(s))
    case BoolSchema(base, _) => IncludeMeta(withMeta, base.meta, TypeEntry("boolean", base.nullable))
    case ObjectSchema(base, fields, _, additional, _, _) =>
      var a := TypeEntry("object", base.nullable);
      var properties := Map(map k | k in fields :: Map(Export(withMeta, fields[k])));
      var b := Put(a, "properties", if fields == map[] then None else Some(properties));
      var c := Put(b, "required", ListValue(RequiredOf(s)));
      IncludeMeta(withMeta, base.meta, Put(c, "additionalProperties", match additional case None => None case Some(x) => Some(Bool(x))))
    case ArraySchema(base, element, min, max, unique, _, _) =>
      var a := TypeEntry("array", base.nullable);
      var b := Put(Put(a, "minItems", IntValue(min)), "maxItems", IntValue(max));
      var c := Put(b, "uniqueItems", if unique then Some(Bool(true)) else None);
      IncludeMeta(withMeta, base.meta, Put(c, "items", if element.None? then None else Some(Map(Export(withMeta, element.value)))))
    case TransformSchema(_, inner, _) => Export(withMeta, inner)
    case _ => map[]
  }

  /** Marshalling a value and parsing it again: every number comes back as a float64. */
  function Json(v: Value): Value
    decreases v
  {
    match v
    case Num(_, r) => AsNumber(r)
    case List(items) => List(seq(|items|, i requires 0 <= i < |items| => Json(items[i])))
    case Map(entries) => Map(map k | k in entries :: Json(entries[k]))
    case _ => v
  }

  ghost predicate IsJson(v: Value) {
    Json(v) == v
  }
}
