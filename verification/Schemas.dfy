/**
 Schemas as the builders make them, and what validating a value against one reports. Regular
 expressions, custom validators, transformers, number parsing and printing are functions of an
 environment about which nothing is known except that they are functions.
 */
module Schemas {
  import opened Values
  import opened ErrorPaths
  import opened Keys
  import QueryRoundTrip

  datatype Mode = Strict | Loose

  /** A validator of a value. `Integer`, `Positive` and `Negative` come with the builder methods of those names. */
  datatype Rule =
    | Integer | Positive | Negative
    | BadPattern(why: string)
    | Format(name: string)
    | Custom(id: nat)

  datatype Base = Base(required: bool, nullable: bool, meta: map<string, Value>)

  /** `transformable` says whether the schema offers ValidateAndTransform; those the builders make do. */
  datatype Schema =
    | StringSchema(base: Base, minLength: Option<int>, maxLength: Option<int>, pattern: Option<string>,
                   enum: seq<string>, format: string, rules: seq<Rule>)
    | NumberSchema(base: Base, min: Option<real>, max: Option<real>, multipleOf: Option<real>, rules: seq<Rule>)
    | BoolSchema(base: Base, rules: seq<Rule>)
    | ObjectSchema(base: Base, fields: map<string, Schema>, requiredFields: set<string>,
                   additional: Option<bool>, rules: seq<Rule>, transformable: bool)
    | ArraySchema(base: Base, element: Option<Schema>, minItems: Option<int>, maxItems: Option<int>,
                  uniqueItems: bool, rules: seq<Rule>, transformable: bool)
    | CustomSchema(base: Base, validator: Option<nat>)
    | TransformSchema(base: Base, inner: Schema, transformers: seq<nat>)
    | AndSchema(base: Base, parts: seq<Schema>)
    | OrSchema(base: Base, parts: seq<Schema>)
    | NotSchema(base: Base, inner: Schema)

  datatype Attempt = Made(value: Value) | Refused(why: string)

  /** `truncate` is what the conversion to int64 gives for a number out of its range. */
  datatype Env = Env(
    matches: (string, string) -> bool,
    number: string -> Option<real>,
    show: Value -> string,
    custom: (nat, Value) -> Option<string>,
    format: (string, Value) -> Option<string>,
    transform: (nat, Value) -> Attempt,
    truncate: real -> int)

  datatype Kind = KindString | KindNumber | KindBool | KindObject | KindArray

  datatype Message =
    | FieldRequired | CannotBeNull | Expected(kind: Kind) | CannotConvert
    | TooShort(least: int) | TooLong(most: int) | Mismatch(format: string, pattern: string) | NotInEnum(allowed: seq<string>)
    | TooSmall(low: real) | TooLarge(high: real) | NotMultiple(of: real)
    | TooFewItems(least: int) | TooManyItems(most: int) | DuplicateItems
    | UnexpectedField | NoneOfThem | MustNotMatch
    | Rejected(text: string)
    | TransformFailed(step: nat, text: string)

  datatype FieldError = FieldError(path: string, message: Message, value: Value)

  datatype Record = Record(path: string, original: Value, made: Value, step: nat)

  /** What a validation appends to a context. */
  datatype Out = Out(errors: seq<FieldError>, records: seq<Record>)

  const NOTHING: Out := Out([], [])

  function Then(a: Out, b: Out): Out {
    Out(a.errors + b.errors, a.records + b.records)
  }

  // ---- faults at one position ----

  datatype Fault = Fault(message: Message, value: Value)

  function Located(where: string, faults: seq<Fault>): (r: seq<FieldError>)
    ensures |r| == |faults|
  {
    seq(|faults|, i requires 0 <= i < |faults| => FieldError(where, faults[i].message, faults[i].value))
  }

  function At(path: seq<string>, faults: seq<Fault>): Out {
    Out(Located(PathText(path), faults), [])
  }

  function When(broken: bool, message: Message, value: Value): seq<Fault> {
    if broken then [Fault(message, value)] else []
  }

  // ---- conversions ----

  /** ConvertToString, for values other than null. */
  function TextOf(e: Env, v: Value, mode: Mode): Option<string> {
    match v
    case Str(s) => Some(s)
    case Num(_, _) => if mode.Loose? then Some(e.show(v)) else None
    case Bool(_) => if mode.Loose? then Some(e.show(v)) else None
    case _ => None
  }

  function NumberOf(e: Env, v: Value, mode: Mode): Option<real> {
    match v
    case Num(_, r) => Some(r)
    case Str(s) => if mode.Loose? then e.number(s) else None
    case _ => None
  }

  predicate IsBoolean(v: Value, mode: Mode) {
    v.Bool? || (mode.Loose? && v.Str? && (v.s == "true" || v.s == "false"))
  }

  predicate Whole(r: real) {
    r.Floor as real == r
  }

  function AsNumber(r: real): Value {
    Num(Float64, r)
  }

  function NumericView(v: Value): real {
    if v.Num? then v.r else 0.0
  }

  function RuleFailure(e: Env, rule: Rule, v: Value): Option<string> {
    match rule
    case Integer => if Whole(NumericView(v)) then None else Some("must be an integer")
    case Positive => if NumericView(v) <= 0.0 then Some("must be positive") else None
    case Negative => if NumericView(v) >= 0.0 then Some("must be negative") else None
    case BadPattern(why) => Some(why)
    case Format(name) => e.format(name, v)
    case Custom(id) => e.custom(id, v)
  }

  /** The faults that the first `n` validators find. */
  function RuleFaults(e: Env, rules: seq<Rule>, n: nat, v: Value): seq<Fault>
    requires n <= |rules|
  {
    if n == 0 then []
    else
      RuleFaults(e, rules, n - 1, v) +
      match RuleFailure(e, rules[n - 1], v) case None => [] case Some(text) => [Fault(Rejected(text), v)]
  }

  function NullFaults(base: Base): seq<Fault> {
    if base.required then [Fault(FieldRequired, Null)]
    else When(!base.nullable, CannotBeNull, Null)
  }

  function LengthFaults(s: Schema, t: string): seq<Fault>
    requires s.StringSchema?
  {
    When(s.minLength.Some? && |t| < s.minLength.value, TooShort(s.minLength.UnwrapOr(0)), Str(t))
    + When(s.maxLength.Some? && |t| > s.maxLength.value, TooLong(s.maxLength.UnwrapOr(0)), Str(t))
  }

  function TextFaults(e: Env, s: Schema, t: string): seq<Fault>
    requires s.StringSchema?
  {
    LengthFaults(s, t)
    + When(s.pattern.Some? && !e.matches(s.pattern.value, t), Mismatch(s.format, s.pattern.UnwrapOr("")), Str(t))
    + When(s.enum != [] && t !in s.enum, NotInEnum(s.enum), Str(t))
    + RuleFaults(e, s.rules, |s.rules|, Str(t))
  }

  function StringFaults(e: Env, s: Schema, v: Value, mode: Mode): seq<Fault>
    requires s.StringSchema?
  {
    match TextOf(e, v, mode)
    case None => [Fault(if mode.Loose? then CannotConvert else Expected(KindString), v)]
    case Some(t) => TextFaults(e, s, t)
  }

  function AmountFaults(e: Env, s: Schema, r: real): seq<Fault>
    requires s.NumberSchema?
  {
    When(s.min.Some? && r < s.min.value, TooSmall(s.min.UnwrapOr(0.0)), AsNumber(r))
    + When(s.max.Some? && r > s.max.value, TooLarge(s.max.UnwrapOr(0.0)), AsNumber(r))
    + When(s.multipleOf.Some? && s.multipleOf.value != 0.0 && !Whole(r / s.multipleOf.value),
           NotMultiple(s.multipleOf.UnwrapOr(0.0)), AsNumber(r))
    + RuleFaults(e, s.rules, |s.rules|, AsNumber(r))
  }

  function NumberFaults(e: Env, s: Schema, v: Value, mode: Mode): seq<Fault>
    requires s.NumberSchema?
  {
    match NumberOf(e, v, mode)
    case None => [Fault(Expected(KindNumber), v)]
    case Some(r) => AmountFaults(e, s, r)
  }

  function BoolFaults(e: Env, s: Schema, v: Value, mode: Mode): seq<Fault>
    requires s.BoolSchema?
  {
    if IsBoolean(v, mode) then RuleFaults(e, s.rules, |s.rules|, v) else [Fault(Expected(KindBool), v)]
  }

  function CustomFaults(e: Env, s: Schema, v: Value): seq<Fault>
    requires s.CustomSchema?
  {
    if s.validator.None? then []
    else match e.custom(s.validator.value, v) case None => [] case Some(text) => [Fault(Rejected(text), v)]
  }

  predicate Repeats(e: Env, items: seq<Value>) {
    exists j | 0 <= j < |items| :: RepeatsAt(e, items, j)
  }

  /** Item `j` prints like an earlier one. */
  predicate RepeatsAt(e: Env, items: seq<Value>, j: nat)
    requires j < |items|
  {
    exists i | 0 <= i < j :: e.show(items[i]) == e.show(items[j])
  }

  function CountFaults(e: Env, s: Schema, items: seq<Value>): seq<Fault>
    requires s.ArraySchema?
  {
    When(s.minItems.Some? && |items| < s.minItems.value, TooFewItems(s.minItems.UnwrapOr(0)), List(items))
    + When(s.maxItems.Some? && |items| > s.maxItems.value, TooManyItems(s.maxItems.UnwrapOr(0)), List(items))
    + When(s.uniqueItems && Repeats(e, items), DuplicateItems, List(items))
  }

  // ---- objects ----

  predicate IsRequired(s: Schema) {
    s.base.required || (s.TransformSchema? && IsRequired(s.inner))
  }

  predicate RejectsExtra(s: Schema, mode: Mode)
    requires s.ObjectSchema?
  {
    if s.additional.Some? then !s.additional.value else mode.Strict?
  }

  /** The errors for required names, the first `n` of `names`, that are missing. */
  function MissingOut(names: seq<string>, n: nat, entries: map<string, Value>, path: seq<string>): Out
    requires n <= |names|
  {
    if n == 0 then NOTHING
    else
      Then(MissingOut(names, n - 1, entries, path),
           At(path + [names[n - 1]], When(names[n - 1] !in entries, FieldRequired, Null)))
  }

  /** The errors for keys, the first `n` of `names`, that are not declared. */
  function ExtraOut(names: seq<string>, n: nat, entries: map<string, Value>, declared: set<string>,
                    path: seq<string>): Out
    requires n <= |names| && forall i | 0 <= i < |names| :: names[i] in entries
  {
    if n == 0 then NOTHING
    else
      Then(ExtraOut(names, n - 1, entries, declared, path),
           At(path + [names[n - 1]], When(names[n - 1] !in declared, UnexpectedField, entries[names[n - 1]])))
  }

  function IndexSegment(i: nat): string {
    "[" + QueryRoundTrip.Decimal(i) + "]"
  }

  // ---- transformers ----

  /** What the first `n` transformers make of a value; the error of the first one that refuses. */
  datatype Pipeline = Pipeline(out: Out, result: Option<Value>)

  function Piped(e: Env, transformers: seq<nat>, n: nat, v: Value, path: seq<string>): Pipeline
    requires n <= |transformers|
  {
    if n == 0 then Pipeline(NOTHING, Some(v))
    else
      var before := Piped(e, transformers, n - 1, v, path);
      if before.result.None? then before
      else
        var input := before.result.value;
        match e.transform(transformers[n - 1], input)
        case Refused(why) => Pipeline(Then(before.out, At(path, [Fault(TransformFailed(n, why), input)])), None)
        case Made(w) => Pipeline(Then(before.out, Out([], [Record(PathText(path), input, w, n)])), Some(w))
  }

  // ---- validation ----

  /** What validating `v` at `path` appends to the context. */
  ghost function Check(e: Env, s: Schema, v: Value, mode: Mode, path: seq<string>): Out
    decreases s, 2, 0
  {
    if s.TransformSchema? then
      var made := Piped(e, s.transformers, |s.transformers|, v, path);
      if made.result.None? then made.out
      else Then(made.out, Check(e, s.inner, made.result.value, mode, path))
    else if v.Null? then At(path, NullFaults(s.base))
    else CheckValue(e, s, v, mode, path)
  }

  ghost function CheckValue(e: Env, s: Schema, v: Value, mode: Mode, path: seq<string>): Out
    requires !s.TransformSchema?
    decreases s, 1, 2
  {
    match s
    case StringSchema(_, _, _, _, _, _, _) => At(path, StringFaults(e, s, v, mode))
    case NumberSchema(_, _, _, _, _) => At(path, NumberFaults(e, s, v, mode))
    case BoolSchema(_, _) => At(path, BoolFaults(e, s, v, mode))
    case ObjectSchema(_, _, _, _, _, _) =>
      if !v.Map? then At(path, [Fault(Expected(KindObject), v)]) else CheckObject(e, s, v.entries, mode, path)
    case ArraySchema(_, _, _, _, _, _, _) =>
      if !v.List? then At(path, [Fault(Expected(KindArray), v)]) else CheckArray(e, s, v.items, mode, path)
    case CustomSchema(_, _) => At(path, CustomFaults(e, s, v))
    case AndSchema(_, parts) => AllParts(e, s, |parts|, v, mode, path)
    case OrSchema(_, parts) =>
      At(path, When(parts != [] && !SomePart(e, s, |parts|, v, mode), NoneOfThem, v))
    case NotSchema(_, inner) => At(path, When(Check(e, inner, v, mode, []).errors == [], MustNotMatch, v))
  }

  ghost function CheckObject(e: Env, s: Schema, entries: map<string, Value>, mode: Mode, path: seq<string>): Out
    requires s.ObjectSchema?
    decreases s, 1, 1
  {
    Then(Then(Then(
      MissingOut(Sorted(s.requiredFields), |Sorted(s.requiredFields)|, entries, path),
      DeclaredOut(e, s, entries, mode, path)),
      Extras(s, entries, mode, path)),
      At(path, RuleFaults(e, s.rules, |s.rules|, Map(entries))))
  }

  ghost function Extras(s: Schema, entries: map<string, Value>, mode: Mode, path: seq<string>): Out
    requires s.ObjectSchema?
  {
    var keys := Sorted(entries.Keys);
    if RejectsExtra(s, mode) then ExtraOut(keys, |keys|, entries, s.fields.Keys, path) else NOTHING
  }

  ghost function DeclaredOut(e: Env, s: Schema, entries: map<string, Value>, mode: Mode, path: seq<string>): Out
    requires s.ObjectSchema?
    decreases s, 1, 0
  {
    var names := Sorted(s.fields.Keys);
    FieldsOut(e, s, names, |names|, entries, mode, path)
  }

  /** The first `n` declared fields. */
  ghost function FieldsOut(e: Env, s: Schema, names: seq<string>, n: nat, entries: map<string, Value>,
                           mode: Mode, path: seq<string>): Out
    requires s.ObjectSchema? && n <= |names| && forall i | 0 <= i < |names| :: names[i] in s.fields
    decreases s, 0, n + 1
  {
    if n == 0 then NOTHING
    else
      Then(FieldsOut(e, s, names, n - 1, entries, mode, path), FieldOut(e, s, names[n - 1], entries, mode, path))
  }

  ghost function FieldOut(e: Env, s: Schema, name: string, entries: map<string, Value>, mode: Mode, path: seq<string>): Out
    requires s.ObjectSchema? && name in s.fields
    decreases s, 0, 0
  {
    var field := s.fields[name];
    if name in entries then Check(e, field, entries[name], mode, path + [name])
    else At(path + [name], When(name !in s.requiredFields && IsRequired(field), FieldRequired, Null))
  }

  ghost function CheckArray(e: Env, s: Schema, items: seq<Value>, mode: Mode, path: seq<string>): Out
    requires s.ArraySchema?
    decreases s, 1, 0
  {
    Then(Then(
      At(path, CountFaults(e, s, items)),
      ElementsOut(e, s, items, mode, path)),
      At(path, RuleFaults(e, s.rules, |s.rules|, List(items))))
  }

  ghost function ElementsOut(e: Env, s: Schema, items: seq<Value>, mode: Mode, path: seq<string>): Out
    requires s.ArraySchema?
    decreases s, 0, 0
  {
    if s.element.None? then NOTHING else ItemsOut(e, s.element.value, items, |items|, mode, path)
  }

  /** The first `n` elements. */
  ghost function ItemsOut(e: Env, element: Schema, items: seq<Value>, n: nat, mode: Mode, path: seq<string>): Out
    requires n <= |items|
    decreases element, 3, n
  {
    if n == 0 then NOTHING
    else
      Then(ItemsOut(e, element, items, n - 1, mode, path),
           Check(e, element, items[n - 1], mode, path + [IndexSegment(n - 1)]))
  }

  ghost function AllParts(e: Env, s: Schema, n: nat, v: Value, mode: Mode, path: seq<string>): Out
    requires s.AndSchema? && n <= |s.parts|
    decreases s, 0, n
  {
    if n == 0 then NOTHING
    else Then(AllParts(e, s, n - 1, v, mode, path), Check(e, s.parts[n - 1], v, mode, path))
  }

  /** One of the first `n` alternatives passes in a context of its own. */
  ghost predicate SomePart(e: Env, s: Schema, n: nat, v: Value, mode: Mode)
    requires s.OrSchema? && n <= |s.parts|
    decreases s, 0, n
  {
    n > 0 && (SomePart(e, s, n - 1, v, mode) || Check(e, s.parts[n - 1], v, mode, []).errors == [])
  }

  lemma CheckOfMap(e: Env, s: Schema, entries: map<string, Value>, mode: Mode, path: seq<string>)
    requires s.ObjectSchema?
    ensures Check(e, s, Map(entries), mode, path) == CheckObject(e, s, entries, mode, path)
  {
    assert Check(e, s, Map(entries), mode, path) == CheckValue(e, s, Map(entries), mode, path);
  }

  lemma CheckOfList(e: Env, s: Schema, items: seq<Value>, mode: Mode, path: seq<string>)
    requires s.ArraySchema?
    ensures Check(e, s, List(items), mode, path) == CheckArray(e, s, items, mode, path)
  {
    assert Check(e, s, List(items), mode, path) == CheckValue(e, s, List(items), mode, path);
  }

  ghost predicate Accepts(e: Env, s: Schema, v: Value, mode: Mode) {
    Check(e, s, v, mode, []).errors == []
  }
}
