/**
 Compile: a schema becomes a flat chain of checks, each run whatever the others reported. Schemas that
 can transform, and those with nothing to flatten, become a single check that calls them.
 */
module SchemaCompile {
  import opened Values
  import opened Keys
  import opened Schemas
  import opened ValidationContexts
  import opened SchemaValidation

  /** A check, with the constants it was built for. */
  datatype Step =
    | TextType
    | MinLength(least: int)
    | MaxLength(most: int)
    | Pattern(pattern: string, format: string)
    | Enum(allowed: seq<string>)
    | TextRule(rule: Rule)
    | ValueType(kind: Kind)
    | IntegerOnly
    | AtLeast(low: real)
    | AtMost(high: real)
    | MultipleOf(of: real)
    | ValueRule(rule: Rule)
    | Fields(fields: seq<CompiledField>, declared: set<string>, additional: Option<bool>)
    | Items(minItems: Option<int>, maxItems: Option<int>, unique: bool, element: Option<Compiled>)
    | Delegate(schema: Schema)

  datatype CompiledField = CompiledField(name: string, schema: Compiled, required: bool)

  datatype Compiled = Compiled(required: bool, nullable: bool, steps: seq<Step>)

  // ---- compiling ----

  predicate CanTransform(s: Schema) {
    s.TransformSchema? || ((s.ObjectSchema? || s.ArraySchema?) && s.transformable)
  }

  ghost function Compile(s: Schema): Compiled
    decreases s, 2, 0
  {
    Compiled(IsRequired(s), s.base.nullable, Steps(s))
  }

  ghost function Steps(s: Schema): seq<Step>
    decreases s, 1, 0
  {
    if CanTransform(s) then [Delegate(s)]
    else
      match s
      case StringSchema(_, _, _, _, _, _, _) => TextSteps(s)
      case NumberSchema(_, _, _, _, _) => NumberSteps(s)
      case BoolSchema(_, rules) => [ValueType(KindBool)] + ValueRules(rules)
      case ObjectSchema(_, _, _, _, rules, _) =>
        [ValueType(KindObject), Fields(CompiledFields(s, Sorted(s.fields.Keys), |Sorted(s.fields.Keys)|), s.fields.Keys, s.additional)]
        + ValueRules(rules)
      case ArraySchema(_, element, minItems, maxItems, unique, rules, _) =>
        [ValueType(KindArray),
         Items(minItems, maxItems, unique, if element.None? then None else Some(Compile(element.value)))]
        + ValueRules(rules)
      case _ => [Delegate(s)]
  }

  ghost function CompiledFields(s: Schema, names: seq<string>, n: nat): (r: seq<CompiledField>)
    requires s.ObjectSchema? && n <= |names| && forall i | 0 <= i < |names| :: names[i] in s.fields
    ensures |r| == n
    decreases s, 0, n
  {
    if n == 0 then []
    else
      var name := names[n - 1];
      CompiledFields(s, names, n - 1) +
      [CompiledField(name, Compile(s.fields[name]), name in s.requiredFields || IsRequired(s.fields[name]))]
  }

  function Optional(present: bool, step: Step): seq<Step> {
    if present then [step] else []
  }

  function TextRules(rules: seq<Rule>): (r: seq<Step>)
    ensures |r| == |rules| && forall i | 0 <= i < |rules| :: r[i] == TextRule(rules[i])
  {
    seq(|rules|, i requires 0 <= i < |rules| => TextRule(rules[i]))
  }

  function ValueRules(rules: seq<Rule>): (r: seq<Step>)
    ensures |r| == |rules| && forall i | 0 <= i < |rules| :: r[i] == ValueRule(rules[i])
  {
    seq(|rules|, i requires 0 <= i < |rules| => ValueRule(rules[i]))
  }

  /** The pattern is checked when its text is not empty. */
  function TextSteps(s: Schema): seq<Step>
    requires s.StringSchema?
  {
    [TextType]
    + Optional(s.minLength.Some?, MinLength(s.minLength.UnwrapOr(0)))
    + Optional(s.maxLength.Some?, MaxLength(s.maxLength.UnwrapOr(0)))
    + Optional(s.pattern.UnwrapOr("") != "", Pattern(s.pattern.UnwrapOr(""), s.format))
    + Optional(s.enum != [], Enum(s.enum))
    + TextRules(s.rules)
  }

  function NumberSteps(s: Schema): seq<Step>
    requires s.NumberSchema?
  {
    [ValueType(KindNumber)]
    + Optional(Integer in s.rules, IntegerOnly)
    + Optional(s.min.Some?, AtLeast(s.min.UnwrapOr(0.0)))
    + Optional(s.max.Some?, AtMost(s.max.UnwrapOr(0.0)))
    + Optional(s.multipleOf.Some?, MultipleOf(s.multipleOf.UnwrapOr(0.0)))
    + ValueRules(s.rules)
  }

  method CompileSchema(s: Schema) returns (c: Compiled)
    ensures c == Compile(s)
    decreases s, 1
  {
    hide TextSteps, NumberSteps, CompiledFields;
    var steps := [];
    if CanTransform(s) {
      steps := steps + [Delegate(s)];
    } else {
      match s
      case StringSchema(_, _, _, _, _, _, _) => steps := CompileString(s);
      case NumberSchema(_, _, _, _, _) => steps := CompileNumber(s);
      case BoolSchema(_, rules) => steps := [ValueType(KindBool)] + ValueRules(rules);
      case ObjectSchema(_, _, _, _, rules, _) =>
        var fields := CompileFields(s);
        steps := [ValueType(KindObject), Fields(fields, s.fields.Keys, s.additional)] + ValueRules(rules);
      case ArraySchema(_, element, minItems, maxItems, unique, rules, _) =>
        var compiled := None;
        if element.Some? {
          var inner := CompileSchema(element.value);
          compiled := Some(inner);
        }
        steps := [ValueType(KindArray), Items(minItems, maxItems, unique, compiled)] + ValueRules(rules);
      case _ => steps := steps + [Delegate(s)];
    }
    c := Compiled(IsRequired(s), s.base.nullable, steps);
  }

  method CompileFields(s: Schema) returns (fields: seq<CompiledField>)
    requires s.ObjectSchema?
    ensures fields == CompiledFields(s, Sorted(s.fields.Keys), |Sorted(s.fields.Keys)|)
    decreases s, 0
  {
    hide Elements, Ascending, Compile;
    var names := SortKeys(s.fields.Keys);
    fields := [];
    for i := 0 to |names|
      invariant fields == CompiledFields(s, names, i)
    {
      var field := s.fields[names[i]];
      var compiled := CompileSchema(field);
      fields := fields + [CompiledField(names[i], compiled, names[i] in s.requiredFields || IsRequired(field))];
    }
  }

  method CompileString(s: Schema) returns (steps: seq<Step>)
    requires s.StringSchema?
    ensures steps == TextSteps(s)
  {
    hide TextRules;
    steps := [TextType];
    if s.minLength.Some? {
      steps := steps + [MinLength(s.minLength.value)];
    }
    assert steps == [TextType] + Optional(s.minLength.Some?, MinLength(s.minLength.UnwrapOr(0)));
    if s.maxLength.Some? {
      steps := steps + [MaxLength(s.maxLength.value)];
    }
    if s.pattern.UnwrapOr("") != "" {
      steps := steps + [Pattern(s.pattern.value, s.format)];
    }
    if |s.enum| > 0 {
      steps := steps + [Enum(s.enum)];
    }
    steps := steps + TextRules(s.rules);
  }

  method CompileNumber(s: Schema) returns (steps: seq<Step>)
    requires s.NumberSchema?
    ensures steps == NumberSteps(s)
  {
    hide ValueRules;
    steps := [ValueType(KindNumber)];
    if Integer in s.rules {
      steps := steps + [IntegerOnly];
    }
    assert steps == [ValueType(KindNumber)] + Optional(Integer in s.rules, IntegerOnly);
    if s.min.Some? {
      steps := steps + [AtLeast(s.min.value)];
    }
    if s.max.Some? {
      steps := steps + [AtMost(s.max.value)];
    }
    if s.multipleOf.Some? {
      steps := steps + [MultipleOf(s.multipleOf.value)];
    }
    steps := steps + ValueRules(s.rules);
  }

  // ---- what the checks report ----

  /** toString: the text of a value, empty when it has none. */
  function TextSeen(e: Env, v: Value, mode: Mode): string {
    TextOf(e, v, mode).UnwrapOr("")
  }

  predicate KnownKind(kind: NumKind) {
    kind.Float64? || kind.Float32? || kind.Int? || kind.Int64?
  }

  /** toFloat: anything but the four kinds it knows is zero. */
  function NumberSeen(v: Value): real {
    if v.Num? && KnownKind(v.kind) then v.r else 0.0
  }

  function Truncated(f: real): int {
    if f >= 0.0 then f.Floor else -((-f).Floor)
  }

  const INT64_LIMIT: int := 0x8000_0000_0000_0000

  function ToInt64(e: Env, f: real): int {
    if -INT64_LIMIT <= Truncated(f) < INT64_LIMIT then Truncated(f) else e.truncate(f)
  }

  predicate SeenWhole(e: Env, f: real) {
    f == ToInt64(e, f) as real
  }

  /** Dividing by zero gives an infinity or no number at all, neither of which is whole. */
  predicate SeenMultiple(e: Env, f: real, of: real) {
    of != 0.0 && SeenWhole(e, f / of)
  }

  predicate HasKind(e: Env, v: Value, kind: Kind, mode: Mode) {
    match kind
    case KindString => TextOf(e, v, mode).Some?
    case KindNumber => NumberOf(e, v, mode).Some?
    case KindBool => IsBoolean(v, mode)
    case KindObject => v.Map?
    case KindArray => v.List?
  }

  function RuleFault(e: Env, rule: Rule, v: Value): seq<Fault> {
    match RuleFailure(e, rule, v) case None => [] case Some(text) => [Fault(Rejected(text), v)]
  }

  /** The faults of a check that stays at its own position. */
  function StepFaults(e: Env, step: Step, v: Value, mode: Mode): seq<Fault>
    requires !step.Fields? && !step.Items? && !step.Delegate?
  {
    var t, f := TextSeen(e, v, mode), NumberSeen(v);
    match step
    case TextType => When(!HasKind(e, v, KindString, mode), if mode.Loose? then CannotConvert else Expected(KindString), v)
    case MinLength(least) => When(|t| < least, TooShort(least), Str(t))
    case MaxLength(most) => When(|t| > most, TooLong(most), Str(t))
    case Pattern(pattern, format) => When(!e.matches(pattern, t), Mismatch(format, pattern), Str(t))
    case Enum(allowed) => When(t !in allowed, NotInEnum(allowed), Str(t))
    case TextRule(rule) => RuleFault(e, rule, Str(t))
    case ValueType(kind) => When(!HasKind(e, v, kind, mode), Expected(kind), v)
    case IntegerOnly => When(!SeenWhole(e, f), Rejected("must be an integer"), v)
    case AtLeast(low) => When(f < low, TooSmall(low), v)
    case AtMost(high) => When(f > high, TooLarge(high), v)
    case MultipleOf(of) => When(!SeenMultiple(e, f, of), NotMultiple(of), v)
    case ValueRule(rule) => RuleFault(e, rule, v)
  }

  ghost function StepOut(e: Env, step: Step, v: Value, mode: Mode, path: seq<string>): Out
    decreases step, 2, 0
  {
    match step
    case Delegate(schema) => Check(e, schema, v, mode, path)
    case Fields(fields, declared, additional) =>
      if !v.Map? then At(path, [Fault(CannotConvert, v)])
      else
        Then(CompiledFieldsOut(e, step, |fields|, v.entries, mode, path),
             Undeclared(declared, additional, v.entries, mode, path))
    case Items(minItems, maxItems, unique, element) =>
      if !v.List? then NOTHING
      else
        Then(At(path, CountFaults(e, ArraySchema(Base(false, false, map[]), None, minItems, maxItems, unique, [], true), v.items)),
             if element.None? then NOTHING else CompiledItemsOut(e, element.value, v.items, |v.items|, mode, path))
    case _ => At(path, StepFaults(e, step, v, mode))
  }

  ghost function Undeclared(declared: set<string>, additional: Option<bool>, entries: map<string, Value>, mode: Mode,
                            path: seq<string>): Out
  {
    var keys := Sorted(entries.Keys);
    if (if additional.Some? then !additional.value else mode.Strict?) then ExtraOut(keys, |keys|, entries, declared, path)
    else NOTHING
  }

  ghost function CompiledFieldsOut(e: Env, step: Step, n: nat, entries: map<string, Value>, mode: Mode, path: seq<string>): Out
    requires step.Fields? && n <= |step.fields|
    decreases step, 1, n
  {
    if n == 0 then NOTHING
    else
      Then(CompiledFieldsOut(e, step, n - 1, entries, mode, path),
           CompiledFieldOut(e, step.fields[n - 1], entries, mode, path))
  }

  ghost function CompiledFieldOut(e: Env, field: CompiledField, entries: map<string, Value>, mode: Mode, path: seq<string>): Out
    decreases field, 2, 0
  {
    if field.name in entries then RunCompiled(e, field.schema, entries[field.name], mode, path + [field.name])
    else At(path + [field.name], When(field.required, FieldRequired, Null))
  }

  ghost function CompiledItemsOut(e: Env, element: Compiled, items: seq<Value>, n: nat, mode: Mode, path: seq<string>): Out
    requires n <= |items|
    decreases element, 3, n
  {
    if n == 0 then NOTHING
    else
      Then(CompiledItemsOut(e, element, items, n - 1, mode, path),
           RunCompiled(e, element, items[n - 1], mode, path + [IndexSegment(n - 1)]))
  }

  ghost function StepsOut(e: Env, c: Compiled, n: nat, v: Value, mode: Mode, path: seq<string>): Out
    requires n <= |c.steps|
    decreases c, 1, n
  {
    if n == 0 then NOTHING
    else Then(StepsOut(e, c, n - 1, v, mode, path), StepOut(e, c.steps[n - 1], v, mode, path))
  }

  ghost function RunCompiled(e: Env, c: Compiled, v: Value, mode: Mode, path: seq<string>): Out
    decreases c, 2, 0
  {
    if v.Null? then At(path, NullFaults(Base(c.required, c.nullable, map[])))
    else StepsOut(e, c, |c.steps|, v, mode, path)
  }
}
