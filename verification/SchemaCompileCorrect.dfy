/**
 A compiled schema reports an error exactly when its original does, wherever the compiler's own view
 of a value is the builders' view: numbers of the kinds it knows and in the range of int64, nonzero
 divisors, required names that are declared, and no null for a transformer.
 */
module SchemaCompileCorrect {
  import opened Values
  import opened Keys
  import opened Schemas
  import opened ValidationContexts
  import opened SchemaCompile

  // ---- the condition ----

  predicate InRange(r: real) {
    -(INT64_LIMIT as real) <= r < INT64_LIMIT as real
  }

  predicate RulePasses(e: Env, rule: Rule, v: Value) {
    RuleFailure(e, rule, v).None?
  }

  predicate RulesPass(e: Env, rules: seq<Rule>, v: Value) {
    forall i | 0 <= i < |rules| :: RulePasses(e, rules[i], v)
  }

  /** The constraints of a number schema, as its Validate checks them. */
  predicate LimitsHold(s: Schema, r: real)
    requires s.NumberSchema?
  {
    && (s.min.Some? ==> s.min.value <= r)
    && (s.max.Some? ==> r <= s.max.value)
    && (s.multipleOf.Some? && s.multipleOf.value != 0.0 ==> Whole(r / s.multipleOf.value))
  }

  /** Validators of a compiled number schema get the value as it came, not its float64. */
  predicate RawFits(e: Env, s: Schema, v: Value)
    requires s.NumberSchema? && v.Num?
  {
    LimitsHold(s, v.r) ==> (RulesPass(e, s.rules, v) <==> RulesPass(e, s.rules, AsNumber(v.r)))
  }

  /** A kind that the compiler knows, within the range of its conversion to int64. */
  predicate AmountFits(s: Schema, v: Value)
    requires s.NumberSchema? && v.Num?
  {
    && KnownKind(v.kind) && InRange(v.r)
    && (s.multipleOf.Some? ==> s.multipleOf.value != 0.0 && InRange(v.r / s.multipleOf.value))
  }

  predicate NumberFits(e: Env, s: Schema, v: Value, mode: Mode)
    requires s.NumberSchema?
  {
    (v.Num? ==> AmountFits(s, v) && RawFits(e, s, v)) && (v.Str? && mode.Loose? ==> e.number(v.s).None?)
  }

  ghost predicate Fits(e: Env, s: Schema, v: Value, mode: Mode)
    decreases s
  {
    if CanTransform(s) then s.TransformSchema? ==> !v.Null?
    else
      match s
      case NumberSchema(_, _, _, _, _) => NumberFits(e, s, v, mode)
      case ObjectSchema(_, fields, required, _, _, _) =>
        v.Map? ==> required <= fields.Keys && forall k | k in fields && k in v.entries :: Fits(e, fields[k], v.entries[k], mode)
      case ArraySchema(_, element, _, _, _, _, _) =>
        v.List? && element.Some? ==> forall i | 0 <= i < |v.items| :: Fits(e, element.value, v.items[i], mode)
      case _ => true
  }

  /** The empty regular expression matches everything. */
  ghost predicate EmptyMatches(e: Env) {
    forall t :: e.matches("", t)
  }

  // ---- chains of checks ----

  ghost predicate StepPasses(e: Env, step: Step, v: Value, mode: Mode, path: seq<string>) {
    StepOut(e, step, v, mode, path).errors == []
  }

  ghost predicate AllPass(e: Env, steps: seq<Step>, v: Value, mode: Mode, path: seq<string>) {
    forall i | 0 <= i < |steps| :: StepPasses(e, steps[i], v, mode, path)
  }

  lemma {:induction false} ChainPasses(e: Env, c: Compiled, n: nat, v: Value, mode: Mode, path: seq<string>)
    requires n <= |c.steps|
    ensures StepsOut(e, c, n, v, mode, path).errors == [] <==> AllPass(e, c.steps[..n], v, mode, path)
  {
    hide StepOut;
    if n > 0 {
      ChainPasses(e, c, n - 1, v, mode, path);
      assert c.steps[..n] == c.steps[..n - 1] + [c.steps[n - 1]];
      AllPassAppend(e, c.steps[..n - 1], [c.steps[n - 1]], v, mode, path);
      assert StepPasses(e, c.steps[n - 1], v, mode, path) <==> AllPass(e, [c.steps[n - 1]], v, mode, path);
    }
  }

  lemma AllPassAppend(e: Env, a: seq<Step>, b: seq<Step>, v: Value, mode: Mode, path: seq<string>)
    ensures AllPass(e, a + b, v, mode, path) <==> AllPass(e, a, v, mode, path) && AllPass(e, b, v, mode, path)
  {
    hide StepPasses;
    forall i | 0 <= i < |b|
      ensures (a + b)[|a| + i] == b[i]
    {
    }
    if AllPass(e, a + b, v, mode, path) {
      forall i | 0 <= i < |a|
        ensures StepPasses(e, a[i], v, mode, path)
      {
        assert (a + b)[i] == a[i];
      }
      forall i | 0 <= i < |b|
        ensures StepPasses(e, b[i], v, mode, path)
      {
        assert StepPasses(e, (a + b)[|a| + i], v, mode, path);
      }
    }
  }

  lemma RunPasses(e: Env, s: Schema, v: Value, mode: Mode, path: seq<string>)
    requires !v.Null?
    ensures RunCompiled(e, Compile(s), v, mode, path).errors == [] <==> AllPass(e, Steps(s), v, mode, path)
  {
    hide Steps, AllPass;
    var c := Compile(s);
    ChainPasses(e, c, |c.steps|, v, mode, path);
    assert c.steps[..|c.steps|] == c.steps;
  }

  lemma AtClean(path: seq<string>, faults: seq<Fault>)
    ensures At(path, faults).errors == [] <==> faults == []
  {
  }

  lemma AllPassOne(e: Env, step: Step, v: Value, mode: Mode, path: seq<string>)
    ensures AllPass(e, [step], v, mode, path) <==> StepPasses(e, step, v, mode, path)
  {
    hide StepPasses;
    assert AllPass(e, [step], v, mode, path) ==> StepPasses(e, [step][0], v, mode, path);
  }

  lemma OnePasses(e: Env, step: Step, v: Value, mode: Mode, path: seq<string>)
    requires !step.Fields? && !step.Items? && !step.Delegate?
    ensures StepPasses(e, step, v, mode, path) <==> StepFaults(e, step, v, mode) == []
    ensures AllPass(e, [step], v, mode, path) <==> StepFaults(e, step, v, mode) == []
  {
    hide StepFaults, At;
    AllPassOne(e, step, v, mode, path);
    AtClean(path, StepFaults(e, step, v, mode));
  }

  lemma OptionalPasses(e: Env, present: bool, step: Step, v: Value, mode: Mode, path: seq<string>)
    requires !step.Fields? && !step.Items? && !step.Delegate?
    ensures AllPass(e, Optional(present, step), v, mode, path) <==> (present ==> StepFaults(e, step, v, mode) == [])
  {
    OnePasses(e, step, v, mode, path);
  }

  // ---- validators ----

  lemma {:induction false} RulesClean(e: Env, rules: seq<Rule>, n: nat, v: Value)
    requires n <= |rules|
    ensures RuleFaults(e, rules, n, v) == [] <==> forall i | 0 <= i < n :: RulePasses(e, rules[i], v)
  {
    hide RuleFailure;
    if n > 0 {
      RulesClean(e, rules, n - 1, v);
    }
  }

  lemma RulePassesAlone(e: Env, rule: Rule, v: Value, mode: Mode, path: seq<string>)
    ensures StepPasses(e, ValueRule(rule), v, mode, path) <==> RulePasses(e, rule, v)
    ensures var t := TextOf(e, v, mode);
      t.Some? ==> (StepPasses(e, TextRule(rule), v, mode, path) <==> RulePasses(e, rule, Str(t.value)))
  {
    hide RuleFailure;
    OnePasses(e, ValueRule(rule), v, mode, path);
    OnePasses(e, TextRule(rule), v, mode, path);
  }

  lemma TextRulesPass(e: Env, rules: seq<Rule>, v: Value, t: string, mode: Mode, path: seq<string>)
    requires TextOf(e, v, mode) == Some(t)
    ensures AllPass(e, TextRules(rules), v, mode, path) <==> RuleFaults(e, rules, |rules|, Str(t)) == []
  {
    hide RulePasses, TextRules, StepPasses, RuleFaults, TextOf;
    RulesClean(e, rules, |rules|, Str(t));
    var steps := TextRules(rules);
    forall i | 0 <= i < |rules|
      ensures StepPasses(e, steps[i], v, mode, path) <==> RulePasses(e, rules[i], Str(t))
    {
      RulePassesAlone(e, rules[i], v, mode, path);
    }
  }

  lemma ValueRulesPass(e: Env, rules: seq<Rule>, v: Value, mode: Mode, path: seq<string>)
    ensures AllPass(e, ValueRules(rules), v, mode, path) <==> RuleFaults(e, rules, |rules|, v) == []
  {
    hide RulePasses, ValueRules, StepPasses, RuleFaults;
    RulesClean(e, rules, |rules|, v);
    var steps := ValueRules(rules);
    forall i | 0 <= i < |rules|
      ensures StepPasses(e, steps[i], v, mode, path) <==> RulePasses(e, rules[i], v)
    {
      RulePassesAlone(e, rules[i], v, mode, path);
    }
  }

  // ---- strings ----

  lemma TextChain(e: Env, s: Schema, v: Value, mode: Mode, path: seq<string>)
    requires s.StringSchema?
    ensures AllPass(e, TextSteps(s), v, mode, path) <==>
      && StepFaults(e, TextType, v, mode) == []
      && (s.minLength.Some? ==> StepFaults(e, MinLength(s.minLength.value), v, mode) == [])
      && (s.maxLength.Some? ==> StepFaults(e, MaxLength(s.maxLength.value), v, mode) == [])
      && (s.pattern.UnwrapOr("") != "" ==> StepFaults(e, Pattern(s.pattern.value, s.format), v, mode) == [])
      && (s.enum != [] ==> StepFaults(e, Enum(s.enum), v, mode) == [])
      && AllPass(e, TextRules(s.rules), v, mode, path)
  {
    hide StepFaults, AllPass, Optional, TextRules;
    var a := Optional(s.minLength.Some?, MinLength(s.minLength.UnwrapOr(0)));
    var b := Optional(s.maxLength.Some?, MaxLength(s.maxLength.UnwrapOr(0)));
    var c := Optional(s.pattern.UnwrapOr("") != "", Pattern(s.pattern.UnwrapOr(""), s.format));
    var d := Optional(s.enum != [], Enum(s.enum));
    OnePasses(e, TextType, v, mode, path);
    OptionalPasses(e, s.minLength.Some?, MinLength(s.minLength.UnwrapOr(0)), v, mode, path);
    OptionalPasses(e, s.maxLength.Some?, MaxLength(s.maxLength.UnwrapOr(0)), v, mode, path);
    OptionalPasses(e, s.pattern.UnwrapOr("") != "", Pattern(s.pattern.UnwrapOr(""), s.format), v, mode, path);
    OptionalPasses(e, s.enum != [], Enum(s.enum), v, mode, path);
    AllPassAppend(e, [TextType], a, v, mode, path);
    AllPassAppend(e, [TextType] + a, b, v, mode, path);
    AllPassAppend(e, [TextType] + a + b, c, v, mode, path);
    AllPassAppend(e, [TextType] + a + b + c, d, v, mode, path);
    AllPassAppend(e, [TextType] + a + b + c + d, TextRules(s.rules), v, mode, path);
  }

  lemma StringAgrees(e: Env, s: Schema, v: Value, mode: Mode, path: seq<string>)
    requires s.StringSchema? && EmptyMatches(e)
    ensures AllPass(e, TextSteps(s), v, mode, path) <==> StringFaults(e, s, v, mode) == []
  {
    hide TextRules, RuleFaults, AllPass, TextSteps;
    TextChain(e, s, v, mode, path);
    var t := TextOf(e, v, mode);
    if t.Some? {
      TextRulesPass(e, s.rules, v, t.value, mode, path);
      assert s.pattern == Some("") ==> e.matches("", t.value);
    }
  }

  // ---- numbers ----

  lemma WholeSeen(e: Env, f: real)
    requires InRange(f)
    ensures SeenWhole(e, f) <==> Whole(f)
  {
  }

  lemma NumberChain(e: Env, s: Schema, v: Value, mode: Mode, path: seq<string>)
    requires s.NumberSchema?
    ensures AllPass(e, NumberSteps(s), v, mode, path) <==>
      && StepFaults(e, ValueType(KindNumber), v, mode) == []
      && (Integer in s.rules ==> StepFaults(e, IntegerOnly, v, mode) == [])
      && (s.min.Some? ==> StepFaults(e, AtLeast(s.min.value), v, mode) == [])
      && (s.max.Some? ==> StepFaults(e, AtMost(s.max.value), v, mode) == [])
      && (s.multipleOf.Some? ==> StepFaults(e, MultipleOf(s.multipleOf.value), v, mode) == [])
      && AllPass(e, ValueRules(s.rules), v, mode, path)
  {
    hide StepFaults, AllPass, Optional, ValueRules;
    var t := [ValueType(KindNumber)];
    var a := Optional(Integer in s.rules, IntegerOnly);
    var b := Optional(s.min.Some?, AtLeast(s.min.UnwrapOr(0.0)));
    var c := Optional(s.max.Some?, AtMost(s.max.UnwrapOr(0.0)));
    var d := Optional(s.multipleOf.Some?, MultipleOf(s.multipleOf.UnwrapOr(0.0)));
    OnePasses(e, ValueType(KindNumber), v, mode, path);
    OptionalPasses(e, Integer in s.rules, IntegerOnly, v, mode, path);
    OptionalPasses(e, s.min.Some?, AtLeast(s.min.UnwrapOr(0.0)), v, mode, path);
    OptionalPasses(e, s.max.Some?, AtMost(s.max.UnwrapOr(0.0)), v, mode, path);
    OptionalPasses(e, s.multipleOf.Some?, MultipleOf(s.multipleOf.UnwrapOr(0.0)), v, mode, path);
    AllPassAppend(e, t, a, v, mode, path);
    AllPassAppend(e, t + a, b, v, mode, path);
    AllPassAppend(e, t + a + b, c, v, mode, path);
    AllPassAppend(e, t + a + b + c, d, v, mode, path);
    AllPassAppend(e, t + a + b + c + d, ValueRules(s.rules), v, mode, path);
  }

  lemma AmountParts(e: Env, s: Schema, r: real)
    requires s.NumberSchema?
    ensures AmountFaults(e, s, r) == [] <==> LimitsHold(s, r) && RulesPass(e, s.rules, AsNumber(r))
  {
    hide Whole, RuleFaults, RuleFailure;
    RulesClean(e, s.rules, |s.rules|, AsNumber(r));
  }

  /** The constraints as the compiled checks see them. */
  predicate LimitsSeen(e: Env, s: Schema, f: real)
    requires s.NumberSchema?
  {
    && (Integer in s.rules ==> SeenWhole(e, f))
    && (s.min.Some? ==> s.min.value <= f)
    && (s.max.Some? ==> f <= s.max.value)
    && (s.multipleOf.Some? ==> SeenMultiple(e, f, s.multipleOf.value))
  }

  /** What decides the two verdicts on anything but null, whatever its kind and size. */
  lemma NumberVerdicts(e: Env, s: Schema, v: Value, mode: Mode, path: seq<string>)
    requires s.NumberSchema?
    ensures AllPass(e, NumberSteps(s), v, mode, path) <==>
      NumberOf(e, v, mode).Some? && LimitsSeen(e, s, NumberSeen(v)) && RulesPass(e, s.rules, v)
    ensures NumberFaults(e, s, v, mode) == [] <==>
      var r := NumberOf(e, v, mode);
      r.Some? && LimitsHold(s, r.value) && RulesPass(e, s.rules, AsNumber(r.value))
  {
    hide RuleFaults, AllPass, NumberSteps, ValueRules, Whole, SeenWhole, RuleFailure, AmountFaults, LimitsHold, SeenMultiple;
    NumberChain(e, s, v, mode, path);
    ValueRulesPass(e, s.rules, v, mode, path);
    RulesClean(e, s.rules, |s.rules|, v);
    var r := NumberOf(e, v, mode);
    if r.Some? {
      AmountParts(e, s, r.value);
    }
  }

  /** For numbers that fit, the compiled constraints are those of the schema and its test for integers. */
  lemma LimitsAgree(e: Env, s: Schema, v: Value)
    requires s.NumberSchema? && v.Num? && AmountFits(s, v)
    ensures LimitsSeen(e, s, v.r) <==> LimitsHold(s, v.r) && (Integer in s.rules ==> Whole(v.r))
  {
    hide Whole, SeenWhole, InRange;
    WholeSeen(e, v.r);
    if s.multipleOf.Some? {
      WholeSeen(e, v.r / s.multipleOf.value);
    }
  }

  lemma IntegerRulePasses(e: Env, rules: seq<Rule>, v: Value)
    requires Integer in rules && RulesPass(e, rules, v)
    ensures Whole(NumericView(v))
  {
    var i :| 0 <= i < |rules| && rules[i] == Integer;
    assert RulePasses(e, rules[i], v);
  }

  /** For numbers that fit, the verdicts agree exactly when validators do not tell the raw value from its float64. */
  lemma RawValueSeen(e: Env, s: Schema, v: Value, mode: Mode, path: seq<string>)
    requires s.NumberSchema? && v.Num? && AmountFits(s, v)
    ensures (AllPass(e, NumberSteps(s), v, mode, path) <==> NumberFaults(e, s, v, mode) == []) <==> RawFits(e, s, v)
  {
    hide AllPass, NumberSteps, LimitsHold, LimitsSeen, RulesPass, NumberFaults, Whole, InRange;
    NumberVerdicts(e, s, v, mode, path);
    LimitsAgree(e, s, v);
    if Integer in s.rules && RulesPass(e, s.rules, v) {
      IntegerRulePasses(e, s.rules, v);
    }
    if Integer in s.rules && RulesPass(e, s.rules, AsNumber(v.r)) {
      IntegerRulePasses(e, s.rules, AsNumber(v.r));
    }
  }

  lemma NumberAgrees(e: Env, s: Schema, v: Value, mode: Mode, path: seq<string>)
    requires s.NumberSchema? && NumberFits(e, s, v, mode)
    ensures AllPass(e, NumberSteps(s), v, mode, path) <==> NumberFaults(e, s, v, mode) == []
  {
    hide AllPass, NumberSteps, NumberFaults, AmountFits, RawFits, LimitsHold, LimitsSeen, RulesPass;
    if v.Num? {
      RawValueSeen(e, s, v, mode, path);
    } else {
      NumberVerdicts(e, s, v, mode, path);
    }
  }

  // ---- the verdict ----

  /** The main result. */
  lemma {:induction false} SameVerdict(e: Env, s: Schema, v: Value, mode: Mode, path: seq<string>)
    requires Fits(e, s, v, mode) && EmptyMatches(e)
    ensures RunCompiled(e, Compile(s), v, mode, path).errors == [] <==> Check(e, s, v, mode, path).errors == []
    decreases s, 6
  {
    hide AllPass, TextSteps, NumberSteps, StringFaults, NumberFaults, BoolFaults, Steps, EmptyMatches, Fits, CheckValue, CanTransform;
    if v.Null? {
      NullVerdict(e, s, mode, path);
    } else {
      RunPasses(e, s, v, mode, path);
      if CanTransform(s) || s.CustomSchema? || s.AndSchema? || s.OrSchema? || s.NotSchema? {
        DelegateVerdict(e, s, v, mode, path);
      } else {
        ValueVerdict(e, s, v, mode, path);
      }
    }
  }

  lemma NullVerdict(e: Env, s: Schema, mode: Mode, path: seq<string>)
    requires Fits(e, s, Null, mode)
    ensures RunCompiled(e, Compile(s), Null, mode, path) == Check(e, s, Null, mode, path)
  {
  }

  lemma DelegateVerdict(e: Env, s: Schema, v: Value, mode: Mode, path: seq<string>)
    requires CanTransform(s) || s.CustomSchema? || s.AndSchema? || s.OrSchema? || s.NotSchema?
    ensures AllPass(e, Steps(s), v, mode, path) <==> Check(e, s, v, mode, path).errors == []
  {
    hide Check;
    assert Steps(s) == [Delegate(s)];
    assert StepPasses(e, Steps(s)[0], v, mode, path) <==> Check(e, s, v, mode, path).errors == [];
  }

  lemma {:induction false} ValueVerdict(e: Env, s: Schema, v: Value, mode: Mode, path: seq<string>)
    requires !v.Null? && !CanTransform(s) && !s.CustomSchema? && !s.AndSchema? && !s.OrSchema? && !s.NotSchema?
    requires Fits(e, s, v, mode) && EmptyMatches(e)
    ensures AllPass(e, Steps(s), v, mode, path) <==> Check(e, s, v, mode, path).errors == []
    decreases s, 5
  {
    hide At, AllPass, TextSteps, NumberSteps, StringFaults, NumberFaults, BoolFaults, EmptyMatches, CheckObject, CheckArray,
      CompiledFields, ValueRules, NumberFits;
    match s
    case StringSchema(_, _, _, _, _, _, _) =>
      StringAgrees(e, s, v, mode, path);
      AtClean(path, StringFaults(e, s, v, mode));
    case NumberSchema(_, _, _, _, _) =>
      NumberAgrees(e, s, v, mode, path);
      AtClean(path, NumberFaults(e, s, v, mode));
    case BoolSchema(_, _) =>
      BoolAgrees(e, s, v, mode, path);
      AtClean(path, BoolFaults(e, s, v, mode));
    case ObjectSchema(_, _, _, _, _, _) => ObjectVerdict(e, s, v, mode, path);
    case ArraySchema(_, _, _, _, _, _, _) => ArrayVerdict(e, s, v, mode, path);
  }

  lemma BoolAgrees(e: Env, s: Schema, v: Value, mode: Mode, path: seq<string>)
    requires s.BoolSchema?
    ensures AllPass(e, [ValueType(KindBool)] + ValueRules(s.rules), v, mode, path) <==> BoolFaults(e, s, v, mode) == []
  {
    hide AllPass, ValueRules, RuleFaults;
    OnePasses(e, ValueType(KindBool), v, mode, path);
    ValueRulesPass(e, s.rules, v, mode, path);
    AllPassAppend(e, [ValueType(KindBool)], ValueRules(s.rules), v, mode, path);
  }

  /** A type check, one check for the structure, and the validators. */
  lemma StructureChain(e: Env, kind: Kind, step: Step, rules: seq<Rule>, v: Value, mode: Mode, path: seq<string>)
    ensures AllPass(e, [ValueType(kind), step] + ValueRules(rules), v, mode, path) <==>
      && HasKind(e, v, kind, mode)
      && StepPasses(e, step, v, mode, path)
      && RuleFaults(e, rules, |rules|, v) == []
  {
    hide AllPass, ValueRules, RuleFaults, HasKind, StepPasses;
    OnePasses(e, ValueType(kind), v, mode, path);
    ValueRulesPass(e, rules, v, mode, path);
    AllPassAppend(e, [ValueType(kind)], [step], v, mode, path);
    assert [ValueType(kind)] + [step] == [ValueType(kind), step];
    AllPassAppend(e, [ValueType(kind), step], ValueRules(rules), v, mode, path);
    AllPassOne(e, step, v, mode, path);
  }

  // ---- arrays ----

  lemma {:induction false} ItemsVerdict(e: Env, element: Schema, items: seq<Value>, n: nat, mode: Mode, path: seq<string>)
    requires n <= |items| && EmptyMatches(e) && forall i | 0 <= i < |items| :: Fits(e, element, items[i], mode)
    ensures CompiledItemsOut(e, Compile(element), items, n, mode, path).errors == [] <==>
      ItemsOut(e, element, items, n, mode, path).errors == []
    decreases element, 7, n
  {
    hide RunCompiled, Compile, Check, Fits, EmptyMatches;
    if n > 0 {
      ItemsVerdict(e, element, items, n - 1, mode, path);
      SameVerdict(e, element, items[n - 1], mode, path + [IndexSegment(n - 1)]);
    }
  }

  lemma {:induction false} ArrayVerdict(e: Env, s: Schema, v: Value, mode: Mode, path: seq<string>)
    requires s.ArraySchema? && !s.transformable && !v.Null? && Fits(e, s, v, mode) && EmptyMatches(e)
    ensures AllPass(e, Steps(s), v, mode, path) <==> Check(e, s, v, mode, path).errors == []
    decreases s, 1
  {
    hide At, AllPass, CheckArray, EmptyMatches, ValueRules, RuleFaults, CountFaults, Compile, CompiledItemsOut, ItemsOut, Fits;
    var step := Items(s.minItems, s.maxItems, s.uniqueItems, if s.element.None? then None else Some(Compile(s.element.value)));
    assert Steps(s) == [ValueType(KindArray), step] + ValueRules(s.rules);
    StructureChain(e, KindArray, step, s.rules, v, mode, path);
    if v.List? {
      assert v == List(v.items);
      CheckOfList(e, s, v.items, mode, path);
      ElementsVerdict(e, s, v.items, mode, path);
    } else {
      AtClean(path, [Fault(Expected(KindArray), v)]);
      assert Check(e, s, v, mode, path) == CheckValue(e, s, v, mode, path);
    }
  }

  lemma {:induction false} ElementsVerdict(e: Env, s: Schema, items: seq<Value>, mode: Mode, path: seq<string>)
    requires s.ArraySchema? && !s.transformable && Fits(e, s, List(items), mode) && EmptyMatches(e)
    ensures
      var step := Items(s.minItems, s.maxItems, s.uniqueItems, if s.element.None? then None else Some(Compile(s.element.value)));
      StepPasses(e, step, List(items), mode, path) && RuleFaults(e, s.rules, |s.rules|, List(items)) == [] <==>
      CheckArray(e, s, items, mode, path).errors == []
    decreases s, 0
  {
    hide At, EmptyMatches, RuleFaults, Compile, CompiledItemsOut, ItemsOut, Repeats;
    AtClean(path, CountFaults(e, s, items));
    AtClean(path, RuleFaults(e, s.rules, |s.rules|, List(items)));
    if s.element.Some? {
      ItemsVerdict(e, s.element.value, items, |items|, mode, path);
    }
  }

  // ---- objects ----

  ghost predicate FieldPasses(e: Env, s: Schema, name: string, entries: map<string, Value>, mode: Mode, path: seq<string>)
    requires s.ObjectSchema? && name in s.fields
  {
    FieldOut(e, s, name, entries, mode, path).errors == [] && (name in s.requiredFields ==> name in entries)
  }

  ghost predicate FirstFieldsPass(e: Env, s: Schema, names: seq<string>, n: nat, entries: map<string, Value>,
                                  mode: Mode, path: seq<string>)
    requires s.ObjectSchema? && n <= |names| && forall i | 0 <= i < |names| :: names[i] in s.fields
  {
    forall i | 0 <= i < n :: FieldPasses(e, s, names[i], entries, mode, path)
  }

  lemma {:induction false} MissingPasses(names: seq<string>, n: nat, entries: map<string, Value>, path: seq<string>)
    requires n <= |names|
    ensures MissingOut(names, n, entries, path).errors == [] <==> forall i | 0 <= i < n :: names[i] in entries
  {
    hide At;
    if n > 0 {
      AtClean(path + [names[n - 1]], When(names[n - 1] !in entries, FieldRequired, Null));
      MissingPasses(names, n - 1, entries, path);
    }
  }

  lemma {:induction false} FieldsPass(e: Env, s: Schema, names: seq<string>, n: nat, entries: map<string, Value>,
                                      mode: Mode, path: seq<string>)
    requires s.ObjectSchema? && n <= |names| && forall i | 0 <= i < |names| :: names[i] in s.fields
    ensures FieldsOut(e, s, names, n, entries, mode, path).errors == [] <==>
      forall i | 0 <= i < n :: FieldOut(e, s, names[i], entries, mode, path).errors == []
  {
    hide FieldOut;
    if n > 0 {
      FieldsPass(e, s, names, n - 1, entries, mode, path);
    }
  }

  /** A declared field passes when compiled exactly when it passes and is there if required. */
  lemma {:induction false} FieldVerdict(e: Env, s: Schema, name: string, entries: map<string, Value>, mode: Mode, path: seq<string>)
    requires s.ObjectSchema? && !s.transformable && name in s.fields && Fits(e, s, Map(entries), mode) && EmptyMatches(e)
    ensures
      var field := CompiledField(name, Compile(s.fields[name]), name in s.requiredFields || IsRequired(s.fields[name]));
      CompiledFieldOut(e, field, entries, mode, path).errors == [] <==> FieldPasses(e, s, name, entries, mode, path)
    decreases s, 0
  {
    hide Compile, RunCompiled, Check, EmptyMatches, At;
    if name in entries {
      SameVerdict(e, s.fields[name], entries[name], mode, path + [name]);
    } else {
      AtClean(path + [name], When(name in s.requiredFields || IsRequired(s.fields[name]), FieldRequired, Null));
      AtClean(path + [name], When(name !in s.requiredFields && IsRequired(s.fields[name]), FieldRequired, Null));
    }
  }

  lemma {:induction false} CompiledFieldsPass(e: Env, s: Schema, names: seq<string>, step: Step, n: nat, entries: map<string, Value>,
                                              mode: Mode, path: seq<string>)
    requires s.ObjectSchema? && !s.transformable && Fits(e, s, Map(entries), mode) && EmptyMatches(e)
    requires n <= |names| && forall i | 0 <= i < |names| :: names[i] in s.fields
    requires step.Fields? && step.fields == CompiledFields(s, names, |names|)
    ensures CompiledFieldsOut(e, step, n, entries, mode, path).errors == [] <==>
      FirstFieldsPass(e, s, names, n, entries, mode, path)
    decreases s, 1, n
  {
    hide Compile, CompiledFieldOut, FieldPasses, Fits, EmptyMatches, CompiledFields, IsRequired;
    if n > 0 {
      CompiledFieldsPass(e, s, names, step, n - 1, entries, mode, path);
      CompiledFieldAt(s, names, |names|, n - 1);
      FieldVerdict(e, s, names[n - 1], entries, mode, path);
    }
  }

  lemma {:induction false} CompiledFieldAt(s: Schema, names: seq<string>, n: nat, i: nat)
    requires s.ObjectSchema? && i < n <= |names| && forall i | 0 <= i < |names| :: names[i] in s.fields
    ensures CompiledFields(s, names, n)[i] ==
      CompiledField(names[i], Compile(s.fields[names[i]]), names[i] in s.requiredFields || IsRequired(s.fields[names[i]]))
  {
    hide Compile, IsRequired;
    if i < n - 1 {
      CompiledFieldAt(s, names, n - 1, i);
    }
  }

  lemma {:induction false} EntriesVerdict(e: Env, s: Schema, entries: map<string, Value>, mode: Mode, path: seq<string>)
    requires s.ObjectSchema? && !s.transformable && Fits(e, s, Map(entries), mode) && EmptyMatches(e)
    ensures
      var names := Sorted(s.fields.Keys);
      StepPasses(e, Fields(CompiledFields(s, names, |names|), s.fields.Keys, s.additional), Map(entries), mode, path)
      && RuleFaults(e, s.rules, |s.rules|, Map(entries)) == []
      <==>
      CheckObject(e, s, entries, mode, path).errors == []
    decreases s, 2
  {
    hide At, EmptyMatches, RuleFaults, Compile, CompiledFields, CompiledFieldsOut, FieldsOut, MissingOut, Elements, Ascending,
      ExtraOut, FirstFieldsPass, FieldOut;
    var required, names := Sorted(s.requiredFields), Sorted(s.fields.Keys);
    var step := Fields(CompiledFields(s, names, |names|), s.fields.Keys, s.additional);
    AtClean(path, RuleFaults(e, s.rules, |s.rules|, Map(entries)));
    assert StepOut(e, step, Map(entries), mode, path) ==
      Then(CompiledFieldsOut(e, step, |names|, entries, mode, path), Extras(s, entries, mode, path));
    CompiledFieldsPass(e, s, names, step, |names|, entries, mode, path);
    RequiredAmongFields(e, s, entries, mode, path);
  }

  lemma RequiredAmongFields(e: Env, s: Schema, entries: map<string, Value>, mode: Mode, path: seq<string>)
    requires s.ObjectSchema? && s.requiredFields <= s.fields.Keys
    ensures
      var required, names := Sorted(s.requiredFields), Sorted(s.fields.Keys);
      FirstFieldsPass(e, s, names, |names|, entries, mode, path) <==>
      MissingOut(required, |required|, entries, path).errors == [] && DeclaredOut(e, s, entries, mode, path).errors == []
  {
    hide FieldOut, Elements, Ascending, FieldsOut, MissingOut;
    var required, names := Sorted(s.requiredFields), Sorted(s.fields.Keys);
    FieldsPass(e, s, names, |names|, entries, mode, path);
    MissingPasses(required, |required|, entries, path);
    forall k | k in s.requiredFields
      ensures exists i :: 0 <= i < |required| && required[i] == k
      ensures exists i :: 0 <= i < |names| && names[i] == k
    {
      SortedHas(s.requiredFields, k);
      SortedHas(s.fields.Keys, k);
    }
    if FirstFieldsPass(e, s, names, |names|, entries, mode, path) {
      forall i | 0 <= i < |names|
        ensures FieldOut(e, s, names[i], entries, mode, path).errors == []
      {
        assert FieldPasses(e, s, names[i], entries, mode, path);
      }
      forall i | 0 <= i < |required|
        ensures required[i] in entries
      {
        var j :| 0 <= j < |names| && names[j] == required[i];
        assert FieldPasses(e, s, names[j], entries, mode, path);
      }
    }
  }

  lemma {:induction false} ObjectVerdict(e: Env, s: Schema, v: Value, mode: Mode, path: seq<string>)
    requires s.ObjectSchema? && !s.transformable && !v.Null? && Fits(e, s, v, mode) && EmptyMatches(e)
    ensures AllPass(e, Steps(s), v, mode, path) <==> Check(e, s, v, mode, path).errors == []
    decreases s, 3
  {
    hide At, AllPass, CheckObject, EmptyMatches, ValueRules, RuleFaults, CompiledFields, Fits, Elements, Ascending, StepPasses;
    var names := Sorted(s.fields.Keys);
    var step := Fields(CompiledFields(s, names, |names|), s.fields.Keys, s.additional);
    StructureChain(e, KindObject, step, s.rules, v, mode, path);
    if v.Map? {
      assert v == Map(v.entries);
      CheckOfMap(e, s, v.entries, mode, path);
      EntriesVerdict(e, s, v.entries, mode, path);
    } else {
      AtClean(path, [Fault(Expected(KindObject), v)]);
      assert Check(e, s, v, mode, path) == CheckValue(e, s, v, mode, path);
    }
  }

  // ---- where the verdicts part ----

  /** The schema without the required names that no field declares. */
  function Pruned(s: Schema): Schema
    requires s.ObjectSchema?
  {
    s.(requiredFields := s.requiredFields * s.fields.Keys)
  }

  lemma {:induction false} PrunedFields(s: Schema, names: seq<string>, n: nat)
    requires s.ObjectSchema? && n <= |names| && forall i | 0 <= i < |names| :: names[i] in s.fields
    ensures CompiledFields(s, names, n) == CompiledFields(Pruned(s), names, n)
  {
    hide Compile, IsRequired;
    if n > 0 {
      PrunedFields(s, names, n - 1);
    }
  }

  /** The compiler does not see required names that no field declares. */
  lemma PrunedCompilesAlike(s: Schema)
    requires s.ObjectSchema? && !s.transformable
    ensures Compile(s) == Compile(Pruned(s))
  {
    hide CompiledFields;
    var names := Sorted(s.fields.Keys);
    PrunedFields(s, names, |names|);
  }

  lemma {:induction false} PrunedFieldsCheck(e: Env, s: Schema, names: seq<string>, n: nat, entries: map<string, Value>,
                                             mode: Mode, path: seq<string>)
    requires s.ObjectSchema? && n <= |names| && forall i | 0 <= i < |names| :: names[i] in s.fields
    ensures FieldsOut(e, s, names, n, entries, mode, path) == FieldsOut(e, Pruned(s), names, n, entries, mode, path)
  {
    hide At, Check, IsRequired;
    if n > 0 {
      PrunedFieldsCheck(e, s, names, n - 1, entries, mode, path);
    }
  }

  lemma PrunedCheck(e: Env, s: Schema, entries: map<string, Value>, mode: Mode, path: seq<string>)
    requires s.ObjectSchema?
    ensures CheckObject(e, s, entries, mode, path).errors == [] <==>
      CheckObject(e, Pruned(s), entries, mode, path).errors == [] && s.requiredFields - s.fields.Keys <= entries.Keys
  {
    hide At, FieldsOut, MissingOut, ExtraOut, RuleFaults, Elements, Ascending;
    var names := Sorted(s.fields.Keys);
    PrunedFieldsCheck(e, s, names, |names|, entries, mode, path);
    RequiredPresent(s.requiredFields, entries, path);
    RequiredPresent(Pruned(s).requiredFields, entries, path);
    assert DeclaredOut(e, s, entries, mode, path) == DeclaredOut(e, Pruned(s), entries, mode, path);
    assert Extras(s, entries, mode, path) == Extras(Pruned(s), entries, mode, path);
    ObjectParts(e, s, entries, mode, path);
    ObjectParts(e, Pruned(s), entries, mode, path);
    assert s.requiredFields <= entries.Keys <==>
      s.requiredFields * s.fields.Keys <= entries.Keys && s.requiredFields - s.fields.Keys <= entries.Keys;
  }

  lemma ObjectParts(e: Env, s: Schema, entries: map<string, Value>, mode: Mode, path: seq<string>)
    requires s.ObjectSchema?
    ensures CheckObject(e, s, entries, mode, path).errors == [] <==>
      && MissingOut(Sorted(s.requiredFields), |Sorted(s.requiredFields)|, entries, path).errors == []
      && DeclaredOut(e, s, entries, mode, path).errors == []
      && Extras(s, entries, mode, path).errors == []
      && RuleFaults(e, s.rules, |s.rules|, Map(entries)) == []
  {
    hide At, DeclaredOut, MissingOut, Extras, RuleFaults, Elements, Ascending;
    AtClean(path, RuleFaults(e, s.rules, |s.rules|, Map(entries)));
  }

  lemma RequiredPresent(required: set<string>, entries: map<string, Value>, path: seq<string>)
    ensures MissingOut(Sorted(required), |Sorted(required)|, entries, path).errors == [] <==> required <= entries.Keys
  {
    hide MissingOut, Elements, Ascending;
    var names := Sorted(required);
    MissingPasses(names, |names|, entries, path);
    forall k | k in required
      ensures exists i :: 0 <= i < |names| && names[i] == k
    {
      SortedHas(required, k);
    }
  }

  /** For an object that is flattened: the verdicts agree exactly when this holds. */
  lemma UndeclaredRequired(e: Env, s: Schema, entries: map<string, Value>, mode: Mode, path: seq<string>)
    requires s.ObjectSchema? && !s.transformable && EmptyMatches(e) && Fits(e, Pruned(s), Map(entries), mode)
    ensures
      (RunCompiled(e, Compile(s), Map(entries), mode, path).errors == [] <==> Check(e, s, Map(entries), mode, path).errors == [])
      <==>
      (s.requiredFields - s.fields.Keys <= entries.Keys || !(Check(e, Pruned(s), Map(entries), mode, path).errors == []))
  {
    hide Compile, RunCompiled, Check, CheckObject, Fits, EmptyMatches;
    PrunedCompilesAlike(s);
    SameVerdict(e, Pruned(s), Map(entries), mode, path);
    PrunedCheck(e, s, entries, mode, path);
    CheckOfMap(e, s, entries, mode, path);
    CheckOfMap(e, Pruned(s), entries, mode, path);
  }

  /** Compiled or not, the answer to a value is the same. */
  ghost predicate SameAnswers(e: Env, s: Schema, v: Value, mode: Mode, path: seq<string>) {
    RunCompiled(e, Compile(s), v, mode, path).errors == [] <==> Check(e, s, v, mode, path).errors == []
  }

  lemma NumberAnswers(e: Env, s: Schema, v: Value, mode: Mode, path: seq<string>)
    requires s.NumberSchema? && !v.Null?
    ensures RunCompiled(e, Compile(s), v, mode, path).errors == [] <==> AllPass(e, NumberSteps(s), v, mode, path)
    ensures Check(e, s, v, mode, path).errors == [] <==> NumberFaults(e, s, v, mode) == []
  {
    hide AllPass, RunCompiled, Compile, NumberSteps, NumberFaults, At;
    RunPasses(e, s, v, mode, path);
    AtClean(path, NumberFaults(e, s, v, mode));
  }

  /** A divisor of zero: the builder skips the constraint, the compiled check never passes. */
  lemma ZeroDivisorRejects(e: Env, s: Schema, v: Value, mode: Mode, path: seq<string>)
    requires s.NumberSchema? && s.multipleOf == Some(0.0) && !v.Null?
    ensures RunCompiled(e, Compile(s), v, mode, path).errors != []
    ensures SameAnswers(e, s, v, mode, path) <==> Check(e, s, v, mode, path).errors != []
  {
    hide AllPass, RunCompiled, Compile, NumberSteps, NumberFaults, Check, RulesPass, LimitsHold;
    NumberAnswers(e, s, v, mode, path);
    NumberVerdicts(e, s, v, mode, path);
  }

  /**
   Numbers of a kind toFloat does not know, and the numeric strings of loose mode: the compiled
   constraints are asked of zero. The verdicts agree exactly when that makes no difference.
   */
  lemma UnknownIsZero(e: Env, s: Schema, v: Value, r: real, mode: Mode, path: seq<string>)
    requires s.NumberSchema? && NumberOf(e, v, mode) == Some(r) && !(v.Num? && KnownKind(v.kind))
    ensures SameAnswers(e, s, v, mode, path) <==>
      (LimitsHold(s, 0.0) && s.multipleOf != Some(0.0) && RulesPass(e, s.rules, v) <==>
       LimitsHold(s, r) && RulesPass(e, s.rules, AsNumber(r)))
  {
    hide AllPass, RunCompiled, Compile, NumberSteps, NumberFaults, Check, RulesPass;
    NumberAnswers(e, s, v, mode, path);
    NumberVerdicts(e, s, v, mode, path);
    assert s.multipleOf.Some? && s.multipleOf.value != 0.0 ==> 0.0 / s.multipleOf.value == 0.0;
  }

  /** Numbers of a known kind, of any size: the verdicts agree exactly when truncation makes no difference. */
  lemma KnownKindExact(e: Env, s: Schema, v: Value, mode: Mode, path: seq<string>)
    requires s.NumberSchema? && v.Num? && KnownKind(v.kind)
    ensures SameAnswers(e, s, v, mode, path) <==>
      (LimitsSeen(e, s, v.r) && RulesPass(e, s.rules, v) <==> LimitsHold(s, v.r) && RulesPass(e, s.rules, AsNumber(v.r)))
  {
    hide AllPass, RunCompiled, Compile, NumberSteps, NumberFaults, Check, RulesPass, LimitsHold, LimitsSeen;
    NumberAnswers(e, s, v, mode, path);
    NumberVerdicts(e, s, v, mode, path);
  }

  function AtLeastOne(rules: seq<Rule>): Schema {
    NumberSchema(Base(false, false, map[]), Some(1.0), None, None, rules)
  }

  /** Five as a uint8, and the text of five in loose mode, are below one. */
  lemma FiveBelowOne(e: Env, text: string)
    requires e.number(text) == Some(5.0)
    ensures !SameAnswers(e, AtLeastOne([]), Num(Uint8, 5.0), Strict, [])
    ensures !SameAnswers(e, AtLeastOne([]), Str(text), Loose, [])
  {
    hide SameAnswers;
    UnknownIsZero(e, AtLeastOne([]), Num(Uint8, 5.0), 5.0, Strict, []);
    UnknownIsZero(e, AtLeastOne([]), Str(text), 5.0, Loose, []);
  }

  /** A validator that takes a float64 only, as a Go type assertion does. */
  function Asserting(e: Env): Env {
    e.(custom := (id: nat, v: Value) => if v.Num? && v.kind.Float64? then None else Some("not a float64"))
  }

  /** Five as an int then passes Validate, which converts first, and not the compiled schema. */
  lemma RawFiveRejected(e: Env)
    ensures
      var s := AtLeastOne([Custom(0)]);
      !SameAnswers(Asserting(e), s, Num(Int, 5.0), Strict, []) && SameAnswers(Asserting(e), s, AsNumber(5.0), Strict, [])
  {
    hide SameAnswers;
    var s := AtLeastOne([Custom(0)]);
    assert !RulePasses(Asserting(e), s.rules[0], Num(Int, 5.0)) && RulePasses(Asserting(e), s.rules[0], AsNumber(5.0));
    KnownKindExact(Asserting(e), s, Num(Int, 5.0), Strict, []);
    KnownKindExact(Asserting(e), s, AsNumber(5.0), Strict, []);
  }

  /** On null the compiled schema looks at the flags only; the original runs its transformers. */
  lemma NullIntoTransform(e: Env, s: Schema, mode: Mode, path: seq<string>)
    requires s.TransformSchema?
    ensures RunCompiled(e, Compile(s), Null, mode, path).errors == [] <==> !IsRequired(s) && s.base.nullable
    ensures Check(e, s, Null, mode, path).errors == [] <==>
      var made := Piped(e, s.transformers, |s.transformers|, Null, path);
      made.result.Some? && Check(e, s.inner, made.result.value, mode, path).errors == []
  {
    hide Piped, At;
    AtClean(path, NullFaults(Base(IsRequired(s), s.base.nullable, map[])));
    PipedClean(e, s.transformers, |s.transformers|, Null, path);
  }

  lemma {:induction false} PipedClean(e: Env, transformers: seq<nat>, n: nat, v: Value, path: seq<string>)
    requires n <= |transformers|
    ensures var made := Piped(e, transformers, n, v, path); made.out.errors == [] <==> made.result.Some?
  {
    if n > 0 {
      PipedClean(e, transformers, n - 1, v, path);
    }
  }
}
