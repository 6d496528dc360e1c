/**
 What a compiled schema reports, as a relation between the original schema and values. Unlike the
 original, a compiled chain runs all its checks: a value without text is measured as the empty text, a
 number of an unknown kind as zero, and validators run whatever the type check said.
 */
module SchemaCompiledReports {
  import opened Values
  import opened ErrorPaths
  import opened Keys
  import opened Schemas
  import opened SchemaReports
  import opened SchemaCompile
  import SchemaCompileCorrect

  // ---- what fails ----

  /** The text that the checks of a string schema measure. */
  ghost predicate Measured(e: Env, v: Value, mode: Mode, t: string) {
    ReadsText(e, v, mode, t) || (t == "" && forall u :: !ReadsText(e, v, mode, u))
  }

  ghost predicate TextFails(e: Env, s: Schema, v: Value, mode: Mode, m: Message, w: Value)
    requires s.StringSchema?
  {
    || ((forall t :: !ReadsText(e, v, mode, t)) && w == v && m == if mode == Loose then CannotConvert else Expected(KindString))
    || (exists t :: Measured(e, v, mode, t) && TextBreaks(e, s, t, m, w) && !(m.Mismatch? && m.pattern == ""))
  }

  predicate Weighed(v: Value, f: real) {
    if v.Num? && v.kind in {Float64, Float32, Int, Int64} then f == v.r else f == 0.0
  }

  /** Equal to its conversion to int64 and back. */
  predicate WholeAsInt64(e: Env, f: real) {
    if -9223372036854775809.0 < f < 9223372036854775808.0 then f == f.Floor as real else f == e.truncate(f) as real
  }

  ghost predicate AmountFails(e: Env, s: Schema, f: real, m: Message)
    requires s.NumberSchema?
  {
    match m
    case TooSmall(low) => s.min == Some(low) && f < low
    case TooLarge(high) => s.max == Some(high) && high < f
    case NotMultiple(of) => s.multipleOf == Some(of) && (of == 0.0 || !WholeAsInt64(e, f / of))
    case Rejected(text) => text == "must be an integer" && Integer in s.rules && !WholeAsInt64(e, f)
    case _ => false
  }

  ghost predicate NumberFails(e: Env, s: Schema, v: Value, mode: Mode, m: Message, w: Value)
    requires s.NumberSchema?
  {
    w == v && (
      || ((forall r :: !ReadsNumber(e, v, mode, r)) && m == Expected(KindNumber))
      || (exists f :: Weighed(v, f) && AmountFails(e, s, f, m))
      || RulesBreak(e, s.rules, v, m, w))
  }

  /** A schema whose compiled form is one check that calls it. */
  predicate Delegated(s: Schema) {
    || s.TransformSchema? || s.CustomSchema? || s.AndSchema? || s.OrSchema? || s.NotSchema?
    || (s.ObjectSchema? && s.transformable) || (s.ArraySchema? && s.transformable)
  }

  /** The compiled form of `s` reports `m` about `w` at `q` below `v`. */
  ghost predicate Fails(e: Env, s: Schema, v: Value, mode: Mode, q: seq<string>, m: Message, w: Value)
    decreases s, 1
  {
    if v.Null? then q == [] && NullBreaks(Base(Demanded(s), s.base.nullable, map[]), m, w)
    else if Delegated(s) then Breaks(e, s, v, mode, q, m, w)
    else
      match s
      case StringSchema(_, _, _, _, _, _, _) => q == [] && TextFails(e, s, v, mode, m, w)
      case NumberSchema(_, _, _, _, _) => q == [] && NumberFails(e, s, v, mode, m, w)
      case BoolSchema(_, rules) =>
        q == [] && ((!ReadsBool(v, mode) && w == v && m == Expected(KindBool)) || RulesBreak(e, rules, v, m, w))
      case ObjectSchema(_, _, _, _, rules, _) =>
        || (q == [] && !v.Map? && w == v && (m == Expected(KindObject) || m == CannotConvert))
        || (v.Map? && EntriesFail(e, s, v.entries, mode, q, m, w))
        || (q == [] && RulesBreak(e, rules, v, m, w))
      case ArraySchema(_, _, _, _, _, rules, _) =>
        || (q == [] && !v.List? && w == v && m == Expected(KindArray))
        || (v.List? && ItemsFail(e, s, v.items, mode, q, m, w))
        || (q == [] && RulesBreak(e, rules, v, m, w))
  }

  /** Only declared fields are looked for. */
  predicate FieldMissed(s: Schema, entries: map<string, Value>, q: seq<string>, m: Message, w: Value)
    requires s.ObjectSchema?
  {
    && |q| == 1 && q[0] in s.fields && q[0] !in entries && m == FieldRequired && w == Null
    && (q[0] in s.requiredFields || Demanded(s.fields[q[0]]))
  }

  ghost predicate EntriesFail(e: Env, s: Schema, entries: map<string, Value>, mode: Mode, q: seq<string>, m: Message, w: Value)
    requires s.ObjectSchema?
    decreases s, 0
  {
    || FieldMissed(s, entries, q, m, w)
    || (q != [] && q[0] in s.fields && q[0] in entries && Fails(e, s.fields[q[0]], entries[q[0]], mode, q[1..], m, w))
    || ExtraBreaks(s, entries, mode, q, m, w)
  }

  ghost predicate ItemsFail(e: Env, s: Schema, items: seq<Value>, mode: Mode, q: seq<string>, m: Message, w: Value)
    requires s.ArraySchema?
    decreases s, 0
  {
    || (q == [] && CountBreaks(e, s, items, m, w))
    || (s.element.Some? && q != [] && exists i | 0 <= i < |items| ::
          q[0] == IndexSegment(i) && Fails(e, s.element.value, items[i], mode, q[1..], m, w))
  }

  ghost predicate Failed(e: Env, s: Schema, v: Value, mode: Mode, path: seq<string>, x: FieldError) {
    exists q, m, w :: Fails(e, s, v, mode, q, m, w) && x == FieldError(PathText(path + q), m, w)
  }

  // ---- chains of checks ----

  ghost predicate SomeStep(e: Env, steps: seq<Step>, v: Value, mode: Mode, path: seq<string>, x: FieldError) {
    exists i | 0 <= i < |steps| :: StepReports(e, steps[i], v, mode, path, x)
  }

  ghost predicate StepReports(e: Env, step: Step, v: Value, mode: Mode, path: seq<string>, x: FieldError) {
    x in StepOut(e, step, v, mode, path).errors
  }

  lemma {:induction false} ChainReports(e: Env, c: Compiled, n: nat, v: Value, mode: Mode, path: seq<string>, x: FieldError)
    requires n <= |c.steps|
    ensures x in StepsOut(e, c, n, v, mode, path).errors <==> SomeStep(e, c.steps[..n], v, mode, path, x)
  {
    hide StepOut;
    if n > 0 {
      ChainReports(e, c, n - 1, v, mode, path, x);
      assert c.steps[..n] == c.steps[..n - 1] + [c.steps[n - 1]];
      SomeAppend(e, c.steps[..n - 1], [c.steps[n - 1]], v, mode, path, x);
      SomeOne(e, c.steps[n - 1], v, mode, path, x);
    }
  }

  lemma SomeOne(e: Env, step: Step, v: Value, mode: Mode, path: seq<string>, x: FieldError)
    ensures SomeStep(e, [step], v, mode, path, x) <==> StepReports(e, step, v, mode, path, x)
  {
    hide StepReports;
    assert StepReports(e, step, v, mode, path, x) ==> StepReports(e, [step][0], v, mode, path, x);
  }

  lemma SomeAppend(e: Env, a: seq<Step>, b: seq<Step>, v: Value, mode: Mode, path: seq<string>, x: FieldError)
    ensures SomeStep(e, a + b, v, mode, path, x) <==> SomeStep(e, a, v, mode, path, x) || SomeStep(e, b, v, mode, path, x)
  {
    hide StepReports;
    if i :| 0 <= i < |a| && StepReports(e, a[i], v, mode, path, x) {
      assert StepReports(e, (a + b)[i], v, mode, path, x);
    }
    if i :| 0 <= i < |b| && StepReports(e, b[i], v, mode, path, x) {
      assert StepReports(e, (a + b)[|a| + i], v, mode, path, x);
    }
  }

  lemma RunReports(e: Env, s: Schema, v: Value, mode: Mode, path: seq<string>, x: FieldError)
    requires !v.Null?
    ensures x in RunCompiled(e, Compile(s), v, mode, path).errors <==> SomeStep(e, Steps(s), v, mode, path, x)
  {
    hide Steps, SomeStep;
    var c := Compile(s);
    ChainReports(e, c, |c.steps|, v, mode, path, x);
    assert c.steps[..|c.steps|] == c.steps;
  }

  predicate IsPlain(step: Step) {
    !step.Fields? && !step.Items? && !step.Delegate?
  }

  /** A check that stays at its own position reports its faults there. */
  predicate FaultsHave(e: Env, step: Step, v: Value, mode: Mode, path: seq<string>, x: FieldError)
    requires IsPlain(step)
  {
    x.path == PathText(path) && Fault(x.message, x.value) in StepFaults(e, step, v, mode)
  }

  lemma PlainReports(e: Env, step: Step, v: Value, mode: Mode, path: seq<string>, x: FieldError)
    requires IsPlain(step)
    ensures StepReports(e, step, v, mode, path, x) <==> FaultsHave(e, step, v, mode, path, x)
    ensures SomeStep(e, [step], v, mode, path, x) <==> FaultsHave(e, step, v, mode, path, x)
  {
    hide At, PathText, StepFaults, SomeStep;
    AtHas(path, StepFaults(e, step, v, mode), x);
    SomeOne(e, step, v, mode, path, x);
  }

  lemma OptionalReports(e: Env, present: bool, step: Step, v: Value, mode: Mode, path: seq<string>, x: FieldError)
    requires IsPlain(step)
    ensures SomeStep(e, Optional(present, step), v, mode, path, x) <==> present && FaultsHave(e, step, v, mode, path, x)
  {
    hide FaultsHave;
    PlainReports(e, step, v, mode, path, x);
  }

  // ---- validators ----

  lemma RuleStepBreaks(e: Env, rule: Rule, v: Value, mode: Mode, path: seq<string>, x: FieldError)
    ensures StepReports(e, ValueRule(rule), v, mode, path, x) <==>
      x.path == PathText(path) && x.value == v && x.message.Rejected? && RuleBreaks(e, rule, v, x.message.text)
    ensures StepReports(e, TextRule(rule), v, mode, path, x) <==>
      var t := TextSeen(e, v, mode);
      x.path == PathText(path) && x.value == Str(t) && x.message.Rejected? && RuleBreaks(e, rule, Str(t), x.message.text)
  {
    hide RuleFailure, RuleBreaks, PathText, StepReports;
    var t := TextSeen(e, v, mode);
    PlainReports(e, ValueRule(rule), v, mode, path, x);
    PlainReports(e, TextRule(rule), v, mode, path, x);
    if x.message.Rejected? {
      RuleFailureBreaks(e, rule, v, x.message.text);
      RuleFailureBreaks(e, rule, Str(t), x.message.text);
    }
  }

  lemma ValueRulesReport(e: Env, rules: seq<Rule>, v: Value, mode: Mode, path: seq<string>, x: FieldError)
    ensures SomeStep(e, ValueRules(rules), v, mode, path, x) <==>
      x.path == PathText(path) && RulesBreak(e, rules, v, x.message, x.value)
  {
    hide RuleBreaks, PathText, StepReports, ValueRules;
    var steps := ValueRules(rules);
    forall i | 0 <= i < |rules|
      ensures StepReports(e, steps[i], v, mode, path, x) <==>
        x.path == PathText(path) && x.value == v && x.message.Rejected? && RuleBreaks(e, rules[i], v, x.message.text)
    {
      RuleStepBreaks(e, rules[i], v, mode, path, x);
    }
  }

  lemma TextRulesReport(e: Env, rules: seq<Rule>, v: Value, mode: Mode, path: seq<string>, x: FieldError)
    ensures SomeStep(e, TextRules(rules), v, mode, path, x) <==>
      x.path == PathText(path) && RulesBreak(e, rules, Str(TextSeen(e, v, mode)), x.message, x.value)
  {
    hide RuleBreaks, PathText, StepReports, TextRules, TextSeen;
    var steps, t := TextRules(rules), TextSeen(e, v, mode);
    forall i | 0 <= i < |rules|
      ensures StepReports(e, steps[i], v, mode, path, x) <==>
        x.path == PathText(path) && x.value == Str(t) && x.message.Rejected? && RuleBreaks(e, rules[i], Str(t), x.message.text)
    {
      RuleStepBreaks(e, rules[i], v, mode, path, x);
    }
  }

  // ---- strings ----

  lemma TextChainReports(e: Env, s: Schema, v: Value, mode: Mode, path: seq<string>, x: FieldError)
    requires s.StringSchema?
    ensures SomeStep(e, TextSteps(s), v, mode, path, x) <==>
      || FaultsHave(e, TextType, v, mode, path, x)
      || (s.minLength.Some? && FaultsHave(e, MinLength(s.minLength.value), v, mode, path, x))
      || (s.maxLength.Some? && FaultsHave(e, MaxLength(s.maxLength.value), v, mode, path, x))
      || (s.pattern.UnwrapOr("") != "" && FaultsHave(e, Pattern(s.pattern.value, s.format), v, mode, path, x))
      || (s.enum != [] && FaultsHave(e, Enum(s.enum), v, mode, path, x))
      || SomeStep(e, TextRules(s.rules), v, mode, path, x)
  {
    hide FaultsHave, SomeStep, Optional, TextRules;
    var a := Optional(s.minLength.Some?, MinLength(s.minLength.UnwrapOr(0)));
    var b := Optional(s.maxLength.Some?, MaxLength(s.maxLength.UnwrapOr(0)));
    var c := Optional(s.pattern.UnwrapOr("") != "", Pattern(s.pattern.UnwrapOr(""), s.format));
    var d := Optional(s.enum != [], Enum(s.enum));
    PlainReports(e, TextType, v, mode, path, x);
    OptionalReports(e, s.minLength.Some?, MinLength(s.minLength.UnwrapOr(0)), v, mode, path, x);
    OptionalReports(e, s.maxLength.Some?, MaxLength(s.maxLength.UnwrapOr(0)), v, mode, path, x);
    OptionalReports(e, s.pattern.UnwrapOr("") != "", Pattern(s.pattern.UnwrapOr(""), s.format), v, mode, path, x);
    OptionalReports(e, s.enum != [], Enum(s.enum), v, mode, path, x);
    SomeAppend(e, [TextType], a, v, mode, path, x);
    SomeAppend(e, [TextType] + a, b, v, mode, path, x);
    SomeAppend(e, [TextType] + a + b, c, v, mode, path, x);
    SomeAppend(e, [TextType] + a + b + c, d, v, mode, path, x);
    SomeAppend(e, [TextType] + a + b + c + d, TextRules(s.rules), v, mode, path, x);
  }

  lemma MeasuredIs(e: Env, v: Value, mode: Mode)
    ensures forall t :: Measured(e, v, mode, t) <==> t == TextSeen(e, v, mode)
    ensures (forall t :: !ReadsText(e, v, mode, t)) <==> TextOf(e, v, mode).None?
  {
    hide ReadsText, TextOf;
    TextRead(e, v, mode);
    if t :| TextOf(e, v, mode) == Some(t) {
      assert ReadsText(e, v, mode, t);
    }
  }

  predicate Untyped(kinds: bool, mode: Mode, v: Value, m: Message, w: Value) {
    kinds && w == v && m == if mode == Loose then CannotConvert else Expected(KindString)
  }

  predicate ShortText(n: int, t: string, m: Message, w: Value) {
    |t| < n && w == Str(t) && m == TooShort(n)
  }

  predicate LongText(n: int, t: string, m: Message, w: Value) {
    n < |t| && w == Str(t) && m == TooLong(n)
  }

  predicate OtherText(e: Env, pattern: string, format: string, t: string, m: Message, w: Value) {
    !e.matches(pattern, t) && w == Str(t) && m == Mismatch(format, pattern)
  }

  predicate UnlistedText(allowed: seq<string>, t: string, m: Message, w: Value) {
    t !in allowed && w == Str(t) && m == NotInEnum(allowed)
  }

  lemma TextLengthFaults(e: Env, min: int, max: int, v: Value, mode: Mode, path: seq<string>, x: FieldError)
    ensures var here, t, m, w := x.path == PathText(path), TextSeen(e, v, mode), x.message, x.value;
      && (FaultsHave(e, MinLength(min), v, mode, path, x) <==> here && ShortText(min, t, m, w))
      && (FaultsHave(e, MaxLength(max), v, mode, path, x) <==> here && LongText(max, t, m, w))
  {
    hide PathText, TextSeen, TextOf;
  }

  /** What the checks of a string schema find in the text they measure. */
  lemma TextStepFaults(e: Env, pattern: string, format: string, allowed: seq<string>, v: Value, mode: Mode, path: seq<string>, x: FieldError)
    ensures var here, t, m, w := x.path == PathText(path), TextSeen(e, v, mode), x.message, x.value;
      && (FaultsHave(e, TextType, v, mode, path, x) <==> here && Untyped(TextOf(e, v, mode).None?, mode, v, m, w))
      && (FaultsHave(e, Pattern(pattern, format), v, mode, path, x) <==> here && OtherText(e, pattern, format, t, m, w))
      && (FaultsHave(e, Enum(allowed), v, mode, path, x) <==> here && UnlistedText(allowed, t, m, w))
  {
    hide PathText, TextSeen, TextOf;
  }

  lemma TextFailsIs(e: Env, s: Schema, v: Value, mode: Mode, m: Message, w: Value)
    requires s.StringSchema?
    ensures TextFails(e, s, v, mode, m, w) <==>
      || Untyped(TextOf(e, v, mode).None?, mode, v, m, w)
      || (TextBreaks(e, s, TextSeen(e, v, mode), m, w) && !(m.Mismatch? && m.pattern == ""))
  {
    hide Measured, ReadsText, TextSeen, TextOf, TextBreaks;
    MeasuredIs(e, v, mode);
    assert Measured(e, v, mode, TextSeen(e, v, mode));
  }

  /** The broken constraints of a text, one disjunct for each. */
  lemma TextBreaksCases(e: Env, s: Schema, t: string, m: Message, w: Value)
    requires s.StringSchema?
    ensures TextBreaks(e, s, t, m, w) && !(m.Mismatch? && m.pattern == "") <==>
      || (s.minLength.Some? && ShortText(s.minLength.value, t, m, w))
      || (s.maxLength.Some? && LongText(s.maxLength.value, t, m, w))
      || (s.pattern.UnwrapOr("") != "" && OtherText(e, s.pattern.value, s.format, t, m, w))
      || (s.enum != [] && UnlistedText(s.enum, t, m, w))
      || RulesBreak(e, s.rules, Str(t), m, w)
  {
    hide RulesBreak;
    RulesAreRejections(e, s.rules, Str(t), m, w);
  }

  /** What the checks of a string schema find, the pattern check being left out for an empty pattern. */
  lemma TextFaultsFail(e: Env, s: Schema, v: Value, mode: Mode, path: seq<string>, x: FieldError)
    requires s.StringSchema?
    ensures SomeStep(e, TextSteps(s), v, mode, path, x) <==> x.path == PathText(path) && TextFails(e, s, v, mode, x.message, x.value)
  {
    hide SomeStep, TextSteps, RulesBreak, FaultsHave, TextBreaks, TextFails, TextSeen, TextOf, PathText, Untyped, ShortText, LongText, OtherText,
      UnlistedText;
    TextChainReports(e, s, v, mode, path, x);
    TextRulesReport(e, s.rules, v, mode, path, x);
    TextLengthFaults(e, s.minLength.UnwrapOr(0), s.maxLength.UnwrapOr(0), v, mode, path, x);
    TextStepFaults(e, s.pattern.UnwrapOr(""), s.format, s.enum, v, mode, path, x);
    TextFailsIs(e, s, v, mode, x.message, x.value);
    TextBreaksCases(e, s, TextSeen(e, v, mode), x.message, x.value);
  }

  // ---- numbers ----

  lemma NumberChainReports(e: Env, s: Schema, v: Value, mode: Mode, path: seq<string>, x: FieldError)
    requires s.NumberSchema?
    ensures SomeStep(e, NumberSteps(s), v, mode, path, x) <==>
      || FaultsHave(e, ValueType(KindNumber), v, mode, path, x)
      || (Integer in s.rules && FaultsHave(e, IntegerOnly, v, mode, path, x))
      || (s.min.Some? && FaultsHave(e, AtLeast(s.min.value), v, mode, path, x))
      || (s.max.Some? && FaultsHave(e, AtMost(s.max.value), v, mode, path, x))
      || (s.multipleOf.Some? && FaultsHave(e, MultipleOf(s.multipleOf.value), v, mode, path, x))
      || SomeStep(e, ValueRules(s.rules), v, mode, path, x)
  {
    hide FaultsHave, SomeStep, Optional, ValueRules;
    var t := [ValueType(KindNumber)];
    var a := Optional(Integer in s.rules, IntegerOnly);
    var b := Optional(s.min.Some?, AtLeast(s.min.UnwrapOr(0.0)));
    var c := Optional(s.max.Some?, AtMost(s.max.UnwrapOr(0.0)));
    var d := Optional(s.multipleOf.Some?, MultipleOf(s.multipleOf.UnwrapOr(0.0)));
    PlainReports(e, ValueType(KindNumber), v, mode, path, x);
    OptionalReports(e, Integer in s.rules, IntegerOnly, v, mode, path, x);
    OptionalReports(e, s.min.Some?, AtLeast(s.min.UnwrapOr(0.0)), v, mode, path, x);
    OptionalReports(e, s.max.Some?, AtMost(s.max.UnwrapOr(0.0)), v, mode, path, x);
    OptionalReports(e, s.multipleOf.Some?, MultipleOf(s.multipleOf.UnwrapOr(0.0)), v, mode, path, x);
    SomeAppend(e, t, a, v, mode, path, x);
    SomeAppend(e, t + a, b, v, mode, path, x);
    SomeAppend(e, t + a + b, c, v, mode, path, x);
    SomeAppend(e, t + a + b + c, d, v, mode, path, x);
    SomeAppend(e, t + a + b + c + d, ValueRules(s.rules), v, mode, path, x);
  }

  lemma WholeIs(e: Env, f: real)
    ensures SeenWhole(e, f) <==> WholeAsInt64(e, f)
  {
    var n := f.Floor;
    assert n as real <= f < n as real + 1.0;
    var k := (-f).Floor;
    assert k as real <= -f < k as real + 1.0;
  }

  lemma WeighedIs(v: Value)
    ensures forall f :: Weighed(v, f) <==> f == NumberSeen(v)
  {
  }

  lemma NumberReadNone(e: Env, v: Value, mode: Mode)
    ensures (forall r :: !ReadsNumber(e, v, mode, r)) <==> NumberOf(e, v, mode).None?
  {
    hide ReadsNumber, NumberOf;
    NumberRead(e, v, mode);
    if NumberOf(e, v, mode).Some? {
      assert ReadsNumber(e, v, mode, NumberOf(e, v, mode).value);
    }
  }

  predicate LowNumber(low: real, f: real, m: Message) {
    f < low && m == TooSmall(low)
  }

  predicate HighNumber(high: real, f: real, m: Message) {
    high < f && m == TooLarge(high)
  }

  predicate OddNumber(e: Env, of: real, f: real, m: Message) {
    !SeenMultiple(e, f, of) && m == NotMultiple(of)
  }

  predicate BrokenNumber(e: Env, f: real, m: Message) {
    !SeenWhole(e, f) && m == Rejected("must be an integer")
  }

  lemma NumberKindFaults(e: Env, v: Value, mode: Mode, path: seq<string>, x: FieldError)
    ensures var here, f, m := x.path == PathText(path) && x.value == v, NumberSeen(v), x.message;
      && (FaultsHave(e, ValueType(KindNumber), v, mode, path, x) <==> here && NumberOf(e, v, mode).None? && m == Expected(KindNumber))
      && (FaultsHave(e, IntegerOnly, v, mode, path, x) <==> here && BrokenNumber(e, f, m))
  {
    hide PathText, NumberSeen, NumberOf, SeenWhole;
  }

  /** What the checks of a number schema find in the number they weigh. */
  lemma NumberStepFaults(e: Env, n: real, of: real, v: Value, mode: Mode, path: seq<string>, x: FieldError)
    ensures var here, f, m := x.path == PathText(path) && x.value == v, NumberSeen(v), x.message;
      && (FaultsHave(e, AtLeast(n), v, mode, path, x) <==> here && LowNumber(n, f, m))
      && (FaultsHave(e, AtMost(n), v, mode, path, x) <==> here && HighNumber(n, f, m))
      && (FaultsHave(e, MultipleOf(of), v, mode, path, x) <==> here && OddNumber(e, of, f, m))
  {
    hide PathText, NumberSeen, NumberOf, SeenWhole, SeenMultiple;
  }

  lemma NumberFailsIs(e: Env, s: Schema, v: Value, mode: Mode, m: Message, w: Value)
    requires s.NumberSchema?
    ensures NumberFails(e, s, v, mode, m, w) <==>
      && w == v
      && ((NumberOf(e, v, mode).None? && m == Expected(KindNumber)) || AmountFails(e, s, NumberSeen(v), m) || RulesBreak(e, s.rules, v, m, w))
  {
    hide Weighed, ReadsNumber, NumberSeen, NumberOf, AmountFails, RulesBreak;
    NumberReadNone(e, v, mode);
    WeighedIs(v);
    assert Weighed(v, NumberSeen(v));
  }

  lemma AmountFailsCases(e: Env, s: Schema, f: real, m: Message)
    requires s.NumberSchema?
    ensures AmountFails(e, s, f, m) <==>
      || (Integer in s.rules && BrokenNumber(e, f, m))
      || (s.min.Some? && LowNumber(s.min.value, f, m))
      || (s.max.Some? && HighNumber(s.max.value, f, m))
      || (s.multipleOf.Some? && OddNumber(e, s.multipleOf.value, f, m))
  {
    hide SeenWhole, WholeAsInt64;
    WholeIs(e, f);
    if s.multipleOf.Some? && s.multipleOf.value != 0.0 {
      WholeIs(e, f / s.multipleOf.value);
    }
  }

  lemma NumberFaultsFail(e: Env, s: Schema, v: Value, mode: Mode, path: seq<string>, x: FieldError)
    requires s.NumberSchema?
    ensures SomeStep(e, NumberSteps(s), v, mode, path, x) <==> x.path == PathText(path) && NumberFails(e, s, v, mode, x.message, x.value)
  {
    hide SomeStep, NumberSteps, RulesBreak, FaultsHave, AmountFails, NumberFails, NumberSeen, NumberOf, PathText, LowNumber, HighNumber, OddNumber,
      BrokenNumber;
    NumberChainReports(e, s, v, mode, path, x);
    ValueRulesReport(e, s.rules, v, mode, path, x);
    NumberKindFaults(e, v, mode, path, x);
    NumberStepFaults(e, s.min.UnwrapOr(0.0), s.multipleOf.UnwrapOr(0.0), v, mode, path, x);
    NumberStepFaults(e, s.max.UnwrapOr(0.0), 0.0, v, mode, path, x);
    NumberFailsIs(e, s, v, mode, x.message, x.value);
    AmountFailsCases(e, s, NumberSeen(v), x.message);
    RulesAreRejections(e, s.rules, v, x.message, x.value);
  }

  // ---- any schema ----

  /** A node that only reports at its own place. */
  lemma FailedHere(e: Env, s: Schema, v: Value, mode: Mode, path: seq<string>, x: FieldError)
    requires forall q, m, w :: Fails(e, s, v, mode, q, m, w) ==> q == []
    ensures Failed(e, s, v, mode, path, x) <==> x.path == PathText(path) && Fails(e, s, v, mode, [], x.message, x.value)
  {
    hide Fails, PathText;
    assert path + [] == path;
  }

  /** The main result: a compiled schema reports exactly what fails. */
  lemma {:induction false} CompiledReports(e: Env, s: Schema, v: Value, mode: Mode, path: seq<string>, x: FieldError)
    ensures x in RunCompiled(e, Compile(s), v, mode, path).errors <==> Failed(e, s, v, mode, path, x)
    decreases s, 4
  {
    hide Failed, Fails, Steps, RunCompiled, SomeStep, Compile;
    if v.Null? {
      NullFails(e, s, mode, path, x);
    } else {
      RunReports(e, s, v, mode, path, x);
      if Delegated(s) {
        DelegateFails(e, s, v, mode, path, x);
      } else if s.ObjectSchema? {
        ObjectFails(e, s, v, mode, path, x);
      } else if s.ArraySchema? {
        ArrayFails(e, s, v, mode, path, x);
      } else {
        LeafFails(e, s, v, mode, path, x);
      }
    }
  }

  lemma NullFails(e: Env, s: Schema, mode: Mode, path: seq<string>, x: FieldError)
    ensures x in RunCompiled(e, Compile(s), Null, mode, path).errors <==> Failed(e, s, Null, mode, path, x)
  {
    hide PathText, At, Steps;
    DemandedIs(s);
    AtHas(path, NullFaults(Base(IsRequired(s), s.base.nullable, map[])), x);
    FailedHere(e, s, Null, mode, path, x);
  }

  lemma DelegateFails(e: Env, s: Schema, v: Value, mode: Mode, path: seq<string>, x: FieldError)
    requires Delegated(s) && !v.Null?
    ensures SomeStep(e, Steps(s), v, mode, path, x) <==> Failed(e, s, v, mode, path, x)
  {
    hide Check, Breaks, PathText, SomeStep;
    assert Steps(s) == [Delegate(s)];
    SomeOne(e, Delegate(s), v, mode, path, x);
    ReportsWhatBreaks(e, s, v, mode, path, x);
    forall q, m, w
      ensures Fails(e, s, v, mode, q, m, w) <==> Breaks(e, s, v, mode, q, m, w)
    {
    }
  }

  lemma KindReports(e: Env, kind: Kind, v: Value, mode: Mode, path: seq<string>, x: FieldError)
    ensures SomeStep(e, [ValueType(kind)], v, mode, path, x) <==>
      x.path == PathText(path) && !HasKind(e, v, kind, mode) && x.message == Expected(kind) && x.value == v
  {
    hide PathText, HasKind, SomeStep;
    PlainReports(e, ValueType(kind), v, mode, path, x);
  }

  lemma LeafFails(e: Env, s: Schema, v: Value, mode: Mode, path: seq<string>, x: FieldError)
    requires !v.Null? && (s.StringSchema? || s.NumberSchema? || s.BoolSchema?)
    ensures SomeStep(e, Steps(s), v, mode, path, x) <==> Failed(e, s, v, mode, path, x)
  {
    hide TextFails, NumberFails, RulesBreak, PathText, SomeStep, TextSteps, NumberSteps, ValueRules, Failed;
    FailedHere(e, s, v, mode, path, x);
    match s
    case StringSchema(_, _, _, _, _, _, _) => TextFaultsFail(e, s, v, mode, path, x);
    case NumberSchema(_, _, _, _, _) => NumberFaultsFail(e, s, v, mode, path, x);
    case BoolSchema(_, rules) =>
      SomeAppend(e, [ValueType(KindBool)], ValueRules(rules), v, mode, path, x);
      KindReports(e, KindBool, v, mode, path, x);
      ValueRulesReport(e, rules, v, mode, path, x);
  }

  /** A type check, one check for the structure, and the validators. */
  lemma StructureReports(e: Env, kind: Kind, step: Step, rules: seq<Rule>, v: Value, mode: Mode, path: seq<string>, x: FieldError)
    ensures SomeStep(e, [ValueType(kind), step] + ValueRules(rules), v, mode, path, x) <==>
      || (x.path == PathText(path) && !HasKind(e, v, kind, mode) && x.message == Expected(kind) && x.value == v)
      || StepReports(e, step, v, mode, path, x)
      || (x.path == PathText(path) && RulesBreak(e, rules, v, x.message, x.value))
  {
    hide PathText, HasKind, SomeStep, StepReports, RulesBreak, ValueRules;
    assert [ValueType(kind)] + [step] == [ValueType(kind), step];
    SomeAppend(e, [ValueType(kind)], [step], v, mode, path, x);
    SomeAppend(e, [ValueType(kind), step], ValueRules(rules), v, mode, path, x);
    SomeOne(e, step, v, mode, path, x);
    KindReports(e, kind, v, mode, path, x);
    ValueRulesReport(e, rules, v, mode, path, x);
  }

  // ---- arrays ----

  ghost predicate SomeItemFails(e: Env, element: Schema, items: seq<Value>, n: nat, mode: Mode, path: seq<string>, x: FieldError)
    requires n <= |items|
  {
    exists i | 0 <= i < n :: Failed(e, element, items[i], mode, path + [IndexSegment(i)], x)
  }

  lemma {:induction false} ItemsReport(e: Env, element: Schema, items: seq<Value>, n: nat, mode: Mode, path: seq<string>, x: FieldError)
    requires n <= |items|
    ensures x in CompiledItemsOut(e, Compile(element), items, n, mode, path).errors <==> SomeItemFails(e, element, items, n, mode, path, x)
    decreases element, 5, n
  {
    hide RunCompiled, Compile, Failed, IndexSegment;
    if n > 0 {
      ItemsReport(e, element, items, n - 1, mode, path, x);
      CompiledReports(e, element, items[n - 1], mode, path + [IndexSegment(n - 1)], x);
    }
  }

  ghost predicate ItemsFailed(e: Env, s: Schema, items: seq<Value>, mode: Mode, path: seq<string>, x: FieldError)
    requires s.ArraySchema?
  {
    exists q, m, w :: ItemsFail(e, s, items, mode, q, m, w) && x == FieldError(PathText(path + q), m, w)
  }

  lemma ItemsFailedIs(e: Env, s: Schema, items: seq<Value>, mode: Mode, path: seq<string>, x: FieldError)
    requires s.ArraySchema?
    ensures ItemsFailed(e, s, items, mode, path, x) <==>
      || (x.path == PathText(path) && CountBreaks(e, s, items, x.message, x.value))
      || (s.element.Some? && SomeItemFails(e, s.element.value, items, |items|, mode, path, x))
  {
    hide PathText, Fails, IndexSegment, CountBreaks;
    assert path + [] == path;
    if CountBreaks(e, s, items, x.message, x.value) {
      assert ItemsFail(e, s, items, mode, [], x.message, x.value);
    }
    if q, m, w :| ItemsFail(e, s, items, mode, q, m, w) && x == FieldError(PathText(path + q), m, w) {
      if !(q == [] && CountBreaks(e, s, items, m, w)) {
        var i :| 0 <= i < |items| && q[0] == IndexSegment(i) && Fails(e, s.element.value, items[i], mode, q[1..], m, w);
        UnderSegment(path, q[0], q[1..]);
        assert q == [q[0]] + q[1..];
        assert Failed(e, s.element.value, items[i], mode, path + [IndexSegment(i)], x);
      }
    }
    if s.element.Some? && SomeItemFails(e, s.element.value, items, |items|, mode, path, x) {
      var i :| 0 <= i < |items| && Failed(e, s.element.value, items[i], mode, path + [IndexSegment(i)], x);
      var q, m, w :| Fails(e, s.element.value, items[i], mode, q, m, w) && x == FieldError(PathText(path + [IndexSegment(i)] + q), m, w);
      var r := [IndexSegment(i)] + q;
      UnderSegment(path, IndexSegment(i), q);
      assert r[0] == IndexSegment(i) && r[1..] == q;
      assert ItemsFail(e, s, items, mode, r, m, w);
    }
  }

  lemma ArrayPieces(e: Env, s: Schema, v: Value, mode: Mode, path: seq<string>, x: FieldError)
    requires s.ArraySchema? && !s.transformable && !v.Null?
    ensures Failed(e, s, v, mode, path, x) <==>
      || (x.path == PathText(path) && !v.List? && x.message == Expected(KindArray) && x.value == v)
      || (v.List? && ItemsFailed(e, s, v.items, mode, path, x))
      || (x.path == PathText(path) && RulesBreak(e, s.rules, v, x.message, x.value))
  {
    hide PathText, ItemsFail, RulesBreak;
    assert path + [] == path;
    if (!v.List? && x.message == Expected(KindArray) && x.value == v) || RulesBreak(e, s.rules, v, x.message, x.value) {
      assert Fails(e, s, v, mode, [], x.message, x.value);
    }
    if v.List? && ItemsFailed(e, s, v.items, mode, path, x) {
      var q, m, w :| ItemsFail(e, s, v.items, mode, q, m, w) && x == FieldError(PathText(path + q), m, w);
      assert Fails(e, s, v, mode, q, m, w);
    }
  }

  lemma {:induction false} ArrayFails(e: Env, s: Schema, v: Value, mode: Mode, path: seq<string>, x: FieldError)
    requires s.ArraySchema? && !s.transformable && !v.Null?
    ensures SomeStep(e, Steps(s), v, mode, path, x) <==> Failed(e, s, v, mode, path, x)
    decreases s, 3
  {
    hide PathText, At, CountFaults, CountBreaks, RulesBreak, SomeStep, Failed, ItemsFailed, SomeItemFails, Compile, CompiledItemsOut, ValueRules;
    var step := Items(s.minItems, s.maxItems, s.uniqueItems, if s.element.None? then None else Some(Compile(s.element.value)));
    assert Steps(s) == [ValueType(KindArray), step] + ValueRules(s.rules);
    StructureReports(e, KindArray, step, s.rules, v, mode, path, x);
    ArrayPieces(e, s, v, mode, path, x);
    if v.List? {
      ItemsFailedIs(e, s, v.items, mode, path, x);
      SameCounts(e, s, v.items);
      AtHas(path, CountFaults(e, s, v.items), x);
      CountFaultsBreak(e, s, v.items, x.message, x.value);
      if s.element.Some? {
        ItemsReport(e, s.element.value, v.items, |v.items|, mode, path, x);
      }
    }
  }

  lemma SameCounts(e: Env, s: Schema, items: seq<Value>)
    requires s.ArraySchema?
    ensures CountFaults(e, ArraySchema(Base(false, false, map[]), None, s.minItems, s.maxItems, s.uniqueItems, [], true), items) ==
      CountFaults(e, s, items)
  {
    hide Repeats;
  }

  // ---- objects ----

  ghost predicate SomeFieldFails(e: Env, s: Schema, entries: map<string, Value>, mode: Mode, path: seq<string>, x: FieldError)
    requires s.ObjectSchema?
  {
    exists k | k in s.fields && k in entries :: Failed(e, s.fields[k], entries[k], mode, path + [k], x)
  }

  ghost predicate SomeFieldMissed(s: Schema, entries: map<string, Value>, path: seq<string>, x: FieldError)
    requires s.ObjectSchema?
  {
    exists k | k in s.fields && k !in entries ::
      (k in s.requiredFields || Demanded(s.fields[k])) && x == FieldError(PathText(path + [k]), FieldRequired, Null)
  }

  lemma {:induction false} CompiledFieldsHave(e: Env, step: Step, n: nat, entries: map<string, Value>, mode: Mode, path: seq<string>, x: FieldError)
    requires step.Fields? && n <= |step.fields|
    ensures x in CompiledFieldsOut(e, step, n, entries, mode, path).errors <==>
      exists i | 0 <= i < n :: x in CompiledFieldOut(e, step.fields[i], entries, mode, path).errors
  {
    hide CompiledFieldOut;
    if n > 0 {
      CompiledFieldsHave(e, step, n - 1, entries, mode, path, x);
    }
  }

  lemma {:induction false} CompiledFieldHas(e: Env, s: Schema, k: string, entries: map<string, Value>, mode: Mode, path: seq<string>, x: FieldError)
    requires s.ObjectSchema? && k in s.fields
    ensures var field := CompiledField(k, Compile(s.fields[k]), k in s.requiredFields || IsRequired(s.fields[k]));
      x in CompiledFieldOut(e, field, entries, mode, path).errors <==>
        if k in entries then Failed(e, s.fields[k], entries[k], mode, path + [k], x)
        else (k in s.requiredFields || Demanded(s.fields[k])) && x == FieldError(PathText(path + [k]), FieldRequired, Null)
    decreases s, 0
  {
    hide RunCompiled, Compile, Failed, IsRequired, Demanded, At, PathText;
    DemandedIs(s.fields[k]);
    if k in entries {
      CompiledReports(e, s.fields[k], entries[k], mode, path + [k], x);
    } else {
      AtHas(path + [k], When(k in s.requiredFields || IsRequired(s.fields[k]), FieldRequired, Null), x);
    }
  }

  lemma {:induction false} DeclaredFail(e: Env, s: Schema, entries: map<string, Value>, mode: Mode, path: seq<string>, x: FieldError)
    requires s.ObjectSchema?
    ensures
      var names := Sorted(s.fields.Keys);
      var step := Fields(CompiledFields(s, names, |names|), s.fields.Keys, s.additional);
      x in CompiledFieldsOut(e, step, |names|, entries, mode, path).errors <==>
        SomeFieldFails(e, s, entries, mode, path, x) || SomeFieldMissed(s, entries, path, x)
    decreases s, 1
  {
    hide CompiledFieldOut, CompiledFieldsOut, CompiledFields, Failed, Compile, IsRequired, Demanded, PathText, Elements, Ascending;
    var names := Sorted(s.fields.Keys);
    var step := Fields(CompiledFields(s, names, |names|), s.fields.Keys, s.additional);
    CompiledFieldsHave(e, step, |names|, entries, mode, path, x);
    forall k | k in s.fields
      ensures exists i :: 0 <= i < |names| && names[i] == k
    {
      SortedSome(s.fields.Keys, k);
    }
    forall i | 0 <= i < |names|
      ensures x in CompiledFieldOut(e, step.fields[i], entries, mode, path).errors <==>
        if names[i] in entries then Failed(e, s.fields[names[i]], entries[names[i]], mode, path + [names[i]], x)
        else (names[i] in s.requiredFields || Demanded(s.fields[names[i]])) && x == FieldError(PathText(path + [names[i]]), FieldRequired, Null)
    {
      SchemaCompileCorrect.CompiledFieldAt(s, names, |names|, i);
      CompiledFieldHas(e, s, names[i], entries, mode, path, x);
    }
  }

  ghost predicate EntriesFailed(e: Env, s: Schema, entries: map<string, Value>, mode: Mode, path: seq<string>, x: FieldError)
    requires s.ObjectSchema?
  {
    exists q, m, w :: EntriesFail(e, s, entries, mode, q, m, w) && x == FieldError(PathText(path + q), m, w)
  }

  lemma EntriesFailedIs(e: Env, s: Schema, entries: map<string, Value>, mode: Mode, path: seq<string>, x: FieldError)
    requires s.ObjectSchema?
    ensures EntriesFailed(e, s, entries, mode, path, x) <==>
      || SomeFieldMissed(s, entries, path, x)
      || SomeFieldFails(e, s, entries, mode, path, x)
      || SomeExtra(s, entries, mode, path, x)
  {
    hide PathText, Fails, ExtraBreaks, Demanded;
    if q, m, w :| EntriesFail(e, s, entries, mode, q, m, w) && x == FieldError(PathText(path + q), m, w) {
      if FieldMissed(s, entries, q, m, w) {
        assert q == [q[0]];
      } else if !ExtraBreaks(s, entries, mode, q, m, w) {
        UnderSegment(path, q[0], q[1..]);
        assert q == [q[0]] + q[1..];
        assert Failed(e, s.fields[q[0]], entries[q[0]], mode, path + [q[0]], x);
      }
    }
    EntriesFailedIf(e, s, entries, mode, path, x);
  }

  lemma EntriesFailedIf(e: Env, s: Schema, entries: map<string, Value>, mode: Mode, path: seq<string>, x: FieldError)
    requires s.ObjectSchema?
    ensures SomeFieldMissed(s, entries, path, x) || SomeFieldFails(e, s, entries, mode, path, x) || SomeExtra(s, entries, mode, path, x) ==>
      EntriesFailed(e, s, entries, mode, path, x)
  {
    hide PathText, Fails, ExtraBreaks, Demanded;
    if SomeFieldMissed(s, entries, path, x) {
      var k :| k in s.fields && k !in entries && (k in s.requiredFields || Demanded(s.fields[k])) && x == FieldError(PathText(path + [k]), FieldRequired, Null);
      assert FieldMissed(s, entries, [k], FieldRequired, Null);
      assert EntriesFail(e, s, entries, mode, [k], FieldRequired, Null);
    }
    if SomeFieldFails(e, s, entries, mode, path, x) {
      var k :| k in s.fields && k in entries && Failed(e, s.fields[k], entries[k], mode, path + [k], x);
      var q, m, w :| Fails(e, s.fields[k], entries[k], mode, q, m, w) && x == FieldError(PathText(path + [k] + q), m, w);
      var r := [k] + q;
      UnderSegment(path, k, q);
      assert r[0] == k && r[1..] == q;
      assert EntriesFail(e, s, entries, mode, r, m, w);
    }
    if q, m, w :| ExtraBreaks(s, entries, mode, q, m, w) && x == FieldError(PathText(path + q), m, w) {
      assert EntriesFail(e, s, entries, mode, q, m, w);
    }
  }

  lemma ObjectPiecesFail(e: Env, s: Schema, v: Value, mode: Mode, path: seq<string>, x: FieldError)
    requires s.ObjectSchema? && !s.transformable && !v.Null?
    ensures Failed(e, s, v, mode, path, x) <==>
      || (x.path == PathText(path) && !v.Map? && (x.message == Expected(KindObject) || x.message == CannotConvert) && x.value == v)
      || (v.Map? && EntriesFailed(e, s, v.entries, mode, path, x))
      || (x.path == PathText(path) && RulesBreak(e, s.rules, v, x.message, x.value))
  {
    hide PathText, EntriesFail, RulesBreak;
    assert path + [] == path;
    if (!v.Map? && (x.message == Expected(KindObject) || x.message == CannotConvert) && x.value == v) || RulesBreak(e, s.rules, v, x.message, x.value) {
      assert Fails(e, s, v, mode, [], x.message, x.value);
    }
    if v.Map? && EntriesFailed(e, s, v.entries, mode, path, x) {
      var q, m, w :| EntriesFail(e, s, v.entries, mode, q, m, w) && x == FieldError(PathText(path + q), m, w);
      assert Fails(e, s, v, mode, q, m, w);
    }
  }

  lemma {:induction false} ObjectFails(e: Env, s: Schema, v: Value, mode: Mode, path: seq<string>, x: FieldError)
    requires s.ObjectSchema? && !s.transformable && !v.Null?
    ensures SomeStep(e, Steps(s), v, mode, path, x) <==> Failed(e, s, v, mode, path, x)
    decreases s, 3
  {
    hide PathText, At, RulesBreak, SomeStep, Failed, EntriesFailed, SomeFieldFails, SomeFieldMissed, SomeExtra, CompiledFields, CompiledFieldsOut,
      ValueRules, Elements, Ascending, ExtraOut;
    var names := Sorted(s.fields.Keys);
    var step := Fields(CompiledFields(s, names, |names|), s.fields.Keys, s.additional);
    assert Steps(s) == [ValueType(KindObject), step] + ValueRules(s.rules);
    StructureReports(e, KindObject, step, s.rules, v, mode, path, x);
    ObjectPiecesFail(e, s, v, mode, path, x);
    AtHas(path, [Fault(CannotConvert, v)], x);
    if v.Map? {
      EntriesFailedIs(e, s, v.entries, mode, path, x);
      DeclaredFail(e, s, v.entries, mode, path, x);
      ExtrasHave(s, v.entries, mode, path, x);
      assert StepOut(e, step, v, mode, path) ==
        Then(CompiledFieldsOut(e, step, |names|, v.entries, mode, path), Extras(s, v.entries, mode, path));
    }
  }
}
