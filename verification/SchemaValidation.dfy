/** The Validate methods of the builders: what each appends to its context is what `Check` says. */
module SchemaValidation {
  import opened Values
  import opened ErrorPaths
  import opened Keys
  import opened Schemas
  import opened ValidationContexts

  lemma Noted(start: Out, path: seq<string>, a: seq<Fault>, b: seq<Fault>)
    ensures Then(Then(start, At(path, a)), At(path, b)) == Then(start, At(path, a + b))
    ensures Then(start, At(path, [])) == start
  {
    ThenAssociative(start, At(path, a), At(path, b));
    ThenNothing(start);
  }

  method RunRules(e: Env, rules: seq<Rule>, value: Value, ctx: ValidationContext)
    modifies ctx
    ensures ctx.path == old(ctx.path)
    ensures ctx.State() == Then(old(ctx.State()), At(ctx.path, RuleFaults(e, rules, |rules|, value)))
  {
    hide Located;
    ghost var start := ctx.State();
    Noted(start, ctx.path, [], []);
    for i := 0 to |rules|
      invariant ctx.path == old(ctx.path)
      invariant ctx.State() == Then(start, At(ctx.path, RuleFaults(e, rules, i, value)))
    {
      var failure := RuleFailure(e, rules[i], value);
      if failure.Some? {
        Noted(start, ctx.path, RuleFaults(e, rules, i, value), [Fault(Rejected(failure.value), value)]);
        ctx.AddError(Rejected(failure.value), value);
      } else {
        assert RuleFaults(e, rules, i, value) + [] == RuleFaults(e, rules, i, value);
      }
    }
  }

  // ---- strings, numbers, booleans ----

  method ValidateLength(s: Schema, t: string, ctx: ValidationContext)
    requires s.StringSchema?
    modifies ctx
    ensures ctx.path == old(ctx.path)
    ensures ctx.State() == Then(old(ctx.State()), At(ctx.path, LengthFaults(s, t)))
  {
    hide Located;
    ghost var start, p := ctx.State(), ctx.path;
    ghost var short := When(s.minLength.Some? && |t| < s.minLength.value, TooShort(s.minLength.UnwrapOr(0)), Str(t));
    ghost var long := When(s.maxLength.Some? && |t| > s.maxLength.value, TooLong(s.maxLength.UnwrapOr(0)), Str(t));
    Noted(start, p, short, long);
    if s.minLength.Some? && |t| < s.minLength.value {
      ctx.AddError(TooShort(s.minLength.value), Str(t));
    }
    Noted(ctx.State(), p, [], []);
    if s.maxLength.Some? && |t| > s.maxLength.value {
      ctx.AddError(TooLong(s.maxLength.value), Str(t));
    }
  }

  method ValidateText(e: Env, s: Schema, t: string, ctx: ValidationContext)
    requires s.StringSchema?
    modifies ctx
    ensures ctx.path == old(ctx.path)
    ensures ctx.State() == Then(old(ctx.State()), At(ctx.path, TextFaults(e, s, t)))
  {
    hide Located, RuleFaults, LengthFaults;
    ghost var start, p, lengths := ctx.State(), ctx.path, LengthFaults(s, t);
    ghost var unmatched :=
      When(s.pattern.Some? && !e.matches(s.pattern.value, t), Mismatch(s.format, s.pattern.UnwrapOr("")), Str(t));
    ghost var unlisted := When(s.enum != [] && t !in s.enum, NotInEnum(s.enum), Str(t));
    ValidateLength(s, t, ctx);
    Noted(start, p, lengths, unmatched);
    Noted(ctx.State(), p, [], []);
    if s.pattern.Some? && !e.matches(s.pattern.value, t) {
      ctx.AddError(Mismatch(s.format, s.pattern.value), Str(t));
    }
    assert ctx.State() == Then(start, At(p, lengths + unmatched));
    Noted(start, p, lengths + unmatched, unlisted);
    Noted(ctx.State(), p, [], []);
    if |s.enum| > 0 {
      var found := Allowed(s.enum, t);
      if !found {
        ctx.AddError(NotInEnum(s.enum), Str(t));
      }
    }
    Noted(start, p, lengths + unmatched + unlisted, RuleFaults(e, s.rules, |s.rules|, Str(t)));
    RunRules(e, s.rules, Str(t), ctx);
  }

  method Allowed(enum: seq<string>, t: string) returns (found: bool)
    ensures found == (t in enum)
  {
    found := false;
    for i := 0 to |enum|
      invariant found == (t in enum[..i])
    {
      if t == enum[i] {
        found := true;
        break;
      }
    }
  }

  method ValidateString(e: Env, s: Schema, value: Value, ctx: ValidationContext)
    requires s.StringSchema?
    modifies ctx
    ensures ctx.path == old(ctx.path)
    ensures ctx.State() == Then(old(ctx.State()), Check(e, s, value, ctx.mode, ctx.path))
  {
    hide Located, TextFaults;
    var more := ctx.CheckRequired(s.base, value);
    if !more {
      return;
    }
    var t := TextOf(e, value, ctx.mode);
    if t.None? {
      ctx.AddError(if ctx.mode.Loose? then CannotConvert else Expected(KindString), value);
      return;
    }
    ValidateText(e, s, t.value, ctx);
  }

  method ValidateAmount(e: Env, s: Schema, num: real, ctx: ValidationContext)
    requires s.NumberSchema?
    modifies ctx
    ensures ctx.path == old(ctx.path)
    ensures ctx.State() == Then(old(ctx.State()), At(ctx.path, AmountFaults(e, s, num)))
  {
    hide Located, RuleFaults, Whole;
    ghost var start, p := ctx.State(), ctx.path;
    ghost var low := When(s.min.Some? && num < s.min.value, TooSmall(s.min.UnwrapOr(0.0)), AsNumber(num));
    ghost var high := When(s.max.Some? && num > s.max.value, TooLarge(s.max.UnwrapOr(0.0)), AsNumber(num));
    ghost var uneven := When(s.multipleOf.Some? && s.multipleOf.value != 0.0 && !Whole(num / s.multipleOf.value),
                             NotMultiple(s.multipleOf.UnwrapOr(0.0)), AsNumber(num));
    Noted(start, p, low, high);
    if s.min.Some? && num < s.min.value {
      ctx.AddError(TooSmall(s.min.value), AsNumber(num));
    }
    assert ctx.State() == Then(start, At(p, low));
    Noted(ctx.State(), p, [], []);
    if s.max.Some? && num > s.max.value {
      ctx.AddError(TooLarge(s.max.value), AsNumber(num));
    }
    assert ctx.State() == Then(start, At(p, low + high));
    Noted(start, p, low + high, uneven);
    Noted(ctx.State(), p, [], []);
    if s.multipleOf.Some? && s.multipleOf.value != 0.0 {
      if !Whole(num / s.multipleOf.value) {
        ctx.AddError(NotMultiple(s.multipleOf.value), AsNumber(num));
      }
    }
    Noted(start, p, low + high + uneven, RuleFaults(e, s.rules, |s.rules|, AsNumber(num)));
    RunRules(e, s.rules, AsNumber(num), ctx);
  }

  method ValidateNumber(e: Env, s: Schema, value: Value, ctx: ValidationContext)
    requires s.NumberSchema?
    modifies ctx
    ensures ctx.path == old(ctx.path)
    ensures ctx.State() == Then(old(ctx.State()), Check(e, s, value, ctx.mode, ctx.path))
  {
    hide Located, AmountFaults;
    var more := ctx.CheckRequired(s.base, value);
    if !more {
      return;
    }
    var num := NumberOf(e, value, ctx.mode);
    if num.None? {
      ctx.AddError(Expected(KindNumber), value);
      return;
    }
    ValidateAmount(e, s, num.value, ctx);
  }

  method ValidateBool(e: Env, s: Schema, value: Value, ctx: ValidationContext)
    requires s.BoolSchema?
    modifies ctx
    ensures ctx.path == old(ctx.path)
    ensures ctx.State() == Then(old(ctx.State()), Check(e, s, value, ctx.mode, ctx.path))
  {
    hide Located, RuleFaults;
    var more := ctx.CheckRequired(s.base, value);
    if !more {
      return;
    }
    if !IsBoolean(value, ctx.mode) {
      ctx.AddError(Expected(KindBool), value);
      return;
    }
    RunRules(e, s.rules, value, ctx);
  }

  method ValidateCustom(e: Env, s: Schema, value: Value, ctx: ValidationContext)
    requires s.CustomSchema?
    modifies ctx
    ensures ctx.path == old(ctx.path)
    ensures ctx.State() == Then(old(ctx.State()), Check(e, s, value, ctx.mode, ctx.path))
  {
    hide Located;
    var more := ctx.CheckRequired(s.base, value);
    if !more {
      return;
    }
    ThenNothing(ctx.State());
    if s.validator.Some? {
      var failure := e.custom(s.validator.value, value);
      if failure.Some? {
        ctx.AddError(Rejected(failure.value), value);
      }
    }
  }

  // ---- objects ----

  method ReportMissing(s: Schema, entries: map<string, Value>, ctx: ValidationContext)
    requires s.ObjectSchema?
    modifies ctx
    ensures ctx.path == old(ctx.path)
    ensures ctx.State() ==
      Then(old(ctx.State()), MissingOut(Sorted(s.requiredFields), |Sorted(s.requiredFields)|, entries, ctx.path))
  {
    hide At, Elements, Ascending;
    ghost var start, p := ctx.State(), ctx.path;
    ThenNothing(start);
    var names := SortKeys(s.requiredFields);
    for i := 0 to |names|
      invariant ctx.path == p
      invariant ctx.State() == Then(start, MissingOut(names, i, entries, p))
    {
      ghost var before := MissingOut(names, i, entries, p);
      if names[i] !in entries {
        ctx.AddErrorUnder(names[i], FieldRequired, Null);
        ThenAssociative(start, before, At(p + [names[i]], [Fault(FieldRequired, Null)]));
      } else {
        ThenNothing(before);
      }
    }
  }

  method RejectExtra(s: Schema, entries: map<string, Value>, ctx: ValidationContext)
    requires s.ObjectSchema?
    modifies ctx
    ensures ctx.path == old(ctx.path)
    ensures ctx.State() == Then(old(ctx.State()), Extras(s, entries, ctx.mode, ctx.path))
  {
    hide At, Elements, Ascending;
    ghost var start, p := ctx.State(), ctx.path;
    ThenNothing(start);
    if !RejectsExtra(s, ctx.mode) {
      return;
    }
    var keys := SortKeys(entries.Keys);
    for i := 0 to |keys|
      invariant ctx.path == p
      invariant ctx.State() == Then(start, ExtraOut(keys, i, entries, s.fields.Keys, p))
    {
      ghost var before := ExtraOut(keys, i, entries, s.fields.Keys, p);
      if keys[i] !in s.fields {
        ctx.AddErrorUnder(keys[i], UnexpectedField, entries[keys[i]]);
        ThenAssociative(start, before, At(p + [keys[i]], [Fault(UnexpectedField, entries[keys[i]])]));
      } else {
        ThenNothing(before);
      }
    }
  }

  method ValidateFields(e: Env, s: Schema, entries: map<string, Value>, ctx: ValidationContext)
    requires s.ObjectSchema?
    modifies ctx
    ensures ctx.path == old(ctx.path)
    ensures ctx.State() == Then(old(ctx.State()), DeclaredOut(e, s, entries, ctx.mode, ctx.path))
    decreases s, 2
  {
    hide At, Check, Elements, Ascending;
    ghost var start, p := ctx.State(), ctx.path;
    ThenNothing(start);
    var names := SortKeys(s.fields.Keys);
    for i := 0 to |names|
      invariant ctx.path == p
      invariant ctx.State() == Then(start, FieldsOut(e, s, names, i, entries, ctx.mode, p))
    {
      ghost var before := FieldsOut(e, s, names, i, entries, ctx.mode, p);
      ValidateField(e, s, names[i], entries, ctx);
      ThenAssociative(start, before, FieldOut(e, s, names[i], entries, ctx.mode, p));
    }
  }

  method ValidateField(e: Env, s: Schema, name: string, entries: map<string, Value>, ctx: ValidationContext)
    requires s.ObjectSchema? && name in s.fields
    modifies ctx
    ensures ctx.path == old(ctx.path)
    ensures ctx.State() == Then(old(ctx.State()), FieldOut(e, s, name, entries, ctx.mode, ctx.path))
    decreases s, 1
  {
    hide Located, Check;
    ctx.PushPath(name);
    if name in entries {
      Validate(e, s.fields[name], entries[name], ctx);
    } else if name in s.requiredFields {
      ThenNothing(ctx.State());
    } else if IsRequired(s.fields[name]) {
      ctx.AddError(FieldRequired, Null);
    } else {
      ThenNothing(ctx.State());
    }
    ctx.PopPath();
  }

  method ValidateObject(e: Env, s: Schema, value: Value, ctx: ValidationContext)
    requires s.ObjectSchema?
    modifies ctx
    ensures ctx.path == old(ctx.path)
    ensures ctx.State() == Then(old(ctx.State()), Check(e, s, value, ctx.mode, ctx.path))
    decreases s, 3
  {
    hide Located, MissingOut, FieldsOut, ExtraOut, RuleFaults;
    var more := ctx.CheckRequired(s.base, value);
    if !more {
      return;
    }
    if !value.Map? {
      ctx.AddError(Expected(KindObject), value);
      return;
    }
    ghost var start, p := ctx.State(), ctx.path;
    CheckOfMap(e, s, value.entries, ctx.mode, p);
    ReportMissing(s, value.entries, ctx);
    ValidateFields(e, s, value.entries, ctx);
    RejectExtra(s, value.entries, ctx);
    RunRules(e, s.rules, value, ctx);
    FourSteps(start,
      MissingOut(Sorted(s.requiredFields), |Sorted(s.requiredFields)|, value.entries, p),
      DeclaredOut(e, s, value.entries, ctx.mode, p),
      Extras(s, value.entries, ctx.mode, p),
      At(p, RuleFaults(e, s.rules, |s.rules|, value)));
  }

  lemma FourSteps(start: Out, a: Out, b: Out, c: Out, d: Out)
    ensures Then(Then(Then(Then(start, a), b), c), d) == Then(start, Then(Then(Then(a, b), c), d))
  {
    ThenAssociative(start, a, b);
    ThenAssociative(start, Then(a, b), c);
    ThenAssociative(start, Then(Then(a, b), c), d);
  }

  // ---- arrays ----

  method HasRepeat(e: Env, items: seq<Value>) returns (found: bool)
    ensures found == Repeats(e, items)
  {
    found := false;
    if |items| <= 1 {
      return;
    }
    var seen: set<string> := {};
    for i := 0 to |items|
      invariant seen == Shown(e, items, i)
      invariant forall j | 0 <= j < i :: !RepeatsAt(e, items, j)
    {
      var key := e.show(items[i]);
      if key in seen {
        assert RepeatsAt(e, items, i);
        return true;
      }
      seen := seen + {key};
    }
  }

  function Shown(e: Env, items: seq<Value>, n: nat): set<string>
    requires n <= |items|
  {
    set i | 0 <= i < n :: e.show(items[i])
  }

  method CheckCounts(e: Env, s: Schema, items: seq<Value>, ctx: ValidationContext)
    requires s.ArraySchema?
    modifies ctx
    ensures ctx.path == old(ctx.path)
    ensures ctx.State() == Then(old(ctx.State()), At(ctx.path, CountFaults(e, s, items)))
  {
    hide Located, Repeats;
    ghost var start, p, length := ctx.State(), ctx.path, |items|;
    ghost var few := When(s.minItems.Some? && length < s.minItems.value, TooFewItems(s.minItems.UnwrapOr(0)), List(items));
    ghost var many := When(s.maxItems.Some? && length > s.maxItems.value, TooManyItems(s.maxItems.UnwrapOr(0)), List(items));
    Noted(start, p, few, many);
    if s.minItems.Some? && |items| < s.minItems.value {
      ctx.AddError(TooFewItems(s.minItems.value), List(items));
    }
    assert ctx.State() == Then(start, At(p, few));
    Noted(ctx.State(), p, [], []);
    if s.maxItems.Some? && |items| > s.maxItems.value {
      ctx.AddError(TooManyItems(s.maxItems.value), List(items));
    }
    Noted(start, p, few + many, When(s.uniqueItems && Repeats(e, items), DuplicateItems, List(items)));
    Noted(ctx.State(), p, [], []);
    if s.uniqueItems {
      var repeats := HasRepeat(e, items);
      if repeats {
        ctx.AddError(DuplicateItems, List(items));
      }
    }
  }

  method ValidateItems(e: Env, element: Schema, items: seq<Value>, ctx: ValidationContext)
    modifies ctx
    ensures ctx.path == old(ctx.path)
    ensures ctx.State() == Then(old(ctx.State()), ItemsOut(e, element, items, |items|, ctx.mode, ctx.path))
    decreases element, 5
  {
    hide Located, Check;
    ghost var start, p := ctx.State(), ctx.path;
    ThenNothing(start);
    for i := 0 to |items|
      invariant ctx.path == p
      invariant ctx.State() == Then(start, ItemsOut(e, element, items, i, ctx.mode, p))
    {
      ctx.PushIndex(i);
      Validate(e, element, items[i], ctx);
      ctx.PopPath();
      ThenAssociative(start, ItemsOut(e, element, items, i, ctx.mode, p),
        Check(e, element, items[i], ctx.mode, p + [IndexSegment(i)]));
    }
  }

  method ValidateArray(e: Env, s: Schema, value: Value, ctx: ValidationContext)
    requires s.ArraySchema?
    modifies ctx
    ensures ctx.path == old(ctx.path)
    ensures ctx.State() == Then(old(ctx.State()), Check(e, s, value, ctx.mode, ctx.path))
    decreases s, 3
  {
    hide Located, CountFaults, RuleFaults, ItemsOut;
    var more := ctx.CheckRequired(s.base, value);
    if !more {
      return;
    }
    if !value.List? {
      ctx.AddError(Expected(KindArray), value);
      return;
    }
    ghost var start, p := ctx.State(), ctx.path;
    CheckOfList(e, s, value.items, ctx.mode, p);
    CheckCounts(e, s, value.items, ctx);
    if s.element.Some? {
      ValidateItems(e, s.element.value, value.items, ctx);
    } else {
      ThenNothing(ctx.State());
    }
    RunRules(e, s.rules, value, ctx);
    FourSteps(start, NOTHING, At(p, CountFaults(e, s, value.items)),
      ElementsOut(e, s, value.items, ctx.mode, p),
      At(p, RuleFaults(e, s.rules, |s.rules|, value)));
    ThenNothing(start);
    ThenNothing(At(p, CountFaults(e, s, value.items)));
  }

  // ---- composites ----

  method ValidateAnd(e: Env, s: Schema, value: Value, ctx: ValidationContext)
    requires s.AndSchema?
    modifies ctx
    ensures ctx.path == old(ctx.path)
    ensures ctx.State() == Then(old(ctx.State()), Check(e, s, value, ctx.mode, ctx.path))
    decreases s, 3
  {
    hide Located;
    var more := ctx.CheckRequired(s.base, value);
    if !more {
      return;
    }
    ghost var start, p := ctx.State(), ctx.path;
    ThenNothing(start);
    for i := 0 to |s.parts|
      invariant ctx.path == p
      invariant ctx.State() == Then(start, AllParts(e, s, i, value, ctx.mode, p))
    {
      Validate(e, s.parts[i], value, ctx);
      ThenAssociative(start, AllParts(e, s, i, value, ctx.mode, p), Check(e, s.parts[i], value, ctx.mode, p));
    }
  }

  method ValidateOr(e: Env, s: Schema, value: Value, ctx: ValidationContext)
    requires s.OrSchema?
    modifies ctx
    ensures ctx.path == old(ctx.path)
    ensures ctx.State() == Then(old(ctx.State()), Check(e, s, value, ctx.mode, ctx.path))
    decreases s, 3
  {
    hide Located;
    var more := ctx.CheckRequired(s.base, value);
    if !more {
      return;
    }
    ThenNothing(ctx.State());
    if |s.parts| == 0 {
      return;
    }
    var allFailed := NoPartPasses(e, s, value, ctx.mode);
    if allFailed {
      ctx.AddError(NoneOfThem, value);
    }
  }

  /** The alternatives are tried in contexts of their own until one passes. */
  method NoPartPasses(e: Env, s: Schema, value: Value, mode: Mode) returns (allFailed: bool)
    requires s.OrSchema?
    ensures allFailed == !SomePart(e, s, |s.parts|, value, mode)
    decreases s, 2
  {
    hide Check;
    allFailed := true;
    for i := 0 to |s.parts|
      invariant allFailed == !SomePart(e, s, i, value, mode)
      invariant allFailed
    {
      var passed := Passes(e, s.parts[i], value, mode);
      if passed {
        allFailed := false;
        PartPasses(e, s, i + 1, value, mode);
        break;
      }
    }
  }

  lemma {:induction false} PartPasses(e: Env, s: Schema, n: nat, v: Value, mode: Mode)
    requires s.OrSchema? && n <= |s.parts| && SomePart(e, s, n, v, mode)
    ensures SomePart(e, s, |s.parts|, v, mode)
    decreases |s.parts| - n
  {
    if n < |s.parts| {
      PartPasses(e, s, n + 1, v, mode);
    }
  }

  method ValidateNot(e: Env, s: Schema, value: Value, ctx: ValidationContext)
    requires s.NotSchema?
    modifies ctx
    ensures ctx.path == old(ctx.path)
    ensures ctx.State() == Then(old(ctx.State()), Check(e, s, value, ctx.mode, ctx.path))
    decreases s, 3
  {
    hide Located;
    var more := ctx.CheckRequired(s.base, value);
    if !more {
      return;
    }
    ThenNothing(ctx.State());
    var passed := Passes(e, s.inner, value, ctx.mode);
    if passed {
      ctx.AddError(MustNotMatch, value);
    }
  }

  /** Whether validating in a fresh context reports nothing. */
  method Passes(e: Env, s: Schema, value: Value, mode: Mode) returns (passed: bool)
    ensures passed == Accepts(e, s, value, mode)
    decreases s, 5
  {
    hide Check;
    var tempCtx := new ValidationContext(mode);
    Validate(e, s, value, tempCtx);
    ThenNothing(Check(e, s, value, mode, []));
    passed := |tempCtx.errors| == 0;
  }

  // ---- transformers ----

  method ApplyTransformers(e: Env, transformers: seq<nat>, value: Value, ctx: ValidationContext) returns (result: Option<Value>)
    modifies ctx
    ensures ctx.path == old(ctx.path)
    ensures result == Piped(e, transformers, |transformers|, value, ctx.path).result
    ensures ctx.State() == Then(old(ctx.State()), Piped(e, transformers, |transformers|, value, ctx.path).out)
  {
    hide Located, Piped, At;
    ghost var start, p := ctx.State(), ctx.path;
    ThenNothing(start);
    PipedNone(e, transformers, value, p);
    var transformed := value;
    for i := 0 to |transformers|
      invariant ctx.path == p
      invariant Piped(e, transformers, i, value, p).result == Some(transformed)
      invariant ctx.State() == Then(start, Piped(e, transformers, i, value, p).out)
    {
      PipedStep(e, transformers, i, value, p, transformed, start);
      match e.transform(transformers[i], transformed)
      case Refused(why) =>
        ctx.AddError(TransformFailed(i + 1, why), transformed);
        PipedStays(e, transformers, i + 1, value, p);
        return None;
      case Made(made) =>
        ctx.RecordTransformation(transformed, made, i + 1);
        transformed := made;
    }
    result := Some(transformed);
  }

  lemma PipedNone(e: Env, transformers: seq<nat>, v: Value, path: seq<string>)
    ensures Piped(e, transformers, 0, v, path) == Pipeline(NOTHING, Some(v))
  {
  }

  lemma PipedStep(e: Env, transformers: seq<nat>, i: nat, v: Value, path: seq<string>, input: Value, start: Out)
    requires i < |transformers| && Piped(e, transformers, i, v, path).result == Some(input)
    ensures
      var before, after := Piped(e, transformers, i, v, path), Piped(e, transformers, i + 1, v, path);
      match e.transform(transformers[i], input)
      case Refused(why) =>
        && after.result.None?
        && Then(start, after.out) == Then(Then(start, before.out), At(path, [Fault(TransformFailed(i + 1, why), input)]))
      case Made(w) =>
        && after.result == Some(w)
        && Then(start, after.out) == Then(Then(start, before.out), Out([], [Record(PathText(path), input, w, i + 1)]))
  {
    hide Located, At, PathText;
    var before := Piped(e, transformers, i, v, path);
    match e.transform(transformers[i], input)
    case Refused(why) => ThenAssociative(start, before.out, At(path, [Fault(TransformFailed(i + 1, why), input)]));
    case Made(w) => ThenAssociative(start, before.out, Out([], [Record(PathText(path), input, w, i + 1)]));
  }

  /** A refusal ends the pipeline. */
  lemma {:induction false} PipedStays(e: Env, transformers: seq<nat>, n: nat, v: Value, path: seq<string>)
    requires n <= |transformers| && Piped(e, transformers, n, v, path).result.None?
    ensures Piped(e, transformers, |transformers|, v, path) == Piped(e, transformers, n, v, path)
    decreases |transformers| - n
  {
    if n < |transformers| {
      PipedStays(e, transformers, n + 1, v, path);
    }
  }

  method ValidateTransform(e: Env, s: Schema, value: Value, ctx: ValidationContext)
    requires s.TransformSchema?
    modifies ctx
    ensures ctx.path == old(ctx.path)
    ensures ctx.State() == Then(old(ctx.State()), Check(e, s, value, ctx.mode, ctx.path))
    decreases s, 3
  {
    hide Located, Piped;
    ghost var start, made := ctx.State(), Piped(e, s.transformers, |s.transformers|, value, ctx.path);
    var result := ApplyTransformers(e, s.transformers, value, ctx);
    if result.Some? {
      ThenAssociative(start, made.out, Check(e, s.inner, result.value, ctx.mode, ctx.path));
      Validate(e, s.inner, result.value, ctx);
    }
  }

  // ---- all schemas ----

  method Validate(e: Env, s: Schema, value: Value, ctx: ValidationContext)
    modifies ctx
    ensures ctx.path == old(ctx.path)
    ensures ctx.State() == Then(old(ctx.State()), Check(e, s, value, ctx.mode, ctx.path))
    decreases s, 4
  {
    hide Check;
    match s
    case StringSchema(_, _, _, _, _, _, _) => ValidateString(e, s, value, ctx);
    case NumberSchema(_, _, _, _, _) => ValidateNumber(e, s, value, ctx);
    case BoolSchema(_, _) => ValidateBool(e, s, value, ctx);
    case ObjectSchema(_, _, _, _, _, _) => ValidateObject(e, s, value, ctx);
    case ArraySchema(_, _, _, _, _, _, _) => ValidateArray(e, s, value, ctx);
    case CustomSchema(_, _) => ValidateCustom(e, s, value, ctx);
    case TransformSchema(_, _, _) => ValidateTransform(e, s, value, ctx);
    case AndSchema(_, _) => ValidateAnd(e, s, value, ctx);
    case OrSchema(_, _) => ValidateOr(e, s, value, ctx);
    case NotSchema(_, _) => ValidateNot(e, s, value, ctx);
  }

  method ValidateWithMode(e: Env, data: Value, s: Schema, mode: Mode) returns (errors: seq<FieldError>)
    ensures errors == Check(e, s, data, mode, []).errors
  {
    hide Check;
    var ctx := new ValidationContext(mode);
    Validate(e, s, data, ctx);
    ThenNothing(Check(e, s, data, mode, []));
    errors := ctx.errors;
  }
}
