/** Running a compiled schema: one loop over its checks, in the caller's context. */
module SchemaCompiledRun {
  import opened Values
  import opened Keys
  import opened Schemas
  import opened ValidationContexts
  import opened SchemaValidation
  import opened SchemaCompile

  method RunCheck(e: Env, step: Step, value: Value, ctx: ValidationContext)
    requires !step.Fields? && !step.Items? && !step.Delegate?
    modifies ctx
    ensures ctx.path == old(ctx.path)
    ensures ctx.State() == Then(old(ctx.State()), At(ctx.path, StepFaults(e, step, value, ctx.mode)))
  {
    hide Located, SeenWhole, SeenMultiple, RuleFailure;
    ThenNothing(ctx.State());
    var str, f := TextSeen(e, value, ctx.mode), NumberSeen(value);
    match step
    case TextType =>
      if TextOf(e, value, ctx.mode).None? {
        ctx.AddError(if ctx.mode.Loose? then CannotConvert else Expected(KindString), value);
      }
    case MinLength(least) =>
      if |str| < least {
        ctx.AddError(TooShort(least), Str(str));
      }
    case MaxLength(most) =>
      if |str| > most {
        ctx.AddError(TooLong(most), Str(str));
      }
    case Pattern(pattern, format) =>
      if !e.matches(pattern, str) {
        ctx.AddError(Mismatch(format, pattern), Str(str));
      }
    case Enum(allowed) =>
      if str !in allowed {
        ctx.AddError(NotInEnum(allowed), Str(str));
      }
    case TextRule(rule) =>
      var failure := RuleFailure(e, rule, Str(str));
      if failure.Some? {
        ctx.AddError(Rejected(failure.value), Str(str));
      }
    case ValueType(kind) =>
      if !HasKind(e, value, kind, ctx.mode) {
        ctx.AddError(Expected(kind), value);
      }
    case IntegerOnly =>
      if !SeenWhole(e, f) {
        ctx.AddError(Rejected("must be an integer"), value);
      }
    case AtLeast(low) =>
      if f < low {
        ctx.AddError(TooSmall(low), value);
      }
    case AtMost(high) =>
      if f > high {
        ctx.AddError(TooLarge(high), value);
      }
    case MultipleOf(of) =>
      if !SeenMultiple(e, f, of) {
        ctx.AddError(NotMultiple(of), value);
      }
    case ValueRule(rule) =>
      var failure := RuleFailure(e, rule, value);
      if failure.Some? {
        ctx.AddError(Rejected(failure.value), value);
      }
  }

  method RejectUndeclared(declared: set<string>, additional: Option<bool>, entries: map<string, Value>, ctx: ValidationContext)
    modifies ctx
    ensures ctx.path == old(ctx.path)
    ensures ctx.State() == Then(old(ctx.State()), Undeclared(declared, additional, entries, ctx.mode, ctx.path))
  {
    hide At, Elements, Ascending;
    ghost var start, p := ctx.State(), ctx.path;
    ThenNothing(start);
    var rejectExtra := if additional.Some? then !additional.value else ctx.mode.Strict?;
    if !rejectExtra {
      return;
    }
    var keys := SortKeys(entries.Keys);
    for i := 0 to |keys|
      invariant ctx.path == p
      invariant ctx.State() == Then(start, ExtraOut(keys, i, entries, declared, p))
    {
      ghost var before := ExtraOut(keys, i, entries, declared, p);
      if keys[i] !in declared {
        ctx.AddErrorUnder(keys[i], UnexpectedField, entries[keys[i]]);
        ThenAssociative(start, before, At(p + [keys[i]], [Fault(UnexpectedField, entries[keys[i]])]));
      } else {
        ThenNothing(before);
      }
    }
  }

  method RunFields(e: Env, step: Step, entries: map<string, Value>, ctx: ValidationContext)
    requires step.Fields?
    modifies ctx
    ensures ctx.path == old(ctx.path)
    ensures ctx.State() == Then(old(ctx.State()), CompiledFieldsOut(e, step, |step.fields|, entries, ctx.mode, ctx.path))
    decreases step, 1
  {
    hide At, CompiledFieldOut;
    ghost var start, p := ctx.State(), ctx.path;
    ThenNothing(start);
    for i := 0 to |step.fields|
      invariant ctx.path == p
      invariant ctx.State() == Then(start, CompiledFieldsOut(e, step, i, entries, ctx.mode, p))
    {
      RunField(e, step.fields[i], entries, ctx);
      ThenAssociative(start, CompiledFieldsOut(e, step, i, entries, ctx.mode, p),
        CompiledFieldOut(e, step.fields[i], entries, ctx.mode, p));
    }
  }

  method RunField(e: Env, field: CompiledField, entries: map<string, Value>, ctx: ValidationContext)
    modifies ctx
    ensures ctx.path == old(ctx.path)
    ensures ctx.State() == Then(old(ctx.State()), CompiledFieldOut(e, field, entries, ctx.mode, ctx.path))
    decreases field, 2
  {
    hide Located, RunCompiled;
    ThenNothing(ctx.State());
    ctx.PushPath(field.name);
    if field.name in entries {
      CompiledValidate(e, field.schema, entries[field.name], ctx);
    } else if field.required {
      ctx.AddError(FieldRequired, Null);
    }
    ctx.PopPath();
  }

  method RunItems(e: Env, element: Compiled, items: seq<Value>, ctx: ValidationContext)
    modifies ctx
    ensures ctx.path == old(ctx.path)
    ensures ctx.State() == Then(old(ctx.State()), CompiledItemsOut(e, element, items, |items|, ctx.mode, ctx.path))
    decreases element, 3
  {
    hide RunCompiled;
    ghost var start, p := ctx.State(), ctx.path;
    ThenNothing(start);
    for i := 0 to |items|
      invariant ctx.path == p
      invariant ctx.State() == Then(start, CompiledItemsOut(e, element, items, i, ctx.mode, p))
    {
      ctx.PushIndex(i);
      CompiledValidate(e, element, items[i], ctx);
      ctx.PopPath();
      ThenAssociative(start, CompiledItemsOut(e, element, items, i, ctx.mode, p),
        RunCompiled(e, element, items[i], ctx.mode, p + [IndexSegment(i)]));
    }
  }

  method RunStep(e: Env, step: Step, value: Value, ctx: ValidationContext)
    modifies ctx
    ensures ctx.path == old(ctx.path)
    ensures ctx.State() == Then(old(ctx.State()), StepOut(e, step, value, ctx.mode, ctx.path))
    decreases step, 2
  {
    hide At, StepFaults, CountFaults, Check;
    ghost var start, p := ctx.State(), ctx.path;
    match step
    case Delegate(schema) => Validate(e, schema, value, ctx);
    case Fields(fields, declared, additional) =>
      if !value.Map? {
        ctx.AddError(CannotConvert, value);
        return;
      }
      RunFields(e, step, value.entries, ctx);
      RejectUndeclared(declared, additional, value.entries, ctx);
      ThenAssociative(start, CompiledFieldsOut(e, step, |fields|, value.entries, ctx.mode, p),
        Undeclared(declared, additional, value.entries, ctx.mode, p));
    case Items(minItems, maxItems, unique, element) =>
      ThenNothing(start);
      if !value.List? {
        return;
      }
      var bounds := ArraySchema(Base(false, false, map[]), None, minItems, maxItems, unique, [], true);
      CheckCounts(e, bounds, value.items, ctx);
      ThenNothing(ctx.State());
      if element.Some? {
        RunItems(e, element.value, value.items, ctx);
        ThenAssociative(start, At(p, CountFaults(e, bounds, value.items)),
          CompiledItemsOut(e, element.value, value.items, |value.items|, ctx.mode, p));
      } else {
        ThenNothing(At(p, CountFaults(e, bounds, value.items)));
      }
    case _ => RunCheck(e, step, value, ctx);
  }

  /** The Validate method of a compiled schema. */
  method CompiledValidate(e: Env, c: Compiled, value: Value, ctx: ValidationContext)
    modifies ctx
    ensures ctx.path == old(ctx.path)
    ensures ctx.State() == Then(old(ctx.State()), RunCompiled(e, c, value, ctx.mode, ctx.path))
    decreases c, 2
  {
    hide At, StepOut;
    var more := ctx.CheckRequired(Base(c.required, c.nullable, map[]), value);
    if !more {
      return;
    }
    ghost var start, p := ctx.State(), ctx.path;
    ThenNothing(start);
    for i := 0 to |c.steps|
      invariant ctx.path == p
      invariant ctx.State() == Then(start, StepsOut(e, c, i, value, ctx.mode, p))
    {
      RunStep(e, c.steps[i], value, ctx);
      ThenAssociative(start, StepsOut(e, c, i, value, ctx.mode, p), StepOut(e, c.steps[i], value, ctx.mode, p));
    }
  }
}
