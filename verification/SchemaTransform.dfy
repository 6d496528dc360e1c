/**
 ValidateAndTransform. It reports what Validate reports, keeps the shape of lists and objects, and
 leaves a value alone unless a transformer says otherwise.
 */
module SchemaTransform {
  import opened Values
  import opened Keys
  import opened Schemas
  import opened ValidationContexts
  import opened SchemaValidation

  datatype Change = Change(out: Out, value: Value)

  // ---- specification ----

  ghost function Convert(e: Env, s: Schema, v: Value, mode: Mode, path: seq<string>): Change
    decreases s, 2, 0
  {
    if s.TransformSchema? then
      var made := Piped(e, s.transformers, |s.transformers|, v, path);
      Change(Check(e, s, v, mode, path), if made.result.None? then v else made.result.value)
    else if s.ObjectSchema? && s.transformable && v.Map? then ConvertObject(e, s, v.entries, mode, path)
    else if s.ArraySchema? && s.transformable && v.List? then ConvertArray(e, s, v.items, mode, path)
    else Change(Check(e, s, v, mode, path), v)
  }

  ghost function ConvertObject(e: Env, s: Schema, entries: map<string, Value>, mode: Mode, path: seq<string>): Change
    requires s.ObjectSchema?
    decreases s, 1, 0
  {
    var required, names := Sorted(s.requiredFields), Sorted(s.fields.Keys);
    var result := Map(MadeEntries(e, s, names, |names|, entries, mode, path));
    Change(
      Then(Then(Then(
        MissingOut(required, |required|, entries, path),
        ConvertFields(e, s, names, |names|, entries, mode, path)),
        Extras(s, entries, mode, path)),
        At(path, RuleFaults(e, s.rules, |s.rules|, result))),
      result)
  }

  /** The result map after the first `n` declared fields. */
  ghost function MadeEntries(e: Env, s: Schema, names: seq<string>, n: nat, entries: map<string, Value>,
                             mode: Mode, path: seq<string>): map<string, Value>
    requires s.ObjectSchema? && n <= |names| && forall i | 0 <= i < |names| :: names[i] in s.fields
    decreases s, 0, n
  {
    if n == 0 then (if RejectsExtra(s, mode) then map[] else entries)
    else
      var before, name := MadeEntries(e, s, names, n - 1, entries, mode, path), names[n - 1];
      if name in entries then before[name := Convert(e, s.fields[name], entries[name], mode, path + [name]).value]
      else before
  }

  ghost function ConvertFields(e: Env, s: Schema, names: seq<string>, n: nat, entries: map<string, Value>,
                               mode: Mode, path: seq<string>): Out
    requires s.ObjectSchema? && n <= |names| && forall i | 0 <= i < |names| :: names[i] in s.fields
    decreases s, 0, n
  {
    if n == 0 then NOTHING
    else
      Then(ConvertFields(e, s, names, n - 1, entries, mode, path), ConvertField(e, s, names[n - 1], entries, mode, path))
  }

  ghost function ConvertField(e: Env, s: Schema, name: string, entries: map<string, Value>, mode: Mode, path: seq<string>): Out
    requires s.ObjectSchema? && name in s.fields
    decreases s, 0, 0
  {
    if name in entries then Convert(e, s.fields[name], entries[name], mode, path + [name]).out
    else FieldOut(e, s, name, entries, mode, path)
  }

  ghost function ConvertArray(e: Env, s: Schema, items: seq<Value>, mode: Mode, path: seq<string>): Change
    requires s.ArraySchema?
    decreases s, 1, 0
  {
    Change(
      Then(Then(
        At(path, CountFaults(e, s, items)),
        ConvertItems(e, s, items, |items|, mode, path)),
        At(path, RuleFaults(e, s.rules, |s.rules|, List(items)))),
      List(MadeItems(e, s, items, |items|, mode, path)))
  }

  ghost function ConvertItem(e: Env, s: Schema, item: Value, mode: Mode, path: seq<string>): Change
    requires s.ArraySchema?
    decreases s, 0, 0
  {
    if s.element.None? then Change(NOTHING, item) else Convert(e, s.element.value, item, mode, path)
  }

  ghost function ConvertItems(e: Env, s: Schema, items: seq<Value>, n: nat, mode: Mode, path: seq<string>): Out
    requires s.ArraySchema? && n <= |items|
    decreases s, 0, 1 + n
  {
    if n == 0 then NOTHING
    else
      Then(ConvertItems(e, s, items, n - 1, mode, path),
           ConvertItem(e, s, items[n - 1], mode, path + [IndexSegment(n - 1)]).out)
  }

  ghost function MadeItems(e: Env, s: Schema, items: seq<Value>, n: nat, mode: Mode, path: seq<string>): (r: seq<Value>)
    requires s.ArraySchema? && n <= |items|
    ensures |r| == n
    decreases s, 0, 1 + n
  {
    if n == 0 then []
    else
      MadeItems(e, s, items, n - 1, mode, path) +
      [ConvertItem(e, s, items[n - 1], mode, path + [IndexSegment(n - 1)]).value]
  }

  // ---- the methods ----

  method ValidateAndTransform(e: Env, s: Schema, value: Value, ctx: ValidationContext) returns (result: Value)
    modifies ctx
    ensures ctx.path == old(ctx.path)
    ensures var change := Convert(e, s, value, ctx.mode, ctx.path);
      ctx.State() == Then(old(ctx.State()), change.out) && result == change.value
    decreases s, 4
  {
    hide Check, At, ConvertObject, ConvertArray, Piped;
    if s.TransformSchema? {
      result := TransformAndValidate(e, s, value, ctx);
    } else if s.ObjectSchema? && s.transformable {
      result := TransformObject(e, s, value, ctx);
    } else if s.ArraySchema? && s.transformable {
      result := TransformArray(e, s, value, ctx);
    } else {
      Validate(e, s, value, ctx);
      result := value;
    }
  }

  method TransformAndValidate(e: Env, s: Schema, value: Value, ctx: ValidationContext) returns (result: Value)
    requires s.TransformSchema?
    modifies ctx
    ensures ctx.path == old(ctx.path)
    ensures var change := Convert(e, s, value, ctx.mode, ctx.path);
      ctx.State() == Then(old(ctx.State()), change.out) && result == change.value
  {
    hide Piped, At;
    ghost var start, made := ctx.State(), Piped(e, s.transformers, |s.transformers|, value, ctx.path);
    var transformed := ApplyTransformers(e, s.transformers, value, ctx);
    if transformed.None? {
      return value;
    }
    ThenAssociative(start, made.out, Check(e, s.inner, transformed.value, ctx.mode, ctx.path));
    Validate(e, s.inner, transformed.value, ctx);
    result := transformed.value;
  }

  method TransformObject(e: Env, s: Schema, value: Value, ctx: ValidationContext) returns (result: Value)
    requires s.ObjectSchema? && s.transformable
    modifies ctx
    ensures ctx.path == old(ctx.path)
    ensures var change := Convert(e, s, value, ctx.mode, ctx.path);
      ctx.State() == Then(old(ctx.State()), change.out) && result == change.value
    decreases s, 3
  {
    hide At, RuleFaults, NullFaults, MadeEntries, ConvertFields, MissingOut, Extras, Then, Elements, Ascending;
    var more := ctx.CheckRequired(s.base, value);
    if !more {
      return value;
    }
    if !value.Map? {
      ctx.AddError(Expected(KindObject), value);
      assert Check(e, s, value, ctx.mode, ctx.path) == CheckValue(e, s, value, ctx.mode, ctx.path);
      return value;
    }
    ghost var start, p, names := ctx.State(), ctx.path, Sorted(s.fields.Keys);
    ReportMissing(s, value.entries, ctx);
    var made := TransformFields(e, s, value.entries, ctx);
    RejectExtra(s, value.entries, ctx);
    RunRules(e, s.rules, Map(made), ctx);
    FourSteps(start,
      MissingOut(Sorted(s.requiredFields), |Sorted(s.requiredFields)|, value.entries, p),
      ConvertFields(e, s, names, |names|, value.entries, ctx.mode, p),
      Extras(s, value.entries, ctx.mode, p),
      At(p, RuleFaults(e, s.rules, |s.rules|, Map(made))));
    result := Map(made);
  }

  method TransformFields(e: Env, s: Schema, entries: map<string, Value>, ctx: ValidationContext)
    returns (result: map<string, Value>)
    requires s.ObjectSchema?
    modifies ctx
    ensures ctx.path == old(ctx.path)
    ensures var names := Sorted(s.fields.Keys);
      && ctx.State() == Then(old(ctx.State()), ConvertFields(e, s, names, |names|, entries, ctx.mode, ctx.path))
      && result == MadeEntries(e, s, names, |names|, entries, ctx.mode, ctx.path)
    decreases s, 2
  {
    hide At, Check, Convert, Elements, Ascending, IsRequired;
    ghost var start, p := ctx.State(), ctx.path;
    ThenNothing(start);
    result := if RejectsExtra(s, ctx.mode) then map[] else entries;
    var names := SortKeys(s.fields.Keys);
    for i := 0 to |names|
      invariant ctx.path == p
      invariant ctx.State() == Then(start, ConvertFields(e, s, names, i, entries, ctx.mode, p))
      invariant result == MadeEntries(e, s, names, i, entries, ctx.mode, p)
    {
      ThenAssociative(start, ConvertFields(e, s, names, i, entries, ctx.mode, p), ConvertField(e, s, names[i], entries, ctx.mode, p));
      if names[i] in entries {
        ctx.PushPath(names[i]);
        var made := ValidateAndTransform(e, s.fields[names[i]], entries[names[i]], ctx);
        ctx.PopPath();
        result := result[names[i] := made];
      } else {
        ValidateField(e, s, names[i], entries, ctx);
      }
    }
  }

  method TransformArray(e: Env, s: Schema, value: Value, ctx: ValidationContext) returns (result: Value)
    requires s.ArraySchema? && s.transformable
    modifies ctx
    ensures ctx.path == old(ctx.path)
    ensures var change := Convert(e, s, value, ctx.mode, ctx.path);
      ctx.State() == Then(old(ctx.State()), change.out) && result == change.value
    decreases s, 3
  {
    hide At, RuleFaults, NullFaults, CountFaults, MadeItems, ConvertItems, Then;
    var more := ctx.CheckRequired(s.base, value);
    if !more {
      return value;
    }
    if !value.List? {
      ctx.AddError(Expected(KindArray), value);
      assert Check(e, s, value, ctx.mode, ctx.path) == CheckValue(e, s, value, ctx.mode, ctx.path);
      return value;
    }
    ghost var start, p := ctx.State(), ctx.path;
    CheckCounts(e, s, value.items, ctx);
    var made := TransformItems(e, s, value.items, ctx);
    assert value == List(value.items);
    RunRules(e, s.rules, value, ctx);
    ghost var counted, each := At(p, CountFaults(e, s, value.items)), ConvertItems(e, s, value.items, |value.items|, ctx.mode, p);
    ThenAssociative(start, counted, each);
    ThenAssociative(start, Then(counted, each), At(p, RuleFaults(e, s.rules, |s.rules|, value)));
    result := List(made);
  }

  method TransformItems(e: Env, s: Schema, items: seq<Value>, ctx: ValidationContext) returns (result: seq<Value>)
    requires s.ArraySchema?
    modifies ctx
    ensures ctx.path == old(ctx.path)
    ensures ctx.State() == Then(old(ctx.State()), ConvertItems(e, s, items, |items|, ctx.mode, ctx.path))
    ensures result == MadeItems(e, s, items, |items|, ctx.mode, ctx.path)
    decreases s, 2
  {
    hide At, Convert;
    ghost var start, p := ctx.State(), ctx.path;
    ThenNothing(start);
    result := [];
    for i := 0 to |items|
      invariant ctx.path == p
      invariant ctx.State() == Then(start, ConvertItems(e, s, items, i, ctx.mode, p))
      invariant result == MadeItems(e, s, items, i, ctx.mode, p)
    {
      ghost var change := ConvertItem(e, s, items[i], ctx.mode, p + [IndexSegment(i)]);
      ThenAssociative(start, ConvertItems(e, s, items, i, ctx.mode, p), change.out);
      ctx.PushIndex(i);
      if s.element.Some? {
        var made := ValidateAndTransform(e, s.element.value, items[i], ctx);
        result := result + [made];
      } else {
        ThenNothing(ctx.State());
        result := result + [items[i]];
      }
      ctx.PopPath();
    }
  }
}
