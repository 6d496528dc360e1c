/**
 What a schema accepts, said without errors, paths or order: validation reports nothing exactly for the
 values that conform.
 */
module SchemaMeaning {
  import opened Values
  import opened Keys
  import opened Schemas
  import opened ValidationContexts
  import opened SchemaReports
  import opened SchemaCompileCorrect

  predicate Within(least: Option<int>, n: int, most: Option<int>) {
    (least.Some? ==> least.value <= n) && (most.Some? ==> n <= most.value)
  }

  ghost predicate TextConforms(e: Env, s: Schema, t: string)
    requires s.StringSchema?
  {
    && Within(s.minLength, |t|, s.maxLength)
    && (s.pattern.Some? ==> e.matches(s.pattern.value, t))
    && (s.enum == [] || t in s.enum)
    && RulesPass(e, s.rules, Str(t))
  }

  ghost predicate Distinct(e: Env, items: seq<Value>) {
    forall i, j | 0 <= i < j < |items| :: e.show(items[i]) != e.show(items[j])
  }

  /** Declared fields conform where present and are present where required; extra ones only where allowed. */
  ghost predicate Conforms(e: Env, s: Schema, v: Value, mode: Mode)
    decreases s
  {
    if s.TransformSchema? then
      var made := After(e, s.transformers, v);
      made.Some? && Conforms(e, s.inner, made.value, mode)
    else if v.Null? then !s.base.required && s.base.nullable
    else
      match s
      case StringSchema(_, _, _, _, _, _, _) => TextOf(e, v, mode).Some? && TextConforms(e, s, TextOf(e, v, mode).value)
      case NumberSchema(_, _, _, _, rules) =>
        var r := NumberOf(e, v, mode);
        r.Some? && LimitsHold(s, r.value) && RulesPass(e, rules, AsNumber(r.value))
      case BoolSchema(_, rules) => IsBoolean(v, mode) && RulesPass(e, rules, v)
      case CustomSchema(_, validator) => validator.Some? ==> e.custom(validator.value, v).None?
      case ObjectSchema(_, fields, required, _, rules, _) =>
        && v.Map?
        && required <= v.entries.Keys
        && (forall k | k in fields :: if k in v.entries then Conforms(e, fields[k], v.entries[k], mode) else !IsRequired(fields[k]))
        && (RejectsExtra(s, mode) ==> v.entries.Keys <= fields.Keys)
        && RulesPass(e, rules, v)
      case ArraySchema(_, element, minItems, maxItems, unique, rules, _) =>
        && v.List?
        && Within(minItems, |v.items|, maxItems)
        && (unique ==> Distinct(e, v.items))
        && (element.Some? ==> forall i | 0 <= i < |v.items| :: Conforms(e, element.value, v.items[i], mode))
        && RulesPass(e, rules, v)
      case AndSchema(_, parts) => forall i | 0 <= i < |parts| :: Conforms(e, parts[i], v, mode)
      case OrSchema(_, parts) => parts == [] || exists i | 0 <= i < |parts| :: Conforms(e, parts[i], v, mode)
      case NotSchema(_, inner) => !Conforms(e, inner, v, mode)
  }

  // ---- the parts ----

  lemma RulesMean(e: Env, rules: seq<Rule>, v: Value)
    ensures RuleFaults(e, rules, |rules|, v) == [] <==> RulesPass(e, rules, v)
  {
    RulesClean(e, rules, |rules|, v);
  }

  lemma TextMeans(e: Env, s: Schema, t: string)
    requires s.StringSchema?
    ensures TextFaults(e, s, t) == [] <==> TextConforms(e, s, t)
  {
    hide RuleFaults, RulesPass;
    RulesMean(e, s.rules, Str(t));
  }

  lemma RepeatsMeans(e: Env, items: seq<Value>)
    ensures Repeats(e, items) <==> !Distinct(e, items)
  {
    if !Distinct(e, items) {
      var i, j :| 0 <= i < j < |items| && e.show(items[i]) == e.show(items[j]);
      assert RepeatsAt(e, items, j);
    }
  }

  // ---- the main result ----

  /** Validation at any path accepts exactly the values that conform. */
  lemma {:induction false} AcceptsMeansConforms(e: Env, s: Schema, v: Value, mode: Mode, path: seq<string>)
    ensures Check(e, s, v, mode, path).errors == [] <==> Conforms(e, s, v, mode)
    decreases s, 4
  {
    hide At, StringFaults, NumberFaults, BoolFaults, CustomFaults, CheckObject, CheckArray, Piped, After, NullFaults;
    if s.TransformSchema? {
      TransformMeans(e, s, v, mode, path);
    } else if v.Null? {
      NullMeans(s, path);
    } else if s.ObjectSchema? {
      ObjectMeans(e, s, v, mode, path);
    } else if s.ArraySchema? {
      ArrayMeans(e, s, v, mode, path);
    } else if s.AndSchema? {
      AndMeans(e, s, |s.parts|, v, mode, path);
    } else if s.OrSchema? {
      OrMeans(e, s, |s.parts|, v, mode);
      AtClean(path, When(s.parts != [] && !SomePart(e, s, |s.parts|, v, mode), NoneOfThem, v));
    } else if s.NotSchema? {
      AcceptsMeansConforms(e, s.inner, v, mode, []);
      AtClean(path, When(Check(e, s.inner, v, mode, []).errors == [], MustNotMatch, v));
    } else {
      LeafMeans(e, s, v, mode, path);
    }
  }

  lemma NullMeans(s: Schema, path: seq<string>)
    ensures At(path, NullFaults(s.base)).errors == [] <==> !s.base.required && s.base.nullable
  {
  }

  lemma LeafMeans(e: Env, s: Schema, v: Value, mode: Mode, path: seq<string>)
    requires !v.Null? && (s.StringSchema? || s.NumberSchema? || s.BoolSchema? || s.CustomSchema?)
    ensures Check(e, s, v, mode, path).errors == [] <==> Conforms(e, s, v, mode)
  {
    hide At, TextFaults, AmountFaults, RuleFaults, TextConforms, LimitsHold, RulesPass;
    if s.StringSchema? {
      AtClean(path, StringFaults(e, s, v, mode));
      if TextOf(e, v, mode).Some? {
        TextMeans(e, s, TextOf(e, v, mode).value);
      }
    } else if s.NumberSchema? {
      AtClean(path, NumberFaults(e, s, v, mode));
      if NumberOf(e, v, mode).Some? {
        AmountParts(e, s, NumberOf(e, v, mode).value);
      }
    } else if s.BoolSchema? {
      AtClean(path, BoolFaults(e, s, v, mode));
      RulesMean(e, s.rules, v);
    } else {
      AtClean(path, CustomFaults(e, s, v));
    }
  }

  lemma {:induction false} TransformMeans(e: Env, s: Schema, v: Value, mode: Mode, path: seq<string>)
    requires s.TransformSchema?
    ensures Check(e, s, v, mode, path).errors == [] <==> Conforms(e, s, v, mode)
    decreases s, 3
  {
    hide Piped, After;
    PipedClean(e, s.transformers, |s.transformers|, v, path);
    AllAfter(e, s.transformers, v, path);
    var made := Piped(e, s.transformers, |s.transformers|, v, path).result;
    if made.Some? {
      AcceptsMeansConforms(e, s.inner, made.value, mode, path);
    }
  }

  lemma {:induction false} AndMeans(e: Env, s: Schema, n: nat, v: Value, mode: Mode, path: seq<string>)
    requires s.AndSchema? && n <= |s.parts|
    ensures AllParts(e, s, n, v, mode, path).errors == [] <==> forall i | 0 <= i < n :: Conforms(e, s.parts[i], v, mode)
    decreases s, 0, n
  {
    hide Check, Conforms;
    if n > 0 {
      AndMeans(e, s, n - 1, v, mode, path);
      AcceptsMeansConforms(e, s.parts[n - 1], v, mode, path);
    }
  }

  lemma {:induction false} OrMeans(e: Env, s: Schema, n: nat, v: Value, mode: Mode)
    requires s.OrSchema? && n <= |s.parts|
    ensures SomePart(e, s, n, v, mode) <==> exists i | 0 <= i < n :: Conforms(e, s.parts[i], v, mode)
    decreases s, 0, n
  {
    hide Check, Conforms;
    if n > 0 {
      OrMeans(e, s, n - 1, v, mode);
      AcceptsMeansConforms(e, s.parts[n - 1], v, mode, []);
    }
  }

  // ---- arrays ----

  lemma {:induction false} ItemsMean(e: Env, element: Schema, items: seq<Value>, n: nat, mode: Mode, path: seq<string>)
    requires n <= |items|
    ensures ItemsOut(e, element, items, n, mode, path).errors == [] <==> forall i | 0 <= i < n :: Conforms(e, element, items[i], mode)
    decreases element, 5, n
  {
    hide Check, Conforms;
    if n > 0 {
      ItemsMean(e, element, items, n - 1, mode, path);
      AcceptsMeansConforms(e, element, items[n - 1], mode, path + [IndexSegment(n - 1)]);
    }
  }

  lemma CountsMean(e: Env, s: Schema, items: seq<Value>)
    requires s.ArraySchema?
    ensures CountFaults(e, s, items) == [] <==>
      Within(s.minItems, |items|, s.maxItems) && (s.uniqueItems ==> Distinct(e, items))
  {
    hide Repeats, Distinct;
    RepeatsMeans(e, items);
  }

  lemma {:induction false} ArrayMeans(e: Env, s: Schema, v: Value, mode: Mode, path: seq<string>)
    requires s.ArraySchema? && !v.Null?
    ensures Check(e, s, v, mode, path).errors == [] <==> Conforms(e, s, v, mode)
    decreases s, 3
  {
    hide At, CheckArray, RulesPass, Distinct, Within;
    if v.List? {
      assert v == List(v.items);
      CheckOfList(e, s, v.items, mode, path);
      ElementsMean(e, s, v.items, mode, path);
    } else {
      assert Check(e, s, v, mode, path) == CheckValue(e, s, v, mode, path);
      AtClean(path, [Fault(Expected(KindArray), v)]);
    }
  }

  lemma {:induction false} ElementsMean(e: Env, s: Schema, items: seq<Value>, mode: Mode, path: seq<string>)
    requires s.ArraySchema?
    ensures CheckArray(e, s, items, mode, path).errors == [] <==> Conforms(e, s, List(items), mode)
    decreases s, 2
  {
    hide At, CountFaults, RuleFaults, ItemsOut, RulesPass, Distinct, Within;
    AtClean(path, CountFaults(e, s, items));
    AtClean(path, RuleFaults(e, s.rules, |s.rules|, List(items)));
    CountsMean(e, s, items);
    RulesMean(e, s.rules, List(items));
    if s.element.Some? {
      ItemsMean(e, s.element.value, items, |items|, mode, path);
    }
  }

  // ---- objects ----

  ghost predicate FieldConforms(e: Env, s: Schema, name: string, entries: map<string, Value>, mode: Mode)
    requires s.ObjectSchema? && name in s.fields
  {
    if name in entries then Conforms(e, s.fields[name], entries[name], mode) else !IsRequired(s.fields[name])
  }

  /** A missing field that the object already requires is reported once, with the required names. */
  lemma {:induction false} FieldMeans(e: Env, s: Schema, name: string, entries: map<string, Value>, mode: Mode, path: seq<string>)
    requires s.ObjectSchema? && name in s.fields && s.requiredFields <= entries.Keys
    ensures FieldOut(e, s, name, entries, mode, path).errors == [] <==> FieldConforms(e, s, name, entries, mode)
    decreases s, 0
  {
    hide At, Check, Conforms;
    if name in entries {
      AcceptsMeansConforms(e, s.fields[name], entries[name], mode, path + [name]);
    } else {
      AtClean(path + [name], When(IsRequired(s.fields[name]), FieldRequired, Null));
    }
  }

  lemma {:induction false} FieldsMean(e: Env, s: Schema, entries: map<string, Value>, mode: Mode, path: seq<string>)
    requires s.ObjectSchema? && s.requiredFields <= entries.Keys
    ensures DeclaredOut(e, s, entries, mode, path).errors == [] <==> forall k | k in s.fields :: FieldConforms(e, s, k, entries, mode)
    decreases s, 1
  {
    hide FieldOut, FieldConforms, Elements, Ascending, FieldsOut;
    var names := Sorted(s.fields.Keys);
    FieldsPass(e, s, names, |names|, entries, mode, path);
    forall k | k in s.fields
      ensures exists i :: 0 <= i < |names| && names[i] == k
      ensures FieldOut(e, s, k, entries, mode, path).errors == [] <==> FieldConforms(e, s, k, entries, mode)
    {
      SortedHas(s.fields.Keys, k);
      FieldMeans(e, s, k, entries, mode, path);
    }
    if forall k | k in s.fields :: FieldConforms(e, s, k, entries, mode) {
      forall i | 0 <= i < |names|
        ensures FieldOut(e, s, names[i], entries, mode, path).errors == []
      {
        assert FieldConforms(e, s, names[i], entries, mode);
      }
    }
  }

  lemma {:induction false} ExtraClean(names: seq<string>, n: nat, entries: map<string, Value>, declared: set<string>, path: seq<string>)
    requires n <= |names| && forall i | 0 <= i < |names| :: names[i] in entries
    ensures ExtraOut(names, n, entries, declared, path).errors == [] <==> forall i | 0 <= i < n :: names[i] in declared
  {
    hide At;
    if n > 0 {
      ExtraClean(names, n - 1, entries, declared, path);
      AtClean(path + [names[n - 1]], When(names[n - 1] !in declared, UnexpectedField, entries[names[n - 1]]));
    }
  }

  lemma ExtrasMean(s: Schema, entries: map<string, Value>, mode: Mode, path: seq<string>)
    requires s.ObjectSchema?
    ensures Extras(s, entries, mode, path).errors == [] <==> (RejectsExtra(s, mode) ==> entries.Keys <= s.fields.Keys)
  {
    hide Elements, Ascending, ExtraOut;
    var keys := Sorted(entries.Keys);
    ExtraClean(keys, |keys|, entries, s.fields.Keys, path);
    forall k | k in entries
      ensures exists i :: 0 <= i < |keys| && keys[i] == k
    {
      SortedHas(entries.Keys, k);
    }
  }

  lemma {:induction false} EntriesMean(e: Env, s: Schema, entries: map<string, Value>, mode: Mode, path: seq<string>)
    requires s.ObjectSchema?
    ensures CheckObject(e, s, entries, mode, path).errors == [] <==>
      && s.requiredFields <= entries.Keys
      && (forall k | k in s.fields :: FieldConforms(e, s, k, entries, mode))
      && (RejectsExtra(s, mode) ==> entries.Keys <= s.fields.Keys)
      && RulesPass(e, s.rules, Map(entries))
    decreases s, 2
  {
    hide CheckObject, DeclaredOut, Extras, MissingOut, RuleFaults, FieldConforms, RulesPass, Elements, Ascending, RejectsExtra;
    ObjectParts(e, s, entries, mode, path);
    RequiredPresent(s.requiredFields, entries, path);
    ExtrasMean(s, entries, mode, path);
    RulesMean(e, s.rules, Map(entries));
    if s.requiredFields <= entries.Keys {
      FieldsMean(e, s, entries, mode, path);
    }
  }

  lemma {:induction false} ObjectMeans(e: Env, s: Schema, v: Value, mode: Mode, path: seq<string>)
    requires s.ObjectSchema? && !v.Null?
    ensures Check(e, s, v, mode, path).errors == [] <==> Conforms(e, s, v, mode)
    decreases s, 3
  {
    hide At, CheckObject, RulesPass, RejectsExtra;
    if v.Map? {
      assert v == Map(v.entries);
      CheckOfMap(e, s, v.entries, mode, path);
      EntriesMean(e, s, v.entries, mode, path);
      assert (forall k | k in s.fields :: FieldConforms(e, s, k, v.entries, mode)) <==>
        (forall k | k in s.fields :: if k in v.entries then Conforms(e, s.fields[k], v.entries[k], mode) else !IsRequired(s.fields[k]));
    } else {
      assert Check(e, s, v, mode, path) == CheckValue(e, s, v, mode, path);
      AtClean(path, [Fault(Expected(KindObject), v)]);
    }
  }
}
