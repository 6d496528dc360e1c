/**
 What ValidateAndTransform returns and what it reports, said about values. The result is the input with
 each reachable Transform applied; the report is about the input, except that the validators of an
 object see its result.
 */
module SchemaTransformMeaning {
  import opened Values
  import opened ErrorPaths
  import opened Keys
  import opened Schemas
  import opened SchemaReports
  import opened SchemaCompileCorrect
  import opened SchemaMeaning
  import opened SchemaTransform
  import opened SchemaTransformLaws

  // ---- the result ----

  /** An object or an array that is rebuilt from the results of its parts. */
  predicate Rebuilt(s: Schema, v: Value) {
    || (s.ObjectSchema? && s.transformable && v.Map?)
    || (s.ArraySchema? && s.transformable && v.List?)
  }

  predicate DropsExtra(s: Schema, mode: Mode)
    requires s.ObjectSchema?
  {
    s.additional == Some(false) || (s.additional == None && mode == Strict)
  }

  /**
   `v` becomes `w`: a Transform gives what its transformers make, or the value itself when one of them
   refuses; lists keep their length and objects the keys that are allowed; all else is unchanged.
   */
  ghost predicate Becomes(e: Env, s: Schema, v: Value, mode: Mode, w: Value)
    decreases s
  {
    if s.TransformSchema? then w == After(e, s.transformers, v).UnwrapOr(v)
    else if !Rebuilt(s, v) then w == v
    else if s.ObjectSchema? then
      && w.Map?
      && w.entries.Keys == (if DropsExtra(s, mode) then v.entries.Keys * s.fields.Keys else v.entries.Keys)
      && (forall k | k in w.entries && k in s.fields :: Becomes(e, s.fields[k], v.entries[k], mode, w.entries[k]))
      && (forall k | k in w.entries && k !in s.fields :: w.entries[k] == v.entries[k])
    else
      && w.List?
      && |w.items| == |v.items|
      && forall i | 0 <= i < |v.items| ::
           if s.element.None? then w.items[i] == v.items[i] else Becomes(e, s.element.value, v.items[i], mode, w.items[i])
  }

  lemma DropsIs(s: Schema, mode: Mode)
    requires s.ObjectSchema?
    ensures RejectsExtra(s, mode) == DropsExtra(s, mode)
  {
  }

  lemma {:induction false} ResultBecomes(e: Env, s: Schema, v: Value, mode: Mode, path: seq<string>)
    ensures Becomes(e, s, v, mode, Convert(e, s, v, mode, path).value)
    decreases s
  {
    hide RejectsExtra, DropsExtra, Convert, At, After;
    if s.TransformSchema? {
      TransformedIs(e, s, v, mode, path);
    } else if !Rebuilt(s, v) {
      Untouched(e, s, v, mode, path);
    } else if s.ObjectSchema? {
      DropsIs(s, mode);
      ObjectKeysKept(e, s, v, mode, path);
      forall k | k in s.fields && k in v.entries
        ensures Becomes(e, s.fields[k], v.entries[k], mode, Convert(e, s.fields[k], v.entries[k], mode, path + [k]).value)
      {
        ResultBecomes(e, s.fields[k], v.entries[k], mode, path + [k]);
      }
    } else {
      ListItemsKept(e, s, v, mode, path);
      if s.element.Some? {
        forall i | 0 <= i < |v.items|
          ensures var here := path + [IndexSegment(i)];
            Becomes(e, s.element.value, v.items[i], mode, Convert(e, s.element.value, v.items[i], mode, here).value)
        {
          ResultBecomes(e, s.element.value, v.items[i], mode, path + [IndexSegment(i)]);
        }
      }
    }
  }

  lemma TransformedIs(e: Env, s: Schema, v: Value, mode: Mode, path: seq<string>)
    requires s.TransformSchema?
    ensures Convert(e, s, v, mode, path).value == After(e, s.transformers, v).UnwrapOr(v)
  {
    hide Piped, After, Check;
    AllAfter(e, s.transformers, v, path);
  }

  lemma Untouched(e: Env, s: Schema, v: Value, mode: Mode, path: seq<string>)
    requires !s.TransformSchema? && !Rebuilt(s, v)
    ensures Convert(e, s, v, mode, path) == Change(Check(e, s, v, mode, path), v)
  {
    hide Check;
  }

  lemma {:induction false} BecomesOne(e: Env, s: Schema, v: Value, mode: Mode, w: Value, u: Value)
    requires Becomes(e, s, v, mode, w) && Becomes(e, s, v, mode, u)
    ensures w == u
    decreases s
  {
    if Rebuilt(s, v) && s.ObjectSchema? {
      forall k | k in w.entries && k in s.fields
        ensures w.entries[k] == u.entries[k]
      {
        BecomesOne(e, s.fields[k], v.entries[k], mode, w.entries[k], u.entries[k]);
      }
      assert w.entries == u.entries;
    } else if Rebuilt(s, v) {
      forall i | 0 <= i < |v.items|
        ensures w.items[i] == u.items[i]
      {
        if s.element.Some? {
          BecomesOne(e, s.element.value, v.items[i], mode, w.items[i], u.items[i]);
        }
      }
      assert w.items == u.items;
    }
  }

  /** Errors or not, the value that ValidateAndTransform returns is the one the input becomes. */
  lemma ConvertsTo(e: Env, s: Schema, v: Value, mode: Mode, path: seq<string>, w: Value)
    ensures Convert(e, s, v, mode, path).value == w <==> Becomes(e, s, v, mode, w)
  {
    hide Convert, Becomes;
    ResultBecomes(e, s, v, mode, path);
    if Becomes(e, s, v, mode, w) {
      BecomesOne(e, s, v, mode, w, Convert(e, s, v, mode, path).value);
    }
  }

  // ---- the verdict ----

  /** As `Conforms`, but each part is converted on the way, and an object's validators accept its result. */
  ghost predicate Suits(e: Env, s: Schema, v: Value, mode: Mode)
    decreases s
  {
    if !Rebuilt(s, v) then Conforms(e, s, v, mode)
    else if s.ObjectSchema? then
      && s.requiredFields <= v.entries.Keys
      && (forall k | k in s.fields :: if k in v.entries then Suits(e, s.fields[k], v.entries[k], mode) else !Demanded(s.fields[k]))
      && (DropsExtra(s, mode) ==> v.entries.Keys <= s.fields.Keys)
      && (forall w | Becomes(e, s, v, mode, w) :: RulesPass(e, s.rules, w))
    else
      && Within(s.minItems, |v.items|, s.maxItems)
      && (s.uniqueItems ==> Distinct(e, v.items))
      && (s.element.Some? ==> forall i | 0 <= i < |v.items| :: Suits(e, s.element.value, v.items[i], mode))
      && RulesPass(e, s.rules, v)
  }

  /** The main result: ValidateAndTransform reports nothing exactly for the values that suit the schema. */
  lemma {:induction false} ConvertsCleanly(e: Env, s: Schema, v: Value, mode: Mode, path: seq<string>)
    ensures Convert(e, s, v, mode, path).out.errors == [] <==> Suits(e, s, v, mode)
    decreases s, 4
  {
    hide Convert, Conforms, Check;
    if s.TransformSchema? {
      TransformReport(e, s, v, mode, path);
      AcceptsMeansConforms(e, s, v, mode, path);
    } else if !Rebuilt(s, v) {
      Untouched(e, s, v, mode, path);
      AcceptsMeansConforms(e, s, v, mode, path);
    } else if s.ObjectSchema? {
      ObjectSuits(e, s, v, mode, path);
    } else {
      ArraySuits(e, s, v, mode, path);
    }
  }

  lemma TransformReport(e: Env, s: Schema, v: Value, mode: Mode, path: seq<string>)
    requires s.TransformSchema?
    ensures Convert(e, s, v, mode, path).out == Check(e, s, v, mode, path)
  {
    hide Check;
  }

  /** The object case as four conditions; the returned value is what the validators see. */
  lemma {:induction false} ObjectVerdict(e: Env, s: Schema, v: Value, mode: Mode, path: seq<string>)
    requires s.ObjectSchema? && s.transformable && v.Map?
    ensures var change := Convert(e, s, v, mode, path);
      change.out.errors == [] <==>
        && s.requiredFields <= v.entries.Keys
        && (forall k | k in s.fields ::
              if k in v.entries then Convert(e, s.fields[k], v.entries[k], mode, path + [k]).out.errors == []
              else !Demanded(s.fields[k]))
        && (DropsExtra(s, mode) ==> v.entries.Keys <= s.fields.Keys)
        && RulesPass(e, s.rules, change.value)
  {
    hide MissingOut, ConvertFields, Extras, At, RuleFaults, MadeEntries, Elements, Ascending, RulesPass, RejectsExtra, DropsExtra,
      ConvertField, Demanded;
    var entries, names := v.entries, Sorted(s.fields.Keys);
    var made := Map(MadeEntries(e, s, names, |names|, entries, mode, path));
    assert Convert(e, s, v, mode, path) == ConvertObject(e, s, entries, mode, path);
    RequiredPresent(s.requiredFields, entries, path);
    ExtrasMean(s, entries, mode, path);
    DropsIs(s, mode);
    AtClean(path, RuleFaults(e, s.rules, |s.rules|, made));
    RulesMean(e, s.rules, made);
    if s.requiredFields <= entries.Keys {
      FieldsConvert(e, s, names, |names|, entries, mode, path);
      forall k | k in s.fields
        ensures exists i :: 0 <= i < |names| && names[i] == k
        ensures ConvertField(e, s, k, entries, mode, path).errors == [] <==>
          if k in entries then Convert(e, s.fields[k], entries[k], mode, path + [k]).out.errors == [] else !Demanded(s.fields[k])
      {
        SortedHas(s.fields.Keys, k);
        FieldConverts(e, s, k, entries, mode, path);
      }
    }
  }

  lemma {:induction false} FieldsConvert(e: Env, s: Schema, names: seq<string>, n: nat, entries: map<string, Value>,
                                         mode: Mode, path: seq<string>)
    requires s.ObjectSchema? && n <= |names| && forall i | 0 <= i < |names| :: names[i] in s.fields
    ensures ConvertFields(e, s, names, n, entries, mode, path).errors == [] <==>
      forall i | 0 <= i < n :: ConvertField(e, s, names[i], entries, mode, path).errors == []
  {
    hide ConvertField;
    if n > 0 {
      FieldsConvert(e, s, names, n - 1, entries, mode, path);
    }
  }

  lemma FieldConverts(e: Env, s: Schema, k: string, entries: map<string, Value>, mode: Mode, path: seq<string>)
    requires s.ObjectSchema? && k in s.fields && s.requiredFields <= entries.Keys
    ensures ConvertField(e, s, k, entries, mode, path).errors == [] <==>
      if k in entries then Convert(e, s.fields[k], entries[k], mode, path + [k]).out.errors == [] else !Demanded(s.fields[k])
  {
    hide Convert, At, IsRequired, Demanded, Check;
    DemandedIs(s.fields[k]);
    if k !in entries {
      AtClean(path + [k], When(IsRequired(s.fields[k]), FieldRequired, Null));
    }
  }

  lemma {:induction false} ObjectSuits(e: Env, s: Schema, v: Value, mode: Mode, path: seq<string>)
    requires s.ObjectSchema? && s.transformable && v.Map?
    ensures Convert(e, s, v, mode, path).out.errors == [] <==> Suits(e, s, v, mode)
    decreases s, 3
  {
    hide Convert, Becomes, RulesPass, DropsExtra, Demanded;
    ObjectVerdict(e, s, v, mode, path);
    forall k | k in s.fields && k in v.entries
      ensures Convert(e, s.fields[k], v.entries[k], mode, path + [k]).out.errors == [] <==> Suits(e, s.fields[k], v.entries[k], mode)
    {
      ConvertsCleanly(e, s.fields[k], v.entries[k], mode, path + [k]);
    }
    forall w
      ensures Convert(e, s, v, mode, path).value == w <==> Becomes(e, s, v, mode, w)
    {
      ConvertsTo(e, s, v, mode, path, w);
    }
  }

  lemma {:induction false} ItemsSuit(e: Env, s: Schema, items: seq<Value>, n: nat, mode: Mode, path: seq<string>)
    requires s.ArraySchema? && n <= |items|
    ensures ConvertItems(e, s, items, n, mode, path).errors == [] <==>
      (s.element.Some? ==> forall i | 0 <= i < n :: Suits(e, s.element.value, items[i], mode))
    decreases s, 0, n
  {
    hide Convert, Suits;
    if n > 0 {
      ItemsSuit(e, s, items, n - 1, mode, path);
      if s.element.Some? {
        ConvertsCleanly(e, s.element.value, items[n - 1], mode, path + [IndexSegment(n - 1)]);
      }
    }
  }

  lemma {:induction false} ArraySuits(e: Env, s: Schema, v: Value, mode: Mode, path: seq<string>)
    requires s.ArraySchema? && s.transformable && v.List?
    ensures Convert(e, s, v, mode, path).out.errors == [] <==> Suits(e, s, v, mode)
    decreases s, 3
  {
    hide At, CountFaults, RuleFaults, ConvertItems, RulesPass, Distinct, Within, MadeItems;
    var items := v.items;
    assert v == List(items);
    assert Convert(e, s, v, mode, path) == ConvertArray(e, s, items, mode, path);
    AtClean(path, CountFaults(e, s, items));
    AtClean(path, RuleFaults(e, s.rules, |s.rules|, v));
    CountsMean(e, s, items);
    RulesMean(e, s.rules, v);
    ItemsSuit(e, s, items, |items|, mode, path);
  }

  // ---- the report ----

  /** As `Breaks`, with parts that are converted, and an object's validators looking at its result. */
  ghost predicate BreaksConverting(e: Env, s: Schema, v: Value, mode: Mode, q: seq<string>, m: Message, w: Value)
    decreases s, 1
  {
    if !Rebuilt(s, v) then Breaks(e, s, v, mode, q, m, w)
    else if s.ObjectSchema? then
      || MissingBreaks(s, v.entries, q, m, w)
      || FieldBreaksConverting(e, s, v.entries, mode, q, m, w)
      || ExtraBreaks(s, v.entries, mode, q, m, w)
      || (q == [] && exists made :: Becomes(e, s, v, mode, made) && RulesBreak(e, s.rules, made, m, w))
    else
      || (q == [] && CountBreaks(e, s, v.items, m, w))
      || ItemBreaksConverting(e, s, v.items, mode, q, m, w)
      || (q == [] && RulesBreak(e, s.rules, v, m, w))
  }

  ghost predicate FieldBreaksConverting(e: Env, s: Schema, entries: map<string, Value>, mode: Mode, q: seq<string>, m: Message, w: Value)
    requires s.ObjectSchema?
    decreases s, 0
  {
    q != [] && q[0] in s.fields && q[0] in entries && BreaksConverting(e, s.fields[q[0]], entries[q[0]], mode, q[1..], m, w)
  }

  ghost predicate ItemBreaksConverting(e: Env, s: Schema, items: seq<Value>, mode: Mode, q: seq<string>, m: Message, w: Value)
    requires s.ArraySchema?
    decreases s, 0
  {
    s.element.Some? && q != [] && exists i | 0 <= i < |items| ::
      q[0] == IndexSegment(i) && BreaksConverting(e, s.element.value, items[i], mode, q[1..], m, w)
  }

  ghost predicate ReportedConverting(e: Env, s: Schema, v: Value, mode: Mode, path: seq<string>, x: FieldError) {
    exists q, m, w :: BreaksConverting(e, s, v, mode, q, m, w) && x == FieldError(PathText(path + q), m, w)
  }

  lemma SameAsReported(e: Env, s: Schema, v: Value, mode: Mode, path: seq<string>, x: FieldError)
    requires !Rebuilt(s, v)
    ensures ReportedConverting(e, s, v, mode, path, x) <==> Reported(e, s, v, mode, path, x)
  {
    hide Breaks, PathText;
    forall q, m, w
      ensures BreaksConverting(e, s, v, mode, q, m, w) <==> Breaks(e, s, v, mode, q, m, w)
    {
    }
  }

  /** The errors of ValidateAndTransform are exactly those about constraints that are broken on the way. */
  lemma {:induction false} ConvertReportsWhatBreaks(e: Env, s: Schema, v: Value, mode: Mode, path: seq<string>, x: FieldError)
    ensures x in Convert(e, s, v, mode, path).out.errors <==> ReportedConverting(e, s, v, mode, path, x)
    decreases s, 4
  {
    hide Convert, Check, Reported, ReportedConverting;
    if !Rebuilt(s, v) {
      SameAsReported(e, s, v, mode, path, x);
      ReportsWhatBreaks(e, s, v, mode, path, x);
      if s.TransformSchema? {
        TransformReport(e, s, v, mode, path);
      } else {
        Untouched(e, s, v, mode, path);
      }
    } else if s.ObjectSchema? {
      ObjectConvertReports(e, s, v, mode, path, x);
    } else {
      ArrayConvertReports(e, s, v, mode, path, x);
    }
  }

  // ---- the report of objects ----

  ghost predicate SomeFieldConverting(e: Env, s: Schema, entries: map<string, Value>, mode: Mode, path: seq<string>, x: FieldError)
    requires s.ObjectSchema?
  {
    exists k | k in s.fields && k in entries :: ReportedConverting(e, s.fields[k], entries[k], mode, path + [k], x)
  }

  lemma {:induction false} FieldsConvertHave(e: Env, s: Schema, names: seq<string>, n: nat, entries: map<string, Value>,
                                             mode: Mode, path: seq<string>, x: FieldError)
    requires s.ObjectSchema? && n <= |names| && forall i | 0 <= i < |names| :: names[i] in s.fields
    ensures x in ConvertFields(e, s, names, n, entries, mode, path).errors <==>
      exists i | 0 <= i < n :: x in ConvertField(e, s, names[i], entries, mode, path).errors
  {
    hide ConvertField;
    if n > 0 {
      FieldsConvertHave(e, s, names, n - 1, entries, mode, path, x);
    }
  }

  lemma {:induction false} FieldConvertHas(e: Env, s: Schema, name: string, entries: map<string, Value>, mode: Mode, path: seq<string>, x: FieldError)
    requires s.ObjectSchema? && name in s.fields
    ensures x in ConvertField(e, s, name, entries, mode, path).errors <==>
      || (name in entries && ReportedConverting(e, s.fields[name], entries[name], mode, path + [name], x))
      || DemandedHere(s, name, entries, path, x)
    decreases s, 0
  {
    hide At, Convert, ReportedConverting, IsRequired, Demanded, PathText, Check;
    if name in entries {
      ConvertReportsWhatBreaks(e, s.fields[name], entries[name], mode, path + [name], x);
    } else {
      MissingOneHas(s, name, entries, path, x);
    }
  }

  lemma {:induction false} DeclaredConvertHas(e: Env, s: Schema, entries: map<string, Value>, mode: Mode, path: seq<string>, x: FieldError)
    requires s.ObjectSchema?
    ensures var names := Sorted(s.fields.Keys);
      x in ConvertFields(e, s, names, |names|, entries, mode, path).errors <==>
        SomeFieldConverting(e, s, entries, mode, path, x) || exists k :: DemandedHere(s, k, entries, path, x)
    decreases s, 1
  {
    hide ConvertField, ConvertFields, ReportedConverting, DemandedHere, Elements, Ascending;
    var names := Sorted(s.fields.Keys);
    FieldsConvertHave(e, s, names, |names|, entries, mode, path, x);
    forall k | k in s.fields
      ensures exists i :: 0 <= i < |names| && names[i] == k
      ensures x in ConvertField(e, s, k, entries, mode, path).errors <==>
        || (k in entries && ReportedConverting(e, s.fields[k], entries[k], mode, path + [k], x))
        || DemandedHere(s, k, entries, path, x)
    {
      SortedSome(s.fields.Keys, k);
      FieldConvertHas(e, s, k, entries, mode, path, x);
    }
    DemandedIsDeclared(s, entries, path, x);
  }

  ghost predicate FieldReported(e: Env, s: Schema, entries: map<string, Value>, mode: Mode, path: seq<string>, x: FieldError)
    requires s.ObjectSchema?
  {
    exists q, m, w :: FieldBreaksConverting(e, s, entries, mode, q, m, w) && x == FieldError(PathText(path + q), m, w)
  }

  lemma FieldReportedIs(e: Env, s: Schema, entries: map<string, Value>, mode: Mode, path: seq<string>, x: FieldError)
    requires s.ObjectSchema?
    ensures FieldReported(e, s, entries, mode, path, x) <==> SomeFieldConverting(e, s, entries, mode, path, x)
  {
    hide PathText, BreaksConverting;
    if q, m, w :| FieldBreaksConverting(e, s, entries, mode, q, m, w) && x == FieldError(PathText(path + q), m, w) {
      UnderSegment(path, q[0], q[1..]);
      assert q == [q[0]] + q[1..];
      assert ReportedConverting(e, s.fields[q[0]], entries[q[0]], mode, path + [q[0]], x);
    }
    if SomeFieldConverting(e, s, entries, mode, path, x) {
      var k :| k in s.fields && k in entries && ReportedConverting(e, s.fields[k], entries[k], mode, path + [k], x);
      var q, m, w :| BreaksConverting(e, s.fields[k], entries[k], mode, q, m, w) && x == FieldError(PathText(path + [k] + q), m, w);
      var r := [k] + q;
      UnderSegment(path, k, q);
      assert r[0] == k && r[1..] == q;
      assert FieldBreaksConverting(e, s, entries, mode, r, m, w);
    }
  }

  lemma ObjectConvertPieces(e: Env, s: Schema, v: Value, mode: Mode, path: seq<string>, x: FieldError)
    requires s.ObjectSchema? && s.transformable && v.Map?
    ensures ReportedConverting(e, s, v, mode, path, x) <==>
      || SomeMissing(s, v.entries, path, x)
      || FieldReported(e, s, v.entries, mode, path, x)
      || SomeExtra(s, v.entries, mode, path, x)
      || (x.path == PathText(path) && exists made :: Becomes(e, s, v, mode, made) && RulesBreak(e, s.rules, made, x.message, x.value))
  {
    hide PathText, MissingBreaks, ExtraBreaks, RulesBreak, Becomes, FieldBreaksConverting;
    assert path + [] == path;
    if made :| Becomes(e, s, v, mode, made) && RulesBreak(e, s.rules, made, x.message, x.value) {
      assert BreaksConverting(e, s, v, mode, [], x.message, x.value);
    }
    if q, m, w :| MissingBreaks(s, v.entries, q, m, w) && x == FieldError(PathText(path + q), m, w) {
      assert BreaksConverting(e, s, v, mode, q, m, w);
    }
    if q, m, w :| ExtraBreaks(s, v.entries, mode, q, m, w) && x == FieldError(PathText(path + q), m, w) {
      assert BreaksConverting(e, s, v, mode, q, m, w);
    }
    if q, m, w :| FieldBreaksConverting(e, s, v.entries, mode, q, m, w) && x == FieldError(PathText(path + q), m, w) {
      assert BreaksConverting(e, s, v, mode, q, m, w);
    }
  }

  lemma {:induction false} ObjectConvertReports(e: Env, s: Schema, v: Value, mode: Mode, path: seq<string>, x: FieldError)
    requires s.ObjectSchema? && s.transformable && v.Map?
    ensures x in Convert(e, s, v, mode, path).out.errors <==> ReportedConverting(e, s, v, mode, path, x)
    decreases s, 3
  {
    hide MissingOut, ConvertFields, Extras, At, RuleFaults, MadeEntries, Elements, Ascending, RulesBreak, ReportedConverting, PathText,
      SomeMissing, SomeExtra, SomeFieldConverting, FieldReported, DemandedHere, Becomes;
    var entries, names := v.entries, Sorted(s.fields.Keys);
    var made := Convert(e, s, v, mode, path).value;
    assert Convert(e, s, v, mode, path) == ConvertObject(e, s, entries, mode, path);
    AtHas(path, RuleFaults(e, s.rules, |s.rules|, made), x);
    AllRulesBreak(e, s.rules, made, x.message, x.value);
    RequiredHas(s, entries, path, x);
    SomeMissingIs(s, entries, path, x);
    DeclaredConvertHas(e, s, entries, mode, path, x);
    ExtrasHave(s, entries, mode, path, x);
    FieldReportedIs(e, s, entries, mode, path, x);
    ObjectConvertPieces(e, s, v, mode, path, x);
    forall w
      ensures made == w <==> Becomes(e, s, v, mode, w)
    {
      ConvertsTo(e, s, v, mode, path, w);
    }
  }

  // ---- the report of arrays ----

  ghost predicate SomeItemConverting(e: Env, s: Schema, items: seq<Value>, n: nat, mode: Mode, path: seq<string>, x: FieldError)
    requires s.ArraySchema? && n <= |items|
  {
    s.element.Some? && exists i | 0 <= i < n :: ReportedConverting(e, s.element.value, items[i], mode, path + [IndexSegment(i)], x)
  }

  lemma {:induction false} ItemsConvertHave(e: Env, s: Schema, items: seq<Value>, n: nat, mode: Mode, path: seq<string>, x: FieldError)
    requires s.ArraySchema? && n <= |items|
    ensures x in ConvertItems(e, s, items, n, mode, path).errors <==> SomeItemConverting(e, s, items, n, mode, path, x)
    decreases s, 0, n
  {
    hide Convert, ReportedConverting, IndexSegment;
    if n > 0 {
      ItemsConvertHave(e, s, items, n - 1, mode, path, x);
      if s.element.Some? {
        ConvertReportsWhatBreaks(e, s.element.value, items[n - 1], mode, path + [IndexSegment(n - 1)], x);
      }
    }
  }

  ghost predicate ItemReported(e: Env, s: Schema, items: seq<Value>, mode: Mode, path: seq<string>, x: FieldError)
    requires s.ArraySchema?
  {
    exists q, m, w :: ItemBreaksConverting(e, s, items, mode, q, m, w) && x == FieldError(PathText(path + q), m, w)
  }

  lemma ItemReportedIs(e: Env, s: Schema, items: seq<Value>, mode: Mode, path: seq<string>, x: FieldError)
    requires s.ArraySchema?
    ensures ItemReported(e, s, items, mode, path, x) <==> SomeItemConverting(e, s, items, |items|, mode, path, x)
  {
    hide PathText, BreaksConverting, IndexSegment;
    if q, m, w :| ItemBreaksConverting(e, s, items, mode, q, m, w) && x == FieldError(PathText(path + q), m, w) {
      var i :| 0 <= i < |items| && q[0] == IndexSegment(i) && BreaksConverting(e, s.element.value, items[i], mode, q[1..], m, w);
      UnderSegment(path, q[0], q[1..]);
      assert q == [q[0]] + q[1..];
      assert ReportedConverting(e, s.element.value, items[i], mode, path + [IndexSegment(i)], x);
    }
    if SomeItemConverting(e, s, items, |items|, mode, path, x) {
      var i :| 0 <= i < |items| && ReportedConverting(e, s.element.value, items[i], mode, path + [IndexSegment(i)], x);
      var q, m, w :| BreaksConverting(e, s.element.value, items[i], mode, q, m, w) && x == FieldError(PathText(path + [IndexSegment(i)] + q), m, w);
      var r := [IndexSegment(i)] + q;
      UnderSegment(path, IndexSegment(i), q);
      assert r[0] == IndexSegment(i) && r[1..] == q;
      assert ItemBreaksConverting(e, s, items, mode, r, m, w);
    }
  }

  lemma ArrayConvertPieces(e: Env, s: Schema, v: Value, mode: Mode, path: seq<string>, x: FieldError)
    requires s.ArraySchema? && s.transformable && v.List?
    ensures ReportedConverting(e, s, v, mode, path, x) <==>
      || (x.path == PathText(path) && CountBreaks(e, s, v.items, x.message, x.value))
      || ItemReported(e, s, v.items, mode, path, x)
      || (x.path == PathText(path) && RulesBreak(e, s.rules, v, x.message, x.value))
  {
    hide PathText, CountBreaks, RulesBreak, ItemBreaksConverting;
    assert path + [] == path;
    if CountBreaks(e, s, v.items, x.message, x.value) || RulesBreak(e, s.rules, v, x.message, x.value) {
      assert BreaksConverting(e, s, v, mode, [], x.message, x.value);
    }
    if q, m, w :| ItemBreaksConverting(e, s, v.items, mode, q, m, w) && x == FieldError(PathText(path + q), m, w) {
      assert BreaksConverting(e, s, v, mode, q, m, w);
    }
  }

  lemma {:induction false} ArrayConvertReports(e: Env, s: Schema, v: Value, mode: Mode, path: seq<string>, x: FieldError)
    requires s.ArraySchema? && s.transformable && v.List?
    ensures x in Convert(e, s, v, mode, path).out.errors <==> ReportedConverting(e, s, v, mode, path, x)
    decreases s, 3
  {
    hide At, CountFaults, RuleFaults, ConvertItems, MadeItems, CountBreaks, RulesBreak, ReportedConverting, PathText, SomeItemConverting,
      ItemReported;
    var items := v.items;
    assert v == List(items);
    assert Convert(e, s, v, mode, path) == ConvertArray(e, s, items, mode, path);
    AtHas(path, CountFaults(e, s, items), x);
    AtHas(path, RuleFaults(e, s.rules, |s.rules|, v), x);
    CountFaultsBreak(e, s, items, x.message, x.value);
    AllRulesBreak(e, s.rules, v, x.message, x.value);
    ItemsConvertHave(e, s, items, |items|, mode, path, x);
    ItemReportedIs(e, s, items, mode, path, x);
    ArrayConvertPieces(e, s, v, mode, path, x);
  }
}
