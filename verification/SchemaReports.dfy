/**
 What a validation reports, said as a relation between schemas and values: which constraint is broken,
 where, with which message and which offending value. The errors of a validation are exactly the
 broken constraints, each at its place below the path the validation started from.
 */
module SchemaReports {
  import opened Values
  import opened ErrorPaths
  import opened Keys
  import opened Schemas

  // ---- conversions ----

  /** A string schema reads text; loosely also how a number or a boolean prints. */
  predicate ReadsText(e: Env, v: Value, mode: Mode, t: string) {
    match v
    case Str(s) => t == s
    case Num(_, _) => mode == Loose && t == e.show(v)
    case Bool(_) => mode == Loose && t == e.show(v)
    case _ => false
  }

  predicate ReadsNumber(e: Env, v: Value, mode: Mode, r: real) {
    match v
    case Num(_, x) => r == x
    case Str(s) => mode == Loose && e.number(s) == Some(r)
    case _ => false
  }

  predicate ReadsBool(v: Value, mode: Mode) {
    v.Bool? || (mode == Loose && (v == Str("true") || v == Str("false")))
  }

  // ---- broken constraints at one place ----

  /** A number validator counts anything that is not a number as zero. */
  predicate RuleBreaks(e: Env, rule: Rule, v: Value, text: string) {
    match rule
    case Integer => text == "must be an integer" && v.Num? && v.r != v.r.Floor as real
    case Positive => text == "must be positive" && (v.Num? ==> v.r <= 0.0)
    case Negative => text == "must be negative" && (v.Num? ==> v.r >= 0.0)
    case BadPattern(why) => text == why
    case Format(name) => e.format(name, v) == Some(text)
    case Custom(id) => e.custom(id, v) == Some(text)
  }

  predicate RulesBreak(e: Env, rules: seq<Rule>, v: Value, m: Message, w: Value) {
    m.Rejected? && w == v && exists i | 0 <= i < |rules| :: RuleBreaks(e, rules[i], v, m.text)
  }

  predicate TextBreaks(e: Env, s: Schema, t: string, m: Message, w: Value)
    requires s.StringSchema?
  {
    w == Str(t) &&
    match m
    case TooShort(n) => s.minLength == Some(n) && |t| < n
    case TooLong(n) => s.maxLength == Some(n) && n < |t|
    case Mismatch(format, pattern) => s.format == format && s.pattern == Some(pattern) && !e.matches(pattern, t)
    case NotInEnum(allowed) => s.enum == allowed != [] && t !in allowed
    case _ => RulesBreak(e, s.rules, Str(t), m, w)
  }

  predicate AmountBreaks(e: Env, s: Schema, r: real, m: Message, w: Value)
    requires s.NumberSchema?
  {
    w == Num(Float64, r) &&
    match m
    case TooSmall(low) => s.min == Some(low) && r < low
    case TooLarge(high) => s.max == Some(high) && high < r
    case NotMultiple(of) => s.multipleOf == Some(of) && of != 0.0 && r / of != (r / of).Floor as real
    case _ => RulesBreak(e, s.rules, w, m, w)
  }

  predicate CountBreaks(e: Env, s: Schema, items: seq<Value>, m: Message, w: Value)
    requires s.ArraySchema?
  {
    w == List(items) &&
    match m
    case TooFewItems(n) => s.minItems == Some(n) && |items| < n
    case TooManyItems(n) => s.maxItems == Some(n) && n < |items|
    case DuplicateItems => s.uniqueItems && exists i, j | 0 <= i < j < |items| :: e.show(items[i]) == e.show(items[j])
    case _ => false
  }

  predicate NullBreaks(base: Base, m: Message, w: Value) {
    w == Null && m == (if base.required then FieldRequired else CannotBeNull) && (base.required || !base.nullable)
  }

  /** Whether a missing field is missed: a Transform is required when what it wraps is. */
  predicate Demanded(s: Schema) {
    match s case TransformSchema(base, inner, _) => base.required || Demanded(inner) case _ => s.base.required
  }

  predicate MissingBreaks(s: Schema, entries: map<string, Value>, q: seq<string>, m: Message, w: Value)
    requires s.ObjectSchema?
  {
    && |q| == 1 && m == FieldRequired && w == Null && q[0] !in entries
    && (q[0] in s.requiredFields || (q[0] in s.fields && Demanded(s.fields[q[0]])))
  }

  predicate ExtraBreaks(s: Schema, entries: map<string, Value>, mode: Mode, q: seq<string>, m: Message, w: Value)
    requires s.ObjectSchema?
  {
    && (s.additional == Some(false) || (s.additional == None && mode == Strict))
    && |q| == 1 && m == UnexpectedField && q[0] in entries && w == entries[q[0]] && q[0] !in s.fields
  }

  // ---- transformers ----

  /** What a pipeline makes of a value, if no transformer refuses. */
  function After(e: Env, transformers: seq<nat>, v: Value): Option<Value> {
    if transformers == [] then Some(v)
    else
      match e.transform(transformers[0], v)
      case Refused(_) => None
      case Made(w) => After(e, transformers[1..], w)
  }

  /** The first transformer that refuses, with what it was given. */
  predicate RefusedAt(e: Env, transformers: seq<nat>, v: Value, m: Message, w: Value) {
    && m.TransformFailed? && 1 <= m.step <= |transformers|
    && After(e, transformers[..m.step - 1], v) == Some(w)
    && e.transform(transformers[m.step - 1], w) == Refused(m.text)
  }

  // ---- broken constraints anywhere ----

  ghost predicate TextSchemaBreaks(e: Env, s: Schema, v: Value, mode: Mode, m: Message, w: Value)
    requires s.StringSchema?
  {
    || (exists t :: ReadsText(e, v, mode, t) && TextBreaks(e, s, t, m, w))
    || ((forall t :: !ReadsText(e, v, mode, t)) && w == v && m == if mode == Loose then CannotConvert else Expected(KindString))
  }

  ghost predicate NumberSchemaBreaks(e: Env, s: Schema, v: Value, mode: Mode, m: Message, w: Value)
    requires s.NumberSchema?
  {
    || (exists r :: ReadsNumber(e, v, mode, r) && AmountBreaks(e, s, r, m, w))
    || ((forall r :: !ReadsNumber(e, v, mode, r)) && w == v && m == Expected(KindNumber))
  }

  predicate BoolSchemaBreaks(e: Env, s: Schema, v: Value, mode: Mode, m: Message, w: Value)
    requires s.BoolSchema?
  {
    if ReadsBool(v, mode) then RulesBreak(e, s.rules, v, m, w) else w == v && m == Expected(KindBool)
  }

  predicate CustomSchemaBreaks(e: Env, s: Schema, v: Value, m: Message, w: Value)
    requires s.CustomSchema?
  {
    w == v && m.Rejected? && s.validator.Some? && e.custom(s.validator.value, v) == Some(m.text)
  }

  /** `v` breaks a constraint of `s` at `q` below it; `m` is the message about it and `w` the offending value. */
  ghost predicate Breaks(e: Env, s: Schema, v: Value, mode: Mode, q: seq<string>, m: Message, w: Value)
    decreases s, 2
  {
    if s.TransformSchema? then
      || (q == [] && RefusedAt(e, s.transformers, v, m, w))
      || (After(e, s.transformers, v).Some? && Breaks(e, s.inner, After(e, s.transformers, v).value, mode, q, m, w))
    else if v.Null? then q == [] && NullBreaks(s.base, m, w)
    else
      match s
      case StringSchema(_, _, _, _, _, _, _) => q == [] && TextSchemaBreaks(e, s, v, mode, m, w)
      case NumberSchema(_, _, _, _, _) => q == [] && NumberSchemaBreaks(e, s, v, mode, m, w)
      case BoolSchema(_, _) => q == [] && BoolSchemaBreaks(e, s, v, mode, m, w)
      case CustomSchema(_, _) => q == [] && CustomSchemaBreaks(e, s, v, m, w)
      case ObjectSchema(_, _, _, _, _, _) =>
        if v.Map? then ObjectBreaks(e, s, v.entries, mode, q, m, w) else q == [] && w == v && m == Expected(KindObject)
      case ArraySchema(_, _, _, _, _, _, _) =>
        if v.List? then ArrayBreaks(e, s, v.items, mode, q, m, w) else q == [] && w == v && m == Expected(KindArray)
      case AndSchema(_, _) => SomePartBreaks(e, s, v, mode, q, m, w)
      case OrSchema(_, _) => q == [] && w == v && m == NoneOfThem && s.parts != [] && NoPartHolds(e, s, v, mode)
      case NotSchema(_, inner) => q == [] && w == v && m == MustNotMatch && !Broken(e, inner, v, mode)
  }

  ghost predicate ObjectBreaks(e: Env, s: Schema, entries: map<string, Value>, mode: Mode, q: seq<string>, m: Message, w: Value)
    requires s.ObjectSchema?
    decreases s, 1
  {
    || MissingBreaks(s, entries, q, m, w)
    || (q != [] && q[0] in s.fields && q[0] in entries && Breaks(e, s.fields[q[0]], entries[q[0]], mode, q[1..], m, w))
    || ExtraBreaks(s, entries, mode, q, m, w)
    || (q == [] && RulesBreak(e, s.rules, Map(entries), m, w))
  }

  ghost predicate ArrayBreaks(e: Env, s: Schema, items: seq<Value>, mode: Mode, q: seq<string>, m: Message, w: Value)
    requires s.ArraySchema?
    decreases s, 1
  {
    || (q == [] && CountBreaks(e, s, items, m, w))
    || (s.element.Some? && q != [] && exists i | 0 <= i < |items| ::
          q[0] == IndexSegment(i) && Breaks(e, s.element.value, items[i], mode, q[1..], m, w))
    || (q == [] && RulesBreak(e, s.rules, List(items), m, w))
  }

  ghost predicate SomePartBreaks(e: Env, s: Schema, v: Value, mode: Mode, q: seq<string>, m: Message, w: Value)
    requires s.AndSchema?
    decreases s, 1
  {
    exists i | 0 <= i < |s.parts| :: Breaks(e, s.parts[i], v, mode, q, m, w)
  }

  ghost predicate NoPartHolds(e: Env, s: Schema, v: Value, mode: Mode)
    requires s.OrSchema?
    decreases s, 1
  {
    forall i | 0 <= i < |s.parts| :: Broken(e, s.parts[i], v, mode)
  }

  ghost predicate Broken(e: Env, s: Schema, v: Value, mode: Mode)
    decreases s, 3
  {
    exists q, m, w :: Breaks(e, s, v, mode, q, m, w)
  }

  /** The error about some broken constraint, for a validation that started at `path`. */
  ghost predicate Reported(e: Env, s: Schema, v: Value, mode: Mode, path: seq<string>, x: FieldError) {
    exists q, m, w :: Breaks(e, s, v, mode, q, m, w) && x == FieldError(PathText(path + q), m, w)
  }

  // ---- errors at one place ----

  lemma AtHas(path: seq<string>, faults: seq<Fault>, x: FieldError)
    ensures x in At(path, faults).errors <==> x.path == PathText(path) && Fault(x.message, x.value) in faults
  {
    var errors := At(path, faults).errors;
    if x in errors {
      var i :| 0 <= i < |errors| && errors[i] == x;
      assert faults[i] == Fault(x.message, x.value);
    }
    if x.path == PathText(path) && Fault(x.message, x.value) in faults {
      var i :| 0 <= i < |faults| && faults[i] == Fault(x.message, x.value);
      assert errors[i] == x;
    }
  }

  /** A schema all of whose constraints are about the value itself. */
  lemma HereReported(e: Env, s: Schema, v: Value, mode: Mode, path: seq<string>, faults: seq<Fault>, x: FieldError)
    requires forall q, m, w :: Breaks(e, s, v, mode, q, m, w) <==> q == [] && Fault(m, w) in faults
    ensures x in At(path, faults).errors <==> Reported(e, s, v, mode, path, x)
  {
    hide Breaks, At;
    AtHas(path, faults, x);
    assert path + [] == path;
    if Fault(x.message, x.value) in faults {
      assert Breaks(e, s, v, mode, [], x.message, x.value);
    }
  }

  lemma {:induction false} RuleFaultsBreak(e: Env, rules: seq<Rule>, n: nat, v: Value, m: Message, w: Value)
    requires n <= |rules|
    ensures Fault(m, w) in RuleFaults(e, rules, n, v) <==> RulesBreak(e, rules[..n], v, m, w)
  {
    if n > 0 {
      hide RuleBreaks, RuleFailure;
      RuleFaultsBreak(e, rules, n - 1, v, m, w);
      RuleFailureBreaks(e, rules[n - 1], v, if m.Rejected? then m.text else "");
      var now, before := rules[..n], rules[..n - 1];
      assert now == before + [rules[n - 1]];
      if RulesBreak(e, before, v, m, w) {
        var i :| 0 <= i < |before| && RuleBreaks(e, before[i], v, m.text);
        assert now[i] == before[i];
      }
      if m.Rejected? && w == v && RuleBreaks(e, rules[n - 1], v, m.text) {
        assert now[n - 1] == rules[n - 1];
      }
      if RulesBreak(e, now, v, m, w) {
        var i :| 0 <= i < |now| && RuleBreaks(e, now[i], v, m.text);
        assert i < n - 1 ==> before[i] == now[i];
      }
    }
  }

  lemma RuleFailureBreaks(e: Env, rule: Rule, v: Value, text: string)
    ensures RuleFailure(e, rule, v) == Some(text) <==> RuleBreaks(e, rule, v, text)
  {
  }

  lemma AllRulesBreak(e: Env, rules: seq<Rule>, v: Value, m: Message, w: Value)
    ensures Fault(m, w) in RuleFaults(e, rules, |rules|, v) <==> RulesBreak(e, rules, v, m, w)
  {
    hide RuleFaults, RulesBreak;
    RuleFaultsBreak(e, rules, |rules|, v, m, w);
    assert rules[..|rules|] == rules;
  }

  lemma TextFaultsBreak(e: Env, s: Schema, t: string, m: Message, w: Value)
    requires s.StringSchema?
    ensures Fault(m, w) in TextFaults(e, s, t) <==> TextBreaks(e, s, t, m, w)
  {
    hide RuleFaults, RulesBreak, LengthFaults;
    AllRulesBreak(e, s.rules, Str(t), m, w);
    RulesAreRejections(e, s.rules, Str(t), m, w);
    LengthFaultsBreak(s, t, m, w);
  }

  lemma LengthFaultsBreak(s: Schema, t: string, m: Message, w: Value)
    requires s.StringSchema?
    ensures Fault(m, w) in LengthFaults(s, t) <==>
      w == Str(t) && match m
        case TooShort(n) => s.minLength == Some(n) && |t| < n
        case TooLong(n) => s.maxLength == Some(n) && n < |t|
        case _ => false
  {
  }

  lemma RulesAreRejections(e: Env, rules: seq<Rule>, v: Value, m: Message, w: Value)
    ensures RulesBreak(e, rules, v, m, w) ==> m.Rejected? && w == v
  {
  }

  lemma AmountFaultsBreak(e: Env, s: Schema, r: real, m: Message, w: Value)
    requires s.NumberSchema?
    ensures Fault(m, w) in AmountFaults(e, s, r) <==> AmountBreaks(e, s, r, m, w)
  {
    hide RuleFaults, RulesBreak;
    AllRulesBreak(e, s.rules, AsNumber(r), m, w);
    RulesAreRejections(e, s.rules, AsNumber(r), m, w);
  }

  lemma CountFaultsBreak(e: Env, s: Schema, items: seq<Value>, m: Message, w: Value)
    requires s.ArraySchema?
    ensures Fault(m, w) in CountFaults(e, s, items) <==> CountBreaks(e, s, items, m, w)
  {
    hide Repeats;
    RepeatsIs(e, items);
  }

  lemma RepeatsIs(e: Env, items: seq<Value>)
    ensures Repeats(e, items) <==> exists i, j | 0 <= i < j < |items| :: e.show(items[i]) == e.show(items[j])
  {
    if i, j :| 0 <= i < j < |items| && e.show(items[i]) == e.show(items[j]) {
      assert RepeatsAt(e, items, j);
    }
    if Repeats(e, items) {
      var j :| 0 <= j < |items| && RepeatsAt(e, items, j);
    }
  }

  lemma DemandedIs(s: Schema)
    ensures IsRequired(s) == Demanded(s)
  {
  }

  // ---- leaves ----

  function LeafFaults(e: Env, s: Schema, v: Value, mode: Mode): seq<Fault>
    requires s.StringSchema? || s.NumberSchema? || s.BoolSchema? || s.CustomSchema?
  {
    match s
    case StringSchema(_, _, _, _, _, _, _) => StringFaults(e, s, v, mode)
    case NumberSchema(_, _, _, _, _) => NumberFaults(e, s, v, mode)
    case BoolSchema(_, _) => BoolFaults(e, s, v, mode)
    case CustomSchema(_, _) => CustomFaults(e, s, v)
  }

  lemma TextRead(e: Env, v: Value, mode: Mode)
    ensures forall t :: ReadsText(e, v, mode, t) <==> TextOf(e, v, mode) == Some(t)
  {
  }

  lemma NumberRead(e: Env, v: Value, mode: Mode)
    ensures forall r :: ReadsNumber(e, v, mode, r) <==> NumberOf(e, v, mode) == Some(r)
  {
  }

  lemma TextSchemaFaults(e: Env, s: Schema, v: Value, mode: Mode, m: Message, w: Value)
    requires s.StringSchema?
    ensures Fault(m, w) in StringFaults(e, s, v, mode) <==> TextSchemaBreaks(e, s, v, mode, m, w)
  {
    hide TextBreaks, TextFaults, TextOf, ReadsText;
    TextRead(e, v, mode);
    if t :| TextOf(e, v, mode) == Some(t) {
      TextFaultsBreak(e, s, t, m, w);
      assert ReadsText(e, v, mode, t);
    }
  }

  lemma NumberSchemaFaults(e: Env, s: Schema, v: Value, mode: Mode, m: Message, w: Value)
    requires s.NumberSchema?
    ensures Fault(m, w) in NumberFaults(e, s, v, mode) <==> NumberSchemaBreaks(e, s, v, mode, m, w)
  {
    hide AmountBreaks, AmountFaults, NumberOf, ReadsNumber;
    NumberRead(e, v, mode);
    if r :| NumberOf(e, v, mode) == Some(r) {
      AmountFaultsBreak(e, s, r, m, w);
      assert ReadsNumber(e, v, mode, r);
    }
  }

  lemma LeafBreaks(e: Env, s: Schema, v: Value, mode: Mode, q: seq<string>, m: Message, w: Value)
    requires (s.StringSchema? || s.NumberSchema? || s.BoolSchema? || s.CustomSchema?) && !v.Null?
    ensures Breaks(e, s, v, mode, q, m, w) <==> q == [] && Fault(m, w) in LeafFaults(e, s, v, mode)
  {
    hide TextSchemaBreaks, NumberSchemaBreaks, StringFaults, NumberFaults, RulesBreak, RuleFaults;
    if s.StringSchema? {
      TextSchemaFaults(e, s, v, mode, m, w);
    } else if s.NumberSchema? {
      NumberSchemaFaults(e, s, v, mode, m, w);
    } else if s.BoolSchema? {
      AllRulesBreak(e, s.rules, v, m, w);
    }
  }

  // ---- the parts of objects and arrays ----

  /** Reported about a part, hence about the whole at that segment. */
  lemma UnderSegment(path: seq<string>, segment: string, q: seq<string>)
    ensures path + ([segment] + q) == (path + [segment]) + q
  {
  }

  lemma {:induction false} MissingHas(names: seq<string>, n: nat, entries: map<string, Value>, path: seq<string>, x: FieldError)
    requires n <= |names|
    ensures x in MissingOut(names, n, entries, path).errors <==>
      exists i | 0 <= i < n :: names[i] !in entries && x == FieldError(PathText(path + [names[i]]), FieldRequired, Null)
  {
    hide At, PathText;
    if n > 0 {
      MissingHas(names, n - 1, entries, path, x);
      AtHas(path + [names[n - 1]], When(names[n - 1] !in entries, FieldRequired, Null), x);
    }
  }

  lemma {:induction false} ExtraHas(names: seq<string>, n: nat, entries: map<string, Value>, declared: set<string>,
                                    path: seq<string>, x: FieldError)
    requires n <= |names| && forall i | 0 <= i < |names| :: names[i] in entries
    ensures x in ExtraOut(names, n, entries, declared, path).errors <==>
      exists i | 0 <= i < n ::
        names[i] !in declared && x == FieldError(PathText(path + [names[i]]), UnexpectedField, entries[names[i]])
  {
    hide At, PathText;
    if n > 0 {
      ExtraHas(names, n - 1, entries, declared, path, x);
      AtHas(path + [names[n - 1]], When(names[n - 1] !in declared, UnexpectedField, entries[names[n - 1]]), x);
    }
  }

  /** Names that satisfy a property, by name and by number. */
  lemma SortedSome(keys: set<string>, k: string)
    ensures k in keys <==> exists i | 0 <= i < |Sorted(keys)| :: Sorted(keys)[i] == k
  {
    hide Elements, Ascending;
    SortedHas(keys, k);
  }

  ghost predicate SomeMissing(s: Schema, entries: map<string, Value>, path: seq<string>, x: FieldError)
    requires s.ObjectSchema?
  {
    exists q, m, w :: MissingBreaks(s, entries, q, m, w) && x == FieldError(PathText(path + q), m, w)
  }

  ghost predicate SomeExtra(s: Schema, entries: map<string, Value>, mode: Mode, path: seq<string>, x: FieldError)
    requires s.ObjectSchema?
  {
    exists q, m, w :: ExtraBreaks(s, entries, mode, q, m, w) && x == FieldError(PathText(path + q), m, w)
  }

  /** A constraint of a declared field that is there. */
  ghost predicate SomeField(e: Env, s: Schema, entries: map<string, Value>, mode: Mode, path: seq<string>, x: FieldError)
    requires s.ObjectSchema?
  {
    exists k | k in s.fields && k in entries :: Reported(e, s.fields[k], entries[k], mode, path + [k], x)
  }

  ghost predicate SomeItem(e: Env, element: Schema, items: seq<Value>, mode: Mode, path: seq<string>, x: FieldError) {
    exists i | 0 <= i < |items| :: Reported(e, element, items[i], mode, path + [IndexSegment(i)], x)
  }

  lemma ExtrasHave(s: Schema, entries: map<string, Value>, mode: Mode, path: seq<string>, x: FieldError)
    requires s.ObjectSchema?
    ensures x in Extras(s, entries, mode, path).errors <==> SomeExtra(s, entries, mode, path, x)
  {
    hide ExtraOut, PathText, Elements, Ascending;
    var keys := Sorted(entries.Keys);
    ExtraHas(keys, |keys|, entries, s.fields.Keys, path, x);
    if q, m, w :| ExtraBreaks(s, entries, mode, q, m, w) && x == FieldError(PathText(path + q), m, w) {
      SortedSome(entries.Keys, q[0]);
      assert q == [q[0]];
    }
    if RejectsExtra(s, mode) && x in ExtraOut(keys, |keys|, entries, s.fields.Keys, path).errors {
      var i :| 0 <= i < |keys| && keys[i] !in s.fields && x == FieldError(PathText(path + [keys[i]]), UnexpectedField, entries[keys[i]]);
      assert ExtraBreaks(s, entries, mode, [keys[i]], UnexpectedField, entries[keys[i]]);
    }
  }

  lemma {:induction false} FieldsHave(e: Env, s: Schema, names: seq<string>, n: nat, entries: map<string, Value>,
                                      mode: Mode, path: seq<string>, x: FieldError)
    requires s.ObjectSchema? && n <= |names| && forall i | 0 <= i < |names| :: names[i] in s.fields
    ensures x in FieldsOut(e, s, names, n, entries, mode, path).errors <==>
      exists i | 0 <= i < n :: x in FieldOut(e, s, names[i], entries, mode, path).errors
  {
    hide FieldOut;
    if n > 0 {
      FieldsHave(e, s, names, n - 1, entries, mode, path, x);
    }
  }

  /** A declared field that is missing, and not listed as required by the object, can be demanded by its own schema. */
  ghost predicate DemandedHere(s: Schema, k: string, entries: map<string, Value>, path: seq<string>, x: FieldError)
    requires s.ObjectSchema?
  {
    && k in s.fields && k !in entries && k !in s.requiredFields && Demanded(s.fields[k])
    && x == FieldError(PathText(path + [k]), FieldRequired, Null)
  }

  lemma MissingOneHas(s: Schema, name: string, entries: map<string, Value>, path: seq<string>, x: FieldError)
    requires s.ObjectSchema? && name in s.fields && name !in entries
    ensures x in At(path + [name], When(name !in s.requiredFields && IsRequired(s.fields[name]), FieldRequired, Null)).errors <==>
      DemandedHere(s, name, entries, path, x)
  {
    hide At, PathText, IsRequired, Demanded;
    DemandedIs(s.fields[name]);
    AtHas(path + [name], When(name !in s.requiredFields && IsRequired(s.fields[name]), FieldRequired, Null), x);
  }

  lemma SomeMissingIs(s: Schema, entries: map<string, Value>, path: seq<string>, x: FieldError)
    requires s.ObjectSchema?
    ensures SomeMissing(s, entries, path, x) <==>
      || (exists k :: k in s.requiredFields && k !in entries && x == FieldError(PathText(path + [k]), FieldRequired, Null))
      || (exists k :: DemandedHere(s, k, entries, path, x))
  {
    hide PathText, Demanded;
    if q, m, w :| MissingBreaks(s, entries, q, m, w) && x == FieldError(PathText(path + q), m, w) {
      assert q == [q[0]];
      assert q[0] in s.requiredFields || DemandedHere(s, q[0], entries, path, x);
    }
    if k :| k in s.requiredFields && k !in entries && x == FieldError(PathText(path + [k]), FieldRequired, Null) {
      assert MissingBreaks(s, entries, [k], FieldRequired, Null);
    }
    if k :| DemandedHere(s, k, entries, path, x) {
      assert MissingBreaks(s, entries, [k], FieldRequired, Null);
    }
  }

  lemma RequiredHas(s: Schema, entries: map<string, Value>, path: seq<string>, x: FieldError)
    requires s.ObjectSchema?
    ensures var names := Sorted(s.requiredFields);
      x in MissingOut(names, |names|, entries, path).errors <==>
        exists k :: k in s.requiredFields && k !in entries && x == FieldError(PathText(path + [k]), FieldRequired, Null)
  {
    hide MissingOut, PathText, Elements, Ascending;
    var names := Sorted(s.requiredFields);
    MissingHas(names, |names|, entries, path, x);
    if k :| k in s.requiredFields && k !in entries && x == FieldError(PathText(path + [k]), FieldRequired, Null) {
      SortedSome(s.requiredFields, k);
    }
  }

  // ---- the main result ----

  /** The errors of a validation are exactly those about broken constraints. */
  lemma {:induction false} ReportsWhatBreaks(e: Env, s: Schema, v: Value, mode: Mode, path: seq<string>, x: FieldError)
    ensures x in Check(e, s, v, mode, path).errors <==> Reported(e, s, v, mode, path, x)
    decreases s, 9
  {
    hide At, LeafFaults, CheckObject, CheckArray, AllParts, SomePart, Breaks, Piped, NullFaults;
    if s.TransformSchema? {
      TransformReports(e, s, v, mode, path, x);
    } else if v.Null? {
      NullReports(e, s, mode, path, x);
    } else if s.ObjectSchema? {
      ObjectReports(e, s, v, mode, path, x);
    } else if s.ArraySchema? {
      ArrayReports(e, s, v, mode, path, x);
    } else if s.AndSchema? {
      AndReports(e, s, v, mode, path, x);
    } else if s.OrSchema? {
      OrReports(e, s, v, mode, path, x);
    } else if s.NotSchema? {
      NotReports(e, s, v, mode, path, x);
    } else {
      LeafReports(e, s, v, mode, path, x);
    }
  }

  lemma NullReports(e: Env, s: Schema, mode: Mode, path: seq<string>, x: FieldError)
    requires !s.TransformSchema?
    ensures x in Check(e, s, Null, mode, path).errors <==> Reported(e, s, Null, mode, path, x)
  {
    hide At, Reported;
    HereReported(e, s, Null, mode, path, NullFaults(s.base), x);
  }

  lemma LeafReports(e: Env, s: Schema, v: Value, mode: Mode, path: seq<string>, x: FieldError)
    requires (s.StringSchema? || s.NumberSchema? || s.BoolSchema? || s.CustomSchema?) && !v.Null?
    ensures x in Check(e, s, v, mode, path).errors <==> Reported(e, s, v, mode, path, x)
  {
    hide At, Breaks, Reported, StringFaults, NumberFaults, BoolFaults, CustomFaults;
    forall q, m, w
      ensures Breaks(e, s, v, mode, q, m, w) <==> q == [] && Fault(m, w) in LeafFaults(e, s, v, mode)
    {
      LeafBreaks(e, s, v, mode, q, m, w);
    }
    HereReported(e, s, v, mode, path, LeafFaults(e, s, v, mode), x);
  }

  // ---- transformers ----

  lemma {:induction false} AfterStep(e: Env, transformers: seq<nat>, n: nat, v: Value)
    requires n < |transformers|
    ensures After(e, transformers[..n + 1], v) ==
      match After(e, transformers[..n], v)
      case None => None
      case Some(w) => (match e.transform(transformers[n], w) case Refused(_) => None case Made(u) => Some(u))
    decreases n
  {
    var now := transformers[..n + 1];
    assert now[0] == transformers[0] && now[1..] == transformers[1..][..n];
    if n > 0 {
      assert transformers[..n][0] == transformers[0] && transformers[..n][1..] == transformers[1..][..n - 1];
      if e.transform(transformers[0], v).Made? {
        AfterStep(e, transformers[1..], n - 1, e.transform(transformers[0], v).value);
      }
    } else {
      assert After(e, [], v) == Some(v);
    }
  }

  lemma {:induction false} PipedIsAfter(e: Env, transformers: seq<nat>, n: nat, v: Value, path: seq<string>, x: FieldError)
    requires n <= |transformers|
    ensures var made := Piped(e, transformers, n, v, path);
      && made.result == After(e, transformers[..n], v)
      && (x in made.out.errors <==> x.path == PathText(path) && RefusedAt(e, transformers[..n], v, x.message, x.value))
  {
    hide At, PathText;
    if n > 0 {
      PipedIsAfter(e, transformers, n - 1, v, path, x);
      AfterStep(e, transformers, n - 1, v);
      RefusedStep(e, transformers, n, v, x.message, x.value);
      var before := Piped(e, transformers, n - 1, v, path);
      if before.result.Some? {
        var input := before.result.value;
        if e.transform(transformers[n - 1], input).Refused? {
          AtHas(path, [Fault(TransformFailed(n, e.transform(transformers[n - 1], input).why), input)], x);
        }
      }
    }
  }

  lemma AllAfter(e: Env, transformers: seq<nat>, v: Value, path: seq<string>)
    ensures Piped(e, transformers, |transformers|, v, path).result == After(e, transformers, v)
  {
    hide Piped, After;
    PipedIsAfter(e, transformers, |transformers|, v, path, FieldError("", NoneOfThem, v));
    assert transformers[..|transformers|] == transformers;
  }

  /** A pipeline refuses at its last step, or before. */
  lemma RefusedStep(e: Env, transformers: seq<nat>, n: nat, v: Value, m: Message, w: Value)
    requires 0 < n <= |transformers|
    ensures RefusedAt(e, transformers[..n], v, m, w) <==>
      || RefusedAt(e, transformers[..n - 1], v, m, w)
      || (m.TransformFailed? && m.step == n && After(e, transformers[..n - 1], v) == Some(w)
          && e.transform(transformers[n - 1], w) == Refused(m.text))
  {
    hide After;
    if m.TransformFailed? && 1 <= m.step <= n {
      assert transformers[..n][..m.step - 1] == transformers[..m.step - 1];
      assert m.step < n ==> transformers[..n - 1][..m.step - 1] == transformers[..m.step - 1];
    }
  }

  lemma TransformParts(e: Env, s: Schema, v: Value, mode: Mode, path: seq<string>, x: FieldError)
    requires s.TransformSchema?
    ensures Reported(e, s, v, mode, path, x) <==>
      || (x.path == PathText(path) && RefusedAt(e, s.transformers, v, x.message, x.value))
      || (After(e, s.transformers, v).Some? && Reported(e, s.inner, After(e, s.transformers, v).value, mode, path, x))
  {
    hide After, RefusedAt, PathText;
    var ts := s.transformers;
    assert path + [] == path;
    if RefusedAt(e, ts, v, x.message, x.value) {
      assert Breaks(e, s, v, mode, [], x.message, x.value);
    }
    if After(e, ts, v).Some? && Reported(e, s.inner, After(e, ts, v).value, mode, path, x) {
      var q, m, w :| Breaks(e, s.inner, After(e, ts, v).value, mode, q, m, w) && x == FieldError(PathText(path + q), m, w);
      assert Breaks(e, s, v, mode, q, m, w);
    }
  }

  lemma {:induction false} TransformReports(e: Env, s: Schema, v: Value, mode: Mode, path: seq<string>, x: FieldError)
    requires s.TransformSchema?
    ensures x in Check(e, s, v, mode, path).errors <==> Reported(e, s, v, mode, path, x)
    decreases s, 8
  {
    hide Piped, Breaks, Reported, After, RefusedAt, PathText;
    var ts := s.transformers;
    PipedIsAfter(e, ts, |ts|, v, path, x);
    assert ts[..|ts|] == ts;
    TransformParts(e, s, v, mode, path, x);
    var made := Piped(e, ts, |ts|, v, path);
    if made.result.Some? {
      ReportsWhatBreaks(e, s.inner, made.result.value, mode, path, x);
    }
  }

  // ---- composites ----

  lemma {:induction false} BrokenIsReported(e: Env, s: Schema, v: Value, mode: Mode, path: seq<string>)
    ensures Check(e, s, v, mode, path).errors == [] <==> !Broken(e, s, v, mode)
    decreases s, 10
  {
    hide Check, Breaks;
    var errors := Check(e, s, v, mode, path).errors;
    if errors != [] {
      ReportsWhatBreaks(e, s, v, mode, path, errors[0]);
      assert errors[0] in errors;
    }
    if q, m, w :| Breaks(e, s, v, mode, q, m, w) {
      ReportsWhatBreaks(e, s, v, mode, path, FieldError(PathText(path + q), m, w));
    }
  }

  lemma {:induction false} NotReports(e: Env, s: Schema, v: Value, mode: Mode, path: seq<string>, x: FieldError)
    requires s.NotSchema? && !v.Null?
    ensures x in Check(e, s, v, mode, path).errors <==> Reported(e, s, v, mode, path, x)
    decreases s, 8
  {
    hide At, Broken, Reported;
    BrokenIsReported(e, s.inner, v, mode, []);
    HereReported(e, s, v, mode, path, When(Check(e, s.inner, v, mode, []).errors == [], MustNotMatch, v), x);
  }

  lemma {:induction false} PartsBroken(e: Env, s: Schema, n: nat, v: Value, mode: Mode)
    requires s.OrSchema? && n <= |s.parts|
    ensures SomePart(e, s, n, v, mode) <==> exists i | 0 <= i < n :: !Broken(e, s.parts[i], v, mode)
    decreases s, 0, n
  {
    hide Check, Broken;
    if n > 0 {
      PartsBroken(e, s, n - 1, v, mode);
      BrokenIsReported(e, s.parts[n - 1], v, mode, []);
    }
  }

  lemma {:induction false} OrReports(e: Env, s: Schema, v: Value, mode: Mode, path: seq<string>, x: FieldError)
    requires s.OrSchema? && !v.Null?
    ensures x in Check(e, s, v, mode, path).errors <==> Reported(e, s, v, mode, path, x)
    decreases s, 8
  {
    hide At, Broken, Reported, SomePart;
    PartsBroken(e, s, |s.parts|, v, mode);
    assert SomePart(e, s, |s.parts|, v, mode) <==> !NoPartHolds(e, s, v, mode);
    HereReported(e, s, v, mode, path, When(s.parts != [] && !SomePart(e, s, |s.parts|, v, mode), NoneOfThem, v), x);
  }

  lemma {:induction false} AllPartsHave(e: Env, s: Schema, n: nat, v: Value, mode: Mode, path: seq<string>, x: FieldError)
    requires s.AndSchema? && n <= |s.parts|
    ensures x in AllParts(e, s, n, v, mode, path).errors <==> exists i | 0 <= i < n :: Reported(e, s.parts[i], v, mode, path, x)
    decreases s, 0, n
  {
    hide Check, Reported;
    if n > 0 {
      AllPartsHave(e, s, n - 1, v, mode, path, x);
      ReportsWhatBreaks(e, s.parts[n - 1], v, mode, path, x);
    }
  }

  lemma AndBreaks(e: Env, s: Schema, v: Value, mode: Mode, q: seq<string>, m: Message, w: Value)
    requires s.AndSchema? && !v.Null?
    ensures Breaks(e, s, v, mode, q, m, w) <==> SomePartBreaks(e, s, v, mode, q, m, w)
  {
  }

  lemma AndParts(e: Env, s: Schema, v: Value, mode: Mode, path: seq<string>, x: FieldError)
    requires s.AndSchema? && !v.Null?
    ensures Reported(e, s, v, mode, path, x) <==> exists i | 0 <= i < |s.parts| :: Reported(e, s.parts[i], v, mode, path, x)
  {
    hide PathText, Breaks;
    forall q, m, w
      ensures Breaks(e, s, v, mode, q, m, w) <==> SomePartBreaks(e, s, v, mode, q, m, w)
    {
      AndBreaks(e, s, v, mode, q, m, w);
    }
    if i :| 0 <= i < |s.parts| && Reported(e, s.parts[i], v, mode, path, x) {
      var q, m, w :| Breaks(e, s.parts[i], v, mode, q, m, w) && x == FieldError(PathText(path + q), m, w);
      assert SomePartBreaks(e, s, v, mode, q, m, w);
    }
  }

  lemma {:induction false} AndReports(e: Env, s: Schema, v: Value, mode: Mode, path: seq<string>, x: FieldError)
    requires s.AndSchema? && !v.Null?
    ensures x in Check(e, s, v, mode, path).errors <==> Reported(e, s, v, mode, path, x)
    decreases s, 8
  {
    hide Reported, AllParts;
    AllPartsHave(e, s, |s.parts|, v, mode, path, x);
    AndParts(e, s, v, mode, path, x);
  }

  // ---- arrays ----

  lemma {:induction false} ItemsHave(e: Env, element: Schema, items: seq<Value>, n: nat, mode: Mode, path: seq<string>, x: FieldError)
    requires n <= |items|
    ensures x in ItemsOut(e, element, items, n, mode, path).errors <==>
      exists i | 0 <= i < n :: Reported(e, element, items[i], mode, path + [IndexSegment(i)], x)
    decreases element, 11, n
  {
    hide Check, Reported, IndexSegment;
    if n > 0 {
      ItemsHave(e, element, items, n - 1, mode, path, x);
      ReportsWhatBreaks(e, element, items[n - 1], mode, path + [IndexSegment(n - 1)], x);
    }
  }

  lemma ArrayParts(e: Env, s: Schema, items: seq<Value>, mode: Mode, path: seq<string>, x: FieldError)
    requires s.ArraySchema?
    ensures Reported(e, s, List(items), mode, path, x) <==>
      || (x.path == PathText(path) && CountBreaks(e, s, items, x.message, x.value))
      || (s.element.Some? && SomeItem(e, s.element.value, items, mode, path, x))
      || (x.path == PathText(path) && RulesBreak(e, s.rules, List(items), x.message, x.value))
  {
    hide PathText, CountBreaks, RulesBreak, IndexSegment;
    var v := List(items);
    assert path + [] == path;
    if CountBreaks(e, s, items, x.message, x.value) || RulesBreak(e, s.rules, v, x.message, x.value) {
      assert Breaks(e, s, v, mode, [], x.message, x.value);
    }
    if s.element.Some? && SomeItem(e, s.element.value, items, mode, path, x) {
      var i :| 0 <= i < |items| && Reported(e, s.element.value, items[i], mode, path + [IndexSegment(i)], x);
      var q, m, w :| Breaks(e, s.element.value, items[i], mode, q, m, w) && x == FieldError(PathText(path + [IndexSegment(i)] + q), m, w);
      var r := [IndexSegment(i)] + q;
      UnderSegment(path, IndexSegment(i), q);
      assert r[0] == IndexSegment(i) && r[1..] == q;
      assert Breaks(e, s, v, mode, r, m, w);
    }
    if Reported(e, s, v, mode, path, x) {
      ArrayReported(e, s, items, mode, path, x);
    }
  }

  lemma ArrayReported(e: Env, s: Schema, items: seq<Value>, mode: Mode, path: seq<string>, x: FieldError)
    requires s.ArraySchema? && Reported(e, s, List(items), mode, path, x)
    ensures
      || (x.path == PathText(path) && CountBreaks(e, s, items, x.message, x.value))
      || (s.element.Some? && SomeItem(e, s.element.value, items, mode, path, x))
      || (x.path == PathText(path) && RulesBreak(e, s.rules, List(items), x.message, x.value))
  {
    hide PathText, CountBreaks, RulesBreak, IndexSegment;
    var q, m, w :| Breaks(e, s, List(items), mode, q, m, w) && x == FieldError(PathText(path + q), m, w);
    assert ArrayBreaks(e, s, items, mode, q, m, w);
    assert path + [] == path;
    if !(q == [] && (CountBreaks(e, s, items, m, w) || RulesBreak(e, s.rules, List(items), m, w))) {
      var i :| 0 <= i < |items| && q[0] == IndexSegment(i) && Breaks(e, s.element.value, items[i], mode, q[1..], m, w);
      UnderSegment(path, q[0], q[1..]);
      assert q == [q[0]] + q[1..];
      assert Reported(e, s.element.value, items[i], mode, path + [IndexSegment(i)], x);
    }
  }

  lemma {:induction false} ElementsReport(e: Env, s: Schema, items: seq<Value>, mode: Mode, path: seq<string>, x: FieldError)
    requires s.ArraySchema?
    ensures x in CheckArray(e, s, items, mode, path).errors <==> Reported(e, s, List(items), mode, path, x)
    decreases s, 7
  {
    hide At, Reported, CountFaults, RuleFaults, ItemsOut, CountBreaks, RulesBreak, PathText;
    AtHas(path, CountFaults(e, s, items), x);
    AtHas(path, RuleFaults(e, s.rules, |s.rules|, List(items)), x);
    CountFaultsBreak(e, s, items, x.message, x.value);
    AllRulesBreak(e, s.rules, List(items), x.message, x.value);
    if s.element.Some? {
      ItemsHave(e, s.element.value, items, |items|, mode, path, x);
    }
    ArrayParts(e, s, items, mode, path, x);
  }

  lemma {:induction false} ArrayReports(e: Env, s: Schema, v: Value, mode: Mode, path: seq<string>, x: FieldError)
    requires s.ArraySchema? && !v.Null?
    ensures x in Check(e, s, v, mode, path).errors <==> Reported(e, s, v, mode, path, x)
    decreases s, 8
  {
    hide At, Reported, CheckArray;
    if v.List? {
      assert v == List(v.items);
      CheckOfList(e, s, v.items, mode, path);
      ElementsReport(e, s, v.items, mode, path, x);
    } else {
      assert Check(e, s, v, mode, path) == CheckValue(e, s, v, mode, path);
      HereReported(e, s, v, mode, path, [Fault(Expected(KindArray), v)], x);
    }
  }

  // ---- objects ----

  lemma {:induction false} FieldHas(e: Env, s: Schema, name: string, entries: map<string, Value>, mode: Mode, path: seq<string>, x: FieldError)
    requires s.ObjectSchema? && name in s.fields
    ensures x in FieldOut(e, s, name, entries, mode, path).errors <==>
      || (name in entries && Reported(e, s.fields[name], entries[name], mode, path + [name], x))
      || DemandedHere(s, name, entries, path, x)
    decreases s, 0
  {
    hide At, Check, Reported, IsRequired, Demanded, PathText;
    if name in entries {
      ReportsWhatBreaks(e, s.fields[name], entries[name], mode, path + [name], x);
    } else {
      MissingOneHas(s, name, entries, path, x);
    }
  }

  lemma {:induction false} DeclaredHas(e: Env, s: Schema, entries: map<string, Value>, mode: Mode, path: seq<string>, x: FieldError)
    requires s.ObjectSchema?
    ensures x in DeclaredOut(e, s, entries, mode, path).errors <==>
      SomeField(e, s, entries, mode, path, x) || exists k :: DemandedHere(s, k, entries, path, x)
    decreases s, 5
  {
    hide FieldOut, FieldsOut, Reported, DemandedHere, Elements, Ascending;
    var names := Sorted(s.fields.Keys);
    FieldsHave(e, s, names, |names|, entries, mode, path, x);
    forall k | k in s.fields
      ensures exists i :: 0 <= i < |names| && names[i] == k
      ensures x in FieldOut(e, s, k, entries, mode, path).errors <==>
        || (k in entries && Reported(e, s.fields[k], entries[k], mode, path + [k], x))
        || DemandedHere(s, k, entries, path, x)
    {
      SortedSome(s.fields.Keys, k);
      FieldHas(e, s, k, entries, mode, path, x);
    }
    DemandedIsDeclared(s, entries, path, x);
  }

  lemma DemandedIsDeclared(s: Schema, entries: map<string, Value>, path: seq<string>, x: FieldError)
    requires s.ObjectSchema?
    ensures forall k :: DemandedHere(s, k, entries, path, x) ==> k in s.fields
  {
  }

  lemma ObjectPieces(e: Env, s: Schema, entries: map<string, Value>, mode: Mode, path: seq<string>, x: FieldError)
    requires s.ObjectSchema?
    ensures Reported(e, s, Map(entries), mode, path, x) <==>
      || SomeMissing(s, entries, path, x)
      || SomeField(e, s, entries, mode, path, x)
      || SomeExtra(s, entries, mode, path, x)
      || (x.path == PathText(path) && RulesBreak(e, s.rules, Map(entries), x.message, x.value))
  {
    hide PathText, MissingBreaks, ExtraBreaks, RulesBreak;
    var v := Map(entries);
    assert path + [] == path;
    if RulesBreak(e, s.rules, v, x.message, x.value) {
      assert Breaks(e, s, v, mode, [], x.message, x.value);
    }
    if q, m, w :| MissingBreaks(s, entries, q, m, w) && x == FieldError(PathText(path + q), m, w) {
      assert Breaks(e, s, v, mode, q, m, w);
    }
    if q, m, w :| ExtraBreaks(s, entries, mode, q, m, w) && x == FieldError(PathText(path + q), m, w) {
      assert Breaks(e, s, v, mode, q, m, w);
    }
    if SomeField(e, s, entries, mode, path, x) {
      var k :| k in s.fields && k in entries && Reported(e, s.fields[k], entries[k], mode, path + [k], x);
      var q, m, w :| Breaks(e, s.fields[k], entries[k], mode, q, m, w) && x == FieldError(PathText(path + [k] + q), m, w);
      var r := [k] + q;
      UnderSegment(path, k, q);
      assert r[0] == k && r[1..] == q;
      assert Breaks(e, s, v, mode, r, m, w);
    }
    if Reported(e, s, v, mode, path, x) {
      ObjectReported(e, s, entries, mode, path, x);
    }
  }

  lemma ObjectReported(e: Env, s: Schema, entries: map<string, Value>, mode: Mode, path: seq<string>, x: FieldError)
    requires s.ObjectSchema? && Reported(e, s, Map(entries), mode, path, x)
    ensures
      || SomeMissing(s, entries, path, x)
      || SomeField(e, s, entries, mode, path, x)
      || SomeExtra(s, entries, mode, path, x)
      || (x.path == PathText(path) && RulesBreak(e, s.rules, Map(entries), x.message, x.value))
  {
    hide PathText, MissingBreaks, ExtraBreaks, RulesBreak;
    var q, m, w :| Breaks(e, s, Map(entries), mode, q, m, w) && x == FieldError(PathText(path + q), m, w);
    assert ObjectBreaks(e, s, entries, mode, q, m, w);
    assert path + [] == path;
    if q != [] && q[0] in s.fields && q[0] in entries && Breaks(e, s.fields[q[0]], entries[q[0]], mode, q[1..], m, w) {
      UnderSegment(path, q[0], q[1..]);
      assert q == [q[0]] + q[1..];
      assert Reported(e, s.fields[q[0]], entries[q[0]], mode, path + [q[0]], x);
    }
  }

  lemma {:induction false} EntriesReport(e: Env, s: Schema, entries: map<string, Value>, mode: Mode, path: seq<string>, x: FieldError)
    requires s.ObjectSchema?
    ensures x in CheckObject(e, s, entries, mode, path).errors <==> Reported(e, s, Map(entries), mode, path, x)
    decreases s, 6
  {
    hide At, Reported, DeclaredOut, Extras, MissingOut, RuleFaults, RulesBreak, PathText, Elements, Ascending, SomeMissing, SomeExtra, SomeField,
      DemandedHere;
    AtHas(path, RuleFaults(e, s.rules, |s.rules|, Map(entries)), x);
    AllRulesBreak(e, s.rules, Map(entries), x.message, x.value);
    RequiredHas(s, entries, path, x);
    SomeMissingIs(s, entries, path, x);
    DeclaredHas(e, s, entries, mode, path, x);
    ExtrasHave(s, entries, mode, path, x);
    ObjectPieces(e, s, entries, mode, path, x);
  }

  lemma {:induction false} ObjectReports(e: Env, s: Schema, v: Value, mode: Mode, path: seq<string>, x: FieldError)
    requires s.ObjectSchema? && !v.Null?
    ensures x in Check(e, s, v, mode, path).errors <==> Reported(e, s, v, mode, path, x)
    decreases s, 8
  {
    hide At, Reported, CheckObject;
    if v.Map? {
      assert v == Map(v.entries);
      CheckOfMap(e, s, v.entries, mode, path);
      EntriesReport(e, s, v.entries, mode, path, x);
    } else {
      assert Check(e, s, v, mode, path) == CheckValue(e, s, v, mode, path);
      HereReported(e, s, v, mode, path, [Fault(Expected(KindObject), v)], x);
    }
  }

  // ---- how often ----

  function MissedNames(s: Schema, entries: map<string, Value>): set<string>
    requires s.ObjectSchema?
  {
    (s.requiredFields + set k | k in s.fields && Demanded(s.fields[k])) - entries.Keys
  }

  function ExtraNames(s: Schema, entries: map<string, Value>, mode: Mode): set<string>
    requires s.ObjectSchema?
  {
    if s.additional == Some(false) || (s.additional == None && mode == Strict) then entries.Keys - s.fields.Keys else {}
  }

  /** The errors of the fields that are there, among the first `n` of `names`. */
  ghost function PresentCount(e: Env, s: Schema, names: seq<string>, n: nat, entries: map<string, Value>, mode: Mode, path: seq<string>): nat
    requires s.ObjectSchema? && n <= |names| && forall i | 0 <= i < |names| :: names[i] in s.fields
  {
    if n == 0 then 0
    else
      PresentCount(e, s, names, n - 1, entries, mode, path) +
      if names[n - 1] in entries then |Check(e, s.fields[names[n - 1]], entries[names[n - 1]], mode, path + [names[n - 1]]).errors| else 0
  }

  lemma LastIsNew(names: seq<string>, n: nat)
    requires Ascending(names) && 0 < n <= |names|
    ensures Elements(names[..n]) == Elements(names[..n - 1]) + {names[n - 1]}
    ensures names[n - 1] !in Elements(names[..n - 1])
  {
    assert names[..n] == names[..n - 1] + [names[n - 1]];
    if i :| 0 <= i < n - 1 && names[i] == names[n - 1] {
      LessTotal(names[i], names[n - 1]);
      assert false;
    }
  }

  lemma CountStep(a: set<string>, k: string, out: set<string>)
    requires k !in a
    ensures |(a + {k}) - out| == |a - out| + if k in out then 0 else 1
  {
    if k in out {
      assert (a + {k}) - out == a - out;
    } else {
      assert (a + {k}) - out == (a - out) + {k};
    }
  }

  lemma {:induction false} MissingCount(names: seq<string>, n: nat, entries: map<string, Value>, path: seq<string>)
    requires n <= |names| && Ascending(names)
    ensures |MissingOut(names, n, entries, path).errors| == |Elements(names[..n]) - entries.Keys|
  {
    hide At, Elements, Ascending, PathText;
    if n == 0 {
      NoElements();
      assert names[..0] == [];
    } else {
      MissingCount(names, n - 1, entries, path);
      LastIsNew(names, n);
      AtCount(path + [names[n - 1]], When(names[n - 1] !in entries, FieldRequired, Null));
      CountStep(Elements(names[..n - 1]), names[n - 1], entries.Keys);
    }
  }

  lemma NoElements()
    ensures Elements([]) == {}
  {
  }

  lemma AtCount(path: seq<string>, faults: seq<Fault>)
    ensures |At(path, faults).errors| == |faults|
  {
  }

  lemma {:induction false} ExtraCount(names: seq<string>, n: nat, entries: map<string, Value>, declared: set<string>, path: seq<string>)
    requires n <= |names| && Ascending(names) && forall i | 0 <= i < |names| :: names[i] in entries
    ensures |ExtraOut(names, n, entries, declared, path).errors| == |Elements(names[..n]) - declared|
  {
    hide At, Elements, Ascending;
    if n == 0 {
      NoElements();
      assert names[..0] == [];
    } else {
      ExtraCount(names, n - 1, entries, declared, path);
      LastIsNew(names, n);
      AtCount(path + [names[n - 1]], When(names[n - 1] !in declared, UnexpectedField, entries[names[n - 1]]));
      CountStep(Elements(names[..n - 1]), names[n - 1], declared);
    }
  }

  /** Names among `some` that only their own schema demands. */
  function DemandedNames(s: Schema, some: set<string>, entries: map<string, Value>): set<string>
    requires s.ObjectSchema?
  {
    set k | k in some && k in s.fields && k !in entries && k !in s.requiredFields && Demanded(s.fields[k])
  }

  lemma {:induction false} FieldsCount(e: Env, s: Schema, names: seq<string>, n: nat, entries: map<string, Value>, mode: Mode, path: seq<string>)
    requires s.ObjectSchema? && n <= |names| && Ascending(names) && forall i | 0 <= i < |names| :: names[i] in s.fields
    ensures |FieldsOut(e, s, names, n, entries, mode, path).errors| ==
      PresentCount(e, s, names, n, entries, mode, path) + |DemandedNames(s, Elements(names[..n]), entries)|
  {
    hide At, Elements, Ascending, Check, IsRequired, Demanded;
    if n == 0 {
      NoElements();
      assert names[..0] == [];
      assert DemandedNames(s, {}, entries) == {};
    } else {
      var name, before := names[n - 1], Elements(names[..n - 1]);
      FieldsCount(e, s, names, n - 1, entries, mode, path);
      LastIsNew(names, n);
      DemandedIs(s.fields[name]);
      AtCount(path + [name], When(name !in s.requiredFields && IsRequired(s.fields[name]), FieldRequired, Null));
      if name !in entries && name !in s.requiredFields && Demanded(s.fields[name]) {
        assert DemandedNames(s, before + {name}, entries) == DemandedNames(s, before, entries) + {name};
      } else {
        assert DemandedNames(s, before + {name}, entries) == DemandedNames(s, before, entries);
      }
    }
  }

  lemma MissedSplit(s: Schema, entries: map<string, Value>)
    requires s.ObjectSchema?
    ensures |MissedNames(s, entries)| == |s.requiredFields - entries.Keys| + |DemandedNames(s, s.fields.Keys, entries)|
  {
    hide Demanded;
    var own := DemandedNames(s, s.fields.Keys, entries);
    assert MissedNames(s, entries) == (s.requiredFields - entries.Keys) + own;
    assert (s.requiredFields - entries.Keys) !! own;
  }

  lemma FourParts(e: Env, s: Schema, entries: map<string, Value>, mode: Mode, path: seq<string>)
    requires s.ObjectSchema?
    ensures |CheckObject(e, s, entries, mode, path).errors| ==
      |MissingOut(Sorted(s.requiredFields), |Sorted(s.requiredFields)|, entries, path).errors|
      + |DeclaredOut(e, s, entries, mode, path).errors| + |Extras(s, entries, mode, path).errors|
      + |RuleFaults(e, s.rules, |s.rules|, Map(entries))|
  {
    hide At, Elements, Ascending, MissingOut, DeclaredOut, Extras, RuleFaults;
    AtCount(path, RuleFaults(e, s.rules, |s.rules|, Map(entries)));
  }

  lemma ExtrasCount(s: Schema, entries: map<string, Value>, mode: Mode, path: seq<string>)
    requires s.ObjectSchema?
    ensures |Extras(s, entries, mode, path).errors| == |ExtraNames(s, entries, mode)|
  {
    hide Elements, Ascending, ExtraOut;
    var keys := Sorted(entries.Keys);
    assert keys[..|keys|] == keys;
    ExtraCount(keys, |keys|, entries, s.fields.Keys, path);
  }

  /** An object reports every missed name once and every extra name once, besides its fields and validators. */
  lemma ObjectCount(e: Env, s: Schema, entries: map<string, Value>, mode: Mode, path: seq<string>)
    requires s.ObjectSchema?
    ensures var names := Sorted(s.fields.Keys);
      |Check(e, s, Map(entries), mode, path).errors| ==
        |MissedNames(s, entries)| + PresentCount(e, s, names, |names|, entries, mode, path)
        + |ExtraNames(s, entries, mode)| + |RuleFaults(e, s.rules, |s.rules|, Map(entries))|
  {
    hide Elements, Ascending, Check, CheckObject, MissingOut, Extras, FieldsOut, RuleFaults, PresentCount, MissedNames, ExtraNames, DemandedNames;
    CheckOfMap(e, s, entries, mode, path);
    FourParts(e, s, entries, mode, path);
    var required, names := Sorted(s.requiredFields), Sorted(s.fields.Keys);
    assert required[..|required|] == required && names[..|names|] == names;
    MissingCount(required, |required|, entries, path);
    FieldsCount(e, s, names, |names|, entries, mode, path);
    ExtrasCount(s, entries, mode, path);
    MissedSplit(s, entries);
  }
}
