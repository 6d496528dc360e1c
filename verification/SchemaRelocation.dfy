/**
 Validation does not depend on where it happens: validating under a path reports the same errors and
 records as validating from scratch, with that path joined in front of theirs. Names must be
 nonempty, because joining printed paths loses empty segments.
 */
module SchemaRelocation {
  import opened Values
  import opened ErrorPaths
  import opened Keys
  import opened Schemas
  import opened ValidationContexts
  import opened SchemaValidation
  import QueryCache

  // ---- nonempty names ----

  /** The names that can become path segments are nonempty. `Or` and `Not` validate in contexts of their own. */
  ghost predicate Named(s: Schema)
    decreases s
  {
    match s
    case ObjectSchema(_, fields, required, _, _, _) =>
      "" !in required && forall name | name in fields :: name != "" && Named(fields[name])
    case ArraySchema(_, element, _, _, _, _, _) => element.Some? ==> Named(element.value)
    case TransformSchema(_, inner, _) => Named(inner)
    case AndSchema(_, parts) => forall i | 0 <= i < |parts| :: Named(parts[i])
    case _ => true
  }

  ghost predicate NamedValue(v: Value)
    decreases v
  {
    match v
    case Map(entries) => forall k | k in entries :: k != "" && NamedValue(entries[k])
    case List(items) => forall i | 0 <= i < |items| :: NamedValue(items[i])
    case _ => true
  }

  /** No transformer makes up an empty key. */
  ghost predicate KeepsNames(e: Env) {
    forall id, v :: NamedValue(v) && e.transform(id, v).Made? ==> NamedValue(e.transform(id, v).value)
  }

  // ---- moving what was reported ----

  function MovedErrors(base: string, errors: seq<FieldError>): (r: seq<FieldError>)
    ensures |r| == |errors|
    ensures forall i | 0 <= i < |errors| :: r[i] == errors[i].(path := JoinPath(base, errors[i].path))
  {
    seq(|errors|, i requires 0 <= i < |errors| => errors[i].(path := JoinPath(base, errors[i].path)))
  }

  function MovedRecords(base: string, records: seq<Record>): (r: seq<Record>)
    ensures |r| == |records|
    ensures forall i | 0 <= i < |records| :: r[i] == records[i].(path := JoinPath(base, records[i].path))
  {
    seq(|records|, i requires 0 <= i < |records| => records[i].(path := JoinPath(base, records[i].path)))
  }

  function Moved(base: string, out: Out): Out {
    Out(MovedErrors(base, out.errors), MovedRecords(base, out.records))
  }

  lemma MovedThen(base: string, a: Out, b: Out)
    ensures Moved(base, Then(a, b)) == Then(Moved(base, a), Moved(base, b))
  {
    assert MovedErrors(base, a.errors + b.errors) == MovedErrors(base, a.errors) + MovedErrors(base, b.errors);
    assert MovedRecords(base, a.records + b.records) == MovedRecords(base, a.records) + MovedRecords(base, b.records);
  }

  lemma MovedNothing(base: string)
    ensures Moved(base, NOTHING) == NOTHING
  {
  }

  lemma MovedAt(p: seq<string>, q: seq<string>, faults: seq<Fault>)
    requires NonEmpty(p) && NonEmpty(q)
    ensures Moved(PathText(p), At(q, faults)) == At(p + q, faults)
  {
    NonEmptyJoin(p, q);
    assert MovedErrors(PathText(p), Located(PathText(q), faults)) == Located(PathText(p + q), faults);
  }

  lemma MovedUnder(p: seq<string>, q: seq<string>, segment: string, faults: seq<Fault>)
    requires NonEmpty(p) && NonEmpty(q) && segment != ""
    ensures Moved(PathText(p), At(q + [segment], faults)) == At(p + q + [segment], faults)
  {
    MovedAt(p, q + [segment], faults);
    assert p + (q + [segment]) == p + q + [segment];
  }

  // ---- relocation ----

  /** The main result. */
  lemma {:induction false} Relocation(e: Env, s: Schema, v: Value, mode: Mode, p: seq<string>, q: seq<string>)
    requires NonEmpty(p) && NonEmpty(q) && Named(s) && NamedValue(v) && KeepsNames(e)
    ensures Check(e, s, v, mode, p + q) == Moved(PathText(p), Check(e, s, v, mode, q))
    decreases s, 4
  {
    hide At, Moved, NamedValue, PathText, NonEmpty, Piped;
    if s.TransformSchema? {
      RelocateTransform(e, s, v, mode, p, q);
    } else if v.Null? {
      MovedAt(p, q, NullFaults(s.base));
    } else {
      match s
      case StringSchema(_, _, _, _, _, _, _) => MovedAt(p, q, StringFaults(e, s, v, mode));
      case NumberSchema(_, _, _, _, _) => MovedAt(p, q, NumberFaults(e, s, v, mode));
      case BoolSchema(_, _) => MovedAt(p, q, BoolFaults(e, s, v, mode));
      case CustomSchema(_, _) => MovedAt(p, q, CustomFaults(e, s, v));
      case ObjectSchema(_, _, _, _, _, _) => RelocateObject(e, s, v, mode, p, q);
      case ArraySchema(_, _, _, _, _, _, _) => RelocateArray(e, s, v, mode, p, q);
      case AndSchema(_, parts) => RelocateParts(e, s, |parts|, v, mode, p, q);
      case OrSchema(_, parts) =>
        MovedAt(p, q, When(parts != [] && !SomePart(e, s, |parts|, v, mode), NoneOfThem, v));
      case NotSchema(_, inner) =>
        MovedAt(p, q, When(Check(e, inner, v, mode, []).errors == [], MustNotMatch, v));
    }
  }

  lemma {:induction false} RelocatePipe(e: Env, transformers: seq<nat>, n: nat, v: Value, p: seq<string>, q: seq<string>)
    requires n <= |transformers| && NonEmpty(p) && NonEmpty(q) && NamedValue(v) && KeepsNames(e)
    ensures Piped(e, transformers, n, v, p + q).out == Moved(PathText(p), Piped(e, transformers, n, v, q).out)
    ensures Piped(e, transformers, n, v, p + q).result == Piped(e, transformers, n, v, q).result
    ensures Piped(e, transformers, n, v, q).result.Some? ==> NamedValue(Piped(e, transformers, n, v, q).result.value)
  {
    hide At, NamedValue, PathText, NonEmpty, Moved;
    if n == 0 {
      MovedNothing(PathText(p));
    } else {
      RelocatePipe(e, transformers, n - 1, v, p, q);
      var before := Piped(e, transformers, n - 1, v, q);
      if before.result.Some? {
        var input := before.result.value;
        match e.transform(transformers[n - 1], input)
        case Refused(why) =>
          MovedAt(p, q, [Fault(TransformFailed(n, why), input)]);
          MovedThen(PathText(p), before.out, At(q, [Fault(TransformFailed(n, why), input)]));
        case Made(w) =>
          MovedRecord(p, q, input, w, n);
          MovedThen(PathText(p), before.out, Out([], [Record(PathText(q), input, w, n)]));
      }
    }
  }

  lemma MovedRecord(p: seq<string>, q: seq<string>, original: Value, made: Value, step: nat)
    requires NonEmpty(p) && NonEmpty(q)
    ensures Moved(PathText(p), Out([], [Record(PathText(q), original, made, step)])) ==
      Out([], [Record(PathText(p + q), original, made, step)])
  {
    NonEmptyJoin(p, q);
  }

  lemma {:induction false} RelocateTransform(e: Env, s: Schema, v: Value, mode: Mode, p: seq<string>, q: seq<string>)
    requires s.TransformSchema?
    requires NonEmpty(p) && NonEmpty(q) && Named(s) && NamedValue(v) && KeepsNames(e)
    ensures Check(e, s, v, mode, p + q) == Moved(PathText(p), Check(e, s, v, mode, q))
    decreases s, 3
  {
    hide Piped, NamedValue, NonEmpty, PathText, Moved;
    var made := Piped(e, s.transformers, |s.transformers|, v, q);
    RelocatePipe(e, s.transformers, |s.transformers|, v, p, q);
    if made.result.Some? {
      Relocation(e, s.inner, made.result.value, mode, p, q);
      MovedThen(PathText(p), made.out, Check(e, s.inner, made.result.value, mode, q));
    }
  }

  lemma {:induction false} RelocateMissing(names: seq<string>, n: nat, entries: map<string, Value>, p: seq<string>, q: seq<string>)
    requires n <= |names| && NonEmpty(p) && NonEmpty(q) && NonEmpty(names)
    ensures MissingOut(names, n, entries, p + q) == Moved(PathText(p), MissingOut(names, n, entries, q))
  {
    hide At, Moved, PathText;
    if n == 0 {
      MovedNothing(PathText(p));
    } else {
      var faults := When(names[n - 1] !in entries, FieldRequired, Null);
      RelocateMissing(names, n - 1, entries, p, q);
      MovedUnder(p, q, names[n - 1], faults);
      MovedThen(PathText(p), MissingOut(names, n - 1, entries, q), At(q + [names[n - 1]], faults));
    }
  }

  lemma {:induction false} RelocateExtra(names: seq<string>, n: nat, entries: map<string, Value>, declared: set<string>,
                                         p: seq<string>, q: seq<string>)
    requires n <= |names| && NonEmpty(p) && NonEmpty(q) && NonEmpty(names)
    requires forall i | 0 <= i < |names| :: names[i] in entries
    ensures ExtraOut(names, n, entries, declared, p + q) == Moved(PathText(p), ExtraOut(names, n, entries, declared, q))
  {
    hide At, Moved, PathText;
    if n == 0 {
      MovedNothing(PathText(p));
    } else {
      var faults := When(names[n - 1] !in declared, UnexpectedField, entries[names[n - 1]]);
      RelocateExtra(names, n - 1, entries, declared, p, q);
      MovedUnder(p, q, names[n - 1], faults);
      MovedThen(PathText(p), ExtraOut(names, n - 1, entries, declared, q), At(q + [names[n - 1]], faults));
    }
  }

  lemma NonEmptyKeys(keys: set<string>)
    requires "" !in keys
    ensures NonEmpty(Sorted(keys))
  {
  }

  lemma {:induction false} RelocateField(e: Env, s: Schema, name: string, entries: map<string, Value>, mode: Mode,
                                         p: seq<string>, q: seq<string>)
    requires s.ObjectSchema? && name in s.fields
    requires NonEmpty(p) && NonEmpty(q) && Named(s) && NamedValue(Map(entries)) && KeepsNames(e)
    ensures FieldOut(e, s, name, entries, mode, p + q) == Moved(PathText(p), FieldOut(e, s, name, entries, mode, q))
    decreases s, 0
  {
    hide At, Moved, PathText, Check;
    if name in entries {
      Relocation(e, s.fields[name], entries[name], mode, p, q + [name]);
      assert p + (q + [name]) == p + q + [name];
    } else {
      MovedUnder(p, q, name, When(name !in s.requiredFields && IsRequired(s.fields[name]), FieldRequired, Null));
    }
  }

  lemma {:induction false} RelocateFields(e: Env, s: Schema, names: seq<string>, n: nat, entries: map<string, Value>, mode: Mode,
                                          p: seq<string>, q: seq<string>)
    requires s.ObjectSchema? && n <= |names| && forall i | 0 <= i < |names| :: names[i] in s.fields
    requires NonEmpty(p) && NonEmpty(q) && Named(s) && NamedValue(Map(entries)) && KeepsNames(e)
    ensures FieldsOut(e, s, names, n, entries, mode, p + q) == Moved(PathText(p), FieldsOut(e, s, names, n, entries, mode, q))
    decreases s, 1, n
  {
    hide Moved, PathText, NamedValue, Named, NonEmpty, FieldOut;
    if n == 0 {
      MovedNothing(PathText(p));
    } else {
      RelocateFields(e, s, names, n - 1, entries, mode, p, q);
      RelocateField(e, s, names[n - 1], entries, mode, p, q);
      MovedThen(PathText(p), FieldsOut(e, s, names, n - 1, entries, mode, q), FieldOut(e, s, names[n - 1], entries, mode, q));
    }
  }

  lemma RelocateExtras(s: Schema, entries: map<string, Value>, mode: Mode, p: seq<string>, q: seq<string>)
    requires s.ObjectSchema? && NonEmpty(p) && NonEmpty(q) && NamedValue(Map(entries))
    ensures Extras(s, entries, mode, p + q) == Moved(PathText(p), Extras(s, entries, mode, q))
  {
    hide Moved, PathText, Elements, Ascending;
    MovedNothing(PathText(p));
    NonEmptyKeys(entries.Keys);
    var keys := Sorted(entries.Keys);
    RelocateExtra(keys, |keys|, entries, s.fields.Keys, p, q);
  }

  lemma MovedFour(base: string, a: Out, b: Out, c: Out, d: Out)
    ensures Moved(base, Then(Then(Then(a, b), c), d)) ==
      Then(Then(Then(Moved(base, a), Moved(base, b)), Moved(base, c)), Moved(base, d))
  {
    hide Moved, Then;
    MovedThen(base, a, b);
    MovedThen(base, Then(a, b), c);
    MovedThen(base, Then(Then(a, b), c), d);
  }

  lemma {:induction false} RelocateEntries(e: Env, s: Schema, entries: map<string, Value>, mode: Mode, p: seq<string>, q: seq<string>)
    requires s.ObjectSchema?
    requires NonEmpty(p) && NonEmpty(q) && Named(s) && NamedValue(Map(entries)) && KeepsNames(e)
    ensures CheckObject(e, s, entries, mode, p + q) == Moved(PathText(p), CheckObject(e, s, entries, mode, q))
    decreases s, 2
  {
    hide At, Moved, PathText, NamedValue, NonEmpty, Extras, Then, FieldsOut, MissingOut, Elements, Ascending;
    var required, names := Sorted(s.requiredFields), Sorted(s.fields.Keys);
    var faults := RuleFaults(e, s.rules, |s.rules|, Map(entries));
    NonEmptyKeys(s.requiredFields);
    RelocateMissing(required, |required|, entries, p, q);
    RelocateFields(e, s, names, |names|, entries, mode, p, q);
    RelocateExtras(s, entries, mode, p, q);
    MovedAt(p, q, faults);
    MovedFour(PathText(p), MissingOut(required, |required|, entries, q), DeclaredOut(e, s, entries, mode, q),
      Extras(s, entries, mode, q), At(q, faults));
  }

  lemma {:induction false} RelocateObject(e: Env, s: Schema, v: Value, mode: Mode, p: seq<string>, q: seq<string>)
    requires s.ObjectSchema? && !v.Null?
    requires NonEmpty(p) && NonEmpty(q) && Named(s) && NamedValue(v) && KeepsNames(e)
    ensures CheckValue(e, s, v, mode, p + q) == Moved(PathText(p), CheckValue(e, s, v, mode, q))
    decreases s, 3
  {
    hide At, Moved, PathText, NonEmpty, CheckObject, NamedValue;
    if v.Map? {
      assert v == Map(v.entries);
      RelocateEntries(e, s, v.entries, mode, p, q);
    } else {
      MovedAt(p, q, [Fault(Expected(KindObject), v)]);
    }
  }

  lemma IndexNotEmpty(i: nat)
    ensures IndexSegment(i) != ""
  {
  }

  lemma {:induction false} RelocateItems(e: Env, element: Schema, items: seq<Value>, n: nat, mode: Mode, p: seq<string>, q: seq<string>)
    requires n <= |items| && NamedValue(List(items))
    requires NonEmpty(p) && NonEmpty(q) && Named(element) && KeepsNames(e)
    ensures ItemsOut(e, element, items, n, mode, p + q) == Moved(PathText(p), ItemsOut(e, element, items, n, mode, q))
    decreases element, 5, n
  {
    hide Moved, PathText, Check, Named;
    if n == 0 {
      MovedNothing(PathText(p));
    } else {
      var segment := IndexSegment(n - 1);
      RelocateItems(e, element, items, n - 1, mode, p, q);
      IndexNotEmpty(n - 1);
      Relocation(e, element, items[n - 1], mode, p, q + [segment]);
      assert p + (q + [segment]) == p + q + [segment];
      MovedThen(PathText(p), ItemsOut(e, element, items, n - 1, mode, q), Check(e, element, items[n - 1], mode, q + [segment]));
    }
  }

  lemma {:induction false} RelocateElements(e: Env, s: Schema, items: seq<Value>, mode: Mode, p: seq<string>, q: seq<string>)
    requires s.ArraySchema?
    requires NonEmpty(p) && NonEmpty(q) && Named(s) && NamedValue(List(items)) && KeepsNames(e)
    ensures CheckArray(e, s, items, mode, p + q) == Moved(PathText(p), CheckArray(e, s, items, mode, q))
    decreases s, 2
  {
    hide At, Moved, PathText, NonEmpty, CountFaults, ItemsOut, Then, NamedValue, RuleFaults;
    var faults, base := RuleFaults(e, s.rules, |s.rules|, List(items)), PathText(p);
    var counted, each := At(q, CountFaults(e, s, items)), ElementsOut(e, s, items, mode, q);
    MovedAt(p, q, CountFaults(e, s, items));
    MovedAt(p, q, faults);
    if s.element.Some? {
      RelocateItems(e, s.element.value, items, |items|, mode, p, q);
    } else {
      MovedNothing(base);
    }
    MovedThen(base, counted, each);
    MovedThen(base, Then(counted, each), At(q, faults));
  }

  lemma {:induction false} RelocateArray(e: Env, s: Schema, v: Value, mode: Mode, p: seq<string>, q: seq<string>)
    requires s.ArraySchema? && !v.Null?
    requires NonEmpty(p) && NonEmpty(q) && Named(s) && NamedValue(v) && KeepsNames(e)
    ensures CheckValue(e, s, v, mode, p + q) == Moved(PathText(p), CheckValue(e, s, v, mode, q))
    decreases s, 3
  {
    hide At, Moved, PathText, NonEmpty, CheckArray, NamedValue;
    if v.List? {
      assert v == List(v.items);
      RelocateElements(e, s, v.items, mode, p, q);
    } else {
      MovedAt(p, q, [Fault(Expected(KindArray), v)]);
    }
  }

  lemma {:induction false} RelocateParts(e: Env, s: Schema, n: nat, v: Value, mode: Mode, p: seq<string>, q: seq<string>)
    requires s.AndSchema? && n <= |s.parts|
    requires NonEmpty(p) && NonEmpty(q) && Named(s) && NamedValue(v) && KeepsNames(e)
    ensures AllParts(e, s, n, v, mode, p + q) == Moved(PathText(p), AllParts(e, s, n, v, mode, q))
    decreases s, 0, n
  {
    hide Moved, PathText, NamedValue, NonEmpty, Check;
    if n == 0 {
      MovedNothing(PathText(p));
    } else {
      RelocateParts(e, s, n - 1, v, mode, p, q);
      Relocation(e, s.parts[n - 1], v, mode, p, q);
      MovedThen(PathText(p), AllParts(e, s, n - 1, v, mode, q), Check(e, s.parts[n - 1], v, mode, q));
    }
  }

  /** Under a path, and from scratch. */
  lemma RelocatedErrors(e: Env, s: Schema, v: Value, mode: Mode, p: seq<string>)
    requires NonEmpty(p) && Named(s) && NamedValue(v) && KeepsNames(e)
    ensures Check(e, s, v, mode, p) == Moved(PathText(p), Check(e, s, v, mode, []))
  {
    hide Check;
    Relocation(e, s, v, mode, p, []);
    assert p + [] == p;
  }

  /** An object that requires a name nothing can print. */
  function NeedsEmptyName(): Schema {
    ObjectSchema(Base(false, false, map[]), map[], {""}, None, [], true)
  }

  /** Without nonempty names it fails: here the error is at `a.`, and moving it gives `a`. */
  lemma EmptyNameIsLost(e: Env)
    ensures Check(e, NeedsEmptyName(), Map(map[]), Strict, ["a"]) != Moved("a", Check(e, NeedsEmptyName(), Map(map[]), Strict, []))
  {
    hide Sorted, Elements, Ascending, Check, MovedRecords;
    SortedOne("");
    FirstMissing(e, NeedsEmptyName(), ["a"]);
    FirstMissing(e, NeedsEmptyName(), []);
    PrintedWithEmpty();
  }

  lemma PrintedWithEmpty()
    ensures PathText(["a"] + [""]) == "a." && PathText([] + [""]) == "" && JoinPath("a", "") == "a"
  {
    assert ["a"] + [""] == ["a", ""] && [] + [""] == [""];
    assert Links([]) == "" && Links([""]) == Link("") + "" && Link("") == ".";
    assert [""][1..] == [] && ["a", ""][1..] == [""];
    assert PathText(["a", ""]) == "a" + Links([""]);
  }

  lemma SortedOne(k: string)
    ensures Sorted({k}) == [k]
  {
    AscendingUnique(Sorted({k}), [k]);
  }

  lemma FirstMissing(e: Env, s: Schema, p: seq<string>)
    requires s.ObjectSchema? && Sorted(s.requiredFields) == [""]
    ensures var errors := Check(e, s, Map(map[]), Strict, p).errors;
      errors != [] && errors[0] == FieldError(PathText(p + [""]), FieldRequired, Null)
  {
    hide Sorted, Elements, Ascending, Extras, FieldsOut, RuleFaults;
    CheckOfMap(e, s, map[], Strict, p);
    assert MissingOut([""], 0, map[], p) == NOTHING;
    assert MissingOut([""], 1, map[], p) == At(p + [""], [Fault(FieldRequired, Null)]);
  }

  // ---- the loops that join paths ----

  /** WrapError, for a validation error. */
  method WrapErrors(errors: seq<FieldError>, path: string) returns (wrapped: seq<FieldError>)
    ensures wrapped == MovedErrors(path, errors)
  {
    wrapped := [];
    for i := 0 to |errors|
      invariant wrapped == MovedErrors(path, errors)[..i]
    {
      wrapped := wrapped + [errors[i].(path := JoinPath(path, errors[i].path))];
    }
  }

  /** The errors of validating the first `n` matched elements one by one. */
  ghost function EachErrors(e: Env, s: Schema, items: seq<Value>, n: nat, mode: Mode): seq<FieldError>
    requires n <= |items|
  {
    if n == 0 then []
    else
      EachErrors(e, s, items, n - 1, mode) +
      MovedErrors(IndexSegment(n - 1), Check(e, s, items[n - 1], mode, []).errors)
  }

  ghost function MatchErrors(e: Env, s: Schema, found: Value, mode: Mode): seq<FieldError> {
    if found.List? then EachErrors(e, s, found.items, |found.items|, mode) else Check(e, s, found, mode, []).errors
  }

  /** `None` stands for a query that fails. */
  method ValidateEach(e: Env, data: Value, query: string, s: Schema, mode: Mode) returns (errors: Option<seq<FieldError>>)
    ensures errors.None? <==> QueryCache.Execute(data, query).None?
    ensures errors.Some? ==> errors.value == MatchErrors(e, s, QueryCache.Execute(data, query).value, mode)
  {
    hide QueryCache.Execute, Check, MovedErrors;
    var result := QueryCache.ExecuteQuery(data, query);
    if result.None? {
      return None;
    }
    if !result.value.List? {
      var single := ValidateWithMode(e, result.value, s, mode);
      return Some(single);
    }
    var items := result.value.items;
    var all := [];
    for i := 0 to |items|
      invariant all == EachErrors(e, s, items, i, mode)
    {
      var found := ValidateWithMode(e, items[i], s, mode);
      var wrapped := WrapErrors(found, IndexSegment(i));
      all := all + wrapped;
    }
    return Some(all);
  }

  /** Array().Of(s), with no other constraint. */
  function ArrayOf(s: Schema): Schema {
    ArraySchema(Base(false, false, map[]), Some(s), None, None, false, [], true)
  }

  /** Validating each matched element is validating the matched list against an array of the schema. */
  lemma EachIsArrayOf(e: Env, s: Schema, items: seq<Value>, mode: Mode)
    requires Named(s) && NamedValue(List(items)) && KeepsNames(e)
    ensures MatchErrors(e, s, List(items), mode) == Check(e, ArrayOf(s), List(items), mode, []).errors
  {
    hide Check, ItemsOut, Moved, EachErrors;
    var whole := ArrayOf(s);
    CheckOfList(e, whole, items, mode, []);
    ThenNothing(ItemsOut(e, s, items, |items|, mode, []));
    assert CountFaults(e, whole, items) == [];
    EachIsItems(e, s, items, |items|, mode);
  }

  lemma {:induction false} EachIsItems(e: Env, s: Schema, items: seq<Value>, n: nat, mode: Mode)
    requires n <= |items| && Named(s) && NamedValue(List(items)) && KeepsNames(e)
    ensures EachErrors(e, s, items, n, mode) == ItemsOut(e, s, items, n, mode, []).errors
  {
    hide Check, MovedErrors, Named, IndexSegment;
    if n > 0 {
      EachIsItems(e, s, items, n - 1, mode);
      var segment := IndexSegment(n - 1);
      IndexNotEmpty(n - 1);
      assert [] + [segment] == [segment] && PathText([segment]) == segment;
      RelocatedErrors(e, s, items[n - 1], mode, [segment]);
    }
  }

  // ---- the number of errors does not depend on the path, whatever the names ----

  lemma {:induction false} SameCount(e: Env, s: Schema, v: Value, mode: Mode, p: seq<string>, q: seq<string>)
    ensures |Check(e, s, v, mode, p).errors| == |Check(e, s, v, mode, q).errors|
    decreases s, 4
  {
    hide PathText, Piped, CheckObject, CheckArray;
    if s.TransformSchema? {
      var made := Piped(e, s.transformers, |s.transformers|, v, p);
      SamePipeCount(e, s.transformers, |s.transformers|, v, p, q);
      if made.result.Some? {
        SameCount(e, s.inner, made.result.value, mode, p, q);
      }
    } else if !v.Null? {
      if s.ObjectSchema? && v.Map? {
        SameEntriesCount(e, s, v.entries, mode, p, q);
      } else if s.ArraySchema? && v.List? {
        SameElementsCount(e, s, v.items, mode, p, q);
      } else if s.AndSchema? {
        SamePartsCount(e, s, |s.parts|, v, mode, p, q);
      }
    }
  }

  lemma {:induction false} SamePipeCount(e: Env, transformers: seq<nat>, n: nat, v: Value, p: seq<string>, q: seq<string>)
    requires n <= |transformers|
    ensures var a, b := Piped(e, transformers, n, v, p), Piped(e, transformers, n, v, q);
      a.result == b.result && |a.out.errors| == |b.out.errors|
  {
    if n > 0 {
      SamePipeCount(e, transformers, n - 1, v, p, q);
    }
  }

  lemma {:induction false} SameMissingCount(names: seq<string>, n: nat, entries: map<string, Value>, p: seq<string>, q: seq<string>)
    requires n <= |names|
    ensures |MissingOut(names, n, entries, p).errors| == |MissingOut(names, n, entries, q).errors|
  {
    if n > 0 {
      SameMissingCount(names, n - 1, entries, p, q);
    }
  }

  lemma {:induction false} SameExtraCount(names: seq<string>, n: nat, entries: map<string, Value>, declared: set<string>,
                                          p: seq<string>, q: seq<string>)
    requires n <= |names| && forall i | 0 <= i < |names| :: names[i] in entries
    ensures |ExtraOut(names, n, entries, declared, p).errors| == |ExtraOut(names, n, entries, declared, q).errors|
  {
    if n > 0 {
      SameExtraCount(names, n - 1, entries, declared, p, q);
    }
  }

  lemma {:induction false} SameFieldsCount(e: Env, s: Schema, names: seq<string>, n: nat, entries: map<string, Value>, mode: Mode,
                                           p: seq<string>, q: seq<string>)
    requires s.ObjectSchema? && n <= |names| && forall i | 0 <= i < |names| :: names[i] in s.fields
    ensures |FieldsOut(e, s, names, n, entries, mode, p).errors| == |FieldsOut(e, s, names, n, entries, mode, q).errors|
    decreases s, 1, n
  {
    hide Check, IsRequired;
    if n > 0 {
      SameFieldsCount(e, s, names, n - 1, entries, mode, p, q);
      var name := names[n - 1];
      if name in entries {
        SameCount(e, s.fields[name], entries[name], mode, p + [name], q + [name]);
      }
    }
  }

  lemma {:induction false} SameEntriesCount(e: Env, s: Schema, entries: map<string, Value>, mode: Mode, p: seq<string>, q: seq<string>)
    requires s.ObjectSchema?
    ensures |CheckObject(e, s, entries, mode, p).errors| == |CheckObject(e, s, entries, mode, q).errors|
    decreases s, 2
  {
    hide MissingOut, FieldsOut, ExtraOut, Elements, Ascending;
    var required, names, keys := Sorted(s.requiredFields), Sorted(s.fields.Keys), Sorted(entries.Keys);
    SameMissingCount(required, |required|, entries, p, q);
    SameFieldsCount(e, s, names, |names|, entries, mode, p, q);
    SameExtraCount(keys, |keys|, entries, s.fields.Keys, p, q);
  }

  lemma {:induction false} SameItemsCount(e: Env, element: Schema, items: seq<Value>, n: nat, mode: Mode, p: seq<string>, q: seq<string>)
    requires n <= |items|
    ensures |ItemsOut(e, element, items, n, mode, p).errors| == |ItemsOut(e, element, items, n, mode, q).errors|
    decreases element, 5, n
  {
    hide Check;
    if n > 0 {
      SameItemsCount(e, element, items, n - 1, mode, p, q);
      SameCount(e, element, items[n - 1], mode, p + [IndexSegment(n - 1)], q + [IndexSegment(n - 1)]);
    }
  }

  lemma {:induction false} SameElementsCount(e: Env, s: Schema, items: seq<Value>, mode: Mode, p: seq<string>, q: seq<string>)
    requires s.ArraySchema?
    ensures |CheckArray(e, s, items, mode, p).errors| == |CheckArray(e, s, items, mode, q).errors|
    decreases s, 2
  {
    hide ItemsOut, CountFaults;
    if s.element.Some? {
      SameItemsCount(e, s.element.value, items, |items|, mode, p, q);
    }
  }

  lemma {:induction false} SamePartsCount(e: Env, s: Schema, n: nat, v: Value, mode: Mode, p: seq<string>, q: seq<string>)
    requires s.AndSchema? && n <= |s.parts|
    ensures |AllParts(e, s, n, v, mode, p).errors| == |AllParts(e, s, n, v, mode, q).errors|
    decreases s, 0, n
  {
    hide Check;
    if n > 0 {
      SamePartsCount(e, s, n - 1, v, mode, p, q);
      SameCount(e, s.parts[n - 1], v, mode, p, q);
    }
  }
}
