/** What ValidateAndTransform keeps: verdicts, shapes, and the chain of transformation records. */
module SchemaTransformLaws {
  import opened Values
  import opened ErrorPaths
  import opened Keys
  import opened Schemas
  import opened ValidationContexts
  import opened SchemaTransform

  // ---- shapes ----

  /** Each item of a list becomes its own result, in its place. */
  lemma ListItemsKept(e: Env, s: Schema, v: Value, mode: Mode, path: seq<string>)
    requires s.ArraySchema? && s.transformable && v.List?
    ensures var made := Convert(e, s, v, mode, path).value;
      && made.List? && |made.items| == |v.items|
      && forall i | 0 <= i < |v.items| ::
           made.items[i] ==
             if s.element.None? then v.items[i]
             else Convert(e, s.element.value, v.items[i], mode, path + [IndexSegment(i)]).value
  {
    hide ConvertItem, Check;
    ItemsMade(e, s, v.items, |v.items|, mode, path);
    forall i | 0 <= i < |v.items|
      ensures ConvertItem(e, s, v.items[i], mode, path + [IndexSegment(i)]).value ==
        if s.element.None? then v.items[i]
        else Convert(e, s.element.value, v.items[i], mode, path + [IndexSegment(i)]).value
    {
      ItemMade(e, s, v.items[i], mode, path + [IndexSegment(i)]);
    }
  }

  lemma ItemMade(e: Env, s: Schema, item: Value, mode: Mode, path: seq<string>)
    requires s.ArraySchema?
    ensures ConvertItem(e, s, item, mode, path).value ==
      if s.element.None? then item else Convert(e, s.element.value, item, mode, path).value
  {
    hide Convert;
  }

  lemma {:induction false} ItemsMade(e: Env, s: Schema, items: seq<Value>, n: nat, mode: Mode, path: seq<string>)
    requires s.ArraySchema? && n <= |items|
    ensures forall i | 0 <= i < n ::
      MadeItems(e, s, items, n, mode, path)[i] == ConvertItem(e, s, items[i], mode, path + [IndexSegment(i)]).value
  {
    hide ConvertItem;
    if n > 0 {
      ItemsMade(e, s, items, n - 1, mode, path);
    }
  }

  /** The keys of the result are those of the input, cut to the declared ones when extras are rejected. */
  lemma ObjectKeysKept(e: Env, s: Schema, v: Value, mode: Mode, path: seq<string>)
    requires s.ObjectSchema? && s.transformable && v.Map?
    ensures var made := Convert(e, s, v, mode, path).value;
      && made.Map?
      && made.entries.Keys == (if RejectsExtra(s, mode) then v.entries.Keys * s.fields.Keys else v.entries.Keys)
      && forall k | k in made.entries ::
           made.entries[k] ==
             if k in s.fields then Convert(e, s.fields[k], v.entries[k], mode, path + [k]).value else v.entries[k]
  {
    hide Elements, Ascending, RejectsExtra;
    var names := Sorted(s.fields.Keys);
    EntriesMade(e, s, names, |names|, v.entries, mode, path);
    assert names[..|names|] == names;
    forall k | k in s.fields
      ensures k in names
    {
      SortedHas(s.fields.Keys, k);
    }
  }

  predicate Kept(k: string, s: Schema, mode: Mode, names: seq<string>)
    requires s.ObjectSchema?
  {
    k in names || !RejectsExtra(s, mode)
  }

  ghost function ValueMade(e: Env, s: Schema, k: string, v: Value, converted: seq<string>, mode: Mode, path: seq<string>): Value
    requires s.ObjectSchema?
  {
    if k in s.fields && k in converted then Convert(e, s.fields[k], v, mode, path + [k]).value else v
  }

  lemma {:induction false} EntriesMade(e: Env, s: Schema, names: seq<string>, n: nat, entries: map<string, Value>,
                                       mode: Mode, path: seq<string>)
    requires s.ObjectSchema? && n <= |names| && forall i | 0 <= i < |names| :: names[i] in s.fields
    ensures var made := MadeEntries(e, s, names, n, entries, mode, path);
      made == map k | k in entries && Kept(k, s, mode, names[..n]) :: ValueMade(e, s, k, entries[k], names[..n], mode, path)
  {
    hide Convert;
    if n > 0 {
      EntriesMade(e, s, names, n - 1, entries, mode, path);
      assert names[..n] == names[..n - 1] + [names[n - 1]];
    }
  }

  // ---- records ----

  /** Each record starts from what the one before it made, the first from `v`; the last one made `w`. */
  ghost predicate Chain(e: Env, transformers: seq<nat>, records: seq<Record>, v: Value, w: Value, where: string) {
    && |records| == |transformers|
    && (forall k | 0 <= k < |records| :: Linked(e, transformers[k], records, k, v, where))
    && w == (if records == [] then v else records[|records| - 1].made)
  }

  predicate Linked(e: Env, transformer: nat, records: seq<Record>, k: nat, v: Value, where: string)
    requires k < |records|
  {
    && records[k].original == (if k == 0 then v else records[k - 1].made)
    && e.transform(transformer, records[k].original) == Made(records[k].made)
    && records[k].path == where && records[k].step == k + 1
  }

  lemma {:induction false} PipeChains(e: Env, transformers: seq<nat>, n: nat, v: Value, path: seq<string>)
    requires n <= |transformers| && Piped(e, transformers, n, v, path).result.Some?
    ensures var made := Piped(e, transformers, n, v, path);
      made.out.errors == [] && Chain(e, transformers[..n], made.out.records, v, made.result.value, PathText(path))
  {
    if n > 0 {
      PipeChains(e, transformers, n - 1, v, path);
      var before, after := Piped(e, transformers, n - 1, v, path), Piped(e, transformers, n, v, path);
      var now := transformers[..n];
      assert now == transformers[..n - 1] + [transformers[n - 1]];
      forall k | 0 <= k < n
        ensures Linked(e, now[k], after.out.records, k, v, PathText(path))
      {
        assert k < n - 1 ==> Linked(e, transformers[..n - 1][k], before.out.records, k, v, PathText(path));
      }
    }
  }

  /** A completed transformation: its records run from the input to the value returned. */
  lemma TransformRecordsChain(e: Env, s: Schema, v: Value, mode: Mode, path: seq<string>)
    requires s.TransformSchema? && Piped(e, s.transformers, |s.transformers|, v, path).result.Some?
    ensures var change := Convert(e, s, v, mode, path);
      && |s.transformers| <= |change.out.records|
      && Chain(e, s.transformers, change.out.records[..|s.transformers|], v, change.value, PathText(path))
      && change.out.errors == Check(e, s.inner, change.value, mode, path).errors
  {
    hide At, Piped;
    PipeChains(e, s.transformers, |s.transformers|, v, path);
    var made := Piped(e, s.transformers, |s.transformers|, v, path);
    assert s.transformers[..|s.transformers|] == s.transformers;
    assert (made.out.records + Check(e, s.inner, made.result.value, mode, path).records)[..|s.transformers|] == made.out.records;
    assert [] + Check(e, s.inner, made.result.value, mode, path).errors == Check(e, s.inner, made.result.value, mode, path).errors;
  }

  // ---- same report ----

  /** No object that is rebuilt has validators of its own: they see the rebuilt map, not the input. */
  ghost predicate Unwatched(s: Schema)
    decreases s
  {
    match s
    case ObjectSchema(_, fields, _, _, rules, transformable) =>
      transformable ==> rules == [] && forall k | k in fields :: Unwatched(fields[k])
    case ArraySchema(_, element, _, _, _, _, transformable) => transformable && element.Some? ==> Unwatched(element.value)
    case _ => true
  }

  /** Then ValidateAndTransform appends to the context exactly what Validate appends. */
  lemma {:induction false} SameReport(e: Env, s: Schema, v: Value, mode: Mode, path: seq<string>)
    requires Unwatched(s)
    ensures Convert(e, s, v, mode, path).out == Check(e, s, v, mode, path)
    decreases s, 2
  {
    hide At, MissingOut, ExtraOut, CountFaults, Elements, Ascending, ConvertFields, FieldsOut, ConvertItems, ItemsOut, Extras;
    if s.ObjectSchema? && s.transformable && v.Map? {
      assert v == Map(v.entries);
      CheckOfMap(e, s, v.entries, mode, path);
      var names := Sorted(s.fields.Keys);
      SameFields(e, s, names, |names|, v.entries, mode, path);
    } else if s.ArraySchema? && s.transformable && v.List? {
      assert v == List(v.items);
      CheckOfList(e, s, v.items, mode, path);
      SameItems(e, s, v.items, |v.items|, mode, path);
      if s.element.None? {
        NoElements(e, s, v.items, |v.items|, mode, path);
      }
    }
  }

  lemma {:induction false} SameFields(e: Env, s: Schema, names: seq<string>, n: nat, entries: map<string, Value>,
                                      mode: Mode, path: seq<string>)
    requires s.ObjectSchema? && s.transformable && Unwatched(s)
    requires n <= |names| && forall i | 0 <= i < |names| :: names[i] in s.fields
    ensures ConvertFields(e, s, names, n, entries, mode, path) == FieldsOut(e, s, names, n, entries, mode, path)
    decreases s, 1, n
  {
    hide Check, Convert, At;
    if n > 0 {
      SameFields(e, s, names, n - 1, entries, mode, path);
      var name := names[n - 1];
      if name in entries {
        SameReport(e, s.fields[name], entries[name], mode, path + [name]);
      }
    }
  }

  lemma {:induction false} SameItems(e: Env, s: Schema, items: seq<Value>, n: nat, mode: Mode, path: seq<string>)
    requires s.ArraySchema? && s.transformable && Unwatched(s) && n <= |items|
    ensures s.element.Some? ==>
      ConvertItems(e, s, items, n, mode, path) == ItemsOut(e, s.element.value, items, n, mode, path)
    decreases s, 1, n
  {
    hide Check, Convert;
    if n > 0 && s.element.Some? {
      SameItems(e, s, items, n - 1, mode, path);
      SameReport(e, s.element.value, items[n - 1], mode, path + [IndexSegment(n - 1)]);
    }
  }

  lemma {:induction false} NoElements(e: Env, s: Schema, items: seq<Value>, n: nat, mode: Mode, path: seq<string>)
    requires s.ArraySchema? && s.element.None? && n <= |items|
    ensures ConvertItems(e, s, items, n, mode, path) == NOTHING
    ensures MadeItems(e, s, items, n, mode, path) == items[..n]
  {
    if n > 0 {
      NoElements(e, s, items, n - 1, mode, path);
      assert items[..n] == items[..n - 1] + [items[n - 1]];
    }
  }

  // ---- without transformers ----

  /** No transformer is reachable through the objects and arrays that are rebuilt. */
  ghost predicate TransformFree(s: Schema)
    decreases s
  {
    match s
    case ObjectSchema(_, fields, _, _, _, transformable) =>
      transformable ==> forall k | k in fields :: TransformFree(fields[k])
    case ArraySchema(_, element, _, _, _, _, transformable) =>
      transformable && element.Some? ==> TransformFree(element.value)
    case TransformSchema(_, _, _) => false
    case _ => true
  }

  /** The two outcomes agree on acceptance, and an accepted run reports the same. */
  predicate Agree(a: Out, b: Out) {
    (a.errors == [] <==> b.errors == []) && (b.errors == [] ==> a == b)
  }

  /** ValidateAndTransform accepts the values that Validate accepts, and returns them unchanged. */
  lemma {:induction false} PlainConvert(e: Env, s: Schema, v: Value, mode: Mode, path: seq<string>)
    requires TransformFree(s)
    ensures Agree(Convert(e, s, v, mode, path).out, Check(e, s, v, mode, path))
    ensures Check(e, s, v, mode, path).errors == [] ==> Convert(e, s, v, mode, path).value == v
    decreases s, 3
  {
    hide At, CheckObject, CheckArray, ConvertObject, ConvertArray;
    if s.ObjectSchema? && s.transformable && v.Map? {
      assert v == Map(v.entries);
      CheckOfMap(e, s, v.entries, mode, path);
      PlainObject(e, s, v.entries, mode, path);
    } else if s.ArraySchema? && s.transformable && v.List? {
      assert v == List(v.items);
      CheckOfList(e, s, v.items, mode, path);
      PlainArray(e, s, v.items, mode, path);
    }
  }

  function Overlay(entries: map<string, Value>, s: Schema, mode: Mode, names: seq<string>): map<string, Value>
    requires s.ObjectSchema?
  {
    map k | k in entries && Kept(k, s, mode, names) :: entries[k]
  }

  lemma {:induction false} PlainFields(e: Env, s: Schema, names: seq<string>, n: nat, entries: map<string, Value>,
                                       mode: Mode, path: seq<string>)
    requires s.ObjectSchema? && s.transformable && TransformFree(s)
    requires n <= |names| && forall i | 0 <= i < |names| :: names[i] in s.fields
    ensures Agree(ConvertFields(e, s, names, n, entries, mode, path), FieldsOut(e, s, names, n, entries, mode, path))
    ensures FieldsOut(e, s, names, n, entries, mode, path).errors == [] ==>
      MadeEntries(e, s, names, n, entries, mode, path) == Overlay(entries, s, mode, names[..n])
    decreases s, 1, n
  {
    hide Check, Convert, At, TransformFree, Overlay, Kept;
    OverlayNone(entries, s, mode);
    assert names[..0] == [];
    if n > 0 {
      PlainFields(e, s, names, n - 1, entries, mode, path);
      PlainField(e, s, names[n - 1], entries, mode, path);
      OverlayStep(entries, s, mode, names, n);
    }
  }

  lemma OverlayNone(entries: map<string, Value>, s: Schema, mode: Mode)
    requires s.ObjectSchema?
    ensures Overlay(entries, s, mode, []) == if RejectsExtra(s, mode) then map[] else entries
  {
  }

  lemma OverlayStep(entries: map<string, Value>, s: Schema, mode: Mode, names: seq<string>, n: nat)
    requires s.ObjectSchema? && 0 < n <= |names|
    ensures Overlay(entries, s, mode, names[..n]) ==
      var before, name := Overlay(entries, s, mode, names[..n - 1]), names[n - 1];
      if name in entries then before[name := entries[name]] else before
  {
    assert names[..n] == names[..n - 1] + [names[n - 1]];
  }

  lemma {:induction false} PlainField(e: Env, s: Schema, name: string, entries: map<string, Value>, mode: Mode, path: seq<string>)
    requires s.ObjectSchema? && s.transformable && TransformFree(s) && name in s.fields
    ensures Agree(ConvertField(e, s, name, entries, mode, path), FieldOut(e, s, name, entries, mode, path))
    ensures name in entries && FieldOut(e, s, name, entries, mode, path).errors == [] ==>
      Convert(e, s.fields[name], entries[name], mode, path + [name]).value == entries[name]
    decreases s, 0
  {
    hide Check, Convert, At;
    if name in entries {
      PlainConvert(e, s.fields[name], entries[name], mode, path + [name]);
    }
  }

  lemma {:induction false} NoExtras(names: seq<string>, n: nat, entries: map<string, Value>, declared: set<string>, path: seq<string>)
    requires n <= |names| && forall i | 0 <= i < |names| :: names[i] in entries
    requires ExtraOut(names, n, entries, declared, path).errors == []
    ensures forall i | 0 <= i < n :: names[i] in declared
  {
    if n > 0 {
      NoExtras(names, n - 1, entries, declared, path);
    }
  }

  lemma OverlayIsAll(e: Env, s: Schema, entries: map<string, Value>, mode: Mode, path: seq<string>)
    requires s.ObjectSchema? && Extras(s, entries, mode, path).errors == []
    ensures Overlay(entries, s, mode, Sorted(s.fields.Keys)) == entries
  {
    hide Elements, Ascending;
    if RejectsExtra(s, mode) {
      var keys := Sorted(entries.Keys);
      NoExtras(keys, |keys|, entries, s.fields.Keys, path);
      forall k | k in entries
        ensures k in Sorted(s.fields.Keys)
      {
        SortedHas(entries.Keys, k);
        SortedHas(s.fields.Keys, k);
      }
    }
  }

  lemma {:induction false} PlainObject(e: Env, s: Schema, entries: map<string, Value>, mode: Mode, path: seq<string>)
    requires s.ObjectSchema? && s.transformable && TransformFree(s)
    ensures Agree(ConvertObject(e, s, entries, mode, path).out, CheckObject(e, s, entries, mode, path))
    ensures CheckObject(e, s, entries, mode, path).errors == [] ==>
      ConvertObject(e, s, entries, mode, path).value == Map(entries)
    decreases s, 2
  {
    hide At, MissingOut, Extras, RuleFaults, ConvertFields, FieldsOut, MadeEntries, Overlay, TransformFree, Elements, Ascending,
      Then, Agree;
    var names := Sorted(s.fields.Keys);
    PlainFields(e, s, names, |names|, entries, mode, path);
    assert names[..|names|] == names;
    var extras := Extras(s, entries, mode, path);
    if extras.errors == [] {
      OverlayIsAll(e, s, entries, mode, path);
    }
    var made := MadeEntries(e, s, names, |names|, entries, mode, path);
    FourAgree(
      MissingOut(Sorted(s.requiredFields), |Sorted(s.requiredFields)|, entries, path),
      ConvertFields(e, s, names, |names|, entries, mode, path),
      DeclaredOut(e, s, entries, mode, path),
      extras,
      At(path, RuleFaults(e, s.rules, |s.rules|, Map(made))),
      At(path, RuleFaults(e, s.rules, |s.rules|, Map(entries))));
  }

  lemma FourAgree(missing: Out, converted: Out, checked: Out, extras: Out, after: Out, before: Out)
    requires Agree(converted, checked)
    requires checked.errors == [] && extras.errors == [] ==> after == before
    ensures Agree(Then(Then(Then(missing, converted), extras), after), Then(Then(Then(missing, checked), extras), before))
    ensures Then(Then(Then(missing, checked), extras), before).errors == [] ==> checked.errors == [] && extras.errors == []
  {
  }

  lemma {:induction false} PlainItems(e: Env, s: Schema, items: seq<Value>, n: nat, mode: Mode, path: seq<string>)
    requires s.ArraySchema? && s.transformable && TransformFree(s) && n <= |items| && s.element.Some?
    ensures Agree(ConvertItems(e, s, items, n, mode, path), ItemsOut(e, s.element.value, items, n, mode, path))
    ensures ItemsOut(e, s.element.value, items, n, mode, path).errors == [] ==>
      MadeItems(e, s, items, n, mode, path) == items[..n]
    decreases s, 1, n
  {
    hide Check, Convert;
    if n > 0 {
      PlainItems(e, s, items, n - 1, mode, path);
      PlainConvert(e, s.element.value, items[n - 1], mode, path + [IndexSegment(n - 1)]);
      assert items[..n] == items[..n - 1] + [items[n - 1]];
    }
  }

  lemma {:induction false} PlainArray(e: Env, s: Schema, items: seq<Value>, mode: Mode, path: seq<string>)
    requires s.ArraySchema? && s.transformable && TransformFree(s)
    ensures Agree(ConvertArray(e, s, items, mode, path).out, CheckArray(e, s, items, mode, path))
    ensures CheckArray(e, s, items, mode, path).errors == [] ==>
      ConvertArray(e, s, items, mode, path).value == List(items)
    decreases s, 2
  {
    hide At, CountFaults, RuleFaults, ConvertItems, ItemsOut, MadeItems, TransformFree;
    if s.element.Some? {
      PlainItems(e, s, items, |items|, mode, path);
    } else {
      NoElements(e, s, items, |items|, mode, path);
    }
    assert items[..|items|] == items;
  }
}
