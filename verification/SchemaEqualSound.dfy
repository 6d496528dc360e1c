/**
 What Equal tells: for schemas within the stated bounds, equal canonical strings are equal normal
 forms, and equal normal forms accept the same values. Each bound is needed.
 */
module SchemaEqualSound {
  import opened Values
  import opened Keys
  import opened Schemas
  import opened QueryRoundTrip
  import opened SchemaEquality
  import opened SchemaDecoding
  import opened SchemaCompileCorrect

  // ---- a schema and its normal form have the same canonical string ----

  lemma {:induction false} NormCanon(g: Printer, s: Schema)
    ensures Canon(g, Norm(s)) == Canon(g, s)
    decreases s, 2
  {
    hide SettingsText, OwnSettings, Elements, Ascending, Rest, Opening, BaseText;
    NormSettings(g, s);
    NormRest(g, s);
  }

  lemma NormSettings(g: Printer, s: Schema)
    ensures OwnSettings(g, Norm(s)) == OwnSettings(g, s)
    ensures Opening(g, Norm(s)) == Opening(g, s) && BaseText(g, Norm(s)) == BaseText(g, s)
  {
    hide DecimalInt, SettingsText, MetaText, PartsText, Canon;
  }

  lemma {:induction false} NormRest(g: Printer, s: Schema)
    ensures Rest(g, Norm(s)) == Rest(g, s)
    decreases s, 1
  {
    hide Canon, EnumText, FieldsText, Elements, Ascending;
    if s.ObjectSchema? {
      assert Norm(s).fields.Keys == s.fields.Keys;
      NormFieldsText(g, s, Sorted(s.fields.Keys), 0);
    } else if s.ArraySchema? && s.element.Some? {
      NormCanon(g, s.element.value);
    }
  }

  lemma {:induction false} NormFieldsText(g: Printer, s: Schema, names: seq<string>, i: nat)
    requires s.ObjectSchema? && i <= |names| && forall i | 0 <= i < |names| :: names[i] in s.fields
    ensures FieldsText(g, Norm(s), names, i) == FieldsText(g, s, names, i)
    decreases s, 0, |names| - i
  {
    hide Canon;
    if i < |names| {
      NormFieldsText(g, s, names, i + 1);
      NormCanon(g, s.fields[names[i]]);
    }
  }

  /** Equal compares normal forms, no more and no less. */
  lemma EqualIsSameNorm(g: Printer, s: Schema, t: Schema)
    requires Clean(s) && Clean(t) && Tells(g, s) && Tells(g, t)
    ensures Equal(g, s, t) <==> Norm(s) == Norm(t)
  {
    hide Canon, Norm, Clean, Tells;
    NormCanon(g, s);
    NormCanon(g, t);
    if Equal(g, s, t) {
      EqualMeansSameNorm(g, s, t);
    }
  }

  // ---- a schema and its normal form accept the same values ----

  lemma NormString(e: Env, s: Schema, v: Value, mode: Mode)
    requires s.StringSchema? && EmptyMatches(e)
    ensures StringFaults(e, Norm(s), v, mode) == [] <==> StringFaults(e, s, v, mode) == []
  {
    hide RuleFaults, LengthFaults;
    var t := TextOf(e, v, mode);
    if t.Some? {
      assert e.matches("", t.value);
      assert LengthFaults(Norm(s), t.value) == LengthFaults(s, t.value) by {
        SameLength(s, t.value);
      }
    }
  }

  lemma SameLength(s: Schema, t: string)
    requires s.StringSchema?
    ensures LengthFaults(Norm(s), t) == LengthFaults(s, t)
  {
  }

  lemma NormNumber(e: Env, s: Schema, v: Value, mode: Mode)
    requires s.NumberSchema? && Clean(s)
    ensures NumberFaults(e, Norm(s), v, mode) == [] <==> NumberFaults(e, s, v, mode) == []
  {
    hide RuleFaults, Whole;
    var r := NumberOf(e, v, mode);
    if r.Some? {
      var n := AsNumber(r.value);
      RulesClean(e, s.rules, |s.rules|, n);
      RulesClean(e, Norm(s).rules, |Norm(s).rules|, n);
      if Integer in s.rules {
        var i :| 0 <= i < |s.rules| && s.rules[i] == Integer;
        assert RulePasses(e, s.rules[i], n) <==> RulePasses(e, Norm(s).rules[0], n);
      }
    }
  }

  lemma {:induction false} NormAccepts(e: Env, s: Schema, v: Value, mode: Mode, path: seq<string>)
    requires Clean(s) && EmptyMatches(e)
    ensures Check(e, Norm(s), v, mode, path).errors == [] <==> Check(e, s, v, mode, path).errors == []
    decreases s, 4
  {
    hide At, StringFaults, NumberFaults, BoolFaults, CheckObject, CheckArray, EmptyMatches, NullFaults, Free, IsName;
    NormKeepsBase(s);
    if !v.Null? {
      match s
      case StringSchema(_, _, _, _, _, _, _) =>
        NormString(e, s, v, mode);
        AtClean(path, StringFaults(e, s, v, mode));
        AtClean(path, StringFaults(e, Norm(s), v, mode));
      case NumberSchema(_, _, _, _, _) =>
        NormNumber(e, s, v, mode);
        AtClean(path, NumberFaults(e, s, v, mode));
        AtClean(path, NumberFaults(e, Norm(s), v, mode));
      case BoolSchema(_, _) =>
      case ObjectSchema(_, _, _, _, _, _) =>
        if v.Map? {
          assert v == Map(v.entries);
          NormEntries(e, s, v.entries, mode, path);
        }
      case ArraySchema(_, _, _, _, _, _, _) =>
        if v.List? {
          assert v == List(v.items);
          NormElements(e, s, v.items, mode, path);
        }
    }
  }

  lemma {:induction false} NormItems(e: Env, element: Schema, items: seq<Value>, n: nat, mode: Mode, path: seq<string>)
    requires Clean(element) && EmptyMatches(e) && n <= |items|
    ensures ItemsOut(e, Norm(element), items, n, mode, path).errors == [] <==>
      ItemsOut(e, element, items, n, mode, path).errors == []
    decreases element, 5, n
  {
    hide Check, Norm, Clean, EmptyMatches;
    if n > 0 {
      NormItems(e, element, items, n - 1, mode, path);
      NormAccepts(e, element, items[n - 1], mode, path + [IndexSegment(n - 1)]);
    }
  }

  lemma {:induction false} NormElements(e: Env, s: Schema, items: seq<Value>, mode: Mode, path: seq<string>)
    requires s.ArraySchema? && Clean(s) && EmptyMatches(e)
    ensures CheckArray(e, Norm(s), items, mode, path).errors == [] <==> CheckArray(e, s, items, mode, path).errors == []
    decreases s, 3
  {
    hide At, ItemsOut, EmptyMatches, RuleFaults, Repeats;
    assert CountFaults(e, Norm(s), items) == CountFaults(e, s, items);
    if s.element.Some? {
      NormItems(e, s.element.value, items, |items|, mode, path);
    }
  }

  lemma {:induction false} NormFields(e: Env, s: Schema, names: seq<string>, n: nat, entries: map<string, Value>,
                                      mode: Mode, path: seq<string>)
    requires s.ObjectSchema? && Clean(s) && EmptyMatches(e) && n <= |names|
    requires forall i | 0 <= i < |names| :: names[i] in s.fields
    ensures FieldsOut(e, Norm(s), names, n, entries, mode, path).errors == [] <==>
      FieldsOut(e, s, names, n, entries, mode, path).errors == []
    decreases s, 2, n
  {
    hide FieldOut, Clean, EmptyMatches;
    if n > 0 {
      NormFields(e, s, names, n - 1, entries, mode, path);
      NormField(e, s, names[n - 1], entries, mode, path);
    }
  }

  lemma {:induction false} NormField(e: Env, s: Schema, name: string, entries: map<string, Value>, mode: Mode, path: seq<string>)
    requires s.ObjectSchema? && Clean(s) && EmptyMatches(e) && name in s.fields
    ensures FieldOut(e, Norm(s), name, entries, mode, path).errors == [] <==>
      FieldOut(e, s, name, entries, mode, path).errors == []
    decreases s, 1
  {
    hide At, Check, EmptyMatches, Free, IsName;
    var field := s.fields[name];
    assert Norm(s).fields[name] == Norm(field);
    if name in entries {
      NormAccepts(e, field, entries[name], mode, path + [name]);
    } else {
      NormKeepsBase(field);
      CleanBase(field);
    }
  }

  lemma {:induction false} NormEntries(e: Env, s: Schema, entries: map<string, Value>, mode: Mode, path: seq<string>)
    requires s.ObjectSchema? && Clean(s) && EmptyMatches(e)
    ensures CheckObject(e, Norm(s), entries, mode, path).errors == [] <==> CheckObject(e, s, entries, mode, path).errors == []
    decreases s, 3
  {
    hide At, FieldsOut, MissingOut, ExtraOut, EmptyMatches, RuleFaults, Elements, Ascending, Clean;
    var names := Sorted(s.fields.Keys);
    assert Norm(s).fields.Keys == s.fields.Keys;
    NormFields(e, s, names, |names|, entries, mode, path);
  }

  /** The main result: Equal is sound. */
  lemma EqualAcceptSame(g: Printer, e: Env, s: Schema, t: Schema, v: Value, mode: Mode, path: seq<string>)
    requires Clean(s) && Clean(t) && Tells(g, s) && Tells(g, t) && EmptyMatches(e) && Equal(g, s, t)
    ensures Check(e, s, v, mode, path).errors == [] <==> Check(e, t, v, mode, path).errors == []
  {
    hide Check, Clean, Norm, Canon, Tells, EmptyMatches;
    EqualIsSameNorm(g, s, t);
    NormAccepts(e, s, v, mode, path);
    NormAccepts(e, t, v, mode, path);
  }

  // ---- printers that meet the demand ----

  /** Prints the numbers that are whole after scaling; for a scale of 2^1074 every finite float64 is one. */
  function Scaled(scale: real): Printer {
    Printer((r: real) => DecimalInt(Times(r, scale).Floor), (r: real) => Whole(Times(r, scale)), (v: Value) => "")
  }

  function Times(r: real, scale: real): real {
    r * scale
  }

  lemma ScaledParts(scale: real, r: real)
    ensures Scaled(scale).known(r) <==> Whole(r * scale)
    ensures Scaled(scale).number(r) == DecimalInt((r * scale).Floor)
  {
  }

  lemma SameScaled(scale: real, r: real, q: real)
    requires scale > 0.0 && r * scale == q * scale
    ensures r == q
  {
    assert (r - q) * scale == 0.0;
  }

  lemma ScaledTellsApart(scale: real, r: real, q: real)
    requires scale > 0.0 && Whole(r * scale) && Whole(q * scale)
    requires DecimalInt((r * scale).Floor) == DecimalInt((q * scale).Floor)
    ensures r == q
  {
    hide DecimalInt;
    DecimalUnique((r * scale).Floor, (q * scale).Floor);
    SameScaled(scale, r, q);
  }

  lemma ScaledIsGood(scale: real)
    requires scale > 0.0
    ensures GoodPrinter(Scaled(scale))
  {
    hide DecimalInt, Free, Whole;
    var g := Scaled(scale);
    forall r | g.known(r)
      ensures Free(g.number(r))
    {
      ScaledParts(scale, r);
      DecimalFree((r * scale).Floor);
    }
    forall r, q | g.known(r) && g.known(q) && g.number(r) == g.number(q)
      ensures r == q
    {
      ScaledParts(scale, r);
      ScaledParts(scale, q);
      ScaledTellsApart(scale, r, q);
    }
  }

  /** Two different schemas with any such bounds in them meet the demands of the main result. */
  lemma DemandsAreMet(low: real, high: real, scale: real)
    requires scale > 0.0 && Whole(low * scale) && Whole(high * scale)
    ensures
      var g, s, t := Scaled(scale), Between(low, high, [Integer]), Between(low, high, [Integer, Integer]);
      s != t && Clean(s) && Clean(t) && Tells(g, s) && Tells(g, t) && Equal(g, s, t)
  {
    hide GoodPrinter, Whole, SettingsText, RealSetting;
    ScaledIsGood(scale);
    var g, s, t := Scaled(scale), Between(low, high, [Integer]), Between(low, high, [Integer, Integer]);
    ScaledParts(scale, low);
    ScaledParts(scale, high);
    assert |s.rules| != |t.rules|;
    assert Tells(g, s) && Tells(g, t);
    assert Clean(s) && Clean(t);
    assert s.rules[0] == t.rules[0] == Integer;
    SameCanon(g, s, t);
  }

  /** Schemas that differ only in what a canonical string leaves out are Equal. */
  lemma SameCanon(g: Printer, s: Schema, t: Schema)
    requires Opening(g, s) == Opening(g, t) && BaseText(g, s) == BaseText(g, t)
    requires OwnSettings(g, s) == OwnSettings(g, t) && Rest(g, s) == Rest(g, t)
    ensures Equal(g, s, t)
  {
  }

  function Between(low: real, high: real, rules: seq<Rule>): Schema {
    NumberSchema(Plain(), Some(low), Some(high), None, rules)
  }

  // ---- why the bounds ----

  function Plain(): Base {
    Base(false, false, map[])
  }

  function WithRules(s: Schema, rules: seq<Rule>): Schema
    requires s.NumberSchema?
  {
    NumberSchema(s.base, s.min, s.max, s.multipleOf, rules)
  }

  function WithEnum(s: Schema, enum: seq<string>): Schema
    requires s.StringSchema?
  {
    StringSchema(s.base, s.minLength, s.maxLength, s.pattern, enum, s.format, s.rules)
  }

  function Unique(s: Schema): Schema
    requires s.ArraySchema?
  {
    ArraySchema(s.base, s.element, s.minItems, s.maxItems, true, s.rules, s.transformable)
  }

  /** Both verdicts on a value are the same. */
  ghost predicate SameAnswer(e: Env, s: Schema, t: Schema, v: Value, mode: Mode, path: seq<string>) {
    Check(e, s, v, mode, path).errors == [] <==> Check(e, t, v, mode, path).errors == []
  }

  /** Uniqueness of items is not in the canonical string, which matters exactly for lists with a repeat that are otherwise fine. */
  lemma UniqueItemsUnseen(g: Printer, e: Env, s: Schema, v: Value, mode: Mode, path: seq<string>)
    requires s.ArraySchema? && !s.uniqueItems
    ensures
      var t := Unique(s);
      && Equal(g, s, t)
      && (SameAnswer(e, s, t, v, mode, path) <==>
           Check(e, s, v, mode, path).errors != [] || !v.List? || !Repeats(e, v.items))
  {
    hide SettingsText, Repeats, ItemsOut, Canon, RuleFaults, MetaText, At, CheckArray;
    var t := Unique(s);
    SameCanon(g, s, t);
    if v.List? {
      assert v == List(v.items);
      CheckOfList(e, s, v.items, mode, path);
      CheckOfList(e, t, v.items, mode, path);
      ArrayParts(e, s, v.items, mode, path);
      ArrayParts(e, t, v.items, mode, path);
      assert ElementsOut(e, s, v.items, mode, path) == ElementsOut(e, t, v.items, mode, path);
    } else {
      assert Check(e, s, v, mode, path) == Check(e, t, v, mode, path);
    }
  }

  lemma ArrayParts(e: Env, s: Schema, items: seq<Value>, mode: Mode, path: seq<string>)
    requires s.ArraySchema?
    ensures CheckArray(e, s, items, mode, path).errors == [] <==>
      && CountFaults(e, s, items) == []
      && ElementsOut(e, s, items, mode, path).errors == []
      && RuleFaults(e, s.rules, |s.rules|, List(items)) == []
  {
    hide At, ElementsOut, RuleFaults, CountFaults;
    AtClean(path, CountFaults(e, s, items));
    AtClean(path, RuleFaults(e, s.rules, |s.rules|, List(items)));
  }

  lemma RepeatIsUnseen(g: Printer, e: Env, item: Value)
    ensures
      var s := ArraySchema(Plain(), None, None, None, false, [], true);
      var t, v := Unique(s), List([item, item]);
      Equal(g, s, t) && Check(e, s, v, Strict, []).errors == [] && Check(e, t, v, Strict, []).errors != []
  {
    hide Canon;
    var s, v := ArraySchema(Plain(), None, None, None, false, [], true), List([item, item]);
    UniqueItemsUnseen(g, e, s, v, Strict, []);
    assert RepeatsAt(e, v.items, 1) by {
      assert e.show(v.items[0]) == e.show(v.items[1]);
    }
    CheckOfList(e, s, v.items, Strict, []);
  }

  /** Positive leaves only its lower bound behind, so it is missed exactly where zero is otherwise fine. */
  lemma PositiveUnseen(g: Printer, e: Env, s: Schema, v: Value, mode: Mode, path: seq<string>)
    requires s.NumberSchema? && s.min == Some(0.0)
    ensures
      var t := WithRules(s, s.rules + [Positive]);
      && Equal(g, s, t)
      && (SameAnswer(e, s, t, v, mode, path) <==>
           Check(e, s, v, mode, path).errors != [] || NumberOf(e, v, mode) != Some(0.0))
  {
    hide Canon, Check;
    SignUnseen(g, e, s, Positive, v, mode, path);
    if NumberOf(e, v, mode).Some? && Check(e, s, v, mode, path).errors == [] {
      assert NumberOf(e, v, mode).value >= 0.0;
    }
  }

  /** Negative likewise, with its upper bound. */
  lemma NegativeUnseen(g: Printer, e: Env, s: Schema, v: Value, mode: Mode, path: seq<string>)
    requires s.NumberSchema? && s.max == Some(0.0)
    ensures
      var t := WithRules(s, s.rules + [Negative]);
      && Equal(g, s, t)
      && (SameAnswer(e, s, t, v, mode, path) <==>
           Check(e, s, v, mode, path).errors != [] || NumberOf(e, v, mode) != Some(0.0))
  {
    hide Canon, Check;
    SignUnseen(g, e, s, Negative, v, mode, path);
  }

  /** A sign validator is not in the canonical string; it rejects what its own test rejects. */
  lemma SignUnseen(g: Printer, e: Env, s: Schema, sign: Rule, v: Value, mode: Mode, path: seq<string>)
    requires s.NumberSchema? && (sign == Positive || sign == Negative)
    ensures
      var t := WithRules(s, s.rules + [sign]);
      var r := NumberOf(e, v, mode);
      && Equal(g, s, t)
      && (Check(e, s, v, mode, path).errors == [] && r.Some? ==> LimitsHold(s, r.value))
      && (Check(e, t, v, mode, path).errors == [] <==>
           Check(e, s, v, mode, path).errors == [] && (r.Some? ==> RulePasses(e, sign, AsNumber(r.value))))
  {
    hide SettingsText, MetaText, Canon, LimitsHold, RulesPass, RulePasses, AmountFaults;
    var t := WithRules(s, s.rules + [sign]);
    SameCanon(g, s, t);
    assert t.rules[..|s.rules|] == s.rules;
    var r := NumberOf(e, v, mode);
    if r.Some? {
      NumberAnswers(e, s, v, mode, path);
      NumberAnswers(e, t, v, mode, path);
      AmountParts(e, s, r.value);
      AmountParts(e, t, r.value);
      LastRule(e, s.rules, sign, AsNumber(r.value));
      SameLimits(s, t, r.value);
    }
  }

  lemma LastRule(e: Env, rules: seq<Rule>, rule: Rule, v: Value)
    ensures RulesPass(e, rules + [rule], v) <==> RulesPass(e, rules, v) && RulePasses(e, rule, v)
  {
    hide RulePasses;
    var all := rules + [rule];
    assert all[|rules|] == rule;
    assert forall i | 0 <= i < |rules| :: all[i] == rules[i];
  }

  lemma SameLimits(s: Schema, t: Schema, r: real)
    requires s.NumberSchema? && t.NumberSchema? && t == WithRules(s, t.rules)
    ensures LimitsHold(s, r) <==> LimitsHold(t, r)
  {
  }

  /** A zero tells the two apart, whichever sign is asked for. */
  lemma SignIsUnseen(g: Printer, e: Env)
    ensures
      var s := NumberSchema(Plain(), Some(0.0), Some(0.0), None, []);
      var p, n, v := WithRules(s, [Positive]), WithRules(s, [Negative]), Num(Int, 0.0);
      && Equal(g, s, p) && Equal(g, s, n) && Check(e, s, v, Strict, []).errors == []
      && Check(e, p, v, Strict, []).errors != [] && Check(e, n, v, Strict, []).errors != []
  {
    hide Canon;
    var s, v := NumberSchema(Plain(), Some(0.0), Some(0.0), None, []), Num(Int, 0.0);
    assert AmountFaults(e, s, 0.0) == [];
    assert s.rules + [Positive] == [Positive] && s.rules + [Negative] == [Negative];
    PositiveUnseen(g, e, s, v, Strict, []);
    NegativeUnseen(g, e, s, v, Strict, []);
  }

  /** Enums whose values join alike have one canonical string, which matters exactly for texts in one of them only. */
  lemma EnumUnseen(g: Printer, e: Env, s: Schema, other: seq<string>, v: Value, mode: Mode, path: seq<string>)
    requires s.StringSchema? && s.enum != [] && other != [] && EnumText(s.enum) == EnumText(other)
    ensures
      var t, text := WithEnum(s, other), TextOf(e, v, mode);
      && Equal(g, s, t)
      && (SameAnswer(e, s, t, v, mode, path) <==>
           Check(e, WithEnum(s, []), v, mode, path).errors != [] || text.None? || (text.value in s.enum <==> text.value in other))
  {
    hide SettingsText, MetaText, EnumText, RuleFaults, LengthFaults;
    var t, free := WithEnum(s, other), WithEnum(s, []);
    SameCanon(g, s, t);
    TextAnswers(e, s, v, mode, path);
    TextAnswers(e, t, v, mode, path);
    TextAnswers(e, free, v, mode, path);
    var text := TextOf(e, v, mode);
    if text.Some? {
      EnumAside(e, s, s.enum, text.value);
      EnumAside(e, s, other, text.value);
    }
  }

  lemma EnumAside(e: Env, s: Schema, values: seq<string>, text: string)
    requires s.StringSchema? && values != []
    ensures TextFaults(e, WithEnum(s, values), text) == [] <==> TextFaults(e, WithEnum(s, []), text) == [] && text in values
  {
    hide RuleFaults;
    var t, free := WithEnum(s, values), WithEnum(s, []);
    assert LengthFaults(t, text) == LengthFaults(free, text);
  }

  /** A comma in an allowed value cannot be told from the comma between two. */
  lemma CommaAmbiguous(g: Printer, e: Env)
    ensures
      var s, t := StringSchema(Plain(), None, None, None, ["a,b"], "", []), StringSchema(Plain(), None, None, None, ["a", "b"], "", []);
      && Equal(g, s, t)
      && Check(e, s, Str("a"), Strict, []).errors != [] && Check(e, t, Str("a"), Strict, []).errors == []
  {
    hide Canon, Check;
    var s, t := StringSchema(Plain(), None, None, None, ["a,b"], "", []), StringSchema(Plain(), None, None, None, ["a", "b"], "", []);
    assert CommaJoined(["b"]) == ",b" && CommaJoined([]) == "";
    assert ["a", "b"][1..] == ["b"] && ["a,b"][1..] == [];
    assert EnumText(["a,b"]) == ";enum=[a,b]" && EnumText(["a", "b"]) == ";enum=[a,b]";
    assert |"a"| != |"a,b"|;
    EnumUnseen(g, e, s, ["a", "b"], Str("a"), Strict, []);
    assert TextFaults(e, t, "a") == [] && TextFaults(e, WithEnum(s, []), "a") == [];
    TextAnswers(e, t, Str("a"), Strict, []);
    TextAnswers(e, WithEnum(s, []), Str("a"), Strict, []);
  }

  lemma TextAnswers(e: Env, s: Schema, v: Value, mode: Mode, path: seq<string>)
    requires s.StringSchema?
    ensures Check(e, s, v, mode, path).errors == [] <==>
      if v.Null? then NullFaults(s.base) == [] else StringFaults(e, s, v, mode) == []
  {
    hide StringFaults, At;
    AtClean(path, NullFaults(s.base));
    AtClean(path, StringFaults(e, s, v, mode));
  }
}
