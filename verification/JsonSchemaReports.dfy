/**
 What an import reports about a document, as a relation on documents: which keyword, for what reason,
 at which place, and whether it is only a warning. The problems of an import are exactly these.
 */
module JsonSchemaReports {
  import opened Values
  import opened Keys
  import opened JsonSchema
  import opened JsonSchemaProblems
  import opened JsonSchemaMeaning
  import JsonRoundTrip

  // ---- what is wrong with a document ----

  /** The steps into a document, joined with dots. */
  function Place(path: string, q: seq<string>): string
    decreases |q|
  {
    if q == [] then path else Place(if path == "" then q[0] else path + "." + q[0], q[1..])
  }

  ghost predicate NamesType(raw: Doc, name: string) {
    TypeIs(raw, name) || (name == "" && forall other :: !TypeIs(raw, other))
  }

  predicate TextWrong(c: Codec, raw: Doc, keyword: string, cause: Cause, warning: bool) {
    || (keyword == "pattern" && cause == BadRegex && !warning
        && "pattern" in raw && raw["pattern"].Str? && !c.compiles(raw["pattern"].s))
    || (keyword == "format" && cause.UnknownFormat? && warning
        && TextKey(raw, "format", cause.name) && !OwnFormat(cause.name) && !c.registered(cause.name))
  }

  ghost predicate HereWrong(c: Codec, strict: bool, raw: Doc, keyword: string, cause: Cause, warning: bool) {
    || (keyword in UNSUPPORTED && keyword in raw && cause == Unsupported && warning == !strict)
    || (keyword == "type" && "type" in raw && !raw["type"].Str? && !raw["type"].List? && cause == OddType && !warning)
    || (keyword == "type" && cause.NoType? && !TypeKnown(raw) && NamesType(raw, cause.name) && !warning)
    || (TypeIs(raw, "string") && TextWrong(c, raw, keyword, cause, warning))
    || (TypeIs(raw, "object") && keyword == "properties" && "properties" in raw && !raw["properties"].Map? && cause == NotAnObject && !warning)
    || (TypeIs(raw, "object") && keyword == "additionalProperties" && "additionalProperties" in raw && raw["additionalProperties"].Map?
        && cause == NotEnforced && warning)
  }

  /** `keyword` is a problem at `q` below the document, or what stands there is not an object where one is expected. */
  ghost predicate Complains(c: Codec, strict: bool, doc: Value, q: seq<string>, keyword: string, cause: Cause, warning: bool)
    requires doc.Map?
    decreases doc, 1
  {
    var raw := doc.entries;
    || (q == [] && HereWrong(c, strict, raw, keyword, cause, warning))
    || (TypeIs(raw, "object") && "properties" in raw && raw["properties"].Map?
        && PropertyComplains(c, strict, raw["properties"], q, keyword, cause, warning))
    || (TypeIs(raw, "array") && "items" in raw && q != [] && q[0] == "items"
        && PlaceComplains(c, strict, raw["items"], q[1..], "items", keyword, cause, warning))
  }

  ghost predicate PropertyComplains(c: Codec, strict: bool, props: Value, q: seq<string>, keyword: string, cause: Cause, warning: bool)
    requires props.Map?
    decreases props, 0
  {
    q != [] && exists k | k in props.entries ::
      q[0] == "properties." + k && PlaceComplains(c, strict, props.entries[k], q[1..], "properties", keyword, cause, warning)
  }

  /** A place where an object is expected. */
  ghost predicate PlaceComplains(c: Codec, strict: bool, v: Value, q: seq<string>, expected: string, keyword: string, cause: Cause, warning: bool)
    decreases v, 2
  {
    if v.Map? then Complains(c, strict, v, q, keyword, cause, warning)
    else q == [] && keyword == expected && cause == NotAnObject && !warning
  }

  ghost predicate Told(c: Codec, strict: bool, doc: Value, path: string, x: Problem)
    requires doc.Map?
  {
    exists q :: Complains(c, strict, doc, q, x.keyword, x.cause, x.warning) && x.path == Place(path, q)
  }

  ghost predicate PlaceTold(c: Codec, strict: bool, v: Value, path: string, expected: string, x: Problem) {
    exists q :: PlaceComplains(c, strict, v, q, expected, x.keyword, x.cause, x.warning) && x.path == Place(path, q)
  }

  // ---- at the node itself ----

  lemma {:induction false} FlaggedHas(strict: bool, raw: Doc, names: seq<string>, n: nat, path: string, x: Problem)
    requires n <= |names|
    ensures x in Flagged(strict, raw, names, n, path) <==>
      exists i | 0 <= i < n :: names[i] in raw && x == Problem(path, names[i], Unsupported, !strict)
  {
    if n > 0 {
      FlaggedHas(strict, raw, names, n - 1, path, x);
    }
  }

  lemma UnsupportedTold(strict: bool, raw: Doc, path: string, x: Problem)
    ensures var names := Sorted(UNSUPPORTED);
      x in Flagged(strict, raw, names, |names|, path) <==>
        x.path == path && x.keyword in UNSUPPORTED && x.keyword in raw && x.cause == Unsupported && x.warning == !strict
  {
    hide Elements, Ascending;
    var names := Sorted(UNSUPPORTED);
    FlaggedHas(strict, raw, names, |names|, path, x);
    SortedHas(UNSUPPORTED, x.keyword);
    if x.keyword in UNSUPPORTED {
      var i :| 0 <= i < |names| && names[i] == x.keyword;
    }
  }

  lemma {:induction false} LastNameIs(items: seq<Value>, name: string)
    ensures LastName(items) == name <==> NamedLast(items, name) || (name == "" && forall other :: !NamedLast(items, other))
    decreases |items|
  {
    hide NamedLast;
    if items == [] {
      NoneNamed();
    } else {
      var n := |items| - 1;
      LastNameIs(items[..n], name);
      forall other
        ensures NamedLast(items, other) <==>
          if items[n].Str? && items[n].s != "null" then items[n].s == other else NamedLast(items[..n], other)
      {
        NamedLastStep(items, other);
      }
      if items[n].Str? && items[n].s != "null" {
        assert NamedLast(items, items[n].s);
      }
    }
  }

  lemma NoneNamed()
    ensures forall other :: !NamedLast([], other)
  {
  }

  lemma NamedLastStep(items: seq<Value>, name: string)
    requires items != []
    ensures var n := |items| - 1;
      NamedLast(items, name) <==>
        if items[n].Str? && items[n].s != "null" then items[n].s == name else NamedLast(items[..n], name)
  {
    var n := |items| - 1;
    var last, before := items[n], items[..n];
    if last.Str? && last.s != "null" {
      if last.s == name {
        assert items[n] == Str(name);
      }
    } else {
      if i :| 0 <= i < |before| && before[i] == Str(name) && forall j | i < j < |before| :: before[j].Str? ==> before[j].s == "null" {
        assert items[i] == Str(name);
        forall j | i < j < |items|
          ensures items[j].Str? ==> items[j].s == "null"
        {
          assert j < n ==> before[j] == items[j];
        }
      }
      if i :| 0 <= i < |items| && items[i] == Str(name) && forall j | i < j < |items| :: items[j].Str? ==> items[j].s == "null" {
        if name != "null" {
          assert before[i] == Str(name);
          forall j | i < j < |before|
            ensures before[j].Str? ==> before[j].s == "null"
          {
            assert before[j] == items[j];
          }
        }
      }
    }
  }

  lemma TypeNameIs(raw: Doc, name: string)
    ensures TypeName(raw) == name <==> NamesType(raw, name)
  {
    hide LastName, NamedLast;
    if "type" in raw && raw["type"].List? {
      LastNameIs(raw["type"].items, name);
      forall other
        ensures TypeIs(raw, other) <==> NamedLast(raw["type"].items, other)
      {
      }
    } else if "type" in raw && raw["type"].Str? {
      assert TypeIs(raw, raw["type"].s);
    } else if "type" !in raw && "properties" in raw {
      assert TypeIs(raw, "object");
    } else if "type" !in raw && "items" in raw {
      assert TypeIs(raw, "array");
    }
  }

  lemma TextTold(c: Codec, raw: Doc, path: string, x: Problem)
    ensures x in TextProblems(c, raw, path) <==> x.path == path && TextWrong(c, raw, x.keyword, x.cause, x.warning)
  {
    FormatIsKnown(c, if GetString(raw, "format").Some? then GetString(raw, "format").value else "");
    hide UseOf, OwnFormat, FormatKnown;
    assert |"pattern"| == 7 && |"format"| == 6;
  }

  lemma FormatIsKnown(c: Codec, f: string)
    ensures FormatKnown(c, f) <==> OwnFormat(f) || c.registered(f)
  {
  }

  // ---- the main result ----

  lemma PlaceStep(path: string, step: string, q: seq<string>)
    ensures Place(path, [step] + q) == Place(Inside(path, step), q)
  {
    assert ([step] + q)[0] == step && ([step] + q)[1..] == q;
  }

  /** The problems of an import are exactly what is wrong with the document. */
  lemma {:induction false} ProblemsAreComplaints(c: Codec, strict: bool, doc: Value, path: string, x: Problem)
    requires doc.Map?
    ensures x in Problems(c, strict, doc, path) <==> Told(c, strict, doc, path, x)
    decreases doc, 5
  {
    hide Flagged, OwnProblems, TypeProblems, Elements, Ascending, HereWrong, Told, SomeHere, SomeProperty, SomeElement;
    var raw := doc.entries;
    UnsupportedTold(strict, raw, path, x);
    OwnTold(c, strict, doc, path, x);
    ToldPieces(c, strict, doc, path, x);
    HereIs(c, strict, raw, path, x);
  }

  ghost predicate SomeHere(c: Codec, strict: bool, raw: Doc, path: string, x: Problem) {
    x.path == path && HereWrong(c, strict, raw, x.keyword, x.cause, x.warning)
  }

  ghost predicate SomeProperty(c: Codec, strict: bool, raw: Doc, path: string, x: Problem) {
    TypeIs(raw, "object") && "properties" in raw && raw["properties"].Map? &&
    exists k | k in raw["properties"].entries ::
      PlaceTold(c, strict, raw["properties"].entries[k], Inside(path, "properties." + k), "properties", x)
  }

  ghost predicate SomeElement(c: Codec, strict: bool, raw: Doc, path: string, x: Problem) {
    TypeIs(raw, "array") && "items" in raw && PlaceTold(c, strict, raw["items"], Inside(path, "items"), "items", x)
  }

  /** What is reported at the node apart from unsupported keywords and odd types. */
  ghost predicate OwnWrong(c: Codec, raw: Doc, path: string, x: Problem) {
    x.path == path && (
      || (x.keyword == "type" && x.cause.NoType? && !TypeKnown(raw) && NamesType(raw, x.cause.name) && !x.warning)
      || (TypeIs(raw, "string") && TextWrong(c, raw, x.keyword, x.cause, x.warning))
      || (TypeIs(raw, "object") && x.keyword == "properties" && "properties" in raw && !raw["properties"].Map?
          && x.cause == NotAnObject && !x.warning)
      || (TypeIs(raw, "object") && x.keyword == "additionalProperties" && "additionalProperties" in raw
          && raw["additionalProperties"].Map? && x.cause == NotEnforced && x.warning))
  }

  lemma HereIs(c: Codec, strict: bool, raw: Doc, path: string, x: Problem)
    ensures SomeHere(c, strict, raw, path, x) <==>
      || (x.path == path && x.keyword in UNSUPPORTED && x.keyword in raw && x.cause == Unsupported && x.warning == !strict)
      || x in TypeProblems(raw, path)
      || OwnWrong(c, raw, path, x)
  {
    hide TypeIs, TypeKnown, NamesType, TextWrong;
  }

  lemma ToldPieces(c: Codec, strict: bool, doc: Value, path: string, x: Problem)
    requires doc.Map?
    ensures Told(c, strict, doc, path, x) <==>
      || SomeHere(c, strict, doc.entries, path, x)
      || SomeProperty(c, strict, doc.entries, path, x)
      || SomeElement(c, strict, doc.entries, path, x)
  {
    hide HereWrong, TypeIs, PlaceComplains, Inside, Place;
    var raw := doc.entries;
    PlaceHere(path);
    if SomeHere(c, strict, raw, path, x) {
      assert Complains(c, strict, doc, [], x.keyword, x.cause, x.warning);
    }
    if SomeElement(c, strict, raw, path, x) {
      var q :| PlaceComplains(c, strict, raw["items"], q, "items", x.keyword, x.cause, x.warning) && x.path == Place(Inside(path, "items"), q);
      var r := ["items"] + q;
      PlaceStep(path, "items", q);
      assert r[0] == "items" && r[1..] == q;
      assert Complains(c, strict, doc, r, x.keyword, x.cause, x.warning);
    }
    if SomeProperty(c, strict, raw, path, x) {
      PropertyToldIf(c, strict, doc, path, x);
    }
    if Told(c, strict, doc, path, x) {
      ToldOnlyIf(c, strict, doc, path, x);
    }
  }

  lemma ToldOnlyIf(c: Codec, strict: bool, doc: Value, path: string, x: Problem)
    requires doc.Map? && Told(c, strict, doc, path, x)
    ensures SomeHere(c, strict, doc.entries, path, x) || SomeProperty(c, strict, doc.entries, path, x) || SomeElement(c, strict, doc.entries, path, x)
  {
    hide HereWrong, TypeIs, PlaceComplains, PropertyComplains, Inside, Place;
    var raw := doc.entries;
    PlaceHere(path);
    var q :| Complains(c, strict, doc, q, x.keyword, x.cause, x.warning) && x.path == Place(path, q);
    if TypeIs(raw, "object") && "properties" in raw && raw["properties"].Map?
      && PropertyComplains(c, strict, raw["properties"], q, x.keyword, x.cause, x.warning) {
      PropertyTold(c, strict, raw["properties"], path, q, x);
    } else if !(q == [] && HereWrong(c, strict, raw, x.keyword, x.cause, x.warning)) {
      assert q == [q[0]] + q[1..];
      PlaceStep(path, q[0], q[1..]);
      assert PlaceTold(c, strict, raw["items"], Inside(path, "items"), "items", x);
    }
  }

  lemma PropertyTold(c: Codec, strict: bool, props: Value, path: string, q: seq<string>, x: Problem)
    requires props.Map? && PropertyComplains(c, strict, props, q, x.keyword, x.cause, x.warning) && x.path == Place(path, q)
    ensures exists k | k in props.entries :: PlaceTold(c, strict, props.entries[k], Inside(path, "properties." + k), "properties", x)
  {
    hide PlaceComplains, Inside, Place;
    var k :| k in props.entries && q[0] == "properties." + k
      && PlaceComplains(c, strict, props.entries[k], q[1..], "properties", x.keyword, x.cause, x.warning);
    assert q == [q[0]] + q[1..];
    PlaceStep(path, q[0], q[1..]);
    assert PlaceTold(c, strict, props.entries[k], Inside(path, "properties." + k), "properties", x);
  }

  lemma PlaceHere(path: string)
    ensures Place(path, []) == path
  {
  }

  lemma PropertyToldIf(c: Codec, strict: bool, doc: Value, path: string, x: Problem)
    requires doc.Map? && SomeProperty(c, strict, doc.entries, path, x)
    ensures Told(c, strict, doc, path, x)
  {
    hide HereWrong, TypeIs, PlaceComplains, Inside, Place;
    var props := doc.entries["properties"];
    var k :| k in props.entries && PlaceTold(c, strict, props.entries[k], Inside(path, "properties." + k), "properties", x);
    var q :| PlaceComplains(c, strict, props.entries[k], q, "properties", x.keyword, x.cause, x.warning)
      && x.path == Place(Inside(path, "properties." + k), q);
    var r := ["properties." + k] + q;
    PlaceStep(path, "properties." + k, q);
    assert r[0] == "properties." + k && r[1..] == q;
    assert PropertyComplains(c, strict, props, r, x.keyword, x.cause, x.warning);
    assert Complains(c, strict, doc, r, x.keyword, x.cause, x.warning);
  }

  lemma {:induction false} OwnTold(c: Codec, strict: bool, doc: Value, path: string, x: Problem)
    requires doc.Map?
    ensures x in OwnProblems(c, strict, doc, path) <==>
      || OwnWrong(c, doc.entries, path, x)
      || SomeProperty(c, strict, doc.entries, path, x)
      || SomeElement(c, strict, doc.entries, path, x)
    decreases doc, 4
  {
    hide TypeName, TypeIs, NamesType, TextProblems, TextWrong, PropertiesProblems, ItemsProblems, Inside, PlaceTold;
    var raw := doc.entries;
    var name := TypeName(raw);
    TypesNamed(raw);
    JsonRoundTrip.TypeNames();
    assert TypeKnown(raw) <==>
      name == "string" || name == "number" || name == "integer" || name == "boolean" || name == "object" || name == "array";
    if name == "string" {
      TextTold(c, raw, path, x);
    } else if name == "object" {
      if "properties" in raw && raw["properties"].Map? {
        PropertiesTold(c, strict, raw["properties"], path, x);
      } else if "properties" in raw {
        PropertiesNotObject(c, strict, raw["properties"], path);
      }
    } else if name == "array" {
      if "items" in raw {
        PlacesTold(c, strict, raw["items"], Inside(path, "items"), x);
      }
    } else if !TypeKnown(raw) && x.cause.NoType? {
      TypeNameIs(raw, x.cause.name);
    }
  }

  lemma PropertiesNotObject(c: Codec, strict: bool, props: Value, path: string)
    requires !props.Map?
    ensures PropertiesProblems(c, strict, props, path) == [Problem(path, "properties", NotAnObject, false)]
  {
  }

  lemma {:induction false} PlacesTold(c: Codec, strict: bool, v: Value, path: string, x: Problem)
    ensures x in ItemsProblems(c, strict, v, path) <==> PlaceTold(c, strict, v, path, "items", x)
    ensures x in FieldProblems(c, strict, v, path) <==> PlaceTold(c, strict, v, path, "properties", x)
    decreases v, 6
  {
    hide Problems, Place, Complains;
    PlaceHere(path);
    if v.Map? {
      ProblemsAreComplaints(c, strict, v, path, x);
      forall q, expected
        ensures PlaceComplains(c, strict, v, q, expected, x.keyword, x.cause, x.warning) <==>
          Complains(c, strict, v, q, x.keyword, x.cause, x.warning)
      {
      }
    } else {
      assert x == Problem(path, "items", NotAnObject, false) ==> PlaceComplains(c, strict, v, [], "items", x.keyword, x.cause, x.warning);
      assert x == Problem(path, "properties", NotAnObject, false) ==>
        PlaceComplains(c, strict, v, [], "properties", x.keyword, x.cause, x.warning);
    }
  }

  lemma {:induction false} FieldsTold(c: Codec, strict: bool, props: Value, keys: seq<string>, n: nat, path: string, x: Problem)
    requires props.Map? && n <= |keys| && forall i | 0 <= i < |keys| :: keys[i] in props.entries
    ensures x in FieldsProblems(c, strict, props, keys, n, path) <==>
      exists i | 0 <= i < n :: PlaceTold(c, strict, props.entries[keys[i]], Inside(path, "properties." + keys[i]), "properties", x)
    decreases props, 0, n
  {
    hide FieldProblems, PlaceTold, Inside;
    if n > 0 {
      FieldsTold(c, strict, props, keys, n - 1, path, x);
      PlacesTold(c, strict, props.entries[keys[n - 1]], Inside(path, "properties." + keys[n - 1]), x);
    }
  }

  lemma {:induction false} PropertiesTold(c: Codec, strict: bool, props: Value, path: string, x: Problem)
    requires props.Map?
    ensures x in PropertiesProblems(c, strict, props, path) <==>
      exists k | k in props.entries :: PlaceTold(c, strict, props.entries[k], Inside(path, "properties." + k), "properties", x)
    decreases props, 1
  {
    hide FieldsProblems, PlaceTold, Inside, Elements, Ascending;
    var keys := Sorted(props.entries.Keys);
    FieldsTold(c, strict, props, keys, |keys|, path, x);
    forall k | k in props.entries
      ensures exists i :: 0 <= i < |keys| && keys[i] == k
    {
      SortedHas(props.entries.Keys, k);
    }
  }
}
