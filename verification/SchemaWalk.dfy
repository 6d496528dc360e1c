/**
 Walking a schema and querying a value. If an object schema accepts a value, then what the path of a
 visited sub-schema finds in the value is accepted by that sub-schema.
 */
module SchemaWalk {
  import opened Values
  import opened ErrorPaths
  import opened Keys
  import opened Schemas
  import opened ValidationContexts
  import SchemaRelocation
  import opened QueryParser
  import opened QueryRoundTrip
  import opened QueryExecutor
  import opened QueryCache

  // ---- the walk ----

  datatype Visit = Visit(path: string, schema: Schema)

  function AppendPath(base: string, segment: string): string {
    if base == "" then segment
    else if StartsWithBracket(segment) then base + segment
    else base + "." + segment
  }

  /** The nodes in the order they are visited. */
  ghost function Walk(path: string, s: Schema): seq<Visit>
    decreases s, 1, 0
  {
    [Visit(path, s)] +
    match s
    case ObjectSchema(_, fields, _, _, _, _) => WalkFields(path, s, Sorted(fields.Keys), |Sorted(fields.Keys)|)
    case ArraySchema(_, element, _, _, _, _, _) => if element.None? then [] else Walk(AppendPath(path, "[*]"), element.value)
    case TransformSchema(_, inner, _) => Walk(path, inner)
    case AndSchema(_, parts) => WalkParts(path, s, "<and[", |parts|)
    case OrSchema(_, parts) => WalkParts(path, s, "<or[", |parts|)
    case NotSchema(_, inner) => Walk(path + "<not>", inner)
    case _ => []
  }

  ghost function WalkFields(path: string, s: Schema, names: seq<string>, n: nat): seq<Visit>
    requires s.ObjectSchema? && n <= |names| && forall i | 0 <= i < |names| :: names[i] in s.fields
    decreases s, 0, n
  {
    if n == 0 then []
    else WalkFields(path, s, names, n - 1) + Walk(AppendPath(path, names[n - 1]), s.fields[names[n - 1]])
  }

  ghost function WalkParts(path: string, s: Schema, tag: string, n: nat): seq<Visit>
    requires (s.AndSchema? || s.OrSchema?) && n <= |s.parts|
    decreases s, 0, n
  {
    if n == 0 then []
    else WalkParts(path, s, tag, n - 1) + Walk(path + tag + Decimal(n - 1) + "]>", s.parts[n - 1])
  }

  // ---- positions ----

  /** Objects, arrays, strings, numbers and booleans, the field names being identifiers. */
  ghost predicate Simple(s: Schema)
    decreases s
  {
    match s
    case ObjectSchema(_, fields, _, _, _, _) => forall k | k in fields :: IsName(k) && Simple(fields[k])
    case ArraySchema(_, element, _, _, _, _, _) => element.Some? ==> Simple(element.value)
    case StringSchema(_, _, _, _, _, _, _) => true
    case NumberSchema(_, _, _, _, _) => true
    case BoolSchema(_, _) => true
    case _ => false
  }

  /** The sub-schema a path leads to: fields into objects, wildcards into arrays. */
  function Sub(s: Schema, p: Path): Option<Schema> {
    if p == [] then Some(s)
    else
      match p[0]
      case Field(name) => if s.ObjectSchema? && name in s.fields then Sub(s.fields[name], p[1..]) else None
      case Wildcard => if s.ArraySchema? && s.element.Some? then Sub(s.element.value, p[1..]) else None
      case Index(_) => None
  }

  function Printed(p: Path): string {
    FormatFrom("", p)
  }

  lemma {:induction false} FormatAppend(printed: string, p: Path, q: Path)
    ensures FormatFrom(printed, p + q) == FormatFrom(FormatFrom(printed, p), q)
    decreases |p|
  {
    hide DecimalInt;
    if p == [] {
      assert p + q == q;
    } else {
      assert (p + q)[0] == p[0] && (p + q)[1..] == p[1..] + q;
      var s := match p[0]
        case Field(name) => if printed == "" then name else printed + "." + name
        case Index(i) => printed + "[" + DecimalInt(i) + "]"
        case Wildcard => printed + "[*]";
      FormatAppend(s, p[1..], q);
    }
  }

  lemma AppendsField(p: Path, name: string)
    requires IsName(name)
    ensures AppendPath(Printed(p), name) == Printed(p + [Field(name)])
  {
    FormatAppend("", p, [Field(name)]);
    assert [Field(name)][1..] == [];
  }

  lemma AppendsWildcard(p: Path)
    ensures AppendPath(Printed(p), "[*]") == Printed(p + [Wildcard])
  {
    FormatAppend("", p, [Wildcard]);
    assert [Wildcard][1..] == [];
  }

  ghost predicate Leads(s: Schema, at: Path, p: Path, visit: Visit) {
    Sub(s, p) == Some(visit.schema) && visit.path == Printed(at + p)
  }

  /** Every visit is to what the visited path leads to. */
  lemma {:induction false} VisitLeads(s: Schema, at: Path, visit: Visit) returns (p: Path)
    requires Simple(s) && visit in Walk(Printed(at), s)
    ensures Leads(s, at, p, visit)
    decreases s, 1, 0
  {
    hide Elements, Ascending, FormatFrom, AppendPath, IsName, WalkFields;
    if visit == Visit(Printed(at), s) {
      p := [];
      assert at + [] == at;
    } else if s.ObjectSchema? {
      var names := Sorted(s.fields.Keys);
      p := FieldVisitLeads(s, names, |names|, at, visit);
    } else {
      assert s.ArraySchema? && s.element.Some?;
      AppendsWildcard(at);
      var rest := VisitLeads(s.element.value, at + [Wildcard], visit);
      p := [Wildcard] + rest;
      assert at + [Wildcard] + rest == at + p && p[1..] == rest;
    }
  }

  lemma {:induction false} FieldVisitLeads(s: Schema, names: seq<string>, n: nat, at: Path, visit: Visit) returns (p: Path)
    requires s.ObjectSchema? && Simple(s) && n <= |names| && forall i | 0 <= i < |names| :: names[i] in s.fields
    requires visit in WalkFields(Printed(at), s, names, n)
    ensures Leads(s, at, p, visit)
    decreases s, 0, n
  {
    hide FormatFrom, AppendPath, IsName, Walk;
    var name := names[n - 1];
    if visit in WalkFields(Printed(at), s, names, n - 1) {
      p := FieldVisitLeads(s, names, n - 1, at, visit);
    } else {
      AppendsField(at, name);
      var rest := VisitLeads(s.fields[name], at + [Field(name)], visit);
      p := [Field(name)] + rest;
      assert at + [Field(name)] + rest == at + p && p[1..] == rest;
    }
  }

  // ---- what the query finds ----

  ghost predicate AcceptsAll(e: Env, s: Schema, items: seq<Value>, mode: Mode) {
    forall i | 0 <= i < |items| :: Accepts(e, s, items[i], mode)
  }

  ghost predicate Fine(e: Env, s: Schema, wild: bool, r: Value, mode: Mode) {
    if wild then r.List? && AcceptsAll(e, s, r.items, mode) else Accepts(e, s, r, mode)
  }

  lemma {:induction false} FieldAccepted(e: Env, s: Schema, name: string, names: seq<string>, n: nat, entries: map<string, Value>,
                                         mode: Mode, path: seq<string>, i: nat)
    requires s.ObjectSchema? && i < n <= |names| && forall i | 0 <= i < |names| :: names[i] in s.fields
    requires names[i] == name && name in entries
    requires FieldsOut(e, s, names, n, entries, mode, path).errors == []
    ensures Check(e, s.fields[name], entries[name], mode, path + [name]).errors == []
  {
    hide Check;
    if i < n - 1 {
      FieldAccepted(e, s, name, names, n - 1, entries, mode, path, i);
    }
  }

  lemma FieldOfAccepted(e: Env, s: Schema, v: Value, mode: Mode, name: string)
    requires s.ObjectSchema? && v.Map? && Accepts(e, s, v, mode) && name in s.fields && name in v.entries
    ensures Accepts(e, s.fields[name], v.entries[name], mode)
  {
    hide At, MissingOut, FieldsOut, Extras, RuleFaults, Elements, Ascending, Check;
    assert v == Map(v.entries);
    CheckOfMap(e, s, v.entries, mode, []);
    var names := Sorted(s.fields.Keys);
    SortedHas(s.fields.Keys, name);
    var i :| 0 <= i < |names| && names[i] == name;
    FieldAccepted(e, s, name, names, |names|, v.entries, mode, [], i);
    SchemaRelocation.SameCount(e, s.fields[name], v.entries[name], mode, [] + [name], []);
  }

  lemma {:induction false} ItemAccepted(e: Env, element: Schema, items: seq<Value>, n: nat, mode: Mode, path: seq<string>, i: nat)
    requires i < n <= |items| && ItemsOut(e, element, items, n, mode, path).errors == []
    ensures Check(e, element, items[i], mode, path + [IndexSegment(i)]).errors == []
  {
    hide Check, IndexSegment;
    if i < n - 1 {
      ItemAccepted(e, element, items, n - 1, mode, path, i);
    }
  }

  lemma ItemOfAccepted(e: Env, s: Schema, v: Value, mode: Mode, i: nat)
    requires s.ArraySchema? && v.List? && s.element.Some? && Accepts(e, s, v, mode) && i < |v.items|
    ensures Accepts(e, s.element.value, v.items[i], mode)
  {
    hide At, ItemsOut, CountFaults, RuleFaults, Check, IndexSegment;
    assert v == List(v.items);
    CheckOfList(e, s, v.items, mode, []);
    ItemAccepted(e, s.element.value, v.items, |v.items|, mode, [], i);
    SchemaRelocation.SameCount(e, s.element.value, v.items[i], mode, [] + [IndexSegment(i)], []);
  }

  lemma WildTail(p: Path)
    requires p != []
    ensures HasWildcard(p) <==> p[0].Wildcard? || HasWildcard(p[1..])
  {
    if HasWildcard(p) && !p[0].Wildcard? {
      var k :| 0 <= k < |p| && p[k].Wildcard?;
      assert p[1..][k - 1].Wildcard?;
    }
  }

  lemma {:induction false} FoundIsFine(e: Env, s: Schema, v: Value, mode: Mode, p: Path)
    requires Simple(s) && Accepts(e, s, v, mode) && Sub(s, p).Some? && Run(v, p).Some?
    ensures Fine(e, Sub(s, p).value, HasWildcard(p), Run(v, p).value, mode)
    decreases |p|, 1
  {
    hide Accepts, HasWildcard, IsName;
    if p == [] {
      assert !HasWildcard(p) by {
        NoWildcard();
      }
    } else {
      WildTail(p);
      match p[0]
      case Field(name) =>
        FieldOfAccepted(e, s, v, mode, name);
        FoundIsFine(e, s.fields[name], v.entries[name], mode, p[1..]);
      case Wildcard =>
        forall i | 0 <= i < |v.items|
          ensures Accepts(e, s.element.value, v.items[i], mode)
        {
          ItemOfAccepted(e, s, v, mode, i);
        }
        EachIsFine(e, s.element.value, v.items, mode, p[1..]);
    }
  }

  lemma NoWildcard()
    ensures !HasWildcard([])
  {
  }

  lemma {:induction false} EachIsFine(e: Env, s: Schema, items: seq<Value>, mode: Mode, rest: Path)
    requires Simple(s) && AcceptsAll(e, s, items, mode) && Sub(s, rest).Some? && RunEach(items, rest).Some?
    ensures AcceptsAll(e, Sub(s, rest).value, RunEach(items, rest).value, mode)
    decreases |rest|, 2 + |items|
  {
    hide Accepts, HasWildcard, Sub;
    if items != [] {
      FoundIsFine(e, s, items[0], mode, rest);
      EachIsFine(e, s, items[1..], mode, rest);
      var r := Run(items[0], rest).value;
      if rest == [] {
        NoWildcard();
      }
      assert AcceptsAll(e, Sub(s, rest).value, Spliced(r, rest), mode);
    }
  }

  lemma {:induction false} SubIsPrintable(s: Schema, p: Path)
    requires Simple(s) && Sub(s, p).Some?
    ensures AllPrintable(p)
  {
    hide IsName;
    if p != [] {
      match p[0]
      case Field(name) => SubIsPrintable(s.fields[name], p[1..]);
      case Wildcard => SubIsPrintable(s.element.value, p[1..]);
      forall k | 0 <= k < |p|
        ensures PrintableSegment(p[k])
      {
        assert k > 0 ==> p[k] == p[1..][k - 1];
      }
    }
  }

  /** The main result: walk, validation and query agree. */
  lemma WalkQueryAgree(e: Env, root: Schema, v: Value, mode: Mode, visit: Visit)
    requires root.ObjectSchema? && Simple(root) && Accepts(e, root, v, mode) && visit in Walk("", root)
    ensures visit.path != "" ==> PathOf(visit.path).Ok?
    ensures Execute(v, visit.path).Some? ==>
      Fine(e, visit.schema, visit.path != "" && HasWildcard(PathOf(visit.path).value), Execute(v, visit.path).value, mode)
  {
    hide Accepts, Walk, Run, PathOf, HasWildcard, FormatFrom, IsName;
    PrintedNothing();
    var p := VisitLeads(root, [], visit);
    assert [] + p == p;
    FoundAt(e, root, v, mode, p, visit);
  }

  lemma PrintedNothing()
    ensures Printed([]) == ""
  {
  }

  lemma FoundAt(e: Env, root: Schema, v: Value, mode: Mode, p: Path, visit: Visit)
    requires root.ObjectSchema? && Simple(root) && Accepts(e, root, v, mode) && Leads(root, [], p, visit) && [] + p == p
    ensures visit.path != "" ==> PathOf(visit.path).Ok?
    ensures Execute(v, visit.path).Some? ==>
      Fine(e, visit.schema, visit.path != "" && HasWildcard(PathOf(visit.path).value), Execute(v, visit.path).value, mode)
  {
    hide Accepts, Run, PathOf, HasWildcard, FormatFrom, IsName, Simple;
    if p == [] {
      PrintedNothing();
    } else {
      SubIsPrintable(root, p);
      PrintedPathParses(p);
      PrintedNotEmpty(p);
      if Run(v, p).Some? {
        FoundIsFine(e, root, v, mode, p);
      }
    }
  }

  lemma PrintedNotEmpty(p: Path)
    requires p != [] && p[0].Field? && AllPrintable(p)
    ensures Printed(p) != ""
  {
    assert PrintableSegment(p[0]);
    FormatGrows(p[0].name, p[1..]);
  }

  lemma {:induction false} FormatGrows(printed: string, p: Path)
    requires printed != ""
    ensures FormatFrom(printed, p) != ""
    decreases |p|
  {
    hide DecimalInt;
    if p != [] {
      var s := match p[0]
        case Field(name) => if printed == "" then name else printed + "." + name
        case Index(i) => printed + "[" + DecimalInt(i) + "]"
        case Wildcard => printed + "[*]";
      FormatGrows(s, p[1..]);
    }
  }
}
