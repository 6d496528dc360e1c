/**
 Diff. The leaves of two schemas are compared by the paths a walk prints for them. For object schemas of
 plain nodes with identifier names this is a comparison by position: what is reported as added,
 removed or changed is exactly what was.
 */
module SchemaDiff {
  import opened Values
  import opened Keys
  import opened Schemas
  import opened QueryParser
  import opened QueryRoundTrip
  import opened SchemaWalk
  import opened SchemaEquality

  // ---- specification ----

  /** Neither an object nor an array with an element schema. */
  predicate IsLeaf(s: Schema) {
    !s.ObjectSchema? && !(s.ArraySchema? && s.element.Some?)
  }

  predicate Listed(visit: Visit) {
    visit.path != "" && IsLeaf(visit.schema)
  }

  /** The leaves among the first `n` visits. */
  function Leaves(visits: seq<Visit>, n: nat): seq<Visit>
    requires n <= |visits|
  {
    if n == 0 then [] else Leaves(visits, n - 1) + if Listed(visits[n - 1]) then [visits[n - 1]] else []
  }

  ghost function Collect(s: Schema): seq<Visit> {
    Leaves(Walk("", s), |Walk("", s)|)
  }

  /** The schema recorded for each path, a later entry replacing an earlier one. */
  function ByPath(fields: seq<Visit>, n: nat): map<string, Schema>
    requires n <= |fields|
  {
    if n == 0 then map[] else ByPath(fields, n - 1)[fields[n - 1].path := fields[n - 1].schema]
  }

  function Absent(fields: seq<Visit>, n: nat, other: map<string, Schema>): seq<string>
    requires n <= |fields|
  {
    if n == 0 then [] else Absent(fields, n - 1, other) + if fields[n - 1].path in other then [] else [fields[n - 1].path]
  }

  datatype FieldChange = FieldChange(path: string, before: Schema, after: Schema)

  ghost function Changes(g: Printer, fields: seq<Visit>, n: nat, other: map<string, Schema>): seq<FieldChange>
    requires n <= |fields|
  {
    if n == 0 then []
    else
      var f := fields[n - 1];
      Changes(g, fields, n - 1, other) +
      if f.path in other && !Equal(g, other[f.path], f.schema) then [FieldChange(f.path, other[f.path], f.schema)] else []
  }

  datatype Difference = Difference(added: seq<string>, removed: seq<string>, changed: seq<FieldChange>)

  ghost function Diff(g: Printer, before: Schema, after: Schema): Difference {
    var a, b := Collect(before), Collect(after);
    if a == [] && b == [] then
      Difference([], [], if Equal(g, before, after) then [] else [FieldChange("", before, after)])
    else
      Difference(Absent(b, |b|, ByPath(a, |a|)), Absent(a, |a|, ByPath(b, |b|)), Changes(g, b, |b|, ByPath(a, |a|)))
  }

  // ---- the method ----

  method WalkNode(path: string, s: Schema) returns (visits: seq<Visit>)
    ensures visits == Walk(path, s)
    decreases s, 1
  {
    hide Elements, Ascending, AppendPath;
    visits := [Visit(path, s)];
    match s
    case ObjectSchema(_, _, _, _, _, _) =>
      var rest := WalkObject(path, s);
      visits := visits + rest;
    case ArraySchema(_, element, _, _, _, _, _) =>
      if element.Some? {
        var rest := WalkNode(AppendPath(path, "[*]"), element.value);
        visits := visits + rest;
      }
    case TransformSchema(_, inner, _) =>
      var rest := WalkNode(path, inner);
      visits := visits + rest;
    case AndSchema(_, _) =>
      var rest := WalkAll(path, s, "<and[");
      visits := visits + rest;
    case OrSchema(_, _) =>
      var rest := WalkAll(path, s, "<or[");
      visits := visits + rest;
    case NotSchema(_, inner) =>
      var rest := WalkNode(path + "<not>", inner);
      visits := visits + rest;
    case _ =>
  }

  method WalkObject(path: string, s: Schema) returns (visits: seq<Visit>)
    requires s.ObjectSchema?
    ensures visits == WalkFields(path, s, Sorted(s.fields.Keys), |Sorted(s.fields.Keys)|)
    decreases s, 0
  {
    hide Elements, Ascending, AppendPath, Walk;
    visits := [];
    var names := SortKeys(s.fields.Keys);
    for i := 0 to |names|
      invariant visits == WalkFields(path, s, names, i)
    {
      var rest := WalkNode(AppendPath(path, names[i]), s.fields[names[i]]);
      visits := visits + rest;
    }
  }

  method WalkAll(path: string, s: Schema, tag: string) returns (visits: seq<Visit>)
    requires s.AndSchema? || s.OrSchema?
    ensures visits == WalkParts(path, s, tag, |s.parts|)
    decreases s, 0
  {
    hide Walk;
    visits := [];
    for i := 0 to |s.parts|
      invariant visits == WalkParts(path, s, tag, i)
    {
      var rest := WalkNode(path + tag + Decimal(i) + "]>", s.parts[i]);
      visits := visits + rest;
    }
  }

  method CollectFields(s: Schema) returns (fields: seq<Visit>)
    ensures fields == Collect(s)
  {
    var visits := WalkNode("", s);
    fields := [];
    for i := 0 to |visits|
      invariant fields == Leaves(visits, i)
    {
      if visits[i].path != "" && IsLeaf(visits[i].schema) {
        fields := fields + [visits[i]];
      }
    }
  }

  method Index(fields: seq<Visit>) returns (byPath: map<string, Schema>)
    ensures byPath == ByPath(fields, |fields|)
  {
    byPath := map[];
    for i := 0 to |fields|
      invariant byPath == ByPath(fields, i)
    {
      byPath := byPath[fields[i].path := fields[i].schema];
    }
  }

  method FindAbsent(fields: seq<Visit>, other: map<string, Schema>) returns (paths: seq<string>)
    ensures paths == Absent(fields, |fields|, other)
  {
    paths := [];
    for i := 0 to |fields|
      invariant paths == Absent(fields, i, other)
    {
      if fields[i].path !in other {
        paths := paths + [fields[i].path];
      }
    }
  }

  method DiffSchemas(g: Printer, before: Schema, after: Schema) returns (d: Difference)
    ensures d == Diff(g, before, after)
  {
    hide Collect, Canon, Equal;
    var a := CollectFields(before);
    var b := CollectFields(after);
    if |a| == 0 && |b| == 0 {
      var same := EqualSchemas(g, before, after);
      return Difference([], [], if same then [] else [FieldChange("", before, after)]);
    }
    var oldMap := Index(a);
    var newMap := Index(b);
    var removed := FindAbsent(a, newMap);
    var added := FindAbsent(b, oldMap);
    var changed := [];
    for i := 0 to |b|
      invariant changed == Changes(g, b, i, oldMap)
    {
      if b[i].path in oldMap {
        var same := EqualSchemas(g, oldMap[b[i].path], b[i].schema);
        if !same {
          changed := changed + [FieldChange(b[i].path, oldMap[b[i].path], b[i].schema)];
        }
      }
    }
    d := Difference(added, removed, changed);
  }

  // ---- every position is visited, once ----

  predicate NoRepeats<T(==)>(s: seq<T>) {
    forall i, j | 0 <= i < j < |s| :: s[i] != s[j]
  }

  lemma NoRepeatsAppend<T>(a: seq<T>, b: seq<T>)
    requires NoRepeats(a) && NoRepeats(b) && forall x | x in a :: x !in b
    ensures NoRepeats(a + b)
  {
    var s := a + b;
    forall i, j | 0 <= i < j < |s|
      ensures s[i] != s[j]
    {
      if i < |a| <= j {
        assert s[i] in a && s[j] == b[j - |a|];
      }
    }
  }

  /** The positions of the visits, in the same order. */
  ghost function Positions(at: Path, s: Schema): seq<Path>
    decreases s, 1, 0
  {
    [at] +
    match s
    case ObjectSchema(_, fields, _, _, _, _) => FieldPositions(at, s, Sorted(fields.Keys), |Sorted(fields.Keys)|)
    case ArraySchema(_, element, _, _, _, _, _) => if element.None? then [] else Positions(at + [Wildcard], element.value)
    case _ => []
  }

  ghost function FieldPositions(at: Path, s: Schema, names: seq<string>, n: nat): seq<Path>
    requires s.ObjectSchema? && n <= |names| && forall i | 0 <= i < |names| :: names[i] in s.fields
    decreases s, 0, n
  {
    if n == 0 then []
    else FieldPositions(at, s, names, n - 1) + Positions(at + [Field(names[n - 1])], s.fields[names[n - 1]])
  }

  /** A visit of `root` at a position. */
  ghost predicate VisitOf(root: Schema, p: Path, visit: Visit) {
    visit.path == Printed(p) && Sub(root, p) == Some(visit.schema)
  }

  lemma {:induction false} SubAppend(s: Schema, p: Path, q: Path)
    requires Sub(s, p).Some?
    ensures Sub(s, p + q) == Sub(Sub(s, p).value, q)
  {
    if p == [] {
      assert p + q == q;
    } else {
      assert (p + q)[0] == p[0] && (p + q)[1..] == p[1..] + q;
      match p[0]
      case Field(name) => SubAppend(s.fields[name], p[1..], q);
      case Wildcard => SubAppend(s.element.value, p[1..], q);
    }
  }

  lemma SubField(root: Schema, at: Path, s: Schema, name: string)
    requires Sub(root, at) == Some(s) && s.ObjectSchema? && name in s.fields
    ensures Sub(root, at + [Field(name)]) == Some(s.fields[name])
  {
    SubAppend(root, at, [Field(name)]);
    assert [Field(name)][1..] == [];
  }

  lemma SubElement(root: Schema, at: Path, s: Schema)
    requires Sub(root, at) == Some(s) && s.ArraySchema? && s.element.Some?
    ensures Sub(root, at + [Wildcard]) == Some(s.element.value)
  {
    SubAppend(root, at, [Wildcard]);
    assert [Wildcard][1..] == [];
  }

  ghost predicate AllVisitsOf(root: Schema, ps: seq<Path>, visits: seq<Visit>) {
    |ps| == |visits| && forall i | 0 <= i < |ps| :: VisitOf(root, ps[i], visits[i])
  }

  lemma AllVisitsAppend(root: Schema, ps: seq<Path>, visits: seq<Visit>, qs: seq<Path>, more: seq<Visit>)
    requires AllVisitsOf(root, ps, visits) && AllVisitsOf(root, qs, more)
    ensures AllVisitsOf(root, ps + qs, visits + more)
  {
    hide VisitOf;
  }

  lemma {:induction false} VisitsAt(root: Schema, at: Path, s: Schema)
    requires Simple(s) && Sub(root, at) == Some(s)
    ensures AllVisitsOf(root, Positions(at, s), Walk(Printed(at), s))
    decreases s, 1, 0
  {
    hide Elements, Ascending, FormatFrom, AppendPath, IsName, WalkFields, FieldPositions, Sub;
    assert AllVisitsOf(root, [at], [Visit(Printed(at), s)]);
    if s.ObjectSchema? {
      var names := Sorted(s.fields.Keys);
      FieldVisitsAt(root, at, s, names, |names|);
      AllVisitsAppend(root, [at], [Visit(Printed(at), s)], FieldPositions(at, s, names, |names|), WalkFields(Printed(at), s, names, |names|));
    } else if s.ArraySchema? && s.element.Some? {
      AppendsWildcard(at);
      SubElement(root, at, s);
      VisitsAt(root, at + [Wildcard], s.element.value);
      AllVisitsAppend(root, [at], [Visit(Printed(at), s)], Positions(at + [Wildcard], s.element.value),
        Walk(Printed(at + [Wildcard]), s.element.value));
    }
  }

  lemma {:induction false} FieldVisitsAt(root: Schema, at: Path, s: Schema, names: seq<string>, n: nat)
    requires s.ObjectSchema? && Simple(s) && Sub(root, at) == Some(s)
    requires n <= |names| && forall i | 0 <= i < |names| :: names[i] in s.fields
    ensures AllVisitsOf(root, FieldPositions(at, s, names, n), WalkFields(Printed(at), s, names, n))
    decreases s, 0, n
  {
    hide FormatFrom, AppendPath, IsName, Sub, Walk, Positions, VisitOf;
    if n > 0 {
      var name := names[n - 1];
      FieldVisitsAt(root, at, s, names, n - 1);
      AppendsField(at, name);
      SubField(root, at, s, name);
      VisitsAt(root, at + [Field(name)], s.fields[name]);
      AllVisitsAppend(root, FieldPositions(at, s, names, n - 1), WalkFields(Printed(at), s, names, n - 1),
        Positions(at + [Field(name)], s.fields[name]), Walk(Printed(at + [Field(name)]), s.fields[name]));
    }
  }

  predicate Under(at: Path, p: Path) {
    |at| <= |p| && p[..|at|] == at
  }

  lemma {:induction false} PositionsUnder(at: Path, s: Schema, p: Path)
    requires p in Positions(at, s)
    ensures Under(at, p)
    decreases s, 1, 0
  {
    hide Elements, Ascending, FieldPositions;
    if p != at {
      if s.ObjectSchema? {
        FieldPositionsUnder(at, s, Sorted(s.fields.Keys), |Sorted(s.fields.Keys)|, p);
      } else {
        PositionsUnder(at + [Wildcard], s.element.value, p);
      }
    }
  }

  lemma {:induction false} FieldPositionsUnder(at: Path, s: Schema, names: seq<string>, n: nat, p: Path)
    requires s.ObjectSchema? && n <= |names| && forall i | 0 <= i < |names| :: names[i] in s.fields
    requires p in FieldPositions(at, s, names, n)
    ensures Under(at, p) && p != at && exists i :: 0 <= i < n && p[|at|] == Field(names[i])
    decreases s, 0, n
  {
    hide Positions;
    if p in FieldPositions(at, s, names, n - 1) {
      FieldPositionsUnder(at, s, names, n - 1, p);
    } else {
      PositionsUnder(at + [Field(names[n - 1])], s.fields[names[n - 1]], p);
    }
  }

  lemma {:induction false} PositionsDistinct(at: Path, s: Schema)
    ensures NoRepeats(Positions(at, s))
    decreases s, 1, 0
  {
    hide FieldPositions, NoRepeats, Less, Elements;
    assert NoRepeats([at]) && NoRepeats<Path>([]) by {
      OneNoRepeats(at);
    }
    if s.ObjectSchema? {
      var names := Sorted(s.fields.Keys);
      AscendingNoRepeats(names);
      FieldPositionsDistinct(at, s, names, |names|);
      forall p | p in FieldPositions(at, s, names, |names|)
        ensures p != at
      {
        FieldPositionsUnder(at, s, names, |names|, p);
      }
      NoRepeatsAppend([at], FieldPositions(at, s, names, |names|));
    } else if s.ArraySchema? && s.element.Some? {
      PositionsDistinct(at + [Wildcard], s.element.value);
      forall p | p in Positions(at + [Wildcard], s.element.value)
        ensures p != at
      {
        PositionsUnder(at + [Wildcard], s.element.value, p);
      }
      NoRepeatsAppend([at], Positions(at + [Wildcard], s.element.value));
    } else {
      assert [at] + [] == [at];
    }
  }

  lemma OneNoRepeats(at: Path)
    ensures NoRepeats([at]) && NoRepeats<Path>([])
  {
  }

  lemma AscendingNoRepeats(names: seq<string>)
    requires Ascending(names)
    ensures NoRepeats(names)
  {
    forall i, j | 0 <= i < j < |names|
      ensures names[i] != names[j]
    {
      LessTotal(names[i], names[j]);
    }
  }

  lemma {:induction false} FieldPositionsDistinct(at: Path, s: Schema, names: seq<string>, n: nat)
    requires s.ObjectSchema? && n <= |names| && forall i | 0 <= i < |names| :: names[i] in s.fields
    requires NoRepeats(names)
    ensures NoRepeats(FieldPositions(at, s, names, n))
    decreases s, 0, n
  {
    hide Positions;
    if n > 0 {
      var before, own := FieldPositions(at, s, names, n - 1), Positions(at + [Field(names[n - 1])], s.fields[names[n - 1]]);
      FieldPositionsDistinct(at, s, names, n - 1);
      PositionsDistinct(at + [Field(names[n - 1])], s.fields[names[n - 1]]);
      forall p | p in before
        ensures p !in own
      {
        FieldPositionsUnder(at, s, names, n - 1, p);
        if p in own {
          PositionsUnder(at + [Field(names[n - 1])], s.fields[names[n - 1]], p);
        }
      }
      NoRepeatsAppend(before, own);
    }
  }

  lemma {:induction false} SubIsPosition(at: Path, s: Schema, q: Path)
    requires Simple(s) && Sub(s, q).Some?
    ensures at + q in Positions(at, s)
    decreases s, 1, 0
  {
    hide IsName, Elements, Ascending, FieldPositions;
    if q == [] {
      assert at + q == at;
    } else {
      match q[0]
      case Field(name) =>
        var names := Sorted(s.fields.Keys);
        SortedHas(s.fields.Keys, name);
        var i :| 0 <= i < |names| && names[i] == name;
        SubIsPosition(at + [Field(name)], s.fields[name], q[1..]);
        assert at + [Field(name)] + q[1..] == at + q;
        FieldPositionsHas(at, s, names, |names|, i, at + q);
      case Wildcard =>
        SubIsPosition(at + [Wildcard], s.element.value, q[1..]);
        assert at + [Wildcard] + q[1..] == at + q;
    }
  }

  lemma {:induction false} FieldPositionsHas(at: Path, s: Schema, names: seq<string>, n: nat, i: nat, p: Path)
    requires s.ObjectSchema? && i < n <= |names| && forall i | 0 <= i < |names| :: names[i] in s.fields
    requires p in Positions(at + [Field(names[i])], s.fields[names[i]])
    ensures p in FieldPositions(at, s, names, n)
  {
    hide Positions;
    if i < n - 1 {
      FieldPositionsHas(at, s, names, n - 1, i, p);
    }
  }

  // ---- printed positions ----

  ghost predicate Root(s: Schema) {
    s.ObjectSchema? && Simple(s)
  }

  ghost predicate LeafAt(root: Schema, p: Path) {
    p != [] && Sub(root, p).Some? && IsLeaf(Sub(root, p).value)
  }

  lemma RootPathPrintable(root: Schema, p: Path)
    requires Root(root) && p != [] && Sub(root, p).Some?
    ensures Printable(p) && Printed(p) != ""
  {
    hide IsName, Simple;
    SubIsPrintable(root, p);
    PrintedNotEmpty(p);
  }

  lemma PrintedUnique(p: Path, q: Path)
    requires Printable(p) && Printable(q) && Printed(p) == Printed(q)
    ensures p == q
  {
    hide IsName, FormatFrom, PathOf;
    PrintedPathParses(p);
    PrintedPathParses(q);
  }

  ghost predicate DistinctPaths(fields: seq<Visit>) {
    forall i, j | 0 <= i < j < |fields| :: fields[i].path != fields[j].path
  }

  lemma WalkIsPositions(root: Schema)
    requires Root(root)
    ensures AllVisitsOf(root, Positions([], root), Walk("", root)) && NoRepeats(Positions([], root))
  {
    hide Walk, Positions, Simple, FormatFrom;
    PrintedNothing();
    VisitsAt(root, [], root);
    PositionsDistinct([], root);
  }

  lemma WalkPathsDistinct(root: Schema)
    requires Root(root)
    ensures DistinctPaths(Walk("", root))
  {
    hide Walk, Positions, Simple, FormatFrom, IsName, Sub;
    var ps, visits := Positions([], root), Walk("", root);
    WalkIsPositions(root);
    forall i, j | 0 <= i < j < |visits|
      ensures visits[i].path != visits[j].path
    {
      assert VisitOf(root, ps[i], visits[i]) && VisitOf(root, ps[j], visits[j]);
      PrintedNothing();
      if ps[i] != [] {
        RootPathPrintable(root, ps[i]);
      }
      if ps[j] != [] {
        RootPathPrintable(root, ps[j]);
      }
      if visits[i].path == visits[j].path && ps[i] != [] && ps[j] != [] {
        PrintedUnique(ps[i], ps[j]);
      }
    }
  }

  lemma {:induction false} LeavesFrom(visits: seq<Visit>, n: nat)
    requires n <= |visits| && DistinctPaths(visits)
    ensures forall x | x in Leaves(visits, n) :: Listed(x) && exists i :: 0 <= i < n && visits[i] == x
    ensures DistinctPaths(Leaves(visits, n))
  {
    hide Listed;
    if n > 0 {
      LeavesFrom(visits, n - 1);
      var before := Leaves(visits, n - 1);
      forall k | 0 <= k < |before|
        ensures before[k].path != visits[n - 1].path
      {
        assert before[k] in before;
      }
    }
  }

  lemma {:induction false} LeavesHas(visits: seq<Visit>, n: nat, i: nat)
    requires i < n <= |visits| && Listed(visits[i])
    ensures visits[i] in Leaves(visits, n)
  {
    hide Listed;
    if i < n - 1 {
      LeavesHas(visits, n - 1, i);
    }
  }

  lemma CollectDistinct(root: Schema)
    requires Root(root)
    ensures DistinctPaths(Collect(root))
  {
    hide Walk, Simple;
    WalkPathsDistinct(root);
    LeavesFrom(Walk("", root), |Walk("", root)|);
  }

  /** Each collected entry is a leaf with the printed path of its position. */
  lemma CollectedIsLeaf(root: Schema, visit: Visit) returns (p: Path)
    requires Root(root) && visit in Collect(root)
    ensures LeafAt(root, p) && visit == Visit(Printed(p), Sub(root, p).value)
  {
    hide Walk, Simple, Positions, Sub, FormatFrom;
    var visits, ps := Walk("", root), Positions([], root);
    WalkPathsDistinct(root);
    LeavesFrom(visits, |visits|);
    var i :| 0 <= i < |visits| && visits[i] == visit;
    WalkIsPositions(root);
    assert VisitOf(root, ps[i], visits[i]);
    p := ps[i];
    PrintedNothing();
  }

  /** Each leaf is collected. */
  lemma LeafIsCollected(root: Schema, p: Path)
    requires Root(root) && LeafAt(root, p)
    ensures Visit(Printed(p), Sub(root, p).value) in Collect(root)
  {
    hide Walk, Positions, Sub, FormatFrom, IsName;
    var visits, ps := Walk("", root), Positions([], root);
    WalkIsPositions(root);
    SubIsPosition([], root, p);
    assert [] + p == p;
    var i :| 0 <= i < |ps| && ps[i] == p;
    assert VisitOf(root, ps[i], visits[i]);
    RootPathPrintable(root, p);
    LeavesHas(visits, |visits|, i);
  }

  lemma {:induction false} ByPathIs(fields: seq<Visit>, n: nat)
    requires n <= |fields| && DistinctPaths(fields)
    ensures forall k :: k in ByPath(fields, n) <==> exists i :: 0 <= i < n && fields[i].path == k
    ensures forall i | 0 <= i < n :: ByPath(fields, n)[fields[i].path] == fields[i].schema
  {
    if n > 0 {
      ByPathIs(fields, n - 1);
    }
  }

  ghost function Table(root: Schema): map<string, Schema> {
    ByPath(Collect(root), |Collect(root)|)
  }

  /** The table a schema leaves: its leaves under the printed paths of their positions. */
  lemma TableIs(root: Schema, p: Path)
    requires Root(root) && Printable(p)
    ensures Printed(p) in Table(root) <==> LeafAt(root, p)
    ensures LeafAt(root, p) ==> Table(root)[Printed(p)] == Sub(root, p).value
  {
    hide Collect, Sub, FormatFrom, IsName, IsLeaf, Root, ByPath;
    var fields := Collect(root);
    CollectDistinct(root);
    ByPathIs(fields, |fields|);
    if Printed(p) in Table(root) {
      var i :| 0 <= i < |fields| && fields[i].path == Printed(p);
      var q := CollectedIsLeaf(root, fields[i]);
      LeafPrintable(root, q);
      PrintedUnique(p, q);
    }
    if LeafAt(root, p) {
      LeafIsCollected(root, p);
      var i :| 0 <= i < |fields| && fields[i] == Visit(Printed(p), Sub(root, p).value);
    }
  }

  lemma LeafPrintable(root: Schema, p: Path)
    requires Root(root) && LeafAt(root, p)
    ensures Printable(p)
  {
    hide Simple, Sub, IsName;
    RootPathPrintable(root, p);
  }

  // ---- the difference, by position ----

  lemma {:induction false} AbsentIs(fields: seq<Visit>, n: nat, other: map<string, Schema>)
    requires n <= |fields| && DistinctPaths(fields)
    ensures forall x :: x in Absent(fields, n, other) <==> x !in other && exists i :: 0 <= i < n && fields[i].path == x
    ensures NoRepeats(Absent(fields, n, other))
  {
    if n > 0 {
      AbsentIs(fields, n - 1, other);
      NotYetListed(Absent(fields, n - 1, other), fields, n, other);
    }
  }

  lemma NotYetListed(before: seq<string>, fields: seq<Visit>, n: nat, other: map<string, Schema>)
    requires 0 < n <= |fields| && DistinctPaths(fields) && NoRepeats(before)
    requires forall x :: x in before <==> x !in other && exists i :: 0 <= i < n - 1 && fields[i].path == x
    ensures NoRepeats(before + [fields[n - 1].path])
  {
    assert fields[n - 1].path !in before;
    NoRepeatsAppend(before, [fields[n - 1].path]);
  }

  ghost predicate IsChange(g: Printer, f: Visit, other: map<string, Schema>, change: FieldChange) {
    && f.path in other && !Equal(g, other[f.path], f.schema)
    && change == FieldChange(f.path, other[f.path], f.schema)
  }

  lemma {:induction false} ChangesIs(g: Printer, fields: seq<Visit>, n: nat, other: map<string, Schema>)
    requires n <= |fields|
    ensures forall change :: change in Changes(g, fields, n, other) <==> exists i :: 0 <= i < n && IsChange(g, fields[i], other, change)
  {
    hide Equal;
    if n > 0 {
      ChangesIs(g, fields, n - 1, other);
      var f := fields[n - 1];
      forall change
        ensures change in Changes(g, fields, n, other) <==> change in Changes(g, fields, n - 1, other) || IsChange(g, f, other, change)
      {
      }
    }
  }

  ghost predicate ChangedAt(d: Difference, path: string) {
    exists change :: change in d.changed && change.path == path
  }

  ghost predicate HasLeaves(s: Schema) {
    Collect(s) != []
  }

  /** A printable path is reported as what happened at that position. */
  lemma DiffAt(g: Printer, a: Schema, b: Schema, p: Path)
    requires Root(a) && Root(b) && (HasLeaves(a) || HasLeaves(b)) && Printable(p)
    ensures Printed(p) in Diff(g, a, b).added <==> LeafAt(b, p) && !LeafAt(a, p)
    ensures Printed(p) in Diff(g, a, b).removed <==> LeafAt(a, p) && !LeafAt(b, p)
    ensures ChangedAt(Diff(g, a, b), Printed(p)) <==>
      LeafAt(a, p) && LeafAt(b, p) && !Equal(g, Sub(a, p).value, Sub(b, p).value)
  {
    hide Equal, Collect, Root, Sub, FormatFrom, IsName, IsLeaf, Printable, ByPath, LeafAt, Changes, Absent, ChangedAt;
    DiffParts(g, a, b);
    AddedAt(a, b, p);
    AddedAt(b, a, p);
    ChangedIs(g, a, b, p);
  }

  lemma DiffParts(g: Printer, a: Schema, b: Schema)
    requires HasLeaves(a) || HasLeaves(b)
    ensures Diff(g, a, b) == Difference(Absent(Collect(b), |Collect(b)|, Table(a)), Absent(Collect(a), |Collect(a)|, Table(b)),
      Changes(g, Collect(b), |Collect(b)|, Table(a)))
  {
    hide Equal, Collect;
  }

  lemma AddedAt(a: Schema, b: Schema, p: Path)
    requires Root(a) && Root(b) && Printable(p)
    ensures Printed(p) in Absent(Collect(b), |Collect(b)|, Table(a)) <==> LeafAt(b, p) && !LeafAt(a, p)
  {
    hide Collect, Root, Sub, FormatFrom, IsName, IsLeaf, Printable, LeafAt, Table;
    var fields := Collect(b);
    CollectDistinct(b);
    AbsentIs(fields, |fields|, Table(a));
    TableIs(a, p);
    CollectedPath(b, p);
  }

  lemma CollectedPath(root: Schema, p: Path)
    requires Root(root) && Printable(p)
    ensures (exists i :: 0 <= i < |Collect(root)| && Collect(root)[i].path == Printed(p)) <==> LeafAt(root, p)
    ensures forall i | 0 <= i < |Collect(root)| ::
      Collect(root)[i].path == Printed(p) ==> LeafAt(root, p) && Collect(root)[i].schema == Sub(root, p).value
  {
    hide Collect, Root, Sub, FormatFrom, IsName, IsLeaf, Printable, LeafAt;
    var fields := Collect(root);
    CollectDistinct(root);
    ByPathIs(fields, |fields|);
    TableIs(root, p);
  }

  lemma ChangedIs(g: Printer, a: Schema, b: Schema, p: Path)
    requires Root(a) && Root(b) && (HasLeaves(a) || HasLeaves(b)) && Printable(p)
    ensures ChangedAt(Diff(g, a, b), Printed(p)) <==>
      LeafAt(a, p) && LeafAt(b, p) && !Equal(g, Sub(a, p).value, Sub(b, p).value)
  {
    hide Equal, Collect, Root, Sub, FormatFrom, IsName, IsLeaf, Printable, Table, Changes, Absent;
    var fields, other, d := Collect(b), Table(a), Diff(g, a, b);
    DiffParts(g, a, b);
    ChangesIs(g, fields, |fields|, other);
    TableIs(a, p);
    CollectedPath(b, p);
    if ChangedAt(d, Printed(p)) {
      var change :| change in d.changed && change.path == Printed(p);
      var i :| 0 <= i < |fields| && IsChange(g, fields[i], other, change);
    }
    if LeafAt(a, p) && LeafAt(b, p) && !Equal(g, Sub(a, p).value, Sub(b, p).value) {
      var i :| 0 <= i < |fields| && fields[i].path == Printed(p);
      assert IsChange(g, fields[i], other, FieldChange(Printed(p), other[Printed(p)], fields[i].schema));
    }
  }

  /** Every reported path is the printed path of some position. */
  lemma ReportedIsPosition(g: Printer, a: Schema, b: Schema, path: string) returns (p: Path)
    requires Root(a) && Root(b) && (HasLeaves(a) || HasLeaves(b))
    requires path in Diff(g, a, b).added || path in Diff(g, a, b).removed || ChangedAt(Diff(g, a, b), path)
    ensures Printable(p) && path == Printed(p)
  {
    hide Equal, Collect, Root, Sub, FormatFrom, IsName, IsLeaf, LeafAt, Printable, Table, Changes, Absent;
    DiffParts(g, a, b);
    CollectDistinct(a);
    CollectDistinct(b);
    AbsentIs(Collect(b), |Collect(b)|, Table(a));
    AbsentIs(Collect(a), |Collect(a)|, Table(b));
    ChangesIs(g, Collect(b), |Collect(b)|, Table(a));
    if path in Diff(g, a, b).removed {
      var i :| 0 <= i < |Collect(a)| && Collect(a)[i].path == path;
      p := CollectedIsLeaf(a, Collect(a)[i]);
      LeafPrintable(a, p);
    } else {
      assert exists i :: 0 <= i < |Collect(b)| && Collect(b)[i].path == path;
      var i :| 0 <= i < |Collect(b)| && Collect(b)[i].path == path;
      p := CollectedIsLeaf(b, Collect(b)[i]);
      LeafPrintable(b, p);
    }
  }

  /** No path is reported twice as added or as removed. */
  lemma ReportedOnce(g: Printer, a: Schema, b: Schema)
    requires Root(a) && Root(b)
    ensures NoRepeats(Diff(g, a, b).added) && NoRepeats(Diff(g, a, b).removed)
  {
    hide Equal, Collect, Root, Table, Changes, Absent;
    CollectDistinct(a);
    CollectDistinct(b);
    AbsentIs(Collect(b), |Collect(b)|, Table(a));
    AbsentIs(Collect(a), |Collect(a)|, Table(b));
    if HasLeaves(a) || HasLeaves(b) {
      DiffParts(g, a, b);
    }
  }

  /** Swapping the schemas swaps added with removed and keeps the changed paths. */
  lemma DiffSwaps(g: Printer, a: Schema, b: Schema, path: string)
    requires Root(a) && Root(b)
    ensures Diff(g, b, a).added == Diff(g, a, b).removed && Diff(g, b, a).removed == Diff(g, a, b).added
    ensures ChangedAt(Diff(g, b, a), path) <==> ChangedAt(Diff(g, a, b), path)
  {
    hide Equal, Collect, Root, Sub, FormatFrom, IsName, IsLeaf, LeafAt, Printable, Table, Changes, Absent, ChangedAt;
    if HasLeaves(a) || HasLeaves(b) {
      DiffParts(g, a, b);
      DiffParts(g, b, a);
      if ChangedAt(Diff(g, b, a), path) || ChangedAt(Diff(g, a, b), path) {
        ChangedSwaps(g, a, b, path);
      }
    } else {
      NoLeavesSwap(g, a, b, path);
    }
  }

  lemma NoLeavesSwap(g: Printer, a: Schema, b: Schema, path: string)
    requires !HasLeaves(a) && !HasLeaves(b)
    ensures Diff(g, b, a).added == Diff(g, a, b).removed == [] && Diff(g, b, a).removed == Diff(g, a, b).added == []
    ensures ChangedAt(Diff(g, a, b), path) <==> path == "" && !Equal(g, a, b)
    ensures ChangedAt(Diff(g, b, a), path) <==> path == "" && !Equal(g, a, b)
  {
    hide Collect, Canon;
    if !Equal(g, a, b) {
      assert FieldChange("", a, b) in Diff(g, a, b).changed && FieldChange("", b, a) in Diff(g, b, a).changed;
    }
  }

  lemma ChangedSwaps(g: Printer, a: Schema, b: Schema, path: string)
    requires Root(a) && Root(b) && (HasLeaves(a) || HasLeaves(b))
    requires ChangedAt(Diff(g, b, a), path) || ChangedAt(Diff(g, a, b), path)
    ensures ChangedAt(Diff(g, b, a), path) <==> ChangedAt(Diff(g, a, b), path)
  {
    hide Canon, Collect, Root, Sub, FormatFrom, IsName, IsLeaf, LeafAt, Printable, Diff, ChangedAt;
    var p: Path;
    if ChangedAt(Diff(g, a, b), path) {
      p := ReportedIsPosition(g, a, b, path);
    } else {
      p := ReportedIsPosition(g, b, a, path);
    }
    ChangedIs(g, a, b, p);
    ChangedIs(g, b, a, p);
  }
}
