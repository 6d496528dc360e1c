/**
 The walk of any schema, composites included: every node is visited exactly once, each before what is
 below it, fields in the order of their names and parts in the order of their numbers, with a path
 that spells the way to it.
 */
module SchemaPositions {
  import opened Values
  import opened Keys
  import opened Schemas
  import opened SchemaWalk
  import QueryRoundTrip

  // ---- positions ----

  /** One step down into a schema. */
  datatype Turn = ToField(name: string) | ToElement | ToInner | ToPart(i: nat) | ToNegated

  type Position = seq<Turn>

  /** The position is one of `s`, and `t` is what is there. */
  ghost predicate Reaches(s: Schema, p: Position, t: Schema)
    decreases |p|
  {
    if p == [] then t == s
    else
      match p[0]
      case ToField(name) => s.ObjectSchema? && name in s.fields && Reaches(s.fields[name], p[1..], t)
      case ToElement => s.ArraySchema? && s.element.Some? && Reaches(s.element.value, p[1..], t)
      case ToInner => s.TransformSchema? && Reaches(s.inner, p[1..], t)
      case ToPart(i) => (s.AndSchema? || s.OrSchema?) && i < |s.parts| && Reaches(s.parts[i], p[1..], t)
      case ToNegated => s.NotSchema? && Reaches(s.inner, p[1..], t)
  }

  ghost predicate Within(s: Schema, p: Position) {
    exists t :: Reaches(s, p, t)
  }

  /** Names after a dot, except at the start; elements and parts in brackets; nothing for what a Transform wraps. */
  function Spelled(path: string, s: Schema, p: Position): string
    decreases |p|
  {
    if p == [] then path
    else
      match p[0]
      case ToField(name) =>
        if s.ObjectSchema? && name in s.fields then
          Spelled(if path == "" then name else if name != "" && name[0] == '[' then path + name else path + "." + name,
            s.fields[name], p[1..])
        else path
      case ToElement => if s.ArraySchema? && s.element.Some? then Spelled(path + "[*]", s.element.value, p[1..]) else path
      case ToInner => if s.TransformSchema? then Spelled(path, s.inner, p[1..]) else path
      case ToPart(i) =>
        if (s.AndSchema? || s.OrSchema?) && i < |s.parts| then
          Spelled(path + (if s.AndSchema? then "<and[" else "<or[") + QueryRoundTrip.Decimal(i) + "]>", s.parts[i], p[1..])
        else path
      case ToNegated => if s.NotSchema? then Spelled(path + "<not>", s.inner, p[1..]) else path
  }

  /** `p` comes before `q`: it is above it, or turns off earlier where they part. */
  ghost predicate Earlier(p: Position, q: Position) {
    exists n: nat :: EarlierAt(p, q, n)
  }

  ghost predicate EarlierAt(p: Position, q: Position, n: nat) {
    n <= |p| && n < |q| && p[..n] == q[..n] && (n < |p| ==> TurnBefore(p[n], q[n]))
  }

  predicate TurnBefore(a: Turn, b: Turn) {
    match a
    case ToField(name) => b.ToField? && Less(name, b.name)
    case ToPart(i) => b.ToPart? && i < b.i
    case _ => false
  }

  // ---- the positions of the visits ----

  function Below(turn: Turn, ps: seq<Position>): (r: seq<Position>)
    ensures |r| == |ps| && forall i | 0 <= i < |ps| :: r[i] == [turn] + ps[i]
  {
    seq(|ps|, i requires 0 <= i < |ps| => [turn] + ps[i])
  }

  ghost function Positions(s: Schema): seq<Position>
    decreases s, 2, 0
  {
    [[]] + PositionsBelow(s)
  }

  ghost function PositionsBelow(s: Schema): seq<Position>
    decreases s, 1, 0
  {
    match s
    case ObjectSchema(_, fields, _, _, _, _) => FieldPositions(s, Sorted(fields.Keys), |Sorted(fields.Keys)|)
    case ArraySchema(_, element, _, _, _, _, _) => if element.None? then [] else Below(ToElement, Positions(element.value))
    case TransformSchema(_, inner, _) => Below(ToInner, Positions(inner))
    case AndSchema(_, parts) => PartPositions(s, |parts|)
    case OrSchema(_, parts) => PartPositions(s, |parts|)
    case NotSchema(_, inner) => Below(ToNegated, Positions(inner))
    case _ => []
  }

  ghost function FieldPositions(s: Schema, names: seq<string>, n: nat): seq<Position>
    requires s.ObjectSchema? && n <= |names| && forall i | 0 <= i < |names| :: names[i] in s.fields
    decreases s, 0, n
  {
    if n == 0 then []
    else FieldPositions(s, names, n - 1) + Below(ToField(names[n - 1]), Positions(s.fields[names[n - 1]]))
  }

  ghost function PartPositions(s: Schema, n: nat): seq<Position>
    requires (s.AndSchema? || s.OrSchema?) && n <= |s.parts|
    decreases s, 0, n
  {
    if n == 0 then [] else PartPositions(s, n - 1) + Below(ToPart(n - 1), Positions(s.parts[n - 1]))
  }

  // ---- the visits are at the positions ----

  ghost predicate VisitAt(path: string, s: Schema, p: Position, visit: Visit) {
    Reaches(s, p, visit.schema) && visit.path == Spelled(path, s, p)
  }

  ghost predicate AllAt(path: string, s: Schema, ps: seq<Position>, visits: seq<Visit>) {
    |ps| == |visits| && forall i | 0 <= i < |ps| :: VisitAt(path, s, ps[i], visits[i])
  }

  lemma AllAtCat(path: string, s: Schema, ps: seq<Position>, visits: seq<Visit>, qs: seq<Position>, more: seq<Visit>)
    requires AllAt(path, s, ps, visits) && AllAt(path, s, qs, more)
    ensures AllAt(path, s, ps + qs, visits + more)
  {
    hide VisitAt;
  }

  /** The path and the schema one turn further down. */
  predicate TurnsTo(path: string, s: Schema, turn: Turn, down: string, t: Schema) {
    match turn
    case ToField(name) => s.ObjectSchema? && name in s.fields && t == s.fields[name] && down == AppendPath(path, name)
    case ToElement => s.ArraySchema? && s.element == Some(t) && down == AppendPath(path, "[*]")
    case ToInner => s.TransformSchema? && t == s.inner && down == path
    case ToPart(i) =>
      && (s.AndSchema? || s.OrSchema?) && i < |s.parts| && t == s.parts[i]
      && down == path + (if s.AndSchema? then "<and[" else "<or[") + QueryRoundTrip.Decimal(i) + "]>"
    case ToNegated => s.NotSchema? && t == s.inner && down == path + "<not>"
  }

  lemma VisitBelow(path: string, s: Schema, turn: Turn, down: string, t: Schema, p: Position, visit: Visit)
    requires TurnsTo(path, s, turn, down, t) && VisitAt(down, t, p, visit)
    ensures VisitAt(path, s, [turn] + p, visit)
  {
    var q := [turn] + p;
    assert q[0] == turn && q[1..] == p;
    assert turn.ToElement? ==> down == path + "[*]" by {
      assert "" + "[*]" == "[*]";
    }
  }

  lemma AllBelow(path: string, s: Schema, turn: Turn, down: string, t: Schema, ps: seq<Position>, visits: seq<Visit>)
    requires TurnsTo(path, s, turn, down, t) && AllAt(down, t, ps, visits)
    ensures AllAt(path, s, Below(turn, ps), visits)
  {
    hide VisitAt, TurnsTo;
    forall i | 0 <= i < |ps|
      ensures VisitAt(path, s, Below(turn, ps)[i], visits[i])
    {
      VisitBelow(path, s, turn, down, t, ps[i], visits[i]);
    }
  }

  /** The visits after the first. */
  ghost function WalkBelow(path: string, s: Schema): seq<Visit> {
    match s
    case ObjectSchema(_, fields, _, _, _, _) => WalkFields(path, s, Sorted(fields.Keys), |Sorted(fields.Keys)|)
    case ArraySchema(_, element, _, _, _, _, _) => if element.None? then [] else Walk(AppendPath(path, "[*]"), element.value)
    case TransformSchema(_, inner, _) => Walk(path, inner)
    case AndSchema(_, parts) => WalkParts(path, s, "<and[", |parts|)
    case OrSchema(_, parts) => WalkParts(path, s, "<or[", |parts|)
    case NotSchema(_, inner) => Walk(path + "<not>", inner)
    case _ => []
  }

  lemma WalkHead(path: string, s: Schema)
    ensures Walk(path, s) == [Visit(path, s)] + WalkBelow(path, s)
  {
    hide Elements, Ascending, AppendPath, WalkFields, WalkParts;
  }

  lemma {:induction false} WalkAt(path: string, s: Schema)
    ensures AllAt(path, s, Positions(s), Walk(path, s))
    decreases s, 2, 0
  {
    hide Walk, WalkBelow, PositionsBelow;
    WalkHead(path, s);
    assert AllAt(path, s, [[]], [Visit(path, s)]);
    BelowAt(path, s);
    AllAtCat(path, s, [[]], [Visit(path, s)], PositionsBelow(s), WalkBelow(path, s));
  }

  lemma {:induction false} BelowAt(path: string, s: Schema)
    ensures AllAt(path, s, PositionsBelow(s), WalkBelow(path, s))
    decreases s, 1, 0
  {
    hide Elements, Ascending, AppendPath, Walk, WalkFields, WalkParts, Positions, FieldPositions, PartPositions, AllAt;
    NoneAt(path, s);
    match s
    case ObjectSchema(_, fields, _, _, _, _) => FieldsAt(path, s, Sorted(fields.Keys), |Sorted(fields.Keys)|);
    case ArraySchema(_, element, _, _, _, _, _) =>
      if element.Some? {
        var down := AppendPath(path, "[*]");
        WalkAt(down, element.value);
        AllBelow(path, s, ToElement, down, element.value, Positions(element.value), Walk(down, element.value));
      }
    case TransformSchema(_, inner, _) =>
      WalkAt(path, inner);
      AllBelow(path, s, ToInner, path, inner, Positions(inner), Walk(path, inner));
    case AndSchema(_, parts) => PartsAt(path, s, |parts|);
    case OrSchema(_, parts) => PartsAt(path, s, |parts|);
    case NotSchema(_, inner) =>
      WalkAt(path + "<not>", inner);
      AllBelow(path, s, ToNegated, path + "<not>", inner, Positions(inner), Walk(path + "<not>", inner));
    case _ =>
  }

  lemma NoneAt(path: string, s: Schema)
    ensures AllAt(path, s, [], [])
  {
  }

  lemma {:induction false} FieldsAt(path: string, s: Schema, names: seq<string>, n: nat)
    requires s.ObjectSchema? && n <= |names| && forall i | 0 <= i < |names| :: names[i] in s.fields
    ensures AllAt(path, s, FieldPositions(s, names, n), WalkFields(path, s, names, n))
    decreases s, 0, n
  {
    hide Walk, Positions, AppendPath, VisitAt;
    if n > 0 {
      var name := names[n - 1];
      var down, t := AppendPath(path, name), s.fields[name];
      FieldsAt(path, s, names, n - 1);
      WalkAt(down, t);
      AllBelow(path, s, ToField(name), down, t, Positions(t), Walk(down, t));
      AllAtCat(path, s, FieldPositions(s, names, n - 1), WalkFields(path, s, names, n - 1), Below(ToField(name), Positions(t)), Walk(down, t));
    }
  }

  lemma {:induction false} PartsAt(path: string, s: Schema, n: nat)
    requires (s.AndSchema? || s.OrSchema?) && n <= |s.parts|
    ensures AllAt(path, s, PartPositions(s, n), WalkParts(path, s, if s.AndSchema? then "<and[" else "<or[", n))
    decreases s, 0, n
  {
    hide Walk, Positions, VisitAt;
    if n > 0 {
      var tag := if s.AndSchema? then "<and[" else "<or[";
      var down, t := path + tag + QueryRoundTrip.Decimal(n - 1) + "]>", s.parts[n - 1];
      PartsAt(path, s, n - 1);
      WalkAt(down, t);
      AllBelow(path, s, ToPart(n - 1), down, t, Positions(t), Walk(down, t));
      AllAtCat(path, s, PartPositions(s, n - 1), WalkParts(path, s, tag, n - 1), Below(ToPart(n - 1), Positions(t)), Walk(down, t));
    }
  }

  // ---- every position is visited ----

  lemma InBelow(turn: Turn, ps: seq<Position>, p: Position)
    ensures p in Below(turn, ps) <==> p != [] && p[0] == turn && p[1..] in ps
  {
    if p != [] && p[0] == turn && p[1..] in ps {
      var i :| 0 <= i < |ps| && ps[i] == p[1..];
      assert Below(turn, ps)[i] == p;
    }
  }

  lemma {:induction false} PositionsAre(s: Schema, p: Position)
    ensures p in Positions(s) <==> Within(s, p)
    decreases s, 2
  {
    hide PositionsBelow, Reaches;
    if p == [] {
      HereIsWithin(s);
    } else {
      BelowAre(s, p);
    }
  }

  lemma HereIsWithin(s: Schema)
    ensures Within(s, [])
  {
    assert Reaches(s, [], s);
  }

  /** One turn, then a position of what is there. */
  ghost predicate WithinStep(s: Schema, p: Position) {
    p != [] &&
    match p[0]
    case ToField(name) => s.ObjectSchema? && name in s.fields && Within(s.fields[name], p[1..])
    case ToElement => s.ArraySchema? && s.element.Some? && Within(s.element.value, p[1..])
    case ToInner => s.TransformSchema? && Within(s.inner, p[1..])
    case ToPart(i) => (s.AndSchema? || s.OrSchema?) && i < |s.parts| && Within(s.parts[i], p[1..])
    case ToNegated => s.NotSchema? && Within(s.inner, p[1..])
  }

  lemma WithinSteps(s: Schema, p: Position)
    requires p != []
    ensures Within(s, p) <==> WithinStep(s, p)
  {
    if t :| Reaches(s, p, t) {
      match p[0]
      case ToField(name) => assert Reaches(s.fields[name], p[1..], t);
      case ToElement => assert Reaches(s.element.value, p[1..], t);
      case ToInner => assert Reaches(s.inner, p[1..], t);
      case ToPart(i) => assert Reaches(s.parts[i], p[1..], t);
      case ToNegated => assert Reaches(s.inner, p[1..], t);
    }
    if WithinStep(s, p) {
      match p[0]
      case ToField(name) =>
        var t :| Reaches(s.fields[name], p[1..], t);
        assert Reaches(s, p, t);
      case ToElement =>
        var t :| Reaches(s.element.value, p[1..], t);
        assert Reaches(s, p, t);
      case ToInner =>
        var t :| Reaches(s.inner, p[1..], t);
        assert Reaches(s, p, t);
      case ToPart(i) =>
        var t :| Reaches(s.parts[i], p[1..], t);
        assert Reaches(s, p, t);
      case ToNegated =>
        var t :| Reaches(s.inner, p[1..], t);
        assert Reaches(s, p, t);
    }
  }

  lemma {:induction false} BelowAre(s: Schema, p: Position)
    requires p != []
    ensures p in PositionsBelow(s) <==> Within(s, p)
    decreases s, 1
  {
    hide Elements, Ascending, FieldPositions, PartPositions, Within, Positions;
    WithinSteps(s, p);
    match s
    case ObjectSchema(_, fields, _, _, _, _) =>
      var names := Sorted(fields.Keys);
      FieldsAre(s, names, |names|, p);
      if p[0].ToField? {
        SortedHas(fields.Keys, p[0].name);
      }
    case ArraySchema(_, element, _, _, _, _, _) =>
      if element.Some? {
        InBelow(ToElement, Positions(element.value), p);
        PositionsAre(element.value, p[1..]);
      }
    case TransformSchema(_, inner, _) =>
      InBelow(ToInner, Positions(inner), p);
      PositionsAre(inner, p[1..]);
    case AndSchema(_, parts) => PartsAre(s, |parts|, p);
    case OrSchema(_, parts) => PartsAre(s, |parts|, p);
    case NotSchema(_, inner) =>
      InBelow(ToNegated, Positions(inner), p);
      PositionsAre(inner, p[1..]);
    case _ =>
  }

  lemma {:induction false} FieldsAre(s: Schema, names: seq<string>, n: nat, p: Position)
    requires s.ObjectSchema? && n <= |names| && forall i | 0 <= i < |names| :: names[i] in s.fields
    ensures p in FieldPositions(s, names, n) <==>
      p != [] && p[0].ToField? && p[0].name in names[..n] && Within(s.fields[p[0].name], p[1..])
    decreases s, 0, n
  {
    hide Within, Positions;
    if n > 0 {
      FieldsAre(s, names, n - 1, p);
      assert names[..n] == names[..n - 1] + [names[n - 1]];
      InBelow(ToField(names[n - 1]), Positions(s.fields[names[n - 1]]), p);
      if p != [] {
        PositionsAre(s.fields[names[n - 1]], p[1..]);
      }
    }
  }

  lemma {:induction false} PartsAre(s: Schema, n: nat, p: Position)
    requires (s.AndSchema? || s.OrSchema?) && n <= |s.parts|
    ensures p in PartPositions(s, n) <==> p != [] && p[0].ToPart? && p[0].i < n && Within(s.parts[p[0].i], p[1..])
    decreases s, 0, n
  {
    hide Within, Positions;
    if n > 0 {
      PartsAre(s, n - 1, p);
      InBelow(ToPart(n - 1), Positions(s.parts[n - 1]), p);
      if p != [] {
        PositionsAre(s.parts[n - 1], p[1..]);
      }
    }
  }

  // ---- in preorder ----

  ghost predicate Preorder(ps: seq<Position>) {
    forall i, j | 0 <= i < j < |ps| :: Earlier(ps[i], ps[j])
  }

  lemma EarlierBelow(turn: Turn, p: Position, q: Position)
    requires Earlier(p, q)
    ensures Earlier([turn] + p, [turn] + q)
  {
    var n: nat :| EarlierAt(p, q, n);
    assert ([turn] + p)[..n + 1] == [turn] + p[..n] && ([turn] + q)[..n + 1] == [turn] + q[..n];
    assert EarlierAt([turn] + p, [turn] + q, n + 1);
  }

  lemma PreorderBelow(turn: Turn, ps: seq<Position>)
    requires Preorder(ps)
    ensures Preorder(Below(turn, ps))
  {
    hide Earlier;
    forall i, j | 0 <= i < j < |ps|
      ensures Earlier(Below(turn, ps)[i], Below(turn, ps)[j])
    {
      EarlierBelow(turn, ps[i], ps[j]);
    }
  }

  lemma PreorderCat(ps: seq<Position>, qs: seq<Position>)
    requires Preorder(ps) && Preorder(qs) && forall p, q | p in ps && q in qs :: Earlier(p, q)
    ensures Preorder(ps + qs)
  {
    hide Earlier;
    forall i, j | 0 <= i < j < |ps + qs|
      ensures Earlier((ps + qs)[i], (ps + qs)[j])
    {
      if i < |ps| <= j {
        assert ps[i] in ps && qs[j - |ps|] in qs;
      }
    }
  }

  lemma TurnsApart(p: Position, q: Position)
    requires p != [] && q != [] && TurnBefore(p[0], q[0])
    ensures Earlier(p, q)
  {
    assert p[..0] == q[..0];
    assert EarlierAt(p, q, 0);
  }

  lemma RootFirst(q: Position)
    requires q != []
    ensures Earlier([], q)
  {
    assert q[..0] == [];
    assert EarlierAt([], q, 0);
  }

  lemma {:induction false} PositionsInOrder(s: Schema)
    ensures Preorder(Positions(s))
    decreases s, 2
  {
    hide Earlier, PositionsBelow, Preorder;
    BelowInOrder(s);
    forall p: Position, q: Position | p in [[]] && q in PositionsBelow(s)
      ensures Earlier(p, q)
    {
      NeverRoot(s, q);
      RootFirst(q);
    }
    OneInOrder();
    PreorderCat([[]], PositionsBelow(s));
  }

  lemma OneInOrder()
    ensures Preorder([[]]) && Preorder([])
  {
  }

  lemma NeverRoot(s: Schema, q: Position)
    requires q in PositionsBelow(s)
    ensures q != []
  {
    hide Elements, Ascending, FieldPositions, PartPositions, Positions;
    match s
    case ObjectSchema(_, fields, _, _, _, _) => FieldsAre(s, Sorted(fields.Keys), |Sorted(fields.Keys)|, q);
    case AndSchema(_, parts) => PartsAre(s, |parts|, q);
    case OrSchema(_, parts) => PartsAre(s, |parts|, q);
    case _ =>
  }

  lemma {:induction false} BelowInOrder(s: Schema)
    ensures Preorder(PositionsBelow(s))
    decreases s, 1
  {
    hide Elements, Ascending, FieldPositions, PartPositions, Positions, Preorder;
    OneInOrder();
    match s
    case ObjectSchema(_, fields, _, _, _, _) => FieldsInOrder(s, Sorted(fields.Keys), |Sorted(fields.Keys)|);
    case ArraySchema(_, element, _, _, _, _, _) =>
      if element.Some? {
        PositionsInOrder(element.value);
        PreorderBelow(ToElement, Positions(element.value));
      }
    case TransformSchema(_, inner, _) =>
      PositionsInOrder(inner);
      PreorderBelow(ToInner, Positions(inner));
    case AndSchema(_, parts) => PartsInOrder(s, |parts|);
    case OrSchema(_, parts) => PartsInOrder(s, |parts|);
    case NotSchema(_, inner) =>
      PositionsInOrder(inner);
      PreorderBelow(ToNegated, Positions(inner));
    case _ =>
  }

  lemma {:induction false} FieldsInOrder(s: Schema, names: seq<string>, n: nat)
    requires s.ObjectSchema? && n <= |names| && Ascending(names) && forall i | 0 <= i < |names| :: names[i] in s.fields
    ensures Preorder(FieldPositions(s, names, n))
    decreases s, 0, n
  {
    hide Positions, Preorder, Within, Less;
    OneInOrder();
    if n > 0 {
      var name := names[n - 1];
      var below := Below(ToField(name), Positions(s.fields[name]));
      FieldsInOrder(s, names, n - 1);
      PositionsInOrder(s.fields[name]);
      PreorderBelow(ToField(name), Positions(s.fields[name]));
      forall p: Position, q: Position | p in FieldPositions(s, names, n - 1) && q in below
        ensures Earlier(p, q)
      {
        FieldsAre(s, names, n - 1, p);
        InBelow(ToField(name), Positions(s.fields[name]), q);
        var i :| 0 <= i < n - 1 && names[i] == p[0].name;
        TurnsApart(p, q);
      }
      PreorderCat(FieldPositions(s, names, n - 1), below);
    }
  }

  lemma {:induction false} PartsInOrder(s: Schema, n: nat)
    requires (s.AndSchema? || s.OrSchema?) && n <= |s.parts|
    ensures Preorder(PartPositions(s, n))
    decreases s, 0, n
  {
    hide Positions, Preorder, Within;
    OneInOrder();
    if n > 0 {
      var below := Below(ToPart(n - 1), Positions(s.parts[n - 1]));
      PartsInOrder(s, n - 1);
      PositionsInOrder(s.parts[n - 1]);
      PreorderBelow(ToPart(n - 1), Positions(s.parts[n - 1]));
      forall p: Position, q: Position | p in PartPositions(s, n - 1) && q in below
        ensures Earlier(p, q)
      {
        PartsAre(s, n - 1, p);
        InBelow(ToPart(n - 1), Positions(s.parts[n - 1]), q);
        TurnsApart(p, q);
      }
      PreorderCat(PartPositions(s, n - 1), below);
    }
  }

  // ---- the main result ----

  /** The visits of a schema: one for each of its positions, in preorder, with the path that spells it. */
  lemma WalkMeaning(s: Schema) returns (ps: seq<Position>)
    ensures AllAt("", s, ps, Walk("", s))
    ensures forall p :: p in ps <==> Within(s, p)
    ensures Preorder(ps)
  {
    hide AllAt, Preorder, Within, Walk, Positions;
    ps := Positions(s);
    WalkAt("", s);
    PositionsInOrder(s);
    forall p
      ensures p in ps <==> Within(s, p)
    {
      PositionsAre(s, p);
    }
  }
}
