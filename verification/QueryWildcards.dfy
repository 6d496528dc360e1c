/**
 What a query with wildcards means. An instance of a path replaces wildcards, from the left, by
 indices that are in range where they are used. A query succeeds exactly when all its instances
 lead somewhere, and its result lists what the complete instances lead to, in the order of their
 indices; a value that is itself a list is listed as one element.
 */
module QueryWildcards {
  import opened Values
  import opened QueryParser
  import opened QueryExecutor

  // ---- meaning ----

  /** A path without wildcards leads from one value to another: along keys of maps and places of lists. */
  ghost predicate Leads(v: Value, q: Path, w: Value) {
    if q == [] then w == v
    else
      match q[0]
      case Field(name) => v.Map? && name in v.entries && Leads(v.entries[name], q[1..], w)
      case Index(i) => v.List? && 0 <= i < |v.items| && Leads(v.items[i], q[1..], w)
      case Wildcard => false
  }

  /** It leads to a list that has a place `i`. */
  ghost predicate LeadsInto(v: Value, q: Path, i: int) {
    exists items: seq<Value> :: Leads(v, q, List(items)) && 0 <= i < |items|
  }

  ghost predicate StepInstance(v: Value, p: Path, q: Path, m: nat)
    requires m < |q| && m < |p|
  {
    if p[m].Wildcard? then q[m].Index? && LeadsInto(v, q[..m], q[m].i) else q[m] == p[m]
  }

  /** `q` follows `p` as far as it goes, with an index in range for each wildcard. */
  ghost predicate Instance(v: Value, p: Path, q: Path) {
    |q| <= |p| && forall m: nat | m < |q| :: StepInstance(v, p, q, m)
  }

  /** An instance leads somewhere, and to a list when a wildcard comes next. */
  ghost predicate Good(v: Value, p: Path, q: Path) {
    exists w :: Leads(v, q, w) && (|q| < |p| && p[|q|].Wildcard? ==> w.List?)
  }

  ghost predicate Expands(v: Value, p: Path) {
    forall q :: Instance(v, p, q) ==> Good(v, p, q)
  }

  ghost predicate Complete(v: Value, p: Path, q: Path) {
    |q| == |p| && Instance(v, p, q)
  }

  /** Lexicographic order of the indices of two instances. */
  ghost predicate Before(q: Path, r: Path) {
    exists m: nat :: BeforeAt(q, r, m)
  }

  predicate BeforeAt(q: Path, r: Path, m: nat) {
    m < |q| && m < |r| && q[..m] == r[..m] && q[m].Index? && r[m].Index? && q[m].i < r[m].i
  }

  ghost predicate Ascending(qs: seq<Path>) {
    forall i, j | 0 <= i < j < |qs| :: Before(qs[i], qs[j])
  }

  // ---- instances, one segment at a time ----

  /** Where one segment leads. */
  function Child(v: Value, s: Segment): Option<Value> {
    match s
    case Field(name) => if v.Map? && name in v.entries then Some(v.entries[name]) else None
    case Index(i) => if v.List? && 0 <= i < |v.items| then Some(v.items[i]) else None
    case Wildcard => None
  }

  lemma LeadsCons(v: Value, s: Segment, q: Path, w: Value)
    ensures Leads(v, [s] + q, w) <==> Child(v, s).Some? && Leads(Child(v, s).value, q, w)
  {
    assert ([s] + q)[1..] == q;
  }

  lemma LeadsIntoCons(v: Value, s: Segment, q: Path, i: int)
    ensures LeadsInto(v, [s] + q, i) <==> Child(v, s).Some? && LeadsInto(Child(v, s).value, q, i)
  {
    hide Leads, Child;
    forall items: seq<Value>
      ensures Leads(v, [s] + q, List(items)) <==> Child(v, s).Some? && Leads(Child(v, s).value, q, List(items))
    {
      LeadsCons(v, s, q, List(items));
    }
  }

  lemma LeadsIntoHere(v: Value, i: int)
    ensures LeadsInto(v, [], i) <==> v.List? && 0 <= i < |v.items|
  {
    if v.List? && 0 <= i < |v.items| {
      assert Leads(v, [], List(v.items));
    }
  }

  /** Outside wildcards the executor takes the same steps. */
  lemma RunCons(v: Value, p: Path)
    requires p != [] && !p[0].Wildcard?
    ensures Run(v, p) == match Child(v, p[0]) case None => None case Some(w) => Run(w, p[1..])
  {
  }

  /** A segment that can start an instance of `p`. */
  predicate First(v: Value, p: Path, s: Segment) {
    p != [] && if p[0].Wildcard? then s.Index? && v.List? && 0 <= s.i < |v.items| else s == p[0]
  }

  lemma InstanceCons(v: Value, p: Path, s: Segment, q: Path)
    requires p != [] && Child(v, s).Some?
    ensures Instance(v, p, [s] + q) <==> First(v, p, s) && Instance(Child(v, s).value, p[1..], q)
  {
    var w := Child(v, s).value;
    var r := [s] + q;
    hide LeadsInto, Child;
    assert r[..0] == [] && r[0] == s;
    LeadsIntoHere(v, if s.Index? then s.i else 0);
    forall m: nat | m < |q| && m + 1 < |p|
      ensures StepInstance(v, p, r, m + 1) <==> StepInstance(w, p[1..], q, m)
    {
      assert r[..m + 1] == [s] + q[..m] && r[m + 1] == q[m];
      LeadsIntoCons(v, s, q[..m], if q[m].Index? then q[m].i else 0);
    }
    if Instance(v, p, r) {
      assert StepInstance(v, p, r, 0);
      forall m: nat | m < |q|
        ensures StepInstance(w, p[1..], q, m)
      {
        assert StepInstance(v, p, r, m + 1);
      }
    }
    if First(v, p, s) && Instance(w, p[1..], q) {
      forall m: nat | m < |r|
        ensures StepInstance(v, p, r, m)
      {
        if m > 0 {
          assert StepInstance(w, p[1..], q, m - 1);
        }
      }
    }
  }

  lemma GoodCons(v: Value, p: Path, s: Segment, q: Path)
    requires p != [] && Child(v, s).Some?
    ensures Good(v, p, [s] + q) <==> Good(Child(v, s).value, p[1..], q)
  {
    hide Leads, Child;
    forall w
      ensures Leads(v, [s] + q, w) <==> Leads(Child(v, s).value, q, w)
    {
      LeadsCons(v, s, q, w);
    }
  }

  lemma InstanceEmpty(v: Value, p: Path)
    ensures Instance(v, p, [])
    ensures Good(v, p, []) <==> (p != [] && p[0].Wildcard? ==> v.List?)
  {
    assert Leads(v, [], v);
  }

  lemma SplitFirst(v: Value, p: Path, q: Path)
    requires q != [] && Instance(v, p, q)
    ensures q == [q[0]] + q[1..] && First(v, p, q[0])
  {
    assert StepInstance(v, p, q, 0);
    assert q[..0] == [];
    LeadsIntoHere(v, if q[0].Index? then q[0].i else 0);
  }

  // ---- Expands, one segment at a time ----

  lemma ExpandsHere(v: Value, p: Path, s: Segment)
    requires Expands(v, p) && First(v, p, s) && Child(v, s).Some?
    ensures Expands(Child(v, s).value, p[1..])
  {
    hide Instance, Good;
    var w := Child(v, s).value;
    forall q | Instance(w, p[1..], q)
      ensures Good(w, p[1..], q)
    {
      InstanceCons(v, p, s, q);
      GoodCons(v, p, s, q);
    }
  }

  lemma ExpandsFirst(v: Value, p: Path)
    requires p != [] && Expands(v, p)
    ensures if p[0].Wildcard? then v.List? else Child(v, p[0]).Some?
  {
    InstanceEmpty(v, p);
    assert Good(v, p, []);
    if !p[0].Wildcard? {
      var q := [p[0]];
      forall m: nat | m < |q|
        ensures StepInstance(v, p, q, m)
      {
      }
      assert Instance(v, p, q);
      assert Good(v, p, q);
      var w :| Leads(v, q, w);
      assert q == [p[0]] + [];
      LeadsCons(v, p[0], [], w);
    }
  }

  lemma ExpandsIf(v: Value, p: Path)
    requires p != [] && (p[0].Wildcard? ==> v.List?) && (!p[0].Wildcard? ==> Child(v, p[0]).Some?)
    requires forall s :: First(v, p, s) ==> Child(v, s).Some? && Expands(Child(v, s).value, p[1..])
    ensures Expands(v, p)
  {
    hide Instance, Good, First;
    forall q | Instance(v, p, q)
      ensures Good(v, p, q)
    {
      if q == [] {
        InstanceEmpty(v, p);
      } else {
        SplitFirst(v, p, q);
        InstanceCons(v, p, q[0], q[1..]);
        GoodCons(v, p, q[0], q[1..]);
      }
    }
  }

  lemma ExpandsEmpty(v: Value)
    ensures Expands(v, [])
  {
    assert Leads(v, [], v);
  }

  // ---- success ----

  lemma {:induction false} RunExpands(v: Value, p: Path)
    ensures Run(v, p).Some? <==> Expands(v, p)
    decreases |p|, 0
  {
    hide Expands;
    if p == [] {
      ExpandsEmpty(v);
    } else if p[0].Wildcard? {
      if v.List? {
        RunEachExpands(v.items, p[1..]);
        WildcardExpands(v, p);
      } else if Expands(v, p) {
        ExpandsFirst(v, p);
      }
    } else {
      PlainExpands(v, p);
      if Child(v, p[0]).Some? {
        RunExpands(Child(v, p[0]).value, p[1..]);
      }
    }
  }

  lemma WildcardExpands(v: Value, p: Path)
    requires p != [] && p[0].Wildcard? && v.List?
    ensures Expands(v, p) <==> forall i | 0 <= i < |v.items| :: Expands(v.items[i], p[1..])
  {
    hide Expands;
    if Expands(v, p) {
      forall i | 0 <= i < |v.items|
        ensures Expands(v.items[i], p[1..])
      {
        ExpandsHere(v, p, Index(i));
      }
    }
    if forall i | 0 <= i < |v.items| :: Expands(v.items[i], p[1..]) {
      ExpandsIf(v, p);
    }
  }

  lemma PlainExpands(v: Value, p: Path)
    requires p != [] && !p[0].Wildcard?
    ensures Expands(v, p) <==> Child(v, p[0]).Some? && Expands(Child(v, p[0]).value, p[1..])
  {
    hide Expands;
    if Expands(v, p) {
      ExpandsFirst(v, p);
      ExpandsHere(v, p, p[0]);
    }
    if Child(v, p[0]).Some? && Expands(Child(v, p[0]).value, p[1..]) {
      ExpandsIf(v, p);
    }
  }

  lemma {:induction false} RunEachExpands(items: seq<Value>, rest: Path)
    ensures RunEach(items, rest).Some? <==> forall i | 0 <= i < |items| :: Expands(items[i], rest)
    decreases |rest|, 1 + |items|
  {
    hide Expands, Run;
    if items != [] {
      RunExpands(items[0], rest);
      RunEachExpands(items[1..], rest);
      assert items == [items[0]] + items[1..];
    }
  }

  // ---- results ----

  datatype Leaf = Leaf(at: Path, value: Value)

  function Under(s: Segment, ls: seq<Leaf>): (r: seq<Leaf>)
    ensures |r| == |ls|
  {
    seq(|ls|, i requires 0 <= i < |ls| => Leaf([s] + ls[i].at, ls[i].value))
  }

  /** The complete instances with what they resolve to, in the order the executor visits them. */
  ghost function Leaves(v: Value, p: Path): seq<Leaf>
    requires Expands(v, p)
    decreases |p|, 0
  {
    if p == [] then [Leaf([], v)]
    else if p[0].Wildcard? then
      ExpandsFirst(v, p);
      WildcardExpands(v, p);
      LeavesFrom(v.items, 0, p[1..])
    else
      PlainExpands(v, p);
      Under(p[0], Leaves(Child(v, p[0]).value, p[1..]))
  }

  ghost function LeavesFrom(items: seq<Value>, from: nat, rest: Path): seq<Leaf>
    requires from <= |items| && forall i | 0 <= i < |items| :: Expands(items[i], rest)
    decreases |rest|, 1 + |items| - from
  {
    if from == |items| then []
    else Under(Index(from), Leaves(items[from], rest)) + LeavesFrom(items, from + 1, rest)
  }

  function ValuesOf(ls: seq<Leaf>): (r: seq<Value>)
    ensures |r| == |ls|
  {
    seq(|ls|, i requires 0 <= i < |ls| => ls[i].value)
  }

  lemma ValuesCat(a: seq<Leaf>, b: seq<Leaf>)
    ensures ValuesOf(a + b) == ValuesOf(a) + ValuesOf(b)
  {
  }

  lemma ValuesUnder(s: Segment, ls: seq<Leaf>)
    ensures ValuesOf(Under(s, ls)) == ValuesOf(ls)
  {
  }

  /** The shape of a result: the list of all leaves under a wildcard, the one leaf otherwise. */
  ghost predicate Yields(r: Option<Value>, p: Path, ls: seq<Leaf>) {
    if HasWildcard(p) then r == Some(List(ValuesOf(ls))) else |ls| == 1 && r == Some(ls[0].value)
  }

  lemma {:induction false} RunYields(v: Value, p: Path)
    requires Expands(v, p)
    ensures Yields(Run(v, p), p, Leaves(v, p))
    decreases |p|, 0
  {
    hide Expands;
    if p == [] {
    } else if p[0].Wildcard? {
      ExpandsFirst(v, p);
      WildcardExpands(v, p);
      RunEachYields(v.items, 0, p[1..]);
      assert v.items[0..] == v.items;
    } else {
      PlainExpands(v, p);
      var w := Child(v, p[0]).value;
      RunYields(w, p[1..]);
      ValuesUnder(p[0], Leaves(w, p[1..]));
    }
  }

  lemma {:induction false} RunEachYields(items: seq<Value>, from: nat, rest: Path)
    requires from <= |items| && forall i | 0 <= i < |items| :: Expands(items[i], rest)
    ensures RunEach(items[from..], rest) == Some(ValuesOf(LeavesFrom(items, from, rest)))
    decreases |rest|, 1 + |items| - from
  {
    hide Expands, Leaves, Run;
    if from < |items| {
      var ls := Leaves(items[from], rest);
      assert items[from..][0] == items[from] && items[from..][1..] == items[from + 1..];
      RunYields(items[from], rest);
      RunEachYields(items, from + 1, rest);
      ValuesUnder(Index(from), ls);
      ValuesCat(Under(Index(from), ls), LeavesFrom(items, from + 1, rest));
      SplicedLeaves(Run(items[from], rest).value, rest, ls);
    }
  }

  lemma SplicedLeaves(r: Value, rest: Path, ls: seq<Leaf>)
    requires Yields(Some(r), rest, ls)
    ensures Spliced(r, rest) == ValuesOf(ls)
  {
    if !HasWildcard(rest) {
      assert ValuesOf(ls) == [ls[0].value];
    }
  }

  // ---- the leaves are exactly the complete instances ----

  ghost predicate LeafOf(v: Value, p: Path, l: Leaf) {
    Complete(v, p, l.at) && Leads(v, l.at, l.value)
  }

  lemma LeafUnder(v: Value, p: Path, s: Segment, l: Leaf)
    requires First(v, p, s) && Child(v, s).Some? && LeafOf(Child(v, s).value, p[1..], l)
    ensures LeafOf(v, p, Leaf([s] + l.at, l.value))
  {
    hide Instance;
    InstanceCons(v, p, s, l.at);
    LeadsCons(v, s, l.at, l.value);
  }

  lemma {:induction false} LeavesAreInstances(v: Value, p: Path, k: nat)
    requires Expands(v, p) && k < |Leaves(v, p)|
    ensures LeafOf(v, p, Leaves(v, p)[k])
    decreases |p|, 0
  {
    hide Expands;
    if p == [] {
    } else {
      hide LeafOf;
      if p[0].Wildcard? {
        ExpandsFirst(v, p);
        WildcardExpands(v, p);
        LeavesFromAreInstances(v, p, 0, k);
      } else {
        PlainExpands(v, p);
        LeavesAreInstances(Child(v, p[0]).value, p[1..], k);
        LeafUnder(v, p, p[0], Leaves(Child(v, p[0]).value, p[1..])[k]);
      }
    }
  }

  lemma {:induction false} LeavesFromAreInstances(v: Value, p: Path, from: nat, k: nat)
    requires p != [] && p[0].Wildcard? && v.List? && from <= |v.items|
    requires forall i | 0 <= i < |v.items| :: Expands(v.items[i], p[1..])
    requires k < |LeavesFrom(v.items, from, p[1..])|
    ensures LeafOf(v, p, LeavesFrom(v.items, from, p[1..])[k])
    decreases |p| - 1, 1 + |v.items| - from
  {
    hide Expands, Leaves, LeafOf;
    var ls := Leaves(v.items[from], p[1..]);
    if k < |ls| {
      LeavesAreInstances(v.items[from], p[1..], k);
      LeafUnder(v, p, Index(from), ls[k]);
    } else {
      LeavesFromAreInstances(v, p, from + 1, k - |ls|);
    }
  }

  lemma {:induction false} InstancesAreLeaves(v: Value, p: Path, q: Path) returns (k: nat)
    requires Expands(v, p) && Complete(v, p, q)
    ensures k < |Leaves(v, p)| && Leaves(v, p)[k].at == q
    decreases |p|, 0
  {
    hide Expands;
    if p == [] {
      k := 0;
    } else {
      SplitFirst(v, p, q);
      if p[0].Wildcard? {
        ExpandsFirst(v, p);
        WildcardExpands(v, p);
        k := InstancesAreLeavesFrom(v, p, 0, q);
      } else {
        PlainExpands(v, p);
        InstanceCons(v, p, p[0], q[1..]);
        k := InstancesAreLeaves(Child(v, p[0]).value, p[1..], q[1..]);
      }
    }
  }

  lemma {:induction false} InstancesAreLeavesFrom(v: Value, p: Path, from: nat, q: Path) returns (k: nat)
    requires p != [] && p[0].Wildcard? && v.List? && from <= |v.items|
    requires forall i | 0 <= i < |v.items| :: Expands(v.items[i], p[1..])
    requires Complete(v, p, q) && q[0].Index? && from <= q[0].i < |v.items| && q == [q[0]] + q[1..]
    ensures k < |LeavesFrom(v.items, from, p[1..])| && LeavesFrom(v.items, from, p[1..])[k].at == q
    decreases |p| - 1, 1 + |v.items| - from
  {
    hide Expands, Leaves, Instance;
    var ls := Leaves(v.items[from], p[1..]);
    if q[0].i == from {
      InstanceCons(v, p, q[0], q[1..]);
      k := InstancesAreLeaves(v.items[from], p[1..], q[1..]);
    } else {
      k := InstancesAreLeavesFrom(v, p, from + 1, q);
      k := |ls| + k;
    }
  }

  // ---- their order ----

  lemma BeforeUnder(s: Segment, q: Path, r: Path)
    requires Before(q, r)
    ensures Before([s] + q, [s] + r)
  {
    var m: nat :| BeforeAt(q, r, m);
    assert ([s] + q)[..m + 1] == [s] + q[..m] && ([s] + r)[..m + 1] == [s] + r[..m];
    assert BeforeAt([s] + q, [s] + r, m + 1);
  }

  lemma {:induction false} LeavesAscend(v: Value, p: Path, i: nat, j: nat)
    requires Expands(v, p) && i < j < |Leaves(v, p)|
    ensures Before(Leaves(v, p)[i].at, Leaves(v, p)[j].at)
    decreases |p|, 0
  {
    hide Expands, Before;
    if p[0].Wildcard? {
      ExpandsFirst(v, p);
      WildcardExpands(v, p);
      LeavesFromAscend(v.items, 0, p[1..], i, j);
    } else {
      PlainExpands(v, p);
      var ls := Leaves(Child(v, p[0]).value, p[1..]);
      LeavesAscend(Child(v, p[0]).value, p[1..], i, j);
      BeforeUnder(p[0], ls[i].at, ls[j].at);
    }
  }

  lemma {:induction false} LeavesFromAscend(items: seq<Value>, from: nat, rest: Path, i: nat, j: nat)
    requires from <= |items| && forall k | 0 <= k < |items| :: Expands(items[k], rest)
    requires i < j < |LeavesFrom(items, from, rest)|
    ensures Before(LeavesFrom(items, from, rest)[i].at, LeavesFrom(items, from, rest)[j].at)
    decreases |rest|, 1 + |items| - from
  {
    hide Expands, Leaves, Before;
    var ls := Leaves(items[from], rest);
    if j < |ls| {
      LeavesAscend(items[from], rest, i, j);
      BeforeUnder(Index(from), ls[i].at, ls[j].at);
    } else if |ls| <= i {
      LeavesFromAscend(items, from + 1, rest, i - |ls|, j - |ls|);
    } else {
      var n := LeafIndex(items, from + 1, rest, j - |ls|);
      FirstDecides(from, n, ls[i].at, LeavesFrom(items, from, rest)[j].at);
    }
  }

  lemma FirstDecides(a: nat, b: nat, q: Path, r: Path)
    requires a < b && r != [] && r[0] == Index(b)
    ensures Before([Index(a)] + q, r)
  {
    assert ([Index(a)] + q)[..0] == r[..0];
    assert BeforeAt([Index(a)] + q, r, 0);
  }

  /** A leaf of the elements from `from` on starts with one of their indices. */
  lemma {:induction false} LeafIndex(items: seq<Value>, from: nat, rest: Path, k: nat) returns (n: nat)
    requires from <= |items| && forall i | 0 <= i < |items| :: Expands(items[i], rest)
    requires k < |LeavesFrom(items, from, rest)|
    ensures from <= n < |items|
    ensures var q := LeavesFrom(items, from, rest)[k].at; q != [] && q[0] == Index(n)
    decreases |items| - from
  {
    hide Expands, Leaves;
    var ls := Leaves(items[from], rest);
    if k < |ls| {
      n := from;
    } else {
      n := LeafIndex(items, from + 1, rest, k - |ls|);
    }
  }

  // ---- the meaning of a query ----

  /** `results` are what the complete instances of `p` lead to, in ascending order of indices. */
  ghost predicate ListsInstances(v: Value, p: Path, qs: seq<Path>, results: seq<Value>) {
    && |qs| == |results| && Ascending(qs)
    && (forall q :: q in qs <==> Complete(v, p, q))
    && forall i | 0 <= i < |qs| :: Leads(v, qs[i], results[i])
  }

  lemma LeavesListInstances(v: Value, p: Path) returns (qs: seq<Path>)
    requires Expands(v, p)
    ensures ListsInstances(v, p, qs, ValuesOf(Leaves(v, p)))
  {
    hide Expands, Leaves, Before;
    var ls := Leaves(v, p);
    qs := seq(|ls|, i requires 0 <= i < |ls| => ls[i].at);
    forall i, j | 0 <= i < j < |qs|
      ensures Before(qs[i], qs[j])
    {
      LeavesAscend(v, p, i, j);
    }
    forall i | 0 <= i < |qs|
      ensures LeafOf(v, p, ls[i])
    {
      LeavesAreInstances(v, p, i);
    }
    forall q
      ensures q in qs <==> Complete(v, p, q)
    {
      if Complete(v, p, q) {
        var k := InstancesAreLeaves(v, p, q);
        assert qs[k] == q;
      }
    }
  }

  /**
   A query with at least one wildcard succeeds exactly when every instance leads somewhere, to a
   list wherever a wildcard follows. Its result is then the list of what the complete instances lead
   to, in ascending order of their indices, each once.
   */
  lemma WildcardMeaning(v: Value, p: Path) returns (qs: seq<Path>)
    requires HasWildcard(p)
    ensures Run(v, p).Some? <==> Expands(v, p)
    ensures Run(v, p).Some? ==> Run(v, p).value.List? && ListsInstances(v, p, qs, Run(v, p).value.items)
  {
    hide Expands, Leaves, ListsInstances;
    RunExpands(v, p);
    qs := [];
    if Expands(v, p) {
      RunYields(v, p);
      qs := LeavesListInstances(v, p);
    }
  }

  /** Without wildcards a query gives exactly the value that its path leads to. */
  lemma {:induction false} PlainMeaning(v: Value, p: Path, w: Value)
    requires !HasWildcard(p)
    ensures Run(v, p) == Some(w) <==> Leads(v, p, w)
    decreases |p|
  {
    if p != [] {
      assert !p[0].Wildcard?;
      hide Run;
      RunCons(v, p);
      if Child(v, p[0]).Some? {
        PlainMeaning(Child(v, p[0]).value, p[1..], w);
      }
    } else {
      assert Run(v, p) == Some(v);
    }
  }
}
