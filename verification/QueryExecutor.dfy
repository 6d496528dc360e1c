/**
 Running a path against a value. A path with wildcards means: resolve every instance of the path,
 an instance being the path with an index in range in place of each wildcard.
 */
module QueryExecutor {
  import opened Values
  import opened QueryParser

  // ---- specification of the executor ----

  function GetField(v: Value, name: string): Option<Value> {
    if v.Map? && name in v.entries then Some(v.entries[name]) else None
  }

  function GetIndex(v: Value, i: int): Option<Value> {
    if v.List? && 0 <= i < |v.items| then Some(v.items[i]) else None
  }

  predicate HasWildcard(p: Path) {
    exists k | 0 <= k < |p| :: p[k].Wildcard?
  }

  function Run(v: Value, p: Path): Option<Value>
    decreases |p|, 0
  {
    if p == [] then Some(v)
    else if v.Null? then None
    else
      match p[0]
      case Field(name) => (match GetField(v, name) case None => None case Some(w) => Run(w, p[1..]))
      case Index(i) => (match GetIndex(v, i) case None => None case Some(w) => Run(w, p[1..]))
      case Wildcard =>
        if !v.List? then None
        else match RunEach(v.items, p[1..]) case None => None case Some(rs) => Some(List(rs))
  }

  /** The results for the elements of a list, expansions of inner wildcards spliced in. */
  function RunEach(items: seq<Value>, rest: Path): Option<seq<Value>>
    decreases |rest|, 1 + |items|
  {
    if items == [] then Some([])
    else
      match Run(items[0], rest)
      case None => None
      case Some(r) =>
        Prefixed(Spliced(r, rest), RunEach(items[1..], rest))
  }

  function Prefixed(done: seq<Value>, r: Option<seq<Value>>): Option<seq<Value>> {
    match r case None => None case Some(rs) => Some(done + rs)
  }

  function Spliced(r: Value, rest: Path): seq<Value> {
    if rest != [] && r.List? && HasWildcard(rest) then r.items else [r]
  }

  // ---- the executor ----

  method ContainsWildcard(p: Path) returns (found: bool)
    ensures found == HasWildcard(p)
  {
    for i := 0 to |p|
      invariant forall k | 0 <= k < i :: !p[k].Wildcard?
    {
      if p[i].Wildcard? {
        return true;
      }
    }
    return false;
  }

  method ExecutePath(data: Value, p: Path) returns (result: Option<Value>)
    ensures result == Run(data, p)
    decreases |p|, 0
  {
    var current := data;
    for i := 0 to |p|
      invariant Run(current, p[i..]) == Run(data, p)
    {
      assert p[i..][0] == p[i] && p[i..][1..] == p[i + 1..];
      if current.Null? {
        return None;
      }
      match p[i]
      case Field(name) =>
        var next := GetField(current, name);
        if next.None? {
          return None;
        }
        current := next.value;
      case Index(n) =>
        var next := GetIndex(current, n);
        if next.None? {
          return None;
        }
        current := next.value;
      case Wildcard =>
        result := ExecuteWildcard(current, p[i + 1..]);
        return;
    }
    return Some(current);
  }

  method ExecuteWildcard(arr: Value, remaining: Path) returns (result: Option<Value>)
    ensures result ==
      if !arr.List? then None
      else match RunEach(arr.items, remaining) case None => None case Some(rs) => Some(List(rs))
    decreases |remaining|, 2
  {
    if !arr.List? {
      return None;
    }
    var results := [];
    assert arr.items[0..] == arr.items;
    PrefixedNothing(RunEach(arr.items, remaining));
    for i := 0 to |arr.items|
      invariant RunEach(arr.items, remaining) == Prefixed(results, RunEach(arr.items[i..], remaining))
    {
      assert arr.items[i..][0] == arr.items[i] && arr.items[i..][1..] == arr.items[i + 1..];
      var elem := arr.items[i];
      ghost var before := results;
      if |remaining| == 0 {
        results := results + [elem];
      } else {
        var r := ExecutePath(elem, remaining);
        if r.None? {
          return None;
        }
        var expands := ContainsWildcard(remaining);
        if r.value.List? && expands {
          results := results + r.value.items;
        } else {
          results := results + [r.value];
        }
      }
      PrefixedTwice(before, Spliced(Run(elem, remaining).value, remaining), RunEach(arr.items[i + 1..], remaining));
    }
    assert arr.items[|arr.items|..] == [];
    assert results + [] == results;
    return Some(List(results));
  }

  lemma PrefixedNothing(r: Option<seq<Value>>)
    ensures Prefixed([], r) == r
  {
    if r.Some? {
      assert [] + r.value == r.value;
    }
  }

  lemma PrefixedTwice(a: seq<Value>, b: seq<Value>, r: Option<seq<Value>>)
    ensures Prefixed(a, Prefixed(b, r)) == Prefixed(a + b, r)
  {
    if r.Some? {
      assert a + (b + r.value) == (a + b) + r.value;
    }
  }
}
