/**
 The order in which the keys of a map are visited. The source sorts field names bytewise before it
 lists them; where it ranges over a map directly the order is unspecified, and is taken to be this one.
 */
module Keys {

  /** Bytewise lexicographic order. */
  predicate Less(a: string, b: string)
    decreases |a|
  {
    b != [] && (a == [] || a[0] < b[0] || (a[0] == b[0] && Less(a[1..], b[1..])))
  }

  predicate Ascending(s: seq<string>) {
    forall i, j | 0 <= i < j < |s| :: Less(s[i], s[j])
  }

  predicate Below(k: string, s: seq<string>) {
    forall i | 0 <= i < |s| :: Less(k, s[i])
  }

  /** The elements of a set in ascending order. */
  ghost function Sorted(s: set<string>): (r: seq<string>)
    ensures Elements(r) == s && Ascending(r)
    ensures forall i | 0 <= i < |r| :: r[i] in s
    decreases |s|
  {
    if s == {} then []
    else
      HasLeast(s);
      var k :| k in s && forall x | x in s - {k} :: Less(k, x);
      var rest := Sorted(s - {k});
      AscendingCons(k, rest);
      [k] + rest
  }

  lemma SortedHas(keys: set<string>, k: string)
    ensures k in Sorted(keys) <==> k in keys
  {
    assert k in Elements(Sorted(keys)) <==> k in Sorted(keys);
  }

  function Elements(s: seq<string>): set<string> {
    set x | x in s
  }

  lemma {:induction false} LessTransitive(a: string, b: string, c: string)
    requires Less(a, b) && Less(b, c)
    ensures Less(a, c)
    decreases |a|
  {
    if a != [] && a[0] == b[0] && b[0] == c[0] {
      LessTransitive(a[1..], b[1..], c[1..]);
    }
  }

  lemma {:induction false} LessTotal(a: string, b: string)
    ensures a == b || Less(a, b) || Less(b, a)
    ensures !(Less(a, b) && Less(b, a)) && (a == b ==> !Less(a, b))
    decreases |a|
  {
    if a != [] && b != [] && a[0] == b[0] {
      LessTotal(a[1..], b[1..]);
      assert a == [a[0]] + a[1..] && b == [b[0]] + b[1..];
    }
  }

  lemma {:induction false} HasLeast(s: set<string>)
    requires s != {}
    ensures exists k :: k in s && forall x | x in s - {k} :: Less(k, x)
    decreases |s|
  {
    var a :| a in s;
    var rest := s - {a};
    if rest == {} {
      assert forall x | x in s - {a} :: Less(a, x);
    } else {
      HasLeast(rest);
      var k :| k in rest && forall x | x in rest - {k} :: Less(k, x);
      LessTotal(a, k);
      if Less(k, a) {
        assert forall x | x in s - {k} :: Less(k, x);
      } else {
        forall x | x in s - {a}
          ensures Less(a, x)
        {
          if x != k {
            LessTransitive(a, k, x);
          }
        }
      }
    }
  }

  lemma AscendingCons(k: string, s: seq<string>)
    requires Ascending(s) && forall x | x in Elements(s) :: Less(k, x)
    ensures Ascending([k] + s) && Elements([k] + s) == {k} + Elements(s)
  {
    var r := [k] + s;
    forall i, j | 0 <= i < j < |r|
      ensures Less(r[i], r[j])
    {
      if i == 0 {
        assert r[j] in Elements(s);
      }
    }
    assert forall x :: x in r <==> x == k || x in s;
  }

  /** An ascending sequence is determined by its elements. */
  lemma {:induction false} AscendingUnique(a: seq<string>, b: seq<string>)
    requires Ascending(a) && Ascending(b) && Elements(a) == Elements(b)
    ensures a == b
    decreases |a|
  {
    if a == [] {
      if b != [] {
        SomeElement(b);
      }
    } else {
      SomeElement(a);
      assert b != [];
      SomeElement(b);
      LessTotal(a[0], b[0]);
      TailElements(a);
      TailElements(b);
      AscendingUnique(a[1..], b[1..]);
    }
  }

  lemma SomeElement(a: seq<string>)
    requires a != []
    ensures a[0] in Elements(a)
  {
  }

  lemma TailElements(a: seq<string>)
    requires a != [] && Ascending(a)
    ensures Ascending(a[1..]) && Elements(a[1..]) == Elements(a) - {a[0]}
  {
    forall x | x in a[1..]
      ensures x != a[0]
    {
      LessTotal(x, a[0]);
    }
    forall x | x in Elements(a) - {a[0]}
      ensures x in a[1..]
    {
      var i :| 0 <= i < |a| && a[i] == x;
      assert a[1..][i - 1] == x;
    }
  }

  // ---- sorting ----

  /** Puts a new key where it belongs. */
  method Insert(s: seq<string>, k: string) returns (r: seq<string>)
    requires Ascending(s) && k !in s
    ensures Ascending(r) && Elements(r) == Elements(s) + {k}
  {
    var i := 0;
    while i < |s| && Less(s[i], k)
      invariant 0 <= i <= |s|
      invariant forall j | 0 <= j < i :: Less(s[j], k)
    {
      i := i + 1;
    }
    r := s[..i] + [k] + s[i..];
    InsertedAscends(s, k, i);
  }

  lemma InsertedAscends(s: seq<string>, k: string, i: nat)
    requires Ascending(s) && k !in s && i <= |s|
    requires forall j | 0 <= j < i :: Less(s[j], k)
    requires i < |s| ==> !Less(s[i], k)
    ensures var r := s[..i] + [k] + s[i..]; Ascending(r) && Elements(r) == Elements(s) + {k}
  {
    var r := s[..i] + [k] + s[i..];
    assert s == s[..i] + s[i..];
    assert forall x :: x in r <==> x in s || x == k;
    forall j | i <= j < |s|
      ensures Less(k, s[j])
    {
      LessTotal(k, s[i]);
      if i < j {
        LessTransitive(k, s[i], s[j]);
      }
    }
    AscendingAround(s[..i], k, s[i..]);
  }

  lemma AscendingAround(a: seq<string>, k: string, b: seq<string>)
    requires Ascending(a) && Below(k, b) && Ascending(b)
    requires forall i | 0 <= i < |a| :: Less(a[i], k)
    requires Ascending(a + b)
    ensures Ascending(a + [k] + b)
  {
    var r, s := a + [k] + b, a + b;
    forall i, j | 0 <= i < j < |r|
      ensures Less(r[i], r[j])
    {
      if i != |a| && j != |a| {
        var i', j' := if i < |a| then i else i - 1, if j < |a| then j else j - 1;
        assert s[i'] == r[i] && s[j'] == r[j];
      }
    }
  }

  method SortKeys(s: set<string>) returns (r: seq<string>)
    ensures r == Sorted(s)
  {
    r := [];
    var rest := s;
    while rest != {}
      invariant rest <= s && Ascending(r) && Elements(r) == s - rest
      decreases |rest|
    {
      var k :| k in rest;
      assert k !in Elements(r);
      r := Insert(r, k);
      rest := rest - {k};
    }
    AscendingUnique(r, Sorted(s));
  }
}
