/**
 Error paths. The context keeps the segments it is under on a stack and prints them when it records
 an error; whoever wraps errors later joins printed paths instead. The two agree on nonempty segments.
 */
module ErrorPaths {

  predicate StartsWithBracket(s: string) {
    s != "" && s[0] == '['
  }

  /** What a segment adds to a printed path that is already under way. */
  function Link(segment: string): string {
    (if StartsWithBracket(segment) then "" else ".") + segment
  }

  function Links(path: seq<string>): string {
    if path == [] then "" else Link(path[0]) + Links(path[1..])
  }

  function PathText(path: seq<string>): string {
    if path == [] then "" else path[0] + Links(path[1..])
  }

  function JoinPath(base: string, sub: string): string {
    if base == "" then sub
    else if sub == "" then base
    else if StartsWithBracket(sub) then base + sub
    else base + "." + sub
  }

  predicate NonEmpty(path: seq<string>) {
    forall i | 0 <= i < |path| :: path[i] != ""
  }

  lemma {:induction false} LinksAppend(p: seq<string>, q: seq<string>)
    ensures Links(p + q) == Links(p) + Links(q)
  {
    if p == [] {
      assert p + q == q;
    } else {
      LinksAppend(p[1..], q);
      assert (p + q)[0] == p[0] && (p + q)[1..] == p[1..] + q;
      Associative(Link(p[0]), Links(p[1..]), Links(q));
    }
  }

  lemma Associative(a: string, b: string, c: string)
    ensures (a + b) + c == a + (b + c)
  {
  }

  lemma PathTextAppend(p: seq<string>, q: seq<string>)
    requires p != []
    ensures PathText(p + q) == PathText(p) + Links(q)
  {
    assert (p + q)[0] == p[0] && (p + q)[1..] == p[1..] + q;
    LinksAppend(p[1..], q);
  }

  /** The two paths whose printed forms can be joined to the printed form of the whole. */
  predicate Joinable(p: seq<string>, q: seq<string>) {
    || p == []
    || q == []
    || StartsWithBracket(q[0])
    || (p != [""] && (q[0] != "" || (|q| > 1 && !StartsWithBracket(q[1]))))
  }

  /** Joining printed paths prints the joined path in exactly these cases. */
  lemma JoinPrinted(p: seq<string>, q: seq<string>)
    ensures JoinPath(PathText(p), PathText(q)) == PathText(p + q) <==> Joinable(p, q)
  {
    if p == [] {
      assert [] + q == q;
    } else if q == [] {
      assert p + [] == p;
    } else {
      PathTextAppend(p, q);
      LinksText(q);
      JoinText(PathText(p), PathText(q), !StartsWithBracket(q[0]));
    }
  }

  lemma LinksText(q: seq<string>)
    requires q != []
    ensures Links(q) == (if StartsWithBracket(q[0]) then "" else ".") + PathText(q)
  {
    Associative(if StartsWithBracket(q[0]) then "" else ".", q[0], Links(q[1..]));
  }

  lemma JoinText(base: string, sub: string, dot: bool)
    ensures JoinPath(base, sub) == base + ((if dot then "." else "") + sub) <==>
      if dot then base != "" && sub != "" && !StartsWithBracket(sub)
      else base == "" || sub == "" || StartsWithBracket(sub)
  {
    var whole := base + ((if dot then "." else "") + sub);
    assert |whole| == |base| + (if dot then 1 else 0) + |sub|;
    if base != "" && sub != "" && !StartsWithBracket(sub) {
      assert |JoinPath(base, sub)| == |base| + 1 + |sub|;
      Associative(base, ".", sub);
    } else if base == "" {
      assert "" + sub == sub;
    }
  }

  lemma NonEmptyJoin(p: seq<string>, q: seq<string>)
    requires NonEmpty(p) && NonEmpty(q)
    ensures JoinPath(PathText(p), PathText(q)) == PathText(p + q)
  {
    JoinPrinted(p, q);
  }
}
