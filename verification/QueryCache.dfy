/**
 The shared cache of parsed queries. Its operations are atomic, but a call of ExecuteCached is
 several of them, so any number of threads can interleave theirs. In every interleaving the cache
 holds only correct entries, never more than 1001 of them, and every finished call on a nonempty
 query returns what an uncached execution returns.
 */
module QueryCache {
  import opened Values
  import opened QueryParser
  import opened QueryExecutor
  import opened QueryGrammar
  import opened QueryWildcards

  type Queries = map<string, Node>

  const EVICTION_SIZE: nat := 1000

  // ---- uncached execution ----

  /** `None` stands for an error. The empty query returns the data itself. */
  function Execute(data: Value, query: string): Option<Value> {
    if query == "" then Some(data)
    else match PathOf(query) case Err(_) => None case Ok(path) => Run(data, path)
  }

  method ExecuteQuery(data: Value, query: string) returns (result: Option<Value>)
    ensures result == Execute(data, query)
  {
    if query == "" {
      return Some(data);
    }
    var path := PathFromQuery(query);
    match path
    case Err(_) => return None;
    case Ok(p) => result := ExecutePath(data, p);
  }

  /** End to end, for queries without wildcards: what the text spells, followed through the data. */
  lemma QueryMeaning(data: Value, query: string, p: Path, w: Value)
    requires Spells(query, p) && !HasWildcard(p)
    ensures Execute(data, query) == Some(w) <==> Leads(data, p, w)
  {
    hide Spells, Run, ParseQuerySpec, Leads;
    ParsesIsSpells(query, p);
    ParsesIsSpells("", p);
    EmptyQueryFails();
    PlainMeaning(data, p, w);
  }

  /** A query that spells no path fails, unless it is empty. */
  lemma MalformedFails(data: Value, query: string)
    requires query != "" && forall p :: !Spells(query, p)
    ensures Execute(data, query) == None
  {
    hide Spells, Run;
    if PathOf(query).Ok? {
      ParsesIsSpells(query, PathOf(query).value);
    }
  }

  // ---- the cache operations ----

  /** What storing an entry makes of the cache: one that has grown past its limit is emptied first. */
  function Stored(queries: Queries, key: string, query: Node): Queries {
    (if |queries| > EVICTION_SIZE then map[] else queries)[key := query]
  }

  /** Every entry is the parse of its key, and there are at most 1001. */
  ghost predicate Correct(queries: Queries) {
    && |queries| <= EVICTION_SIZE + 1
    && forall key | key in queries :: ParseQuerySpec(key) == Ok(queries[key])
  }

  lemma StoredIsCorrect(queries: Queries, key: string, query: Node)
    requires Correct(queries) && ParseQuerySpec(key) == Ok(query)
    ensures Correct(Stored(queries, key, query))
  {
    hide ParseQuerySpec;
    var m := if |queries| > EVICTION_SIZE then map[] else queries;
    assert m[key := query].Keys == m.Keys + {key};
  }

  class Cache {
    var queries: Queries

    constructor ()
      ensures queries == map[] && Correct(queries)
    {
      queries := map[];
    }

    /** A correct cache gives out nothing but the parse of the key. */
    method Get(key: string) returns (query: Option<Node>)
      ensures query == if key in queries then Some(queries[key]) else None
      ensures Correct(queries) && query.Some? ==> ParseQuerySpec(key) == Ok(query.value)
    {
      hide ParseQuerySpec;
      return if key in queries then Some(queries[key]) else None;
    }

    /** Storing a parse under its key keeps a correct cache correct, and so within 1001 entries. */
    method Set(key: string, query: Node)
      modifies this
      ensures queries == Stored(old(queries), key, query)
      ensures old(|queries|) <= 1000 ==> queries == old(queries)[key := query]
      ensures old(|queries|) > 1000 ==> queries == map[key := query]
      ensures old(Correct(queries)) && ParseQuerySpec(key) == Ok(query) ==> Correct(queries)
    {
      hide ParseQuerySpec, Correct;
      if Correct(queries) && ParseQuerySpec(key) == Ok(query) {
        StoredIsCorrect(queries, key, query);
      }
      if |queries| > EVICTION_SIZE {
        queries := map[];
      }
      queries := queries[key := query];
    }

    method Clear()
      modifies this
      ensures queries == map[]
    {
      queries := map[];
    }

    /** One call with no other thread in between. */
    method ExecuteCached(data: Value, query: string) returns (result: Option<Value>)
      requires Correct(queries)
      modifies this
      ensures Correct(queries)
      ensures query != "" ==> result == Execute(data, query)
      ensures query == "" ==> result == None
    {
      hide ParseQuerySpec;
      EmptyQueryFails();
      var cached := Get(query);
      if cached.Some? {
        var path := SimplifyNode(cached.value);
        result := ExecutePath(data, path);
        return;
      }
      var parsed := ParseQuery(query);
      if parsed.Err? {
        return None;
      }
      Set(query, parsed.value);
      var path := SimplifyNode(parsed.value);
      result := ExecutePath(data, path);
    }
  }

  lemma EmptyQueryFails()
    ensures ParseQuerySpec("") == Err(EmptyQuery)
  {
  }

  // ---- threads ----

  /** Where a thread stands in a call of ExecuteCached(data, key). */
  datatype Phase =
    | Idle
    | Called(data: Value, key: string)
    | Missed(data: Value, key: string)
    | Parsed(data: Value, key: string, query: Node)
    | Holding(data: Value, key: string, query: Node)
    | Finished(data: Value, key: string, result: Option<Value>)

  datatype System = System(queries: Queries, threads: map<nat, Phase>)

  datatype Action =
    | Call(thread: nat, data: Value, key: string)
    | Lookup(thread: nat)
    | Parse(thread: nat)
    | Save(thread: nat)
    | Evaluate(thread: nat)
    | ClearAll

  function PhaseOf(s: System, thread: nat): Phase {
    if thread in s.threads then s.threads[thread] else Idle
  }

  function Moved(s: System, thread: nat, phase: Phase): System {
    s.(threads := s.threads[thread := phase])
  }

  /** One atomic action. An action that its thread is not ready for changes nothing. */
  function Act(s: System, a: Action): System {
    match a
    case Call(t, data, key) =>
      if PhaseOf(s, t).Idle? || PhaseOf(s, t).Finished? then Moved(s, t, Called(data, key)) else s
    case Lookup(t) =>
      (match PhaseOf(s, t)
       case Called(data, key) =>
         if key in s.queries then Moved(s, t, Holding(data, key, s.queries[key])) else Moved(s, t, Missed(data, key))
       case _ => s)
    case Parse(t) =>
      (match PhaseOf(s, t)
       case Missed(data, key) =>
         (match ParseQuerySpec(key)
          case Err(_) => Moved(s, t, Finished(data, key, None))
          case Ok(query) => Moved(s, t, Parsed(data, key, query)))
       case _ => s)
    case Save(t) =>
      (match PhaseOf(s, t)
       case Parsed(data, key, query) =>
         Moved(s.(queries := Stored(s.queries, key, query)), t, Holding(data, key, query))
       case _ => s)
    case Evaluate(t) =>
      (match PhaseOf(s, t)
       case Holding(data, key, query) => Moved(s, t, Finished(data, key, Run(data, Flatten(query))))
       case _ => s)
    case ClearAll => s.(queries := map[])
  }

  function ActAll(s: System, actions: seq<Action>): System
    decreases |actions|
  {
    if actions == [] then s else ActAll(Act(s, actions[0]), actions[1..])
  }

  const START: System := System(map[], map[])

  /** What holds of a thread in each phase. */
  ghost predicate PhaseOk(p: Phase) {
    match p
    case Idle | Called(_, _) | Missed(_, _) => true
    case Parsed(_, key, query) => ParseQuerySpec(key) == Ok(query)
    case Holding(_, key, query) => ParseQuerySpec(key) == Ok(query)
    case Finished(data, key, result) => result == if key == "" then None else Execute(data, key)
  }

  ghost predicate Safe(s: System) {
    Correct(s.queries) && forall t | t in s.threads :: PhaseOk(s.threads[t])
  }

  lemma MovedIsSafe(s: System, t: nat, p: Phase)
    requires Safe(s) && PhaseOk(p)
    ensures Safe(Moved(s, t, p))
  {
    hide PhaseOk, Correct;
  }

  lemma ActIsSafe(s: System, a: Action)
    requires Safe(s)
    ensures Safe(Act(s, a))
  {
    hide ParseQuerySpec, Stored;
    EmptyQueryFails();
    if !a.ClearAll? {
      var next := Act(s, a);
      var t := a.thread;
      if a.Save? && PhaseOf(s, t).Parsed? {
        StoredIsCorrect(s.queries, PhaseOf(s, t).key, PhaseOf(s, t).query);
        MovedIsSafe(s.(queries := next.queries), t, PhaseOf(next, t));
      } else if next != s {
        MovedIsSafe(s, t, PhaseOf(next, t));
      }
    }
  }

  /** Every state that any interleaving of any number of threads reaches is safe. */
  lemma {:induction false} EveryRunIsSafe(s: System, actions: seq<Action>)
    requires Safe(s)
    ensures Safe(ActAll(s, actions))
    decreases |actions|
  {
    hide Safe, Act;
    if actions != [] {
      ActIsSafe(s, actions[0]);
      EveryRunIsSafe(Act(s, actions[0]), actions[1..]);
    }
  }

  /**
   From the empty cache: entries are correct, there are at most 1001, and a finished call returned
   the uncached result, except that the empty query fails here and returns its data there.
   */
  lemma CacheIsTransparent(actions: seq<Action>, t: nat)
    ensures var s := ActAll(START, actions);
      && Correct(s.queries)
      && (match PhaseOf(s, t)
          case Finished(data, key, result) => result == Execute(data, key) <==> key != ""
          case _ => true)
  {
    hide ActAll;
    EveryRunIsSafe(START, actions);
  }
}
