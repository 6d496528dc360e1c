/**
 The sliding-window rate limiter. Times are integers, and each call brings the time it reads from
 the clock. Over any interleaving of calls and cleanups, with a clock that does not run backwards,
 no key is granted more than `limit` requests in any window, and a request is refused only when the
 current window is full.
 */
module RateLimiter {

  // ---- windows ----

  /** The times after `start`, in order. */
  function After(ts: seq<int>, start: int): (r: seq<int>)
    ensures |r| <= |ts|
    ensures forall t | t in r :: t in ts && t > start
  {
    if ts == [] then []
    else (if ts[0] > start then [ts[0]] else []) + After(ts[1..], start)
  }

  /** How many of the times lie in `(lo, hi]`. */
  function Count(ts: seq<int>, lo: int, hi: int): nat {
    if ts == [] then 0
    else (if lo < ts[0] <= hi then 1 else 0) + Count(ts[1..], lo, hi)
  }

  function Limit(limit: int): nat {
    if limit < 0 then 0 else limit
  }

  /** The window `(t - window, t]` holds no more than the limit. */
  predicate SafeAt(grants: seq<int>, limit: int, window: int, t: int) {
    Count(grants, t - window, t) <= Limit(limit)
  }

  ghost predicate Safe(grants: seq<int>, limit: int, window: int) {
    forall t: int :: SafeAt(grants, limit, window, t)
  }

  predicate UpTo(ts: seq<int>, now: int) {
    forall i | 0 <= i < |ts| :: ts[i] <= now
  }

  lemma {:induction false} AfterCat(a: seq<int>, b: seq<int>, start: int)
    ensures After(a + b, start) == After(a, start) + After(b, start)
  {
    if a == [] {
      assert a + b == b;
    } else {
      var c := a + b;
      assert c[1..] == a[1..] + b && c[0] == a[0];
      AfterCat(a[1..], b, start);
    }
  }

  lemma {:induction false} CountCat(a: seq<int>, b: seq<int>, lo: int, hi: int)
    ensures Count(a + b, lo, hi) == Count(a, lo, hi) + Count(b, lo, hi)
  {
    if a == [] {
      assert a + b == b;
    } else {
      var c := a + b;
      assert c[1..] == a[1..] + b && c[0] == a[0];
      CountCat(a[1..], b, lo, hi);
    }
  }

  /** A later window start filters what an earlier one left. */
  lemma {:induction false} AfterAfter(ts: seq<int>, early: int, late: int)
    requires early <= late
    ensures After(After(ts, early), late) == After(ts, late)
  {
    if ts != [] {
      AfterAfter(ts[1..], early, late);
      var head := if ts[0] > early then [ts[0]] else [];
      AfterCat(head, After(ts[1..], early), late);
    }
  }

  /** Counting a window is at most counting everything after its start, with equality up to now. */
  lemma {:induction false} CountAfter(ts: seq<int>, start: int, lo: int, hi: int)
    requires start <= lo
    ensures Count(ts, lo, hi) <= |After(ts, start)|
    ensures start == lo && UpTo(ts, hi) ==> Count(ts, lo, hi) == |After(ts, start)|
  {
    if ts != [] {
      CountAfter(ts[1..], start, lo, hi);
    }
  }

  /** A grant into a window that is not full keeps every window within the limit. */
  lemma GrantKeepsSafe(grants: seq<int>, limit: int, window: int, now: int)
    requires Safe(grants, limit, window) && |After(grants, now - window)| < limit
    ensures Safe(grants + [now], limit, window)
  {
    forall t: int
      ensures SafeAt(grants + [now], limit, window, t)
    {
      CountCat(grants, [now], t - window, t);
      assert SafeAt(grants, limit, window, t);
      if now <= t {
        CountAfter(grants, now - window, t - window, t);
      }
    }
  }

  // ---- the stored requests against the grants of one key ----

  /** What the limiter stores agrees with all grants ever made, as far as the current window reaches. */
  ghost predicate Tracks(stored: seq<int>, grants: seq<int>, limit: int, window: int, clock: int) {
    && UpTo(grants, clock)
    && After(stored, clock - window) == After(grants, clock - window)
    && Safe(grants, limit, window)
  }

  /** Time passing and filtering keep the agreement. */
  lemma FilterTracks(stored: seq<int>, grants: seq<int>, limit: int, window: int, clock: int, now: int)
    requires Tracks(stored, grants, limit, window, clock) && clock <= now
    ensures After(stored, now - window) == After(grants, now - window)
    ensures Tracks(stored, grants, limit, window, now)
    ensures Tracks(After(stored, now - window), grants, limit, window, now)
  {
    hide Safe, After;
    AfterAfter(stored, clock - window, now - window);
    AfterAfter(grants, clock - window, now - window);
    AfterAfter(stored, now - window, now - window);
  }

  lemma NothingTracks(limit: int, window: int, clock: int)
    ensures Tracks([], [], limit, window, clock)
  {
    forall t: int
      ensures SafeAt([], limit, window, t)
    {
      assert Count([], t - window, t) == 0;
    }
  }

  lemma GrantTracks(valid: seq<int>, grants: seq<int>, limit: int, window: int, now: int)
    requires Tracks(valid, grants, limit, window, now) && valid == After(grants, now - window) && |valid| < limit
    ensures Tracks(valid + [now], grants + [now], limit, window, now)
  {
    hide Safe;
    AfterCat(valid, [now], now - window);
    AfterCat(grants, [now], now - window);
    GrantKeepsSafe(grants, limit, window, now);
  }

  // ---- the limiter ----

  type Log = map<string, seq<int>>

  function Times(log: Log, key: string): seq<int> {
    if key in log then log[key] else []
  }

  /** What a cleanup leaves: every key with a time after `start`, and those times. */
  function CleanedUp(log: Log, start: int): Log {
    map key | key in log && After(log[key], start) != [] :: After(log[key], start)
  }

  /** A cleanup on its way: the keys still to visit are untouched. */
  function Partly(log: Log, toVisit: set<string>, start: int): Log {
    map key | key in log && (key in toVisit || After(log[key], start) != []) ::
      if key in toVisit then log[key] else After(log[key], start)
  }

  datatype Call = Request(key: string, now: int) | Tick(now: int)

  class Limiter {
    const limit: int
    const window: int
    var requests: Log
    ghost var grants: Log
    ghost var clock: int

    /** Kept by every call: the stored times track the grants of each key, and every window is safe. */
    ghost predicate Valid()
      reads this
    {
      forall key :: Tracks(Times(requests, key), Times(grants, key), limit, window, clock)
    }

    constructor (limit: int, window: int, ghost start: int)
      ensures Valid() && this.limit == limit && this.window == window
      ensures grants == map[] && requests == map[] && clock == start
    {
      this.limit := limit;
      this.window := window;
      requests, grants, clock := map[], map[], start;
      new;
      forall key
        ensures Tracks(Times(requests, key), Times(grants, key), limit, window, clock)
      {
        NothingTracks(limit, window, clock);
      }
    }

    /** The times of `ts` within the window that starts after `windowStart`. */
    method Filter(ts: seq<int>, windowStart: int) returns (valid: seq<int>)
      ensures valid == After(ts, windowStart)
    {
      valid := [];
      for i := 0 to |ts|
        invariant valid == After(ts[..i], windowStart)
      {
        assert ts[..i + 1] == ts[..i] + [ts[i]];
        AfterCat(ts[..i], [ts[i]], windowStart);
        if ts[i] > windowStart {
          valid := valid + [ts[i]];
        }
      }
      assert ts[..|ts|] == ts;
    }

    method Allow(key: string, now: int) returns (granted: bool)
      requires Valid() && clock <= now
      modifies this
      ensures Valid() && clock == now
      ensures granted <==> Count(old(Times(grants, key)), now - window, now) < limit
      ensures grants == if granted then old(grants)[key := old(Times(grants, key)) + [now]] else old(grants)
      ensures requests == old(requests)[key := After(old(Times(requests, key)), now - window) + (if granted then [now] else [])]
    {
      hide Tracks;
      var valid := Filter(if key in requests then requests[key] else [], now - window);
      ghost var g := Times(grants, key);
      Settle(now);
      WindowIs(Times(requests, key), g, limit, window, clock, now);
      if |valid| >= limit {
        requests := requests[key := valid];
        assert valid + [] == valid;
        granted := false;
      } else {
        GrantTracks(valid, g, limit, window, now);
        requests := requests[key := valid + [now]];
        grants := grants[key := g + [now]];
        granted := true;
      }
      clock := now;
    }

    /** The clock moving on keeps every key tracked, and so does filtering it. */
    lemma Settle(now: int)
      requires Valid() && clock <= now
      ensures forall key :: Tracks(Times(requests, key), Times(grants, key), limit, window, now)
      ensures forall key :: Tracks(After(Times(requests, key), now - window), Times(grants, key), limit, window, now)
    {
      forall key
        ensures Tracks(Times(requests, key), Times(grants, key), limit, window, now)
        ensures Tracks(After(Times(requests, key), now - window), Times(grants, key), limit, window, now)
      {
        FilterTracks(Times(requests, key), Times(grants, key), limit, window, clock, now);
      }
    }

    method Cleanup(now: int)
      requires Valid() && clock <= now
      modifies this
      ensures Valid() && clock == now && grants == old(grants)
      ensures requests == CleanedUp(old(requests), now - window)
    {
      hide Tracks;
      Settle(now);
      DropExpired(now - window);
      clock := now;
    }

    method DropExpired(windowStart: int)
      modifies `requests
      ensures requests == CleanedUp(old(requests), windowStart)
    {
      ghost var before := requests;
      var keys := requests.Keys;
      while keys != {}
        invariant keys <= before.Keys && requests == Partly(before, keys, windowStart)
        decreases |keys|
      {
        hide Partly;
        var key :| key in keys;
        var valid := Filter(requests[key], windowStart);
        if |valid| == 0 {
          requests := requests - {key};
        } else {
          requests := requests[key := valid];
        }
        keys := keys - {key};
      }
    }

    /**
     A whole run: any sequence of requests and cleanups whose times do not decrease. Afterwards no
     key has more grants than the limit in any window.
     */
    method Run(calls: seq<Call>)
      requires Valid()
      requires forall i | 0 <= i < |calls| :: clock <= calls[i].now
      requires forall i, j | 0 <= i < j < |calls| :: calls[i].now <= calls[j].now
      modifies this
      ensures Valid()
      ensures forall key :: Safe(Times(grants, key), limit, window)
    {
      for i := 0 to |calls|
        invariant Valid()
        invariant forall j | i <= j < |calls| :: clock <= calls[j].now
      {
        match calls[i]
        case Request(key, now) =>
          var _ := Allow(key, now);
        case Tick(now) =>
          Cleanup(now);
      }
      forall key
        ensures Safe(Times(grants, key), limit, window)
      {
        assert Tracks(Times(requests, key), Times(grants, key), limit, window, clock);
      }
    }
  }

  /** Before a request, the filtered times are the grants of the current window. */
  lemma WindowIs(stored: seq<int>, grants: seq<int>, limit: int, window: int, clock: int, now: int)
    requires Tracks(stored, grants, limit, window, clock) && clock <= now
    ensures After(stored, now - window) == After(grants, now - window)
    ensures |After(stored, now - window)| == Count(grants, now - window, now)
  {
    hide Safe;
    FilterTracks(stored, grants, limit, window, clock, now);
    CountAfter(grants, now - window, now - window, now);
  }
}
