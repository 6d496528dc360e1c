/**
 Short object keys packed into one or two 64-bit words, and the text recovered from them.
 The main results say exactly how much of a key survives packing.
 */
module Atoms {
  import opened Words

  datatype Atom128 = Atom128(lo: bv64, hi: bv64)

  const NO_ATOM: Atom128 := Atom128(0, 0)

  // ---- specification ----

  /** A key of at most `n` bytes, filled up with zero bytes to exactly `n`. */
  function Padded(key: seq<bv8>, n: nat): (p: seq<bv8>)
    requires |key| <= n
    ensures |p| == n
  {
    key + seq(n - |key|, _ => 0)
  }

  /** The part of a byte string before its first zero byte. */
  function UpToNul(s: seq<bv8>): (t: seq<bv8>)
    ensures |t| <= |s| && t == s[..|t|]
    ensures 0 !in t
    ensures |t| < |s| ==> s[|t|] == 0
  {
    if s == [] || s[0] == 0 then [] else [s[0]] + UpToNul(s[1..])
  }

  function Atom64Of(key: seq<bv8>): bv64 {
    if |key| > 8 then 0 else Load(Padded(key, 8))
  }

  function Atom128Of(key: seq<bv8>): Atom128 {
    if |key| > 16 then NO_ATOM
    else var p := Padded(key, 16); Atom128(Load(p[..8]), Load(p[8..]))
  }

  function BytesOf(v: bv64): (b: seq<bv8>)
    ensures |b| == 8
  {
    seq(8, i requires 0 <= i < 8 => ByteOf(v, i))
  }

  function Text64(a: bv64): seq<bv8> {
    UpToNul(BytesOf(a))
  }

  function Text128(a: Atom128): seq<bv8> {
    UpToNul(BytesOf(a.lo) + BytesOf(a.hi))
  }

  // ---- the packing and unpacking loops ----

  method MakeAtom64(data: seq<bv8>) returns (atom: bv64)
    ensures atom == Atom64Of(data)
  {
    hide ByteOf, Placed;
    if |data| > 8 {
      return 0;
    }
    atom := 0;
    ZeroWord();
    for i := 0 to |data|
      invariant forall j: nat | j < 8 :: ByteOf(atom, j) == if j < i then data[j] else 0
    {
      atom := PutByte(atom, data[i], i);
    }
    LoadIs(atom, Padded(data, 8));
  }

  method MakeAtom128(data: seq<bv8>) returns (atom: Atom128)
    ensures atom == Atom128Of(data)
  {
    hide ByteOf, Placed;
    if |data| > 16 {
      return NO_ATOM;
    }
    var lo, hi := 0, 0;
    ZeroWord();
    var end := |data|;
    if end > 8 {
      end := 8;
    }
    for i := 0 to end
      invariant forall j: nat | j < 8 :: ByteOf(lo, j) == if j < i then data[j] else 0
    {
      lo := PutByte(lo, data[i], i);
    }
    var i := 8;
    while i < |data|
      invariant 8 <= i && (i <= |data| || i == 8)
      invariant forall j: nat | j < 8 :: ByteOf(hi, j) == if j + 8 < i && j + 8 < |data| then data[j + 8] else 0
    {
      hi := PutByte(hi, data[i], i - 8);
      i := i + 1;
    }
    var p := Padded(data, 16);
    LoadIs(lo, p[..8]);
    LoadIs(hi, p[8..]);
    atom := Atom128(lo, hi);
  }

  /** `w |= uint64(b) << (8*i)`, on a byte of `w` that is still zero. */
  method PutByte(w: bv64, b: bv8, i: nat) returns (v: bv64)
    requires i < 8 && ByteOf(w, i) == 0
    ensures forall j: nat | j < 8 :: ByteOf(v, j) == if i == j then b else ByteOf(w, j)
  {
    hide ByteOf, Placed;
    v := WithByte(w, b, i);
    forall j: nat | j < 8
      ensures ByteOf(v, j) == if i == j then b else ByteOf(w, j)
    {
      WithByteStores(w, b, i, j);
    }
  }

  method Atom64String(a: bv64) returns (text: seq<bv8>)
    ensures text == Text64(a)
  {
    hide ByteOf;
    var buf := [];
    for i := 0 to 8
      invariant buf == BytesOf(a)[..i] && 0 !in buf
    {
      var b := ByteOf(a, i);
      if b == 0 {
        UpToNulIs(BytesOf(a), i);
        return buf;
      }
      buf := buf + [b];
    }
    UpToNulIs(BytesOf(a), 8);
    return buf;
  }

  method Atom128String(a: Atom128) returns (text: seq<bv8>)
    ensures text == Text128(a)
  {
    hide ByteOf;
    ghost var all := BytesOf(a.lo) + BytesOf(a.hi);
    var buf := [];
    for i := 0 to 8
      invariant buf == all[..i] && 0 !in buf
    {
      var b := ByteOf(a.lo, i);
      if b == 0 {
        UpToNulIs(all, i);
        return buf;
      }
      buf := buf + [b];
    }
    for i := 0 to 8
      invariant buf == all[..i + 8] && 0 !in buf
    {
      var b := ByteOf(a.hi, i);
      if b == 0 {
        UpToNulIs(all, i + 8);
        return buf;
      }
      buf := buf + [b];
    }
    UpToNulIs(all, 16);
    return buf;
  }

  // ---- words as byte strings ----

  lemma ZeroWord()
    ensures forall j: nat | j < 8 :: ByteOf(0, j) == 0
  {
  }

  lemma SameBytesSameWord(v: bv64, w: bv64)
    requires ByteOf(v, 0) == ByteOf(w, 0) && ByteOf(v, 1) == ByteOf(w, 1) && ByteOf(v, 2) == ByteOf(w, 2) && ByteOf(v, 3) == ByteOf(w, 3)
    requires ByteOf(v, 4) == ByteOf(w, 4) && ByteOf(v, 5) == ByteOf(w, 5) && ByteOf(v, 6) == ByteOf(w, 6) && ByteOf(v, 7) == ByteOf(w, 7)
    ensures v == w
  {
  }

  lemma LoadIs(v: bv64, b: seq<bv8>)
    requires |b| == 8 && forall j: nat | j < 8 :: ByteOf(v, j) == b[j]
    ensures v == Load(b)
  {
    hide ByteOf, Load;
    UnpackLoad(b);
    SameBytesSameWord(v, Load(b));
  }

  lemma BytesOfLoad(b: seq<bv8>)
    requires |b| == 8
    ensures BytesOf(Load(b)) == b
  {
    hide ByteOf, Load;
    forall i | 0 <= i < 8
      ensures BytesOf(Load(b))[i] == b[i]
    {
      LoadBytes(b, i);
    }
  }

  lemma {:induction false} UpToNulIs(s: seq<bv8>, n: nat)
    requires n <= |s| && 0 !in s[..n] && (n < |s| ==> s[n] == 0)
    ensures UpToNul(s) == s[..n]
  {
    if n > 0 {
      assert s[..n][0] == s[0];
      assert s[1..][..n - 1] == s[..n][1..];
      UpToNulIs(s[1..], n - 1);
    }
  }

  lemma UpToNulPadded(key: seq<bv8>, n: nat)
    requires |key| <= n
    ensures UpToNul(Padded(key, n)) == UpToNul(key)
  {
    var t := UpToNul(key);
    var p := Padded(key, n);
    assert p[..|t|] == t;
    UpToNulIs(p, |t|);
  }

  // ---- what packing keeps ----

  /** Unpacking gives back the key up to its first zero byte: all of it when it has none. */
  lemma Atom64RoundTrip(key: seq<bv8>)
    requires |key| <= 8
    ensures Text64(Atom64Of(key)) == UpToNul(key)
    ensures Text64(Atom64Of(key)) == key <==> 0 !in key
  {
    BytesOfLoad(Padded(key, 8));
    UpToNulPadded(key, 8);
    NulFree(key);
  }

  lemma Atom128RoundTrip(key: seq<bv8>)
    requires |key| <= 16
    ensures Text128(Atom128Of(key)) == UpToNul(key)
    ensures Text128(Atom128Of(key)) == key <==> 0 !in key
  {
    hide ByteOf, Load, UpToNul;
    var p := Padded(key, 16);
    BytesOfLoad(p[..8]);
    BytesOfLoad(p[8..]);
    assert p[..8] + p[8..] == p;
    UpToNulPadded(key, 16);
    NulFree(key);
  }

  lemma NulFree(s: seq<bv8>)
    ensures UpToNul(s) == s <==> 0 !in s
  {
    var t := UpToNul(s);
    if |t| < |s| {
      assert s[|t|] == 0;
    }
  }

  /** Two short keys share an atom exactly when they differ only in trailing zero bytes. */
  lemma Atom64Injective(j: seq<bv8>, k: seq<bv8>)
    requires |j| <= 8 && |k| <= 8
    ensures Atom64Of(j) == Atom64Of(k) <==> Padded(j, 8) == Padded(k, 8)
    ensures 0 !in j && 0 !in k && Atom64Of(j) == Atom64Of(k) ==> j == k
  {
    BytesOfLoad(Padded(j, 8));
    BytesOfLoad(Padded(k, 8));
    Atom64RoundTrip(j);
    Atom64RoundTrip(k);
  }

  lemma Atom128Injective(j: seq<bv8>, k: seq<bv8>)
    requires |j| <= 16 && |k| <= 16
    ensures Atom128Of(j) == Atom128Of(k) <==> Padded(j, 16) == Padded(k, 16)
    ensures 0 !in j && 0 !in k && Atom128Of(j) == Atom128Of(k) ==> j == k
  {
    hide ByteOf, Load, UpToNul;
    var p, q := Padded(j, 16), Padded(k, 16);
    BytesOfLoad(p[..8]);
    BytesOfLoad(p[8..]);
    BytesOfLoad(q[..8]);
    BytesOfLoad(q[8..]);
    assert p == p[..8] + p[8..] && q == q[..8] + q[8..];
    Atom128RoundTrip(j);
    Atom128RoundTrip(k);
  }
}
