/**
 Word-at-a-time byte tests of the superjsonic scanners: eight bytes are loaded into a 64-bit word,
 and "does some byte equal x" is answered either by a subtract-and-mask trick or by looking at
 each byte in turn. The main results say that both answers are exact.
 */
module Words {

  const ONES: bv64 := 0x0101010101010101
  const HIGH_BITS: bv64 := 0x8080808080808080

  const SPACE: bv8 := 0x20
  const TAB: bv8 := 0x09
  const LF: bv8 := 0x0A
  const CR: bv8 := 0x0D

  predicate IsWhitespace(b: bv8) {
    b == SPACE || b == TAB || b == LF || b == CR
  }

  /** Byte `i` of a word, counting from the low end (the byte order of a little-endian load). */
  function ByteOf(v: bv64, i: nat): bv8
    requires i < 8
  {
    match i
    case 0 => (v & 0xFF) as bv8
    case 1 => ((v >> 8) & 0xFF) as bv8
    case 2 => ((v >> 16) & 0xFF) as bv8
    case 3 => ((v >> 24) & 0xFF) as bv8
    case 4 => ((v >> 32) & 0xFF) as bv8
    case 5 => ((v >> 40) & 0xFF) as bv8
    case 6 => ((v >> 48) & 0xFF) as bv8
    case _ => ((v >> 56) & 0xFF) as bv8
  }

  /** A byte moved to position `i` of a word: `uint64(b) << (8*i)`. */
  function Placed(b: bv8, i: nat): bv64
    requires i < 8
  {
    match i
    case 0 => b as bv64
    case 1 => (b as bv64) << 8
    case 2 => (b as bv64) << 16
    case 3 => (b as bv64) << 24
    case 4 => (b as bv64) << 32
    case 5 => (b as bv64) << 40
    case 6 => (b as bv64) << 48
    case _ => (b as bv64) << 56
  }

  /** Whether `x` is one of the eight bytes of `v`. */
  predicate Holds(v: bv64, x: bv8) {
    exists i: nat | i < 8 :: ByteOf(v, i) == x
  }

  /** Whether one of the eight bytes of `v` is whitespace. */
  predicate HoldsWhitespace(v: bv64) {
    exists i: nat | i < 8 :: IsWhitespace(ByteOf(v, i))
  }

  /** The eight-byte load the scanners perform through an unsafe pointer. */
  function Load(b: seq<bv8>): bv64
    requires |b| == 8
  {
    Placed(b[0], 0) | Placed(b[1], 1) | Placed(b[2], 2) | Placed(b[3], 3) |
    Placed(b[4], 4) | Placed(b[5], 5) | Placed(b[6], 6) | Placed(b[7], 7)
  }

  lemma LoadBytes(b: seq<bv8>, i: nat)
    requires |b| == 8 && i < 8
    ensures ByteOf(Load(b), i) == b[i]
  {
    hide ByteOf, Placed, Load;
    UnpackLoad(b);
    match i { case 0 => case 1 => case 2 => case 3 => case 4 => case 5 => case 6 => case _ => }
  }

  lemma UnpackLoad(b: seq<bv8>)
    requires |b| == 8
    ensures var w := Load(b);
      && ByteOf(w, 0) == b[0] && ByteOf(w, 1) == b[1] && ByteOf(w, 2) == b[2] && ByteOf(w, 3) == b[3]
      && ByteOf(w, 4) == b[4] && ByteOf(w, 5) == b[5] && ByteOf(w, 6) == b[6] && ByteOf(w, 7) == b[7]
  {
    hide ByteOf, Placed;
    PackedByte(b[0], b[1], b[2], b[3], b[4], b[5], b[6], b[7]);
  }

  lemma PackedByte(b0: bv8, b1: bv8, b2: bv8, b3: bv8, b4: bv8, b5: bv8, b6: bv8, b7: bv8)
    ensures var w := Placed(b0, 0) | Placed(b1, 1) | Placed(b2, 2) | Placed(b3, 3) |
                     Placed(b4, 4) | Placed(b5, 5) | Placed(b6, 6) | Placed(b7, 7);
      && ByteOf(w, 0) == b0 && ByteOf(w, 1) == b1 && ByteOf(w, 2) == b2 && ByteOf(w, 3) == b3
      && ByteOf(w, 4) == b4 && ByteOf(w, 5) == b5 && ByteOf(w, 6) == b6 && ByteOf(w, 7) == b7
  {
  }

  /** `v |= uint64(b) << (8*i)` */
  function WithByte(v: bv64, b: bv8, i: nat): bv64
    requires i < 8
  {
    v | Placed(b, i)
  }

  /** Writing into a byte that is still zero sets that byte and leaves the other seven alone. */
  lemma WithByteStores(v: bv64, b: bv8, i: nat, j: nat)
    requires i < 8 && j < 8 && ByteOf(v, i) == 0
    ensures ByteOf(WithByte(v, b, i), j) == if i == j then b else ByteOf(v, j)
  {
    OrPlacedAt(v, b, i);
  }

  lemma OrPlacedAt(v: bv64, b: bv8, i: nat)
    requires i < 8
    ensures forall j: nat | j < 8 && j != i :: ByteOf(v | Placed(b, i), j) == ByteOf(v, j)
    ensures ByteOf(v, i) == 0 ==> ByteOf(v | Placed(b, i), i) == b
  {
    forall j: nat | j < 8 && j != i
      ensures ByteOf(v | Placed(b, i), j) == ByteOf(v, j)
    {
      match i { case 0 => case 1 => case 2 => case 3 => case 4 => case 5 => case 6 => case _ => }
    }
  }

  // ---- the subtract-and-mask trick ----

  function HasZero(v: bv64): bv64 {
    (v - ONES) & !v & HIGH_BITS
  }

  /** Nonzero when `v` and `pattern` agree on some byte. */
  function Matches(v: bv64, pattern: bv64): bv64 {
    HasZero(v ^ pattern)
  }

  function RealHasByte(v: bv64, x: bv8): bool {
    Matches(v, Repeated(x)) != 0
  }

  function RealIsWhitespace(v: bv64): bv64 {
    Matches(v, 0x2020202020202020) | Matches(v, 0x0909090909090909) |
    Matches(v, 0x0A0A0A0A0A0A0A0A) | Matches(v, 0x0D0D0D0D0D0D0D0D)
  }

  /** The word whose eight bytes are all `x`. */
  function Repeated(x: bv8): bv64 {
    (x as bv64) * ONES
  }

  lemma ZeroByteShows(v: bv64, i: nat)
    requires i < 8 && ByteOf(v, i) == 0
    ensures HasZero(v) != 0
  {
    match i { case 0 => case 1 => case 2 => case 3 => case 4 => case 5 => case 6 => case _ => }
  }

  lemma NoZeroByteNoBit(v: bv64)
    requires ByteOf(v, 0) != 0 && ByteOf(v, 1) != 0 && ByteOf(v, 2) != 0 && ByteOf(v, 3) != 0
    requires ByteOf(v, 4) != 0 && ByteOf(v, 5) != 0 && ByteOf(v, 6) != 0 && ByteOf(v, 7) != 0
    ensures HasZero(v) == 0
  {
  }

  lemma XorByte(v: bv64, w: bv64, i: nat)
    requires i < 8
    ensures ByteOf(v ^ w, i) == ByteOf(v, i) ^ ByteOf(w, i)
  {
    match i { case 0 => case 1 => case 2 => case 3 => case 4 => case 5 => case 6 => case _ => }
  }

  lemma RepeatedByte(x: bv8, i: nat)
    requires i < 8
    ensures ByteOf(Repeated(x), i) == x
  {
    match i { case 0 => case 1 => case 2 => case 3 => case 4 => case 5 => case 6 => case _ => }
  }

  lemma XorZeroByte(v: bv64, x: bv8, i: nat)
    requires i < 8
    ensures ByteOf(v ^ Repeated(x), i) == 0 <==> ByteOf(v, i) == x
  {
    hide ByteOf, Repeated;
    XorByte(v, Repeated(x), i);
    RepeatedByte(x, i);
  }

  /** The trick never misses and never reports a byte that is not there. */
  lemma MatchesExact(v: bv64, x: bv8)
    ensures Matches(v, Repeated(x)) != 0 <==> Holds(v, x)
  {
    hide ByteOf, HasZero, Repeated;
    var w := v ^ Repeated(x);
    forall i: nat | i < 8
      ensures ByteOf(w, i) == 0 <==> ByteOf(v, i) == x
    {
      XorZeroByte(v, x, i);
    }
    if i: nat :| i < 8 && ByteOf(w, i) == 0 {
      ZeroByteShows(w, i);
    } else {
      NoZeroByteNoBit(w);
    }
  }

  lemma RealHasByteExact(v: bv64, x: bv8)
    ensures RealHasByte(v, x) <==> Holds(v, x)
  {
    hide ByteOf, Matches, Repeated;
    MatchesExact(v, x);
  }

  lemma RepeatedConstants()
    ensures Repeated(SPACE) == 0x2020202020202020 && Repeated(TAB) == 0x0909090909090909
    ensures Repeated(LF) == 0x0A0A0A0A0A0A0A0A && Repeated(CR) == 0x0D0D0D0D0D0D0D0D
  {
  }

  lemma RealIsWhitespaceExact(v: bv64)
    ensures RealIsWhitespace(v) != 0 <==> HoldsWhitespace(v)
  {
    hide ByteOf, Matches, Repeated, Holds, HoldsWhitespace, IsWhitespace;
    RepeatedConstants();
    MatchesExact(v, SPACE);
    MatchesExact(v, TAB);
    MatchesExact(v, LF);
    MatchesExact(v, CR);
    HoldsSomeWhitespace(v);
  }

  lemma HoldsSomeWhitespace(v: bv64)
    ensures HoldsWhitespace(v) <==> Holds(v, SPACE) || Holds(v, TAB) || Holds(v, LF) || Holds(v, CR)
  {
    hide ByteOf;
  }

  // ---- the byte-by-byte fallback ----

  method PlainHasByte(v: bv64, x: bv8) returns (found: bool)
    ensures found <==> Holds(v, x)
  {
    for i := 0 to 8
      invariant forall k: nat | k < i :: ByteOf(v, k) != x
    {
      if ByteOf(v, i) == x {
        return true;
      }
    }
    return false;
  }

  method PlainIsWhitespace(v: bv64) returns (result: bv64)
    ensures result != 0 <==> HoldsWhitespace(v)
  {
    result := 0;
    for i := 0 to 8
      invariant result != 0 <==> exists k: nat | k < i :: IsWhitespace(ByteOf(v, k))
    {
      if IsWhitespace(ByteOf(v, i)) {
        result := result | Placed(0x80, i);
      }
    }
  }

  /** Which implementation of the two tests a parser was created with. */
  datatype SimdOps = RealSimd | NoSimd {

    method HasByte(v: bv64, x: bv8) returns (found: bool)
      ensures found <==> Holds(v, x)
    {
      if RealSimd? {
        RealHasByteExact(v, x);
        found := RealHasByte(v, x);
      } else {
        found := PlainHasByte(v, x);
      }
    }

    method FindWhitespace(v: bv64) returns (result: bv64)
      ensures result != 0 <==> HoldsWhitespace(v)
    {
      if RealSimd? {
        RealIsWhitespaceExact(v);
        result := RealIsWhitespace(v);
      } else {
        result := PlainIsWhitespace(v);
      }
    }
  }
}
