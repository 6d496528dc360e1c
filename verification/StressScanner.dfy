/**
 The string loop of the stress tokenizer. It moves on only when its word test finds nothing or when
 it meets the byte the test announced, so it ends because the test is exact.
 */
module StressScanner {
  import opened Words
  import opened JsonGrammar
  import opened JsonScan
  import opened JsonParser

  /** The first quote or backslash among the eight bytes at `i`, or 8. */
  method FirstDelimiter(d: Bytes, i: nat) returns (j: nat)
    requires i + 8 <= |d|
    ensures j <= 8 && forall k | i <= k < i + j :: NoDelimiter(d[k])
    ensures j < 8 ==> !NoDelimiter(d[i + j])
  {
    for n := 0 to 8
      invariant forall k | i <= k < i + n :: NoDelimiter(d[k])
    {
      if d[i + n] == BACKSLASH || d[i + n] == QUOTE {
        return n;
      }
    }
    return 8;
  }

  /**
   From the byte after an opening quote to the byte after its closing quote; past the end of the
   input when the string is never closed.
   */
  method ScanString(d: Bytes, start: nat) returns (i: nat)
    requires start <= |d|
    ensures match StringEnd(d, start)
      case Some(e) => i == e + 1
      case None => |d| < i <= |d| + 2
  {
    hide ByteOf, Load, Holds;
    i := start;
    while i + 8 <= |d|
      invariant i <= |d| + 1 && StringEnd(d, i) == StringEnd(d, start)
      decreases |d| - i
    {
      var v := Load(d[i..i + 8]);
      WordHolds(d, i, QUOTE);
      WordHolds(d, i, BACKSLASH);
      var quote := RealSimd.HasByte(v, QUOTE);
      var escape := RealSimd.HasByte(v, BACKSLASH);
      if quote || escape {
        var j := FirstDelimiter(d, i);
        if j < 8 {
          PlainBytes(d, i, j);
          i := i + j;
          if d[i] == QUOTE {
            return i + 1;
          }
          i := i + 2;
        }
      } else {
        PlainBytes(d, i, 8);
        i := i + 8;
      }
    }
    while i < |d| && d[i] != QUOTE
      invariant i <= |d| + 1 && StringEnd(d, i) == StringEnd(d, start)
      decreases |d| - i
    {
      if d[i] == BACKSLASH {
        i := i + 1;
      }
      i := i + 1;
    }
    i := i + 1;
  }
}
