/** Types and constants shared by the whole model. Times and durations are
    nanoseconds, held in unbounded integers. */
module Basics {
  const UINT64: nat := 0x1_0000_0000_0000_0000
  const SECOND: nat := 1_000_000_000
  const MILLISECOND: nat := 1_000_000

  /** Go's zero time.Time, the first instant of year 1, relative to 1970. */
  const ZERO_TIME: int := -62_135_596_800 * 1_000_000_000

  datatype Option<+T> = None | Some(value: T)

  function Min(a: int, b: int): int { if a < b then a else b }

  function Max(a: int, b: int): int { if a < b then b else a }

  /** Truncated subtraction on counts. */
  function Monus(a: int, b: int): int { if a < b then 0 else a - b }

  /** The numbers below n in order. */
  function Upto(n: nat): (s: seq<nat>)
    ensures |s| == n && forall i :: 0 <= i < n ==> s[i] == i
  {
    seq(n, i => i)
  }

  // ----- Products -----

  lemma {:induction false} ProductMonotone(a: int, b: int, c: int)
    requires a <= b && 0 <= c
    ensures a * c <= b * c
    decreases c
  {
    if c > 0 {
      ProductMonotone(a, b, c - 1);
      assert a * c == a * (c - 1) + a;
      assert b * c == b * (c - 1) + b;
    } else {
      assert a * c == 0 == b * c;
    }
  }

  lemma {:induction false} ProductNonNegative(a: int, b: int)
    requires 0 <= a && 0 <= b
    ensures 0 <= a * b
  {
    ProductMonotone(0, a, b);
  }

  lemma {:induction false} Distribute(a: int, b: int, f: int)
    ensures (a + b) * f == a * f + b * f
  {
  }
}
