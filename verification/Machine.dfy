/** Go's `int` on the supported 64-bit platforms, and the few stock types the other modules share. */
module Machine {

  const MAX_INT64: int := 0x7FFF_FFFF_FFFF_FFFF
  const MIN_INT64: int := -0x8000_0000_0000_0000

  type int64 = x: int | MIN_INT64 <= x <= MAX_INT64

  datatype Option<+T> = None | Some(value: T)

  /** The value a 64-bit register holds after an addition or a subtraction of two registers. */
  function Wrap(x: int): int64
    requires 2 * MIN_INT64 <= x <= 2 * MAX_INT64 + 1
  {
    if x > MAX_INT64 then x - 0x1_0000_0000_0000_0000
    else if x < MIN_INT64 then x + 0x1_0000_0000_0000_0000
    else x
  }

  /** It is the one 64-bit value that differs from the true result by a multiple of 2 to the 64. */
  lemma WrapIsCongruent(x: int, y: int64)
    requires 2 * MIN_INT64 <= x <= 2 * MAX_INT64 + 1
    ensures -0x8000_0000_0000_0000 <= y < 0x8000_0000_0000_0000
    ensures y == Wrap(x) <==> (y - x) % 0x1_0000_0000_0000_0000 == 0
  {
  }

  predicate Fits(x: int) {
    MIN_INT64 <= x <= MAX_INT64
  }

  function Add64(x: int64, y: int64): int64 {
    Wrap(x + y)
  }

  function Sub64(x: int64, y: int64): int64 {
    Wrap(x - y)
  }

  ghost predicate NoDuplicates<T>(s: seq<T>) {
    forall i, j :: 0 <= i < j < |s| ==> s[i] != s[j]
  }

  ghost function Elements<T>(s: seq<T>): set<T> {
    set x | x in s
  }

  /** A list without duplicates is as long as the set of its elements is large. */
  lemma {:induction false} DistinctLength<T>(s: seq<T>)
    requires NoDuplicates(s)
    ensures |Elements(s)| == |s|
  {
    if s == [] {
      assert Elements(s) == {};
    } else {
      var front, last := s[..|s| - 1], s[|s| - 1];
      DistinctLength(front);
      assert s == front + [last];
      assert Elements(s) == Elements(front) + {last};
      assert last !in Elements(front);
    }
  }
}
