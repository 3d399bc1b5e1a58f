/** Fixed-width integers, an Option type and the counting fact that the
    linear-probing id allocators rely on to terminate. */
module Base {

  datatype Option<+T> = None | Some(value: T)

  const U32Count: int := 0x1_0000_0000
  const U64Count: int := 0x1_0000_0000_0000_0000

  type Byte = x: int | 0 <= x < 0x100
  type U32 = x: int | 0 <= x < 0x1_0000_0000
  type U64 = x: int | 0 <= x < 0x1_0000_0000_0000_0000

  /** Go's `x++` on a uint32: wraps from the largest value to 0. */
  function Inc32(x: U32): (r: U32)
    ensures r == (x + 1) % U32Count
  {
    if x == U32Count - 1 then 0 else x + 1
  }

  /** Go's `x++` on a uint64. */
  function Inc64(x: U64): (r: U64)
    ensures r == (x + 1) % U64Count
  {
    if x == U64Count - 1 then 0 else x + 1
  }

  /** How many increments (modulo `size`) lead from `from` to `to`. */
  function Ahead(from: int, to: int, size: int): (d: int)
    requires 0 <= from < size && 0 <= to < size
    ensures 0 <= d < size
    ensures d == 0 <==> from == to
  {
    if to >= from then to - from else to - from + size
  }

  /** Distinct values lie at distinct distances ahead of a start point. */
  lemma AheadInjective(from: int, a: int, b: int, size: int)
    requires 0 <= from < size && 0 <= a < size && 0 <= b < size
    requires Ahead(from, a, size) == Ahead(from, b, size)
    ensures a == b
  {
  }

  /** One increment moves one step further ahead, unless it lands back on the start. */
  lemma AheadStep(from: int, x: int, size: int)
    requires 0 <= from < size && 0 <= x < size
    requires Ahead(from, x, size) < size - 1
    ensures Ahead(from, (x + 1) % size, size) == Ahead(from, x, size) + 1
  {
    if x == size - 1 {
      assert (x + 1) % size == 0;
    } else {
      assert (x + 1) % size == x + 1;
    }
  }

  /** The integers `lo .. hi-1`, built one value at a time. */
  function Range(lo: int, hi: int): (s: set<int>)
    decreases hi - lo
  {
    if lo >= hi then {} else Range(lo, hi - 1) + {hi - 1}
  }

  lemma {:induction false} RangeFacts(lo: int, hi: int)
    ensures forall k :: k in Range(lo, hi) <==> lo <= k < hi
    ensures lo <= hi ==> |Range(lo, hi)| == hi - lo
    decreases hi - lo
  {
    if lo < hi {
      RangeFacts(lo, hi - 1);
    }
  }

  /** Pigeonhole: fewer used values than the interval holds leaves one free. */
  lemma FreeValueExists(used: set<int>, lo: int, hi: int)
    requires lo <= hi && |used| < hi - lo
    ensures exists k :: lo <= k < hi && k !in used
  {
    if forall k :: lo <= k < hi ==> k in used {
      RangeFacts(lo, hi);
      assert Range(lo, hi) <= used;
      SubsetSize(Range(lo, hi), used);
      assert false;
    }
  }

  lemma {:induction false} SubsetSize<T>(a: set<T>, b: set<T>)
    requires a <= b
    ensures |a| <= |b|
  {
    if a != {} {
      var x :| x in a;
      SubsetSize(a - {x}, b - {x});
    }
  }
}
