/**
 Sizes in bytes, as the driver computes them: 64-bit signed arithmetic that wraps,
 and the rounding of a requested size to the sizes the driver allocates.
 */
module Capacity {

  const MI: int := 1024 * 1024
  const GI: int := 1024 * 1024 * 1024
  const MAX_INT64: int := 0x7FFF_FFFF_FFFF_FFFF
  const TWO_TO_64: int := 0x1_0000_0000_0000_0000

  /** The largest request whose rounding does not overflow. */
  const MAX_REQUEST: int := MAX_INT64 - GI + 1

  type Int64 = x: int | -MAX_INT64 - 1 <= x <= MAX_INT64

  /** Two's complement wrap-around of an exact result. */
  function Wrap64(x: int): (r: Int64)
    ensures -MAX_INT64 - 1 <= x <= MAX_INT64 ==> r == x
    ensures (r - x) % TWO_TO_64 == 0
  {
    (x + MAX_INT64 + 1) % TWO_TO_64 - MAX_INT64 - 1
  }

  /** Division that truncates toward zero. */
  function Quotient(a: int, b: int): int
    requires b > 0
  {
    if a >= 0 then a / b else -(-a / b)
  }

  function RoundUp(size: Int64, unit: int): Int64
    requires 0 < unit <= GI
  {
    Wrap64(Quotient(Wrap64(size + unit - 1), unit) * unit)
  }

  function RoundedCapacity(size: Int64): Int64 {
    if size > GI then RoundUp(size, GI) else RoundUp(size, MI)
  }

  /** The sizes the driver hands out: multiples of Mi up to Gi, multiples of Gi above. */
  predicate Allocatable(x: int) {
    x >= 0 && if x > GI then x % GI == 0 else x % MI == 0
  }

  predicate InRange(size: int) {
    0 <= size <= MAX_REQUEST
  }

  /** Below the bound nothing wraps. */
  lemma RoundUpIsExact(size: Int64, unit: int)
    requires unit == MI || unit == GI
    requires InRange(size)
    ensures RoundUp(size, unit) == Ceiling(size, unit)
  {
    var sum := size + unit - 1;
    assert Wrap64(sum) == sum;
    if unit == MI {
      assert 0 <= sum / MI * MI <= sum;
    } else {
      assert 0 <= sum / GI * GI <= sum;
    }
  }

  /** Integer ceiling to a multiple of the unit. */
  function Ceiling(size: nat, unit: int): int
    requires unit == MI || unit == GI
  {
    if unit == MI then (size + MI - 1) / MI * MI else (size + GI - 1) / GI * GI
  }

  lemma CeilingIsLeast(size: nat, unit: int, y: int)
    requires unit == MI || unit == GI
    ensures size <= Ceiling(size, unit) < size + unit
    ensures Ceiling(size, unit) % unit == 0
    ensures y % unit == 0 && size <= y ==> Ceiling(size, unit) <= y
  {
  }

  /** The result is the least allocatable size that holds the request. */
  lemma RoundedIsLeast(size: Int64)
    requires InRange(size)
    ensures size <= RoundedCapacity(size) && Allocatable(RoundedCapacity(size))
    ensures forall y | Allocatable(y) && size <= y :: RoundedCapacity(size) <= y
    ensures InRange(RoundedCapacity(size))
  {
    var unit := if size > GI then GI else MI;
    RoundUpIsExact(size, unit);
    CeilingIsLeast(size, unit, GI);
    CeilingIsLeast(size, unit, MAX_REQUEST);
    forall y | Allocatable(y) && size <= y
      ensures RoundedCapacity(size) <= y
    {
      CeilingIsLeast(size, unit, y);
    }
  }

  /** In bytes: at least 1048576, by 1048576 up to 1073741824, and by 1073741824 above. */
  lemma RoundedInBytes(k: int)
    requires 1 <= k
    ensures k <= 1024 ==> RoundedCapacity(1048576 * (k - 1) + 1) == RoundedCapacity(1048576 * k) == 1048576 * k
    ensures k < 8589934591 ==>
              RoundedCapacity(1073741824 * k + 1) == RoundedCapacity(1073741824 * (k + 1)) == 1073741824 * (k + 1)
  {
  }

  /** Rounding is monotone and idempotent, also across the Gi threshold. */
  lemma RoundedIsClosure(a: Int64, b: Int64)
    requires InRange(a) && InRange(b)
    ensures a <= b ==> RoundedCapacity(a) <= RoundedCapacity(b)
    ensures RoundedCapacity(RoundedCapacity(a)) == RoundedCapacity(a)
    ensures Allocatable(a) <==> RoundedCapacity(a) == a
  {
    RoundedIsLeast(a);
    RoundedIsLeast(b);
    RoundedIsLeast(RoundedCapacity(a));
  }

  /** The bound is exact: beyond it the sum wraps and the volume comes out smaller than asked. */
  lemma RoundedCoversRequestIff(size: Int64)
    ensures size <= RoundedCapacity(size) <==> size <= MAX_REQUEST
  {
  }
}
