/**
 The size of a snapshot: what the snapshot class may ask for, what double precision makes of it,
 and what is recorded.
 */
module SnapshotSize {
  import opened Capacity
  import opened Floats
  import opened Records

  /** The snapsize parameter: absent, a percentage, or a quantity. `parsed` is None when it does not parse. */
  datatype SnapSizeArg = Missing | Percent(parsed: Option<real>) | Quantity(bytes: Option<int>)

  datatype SnapshotParams = SnapshotParams(snapSize: real, absolute: bool)

  /** Parses the parameter into a params value that starts out as all zero. */
  method NewSnapshotParams(arg: SnapSizeArg) returns (params: Option<SnapshotParams>)
    ensures params.Some? <==> Accepted(arg)
    ensures params.Some? ==> params.value == Params(arg)
    ensures arg.Missing? ==> params == Some(SnapshotParams(0.0, false))
    ensures arg.Percent? ==>
              params == if arg.parsed.Some? && 1.0 <= arg.parsed.value <= 100.0
                        then Some(SnapshotParams(arg.parsed.value, false)) else None
    ensures arg.Quantity? ==>
              params == if arg.bytes.Some? && 1 <= arg.bytes.value <= MAX_INT64
                        then Some(SnapshotParams(Float64(arg.bytes.value as real), true)) else None
  {
    var snapSize, absolute := 0.0, false;
    match arg {
    case Missing =>
    case Percent(parsed) =>
      if parsed.None? {
        return None;
      }
      snapSize := parsed.value;
      if snapSize < 1.0 || snapSize > 100.0 {
        return None;
      }
    case Quantity(bytes) =>
      if bytes.None? {
        return None;
      }
      var size := if -MAX_INT64 - 1 <= bytes.value <= MAX_INT64 then bytes.value else 0;
      if size < 1 {
        return None;
      }
      absolute := true;
      snapSize := Float64(size as real);
    }
    return Some(SnapshotParams(snapSize, absolute));
  }

  /** The arguments the driver accepts. */
  predicate Accepted(arg: SnapSizeArg) {
    match arg
    case Missing => true
    case Percent(parsed) => parsed.Some? && 1.0 <= parsed.value <= 100.0
    case Quantity(bytes) => bytes.Some? && 1 <= bytes.value <= MAX_INT64
  }

  function Params(arg: SnapSizeArg): SnapshotParams
    requires Accepted(arg)
  {
    match arg
    case Missing => SnapshotParams(0.0, false)
    case Percent(parsed) => SnapshotParams(parsed.value, false)
    case Quantity(bytes) => SnapshotParams(Float64(bytes.value as real), true)
  }

  /** Conversion to an integer. A value out of range yields the smallest one, as on amd64. */
  function Truncate(x: real): Int64 {
    var whole := if x >= 0.0 then x.Floor else -((-x).Floor);
    if -MAX_INT64 - 1 <= whole <= MAX_INT64 then whole else -MAX_INT64 - 1
  }

  /** The share of the capacity that a percentage stands for, as computed. */
  function Share(capacity: int, percent: real): real {
    Times(Float64(capacity as real), Float64(percent / 100.0))
  }

  /** The size asked for, before rounding: a share, or an absolute size capped at the capacity. */
  function AskedSize(params: SnapshotParams, capacity: Int64): Int64 {
    if !params.absolute then Truncate(Share(capacity, params.snapSize))
    else if Truncate(params.snapSize) > capacity then capacity
    else Truncate(params.snapSize)
  }

  function SnapSize(params: SnapshotParams, capacity: Int64): Int64 {
    RoundedCapacity(AskedSize(params, capacity))
  }

  /** The size written into the record: none for a thin snapshot without a size. */
  function RecordedSize(size: Int64, thin: bool, capacity: Int64): Option<Int64> {
    if size > 0 then Some(size) else if !thin then Some(capacity) else None
  }

  // ----- What double precision does to sizes -----

  /** 2^52 can be doubled eleven times within 64 bits; `k` times 2^30 is exact for `k` of at most 34 bits. */
  lemma GibibytesAreExact(k: int)
    requires 0 < k <= 0x4_0000_0000
    ensures Rounded((k * GI) as real) == (k * GI) as real
  {
    IntegersAreExact(k);
    RoundedScales(k as real, 30);
    assert Scaled(k as real, 30) == (k * GI) as real by { ScaledBy30(k as real); }
    ScaledBy30(Rounded(k as real));
  }

  lemma ScaledBy10(x: real)
    ensures Scaled(x, 10) == 1024.0 * x
  {
    assert Scaled(x, 1) == 2.0 * x;
    assert Scaled(x, 3) == 8.0 * x;
    assert Scaled(x, 5) == 32.0 * x;
    assert Scaled(x, 7) == 128.0 * x;
    assert Scaled(x, 9) == 512.0 * x;
  }

  lemma {:induction false} ScaledAdds(x: real, m: nat, n: nat)
    ensures Scaled(x, m + n) == Scaled(Scaled(x, m), n)
  {
    if n > 0 {
      ScaledAdds(x, m, n - 1);
    }
  }

  lemma ScaledBy30(x: real)
    ensures Scaled(x, 30) == 1073741824.0 * x
  {
    ScaledBy10(x);
    ScaledAdds(x, 10, 10);
    ScaledBy10(1024.0 * x);
    ScaledAdds(x, 20, 10);
    ScaledBy10(1048576.0 * x);
  }

  /** Every size the driver hands out is a double. */
  lemma CapacityIsExact(capacity: int)
    requires 0 < capacity && InRange(capacity) && Allocatable(capacity)
    ensures Float64(capacity as real) == capacity as real
  {
    if capacity <= GI {
      IntegersAreExact(capacity);
    } else {
      var k := capacity / GI;
      assert capacity == k * GI;
      GibibytesAreExact(k);
    }
  }

  /** A percentage from 1 to 100 is a fraction between 1/128 and 1. */
  lemma FractionBounds(p: real)
    requires 1.0 <= p <= 100.0
    ensures 0.0078125 <= Float64(p / 100.0) <= 1.0
  {
    IntegersAreExact(1);
    RoundedIsMonotone(p / 100.0, 1.0);
    RoundedIsMonotone(0.0078125, p / 100.0);
    assert Rounded(0.0078125) == 0.0078125 by {
      RoundedScales(0.0078125, 7);
      assert Scaled(0.0078125, 5) == 0.25;
      assert Scaled(0.0078125, 7) == 1.0;
      assert Scaled(Rounded(0.0078125), 5) == 32.0 * Rounded(0.0078125) by {
        assert Scaled(Rounded(0.0078125), 3) == 8.0 * Rounded(0.0078125);
      }
    }
  }

  lemma ProductIsMonotone(x: real, a: real, b: real)
    requires 0.0 <= x && a <= b
    ensures x * a <= x * b
  {
  }

  lemma ProductBounds(x: real, f: real) returns (y: real)
    requires x >= 1048576.0 && 0.0078125 <= f <= 1.0
    ensures y == x * f && 1.0 <= y <= x && Times(x, f) == Rounded(y)
  {
    y := x * f;
    ProductIsMonotone(x, 0.0078125, f);
    ProductIsMonotone(x, f, 1.0);
  }

  /** The error of a fraction, scaled up. */
  lemma ErrorScales(x: real, q: real, f: real, y: real, z: real)
    requires 0.0 < x && 0.0 < q <= 1.0 && -q <= (f - q) * TWO_TO_53 <= q && y == x * f && z == x * q
    ensures -x <= (y - z) * TWO_TO_53 <= x
  {
    var d := f - q;
    assert -1.0 <= d * TWO_TO_53 <= 1.0;
    assert y - z == x * d;
    calc {
      (x * d) * TWO_TO_53;
      x * (d * TWO_TO_53);
    }
    assert -x <= x * (d * TWO_TO_53) <= x;
  }

  /** The two factors of the share, and their product before it is rounded. */
  lemma ShareFactors(capacity: int, p: real) returns (x: real, f: real)
    requires capacity > 0 && InRange(capacity) && Allocatable(capacity) && 1.0 <= p <= 100.0
    ensures x == capacity as real == Rounded(x) && x >= 1048576.0
    ensures 0.0078125 <= f <= 1.0 && f == Rounded(p / 100.0)
    ensures Share(capacity, p) == Times(x, f)
  {
    x, f := capacity as real, Float64(p / 100.0);
    AllocatableIsLarge(capacity);
    CapacityIsExact(capacity);
    FractionBounds(p);
  }

  /** The computed share is at least one byte and at most the capacity. */
  lemma ShareBounds(capacity: int, p: real)
    requires capacity > 0 && InRange(capacity) && Allocatable(capacity) && 1.0 <= p <= 100.0
    ensures 1.0 <= Share(capacity, p) <= capacity as real
  {
    var x, f := ShareFactors(capacity, p);
    var y := ProductBounds(x, f);
    RoundedWithin(y, x);
  }

  lemma RoundedWithin(y: real, x: real)
    requires 1.0 <= y <= x && Rounded(x) == x
    ensures 1.0 <= Rounded(y) <= x
  {
    RoundedIsMonotone(y, x);
    IntegersAreExact(1);
    RoundedIsMonotone(1.0, y);
  }

  lemma ErrorsAdd(x: real, y: real, z: real, share: real)
    requires -x <= (y - z) * TWO_TO_53 <= x && y <= x && -y <= (share - y) * TWO_TO_53 <= y
    ensures -x <= (share - z) * TWO_TO_52 <= x
  {
  }

  lemma TwoRoundings(x: real, q: real, f: real, y: real, z: real, r: real)
    requires 0.0 < x && 0.0 < q <= 1.0 && y == x * f && y <= x && z == x * q
    requires -q <= (f - q) * TWO_TO_53 <= q && -y <= (r - y) * TWO_TO_53 <= y
    ensures -x <= (r - z) * TWO_TO_52 <= x
  {
    ErrorScales(x, q, f, y, z);
    ErrorsAdd(x, y, z, r);
  }

  lemma ProductIsClose(x: real, q: real, f: real, y: real, z: real)
    requires 0.0 < x && 0.0 < q <= 1.0 && f == Rounded(q) && y == x * f && 0.0 < y <= x && z == x * q
    ensures -x <= (Rounded(y) - z) * TWO_TO_52 <= x
  {
    RoundedIsClose(q);
    RoundedIsClose(y);
    TwoRoundings(x, q, f, y, z, Rounded(y));
  }

  /** The computed share is the true one up to one part of the capacity in 2^52. */
  lemma ShareIsClose(capacity: int, p: real)
    requires capacity > 0 && InRange(capacity) && Allocatable(capacity) && 1.0 <= p <= 100.0
    ensures var x := capacity as real; -x <= (Share(capacity, p) - x * (p / 100.0)) * TWO_TO_52 <= x
  {
    var x, f := ShareFactors(capacity, p);
    var y := ProductBounds(x, f);
    ProductIsClose(x, p / 100.0, f, y, x * (p / 100.0));
  }

  /** The product of two doubles is rounded to the nearest double. */
  lemma TimesIsNearest(x: real, f: real, d: real)
    requires x > 0.0 && f > 0.0 && IsDouble(d)
    ensures IsDouble(Times(x, f)) && Distance(Times(x, f), x * f) <= Distance(d, x * f)
  {
    var y := x * f;
    assert y > 0.0;
    RoundsToNearest(y, d);
  }

  /**
   The share is the double nearest to the capacity times a factor, and the factor the double
   nearest to the percentage over a hundred.
   */
  lemma ShareIsNearest(capacity: int, p: real, d: real, e: real) returns (x: real, f: real)
    requires capacity > 0 && InRange(capacity) && Allocatable(capacity) && 1.0 <= p <= 100.0
    requires IsDouble(d) && IsDouble(e)
    ensures x == capacity as real && IsDouble(f) && Distance(f, p / 100.0) <= Distance(e, p / 100.0)
    ensures IsDouble(Share(capacity, p)) && Distance(Share(capacity, p), x * f) <= Distance(d, x * f)
  {
    x, f := ShareFactors(capacity, p);
    RoundsToNearest(p / 100.0, e);
    TimesIsNearest(x, f, d);
  }

  /** Absolute sizes above this one are rounded up to 2^63, which is no 64-bit integer. */
  const MAX_SNAP_BYTES: int := MAX_INT64 - 512

  /** 2^63 - 513 and 2^63 - 512 lie on the two sides of a tie. */
  lemma TieBelowTwoTo63()
    ensures Rounded(9223372036854775295.0) == 9223372036854774784.0
    ensures Rounded(9223372036854775296.0) == 9223372036854775808.0
  {
    var a, b := 9223372036854775295.0 / 1024.0, 9223372036854775296.0 / 1024.0;
    RoundedScales(a, 10);
    RoundedScales(b, 10);
    ScaledBy10(a);
    ScaledBy10(b);
    ScaledBy10(Rounded(a));
    ScaledBy10(Rounded(b));
    assert a.Floor == 9007199254740991 && Nearest(a) == 9007199254740991;
    assert b.Floor == 9007199254740991 && Nearest(b) == 9007199254740992;
  }

  /** Converted to a double and back, a size within the bound comes out off by one part in 2^53 at most. */
  lemma SurvivesRounded(bytes: int)
    requires 1 <= bytes <= MAX_SNAP_BYTES
    ensures var t := Truncate(Float64(bytes as real));
            && t as real == Rounded(bytes as real) && 1 <= t
            && (bytes <= 0x20_0000_0000_0000 ==> t == bytes)
            && -bytes <= (t - bytes) * 0x20_0000_0000_0000 <= bytes
  {
    var x := bytes as real;
    TieBelowTwoTo63();
    RoundedIsMonotone(x, 9223372036854775295.0);
    IntegersAreExact(1);
    RoundedIsMonotone(1.0, x);
    RoundedIsClose(x);
    if bytes <= 0x20_0000_0000_0000 {
      IntegersAreExact(bytes);
    } else {
      LargeOnesAreIntegers(x);
    }
    var t := Truncate(Float64(x));
    assert ((t - bytes) * 0x20_0000_0000_0000) as real == (Rounded(x) - x) * TWO_TO_53;
  }

  /**
   An absolute size survives the conversion to a double and back, up to one part in 2^53, exactly
   when it is within the bound; beyond it the smallest integer comes out.
   */
  lemma AbsoluteSizeIsLostIff(bytes: int)
    requires 1 <= bytes <= MAX_INT64
    ensures var t := Truncate(Float64(bytes as real));
            if bytes <= MAX_SNAP_BYTES then 1 <= t && -bytes <= (t - bytes) * 0x20_0000_0000_0000 <= bytes
            else t == -MAX_INT64 - 1
  {
    if bytes <= MAX_SNAP_BYTES {
      SurvivesRounded(bytes);
    } else {
      TieBelowTwoTo63();
      RoundedIsMonotone(9223372036854775296.0, bytes as real);
    }
  }

  lemma AllocatableIsLarge(capacity: int)
    requires capacity > 0 && Allocatable(capacity)
    ensures capacity >= MI
  {
  }

  // ----- The size of a snapshot -----

  /** Every accepted argument but an absolute size beyond the bound. */
  predicate Representable(arg: SnapSizeArg)
    requires Accepted(arg)
  {
    arg.Quantity? ==> arg.bytes.value <= MAX_SNAP_BYTES
  }

  lemma AskedSizeBounds(arg: SnapSizeArg, capacity: Int64)
    requires Accepted(arg) && capacity > 0 && InRange(capacity) && Allocatable(capacity)
    ensures var asked := AskedSize(Params(arg), capacity);
            if arg.Missing? then asked == 0
            else if Representable(arg) then 1 <= asked <= capacity
            else asked == -MAX_INT64 - 1
  {
    match arg
    case Missing => assert Share(capacity, 0.0) == 0.0;
    case Percent(parsed) => ShareBounds(capacity, parsed.value);
    case Quantity(bytes) => AbsoluteSizeIsLostIff(bytes.value);
  }

  /** A size between 1 and the capacity rounds to one that still fits. */
  lemma RoundedFits(size: Int64, capacity: Int64)
    requires 1 <= size <= capacity && InRange(capacity) && Allocatable(capacity)
    ensures 0 < RoundedCapacity(size) <= capacity && Allocatable(RoundedCapacity(size))
  {
    RoundedIsLeast(size);
  }

  lemma SmallestRoundsDown()
    ensures RoundedCapacity(-MAX_INT64 - 1) < 0
  {
  }

  /** What rounding makes of nothing, of something that fits, and of the smallest integer. */
  lemma RoundedSigns(asked: Int64, capacity: Int64)
    requires capacity > 0 && InRange(capacity) && Allocatable(capacity)
    ensures asked == 0 ==> RoundedCapacity(asked) == 0
    ensures 1 <= asked <= capacity ==> 0 < RoundedCapacity(asked) <= capacity && Allocatable(RoundedCapacity(asked))
    ensures asked == -MAX_INT64 - 1 ==> RoundedCapacity(asked) < 0
  {
    if 1 <= asked <= capacity {
      RoundedFits(asked, capacity);
    } else if asked == 0 {
      RoundedIsLeast(0);
    } else if asked == -MAX_INT64 - 1 {
      SmallestRoundsDown();
    }
  }

  /**
   The computed size is positive and at most the origin's capacity if and only if a size was
   given that a double can carry; otherwise it is not positive, as if none had been given.
   */
  lemma SnapSizeBounds(arg: SnapSizeArg, capacity: Int64)
    requires Accepted(arg) && capacity > 0 && InRange(capacity) && Allocatable(capacity)
    ensures var size := SnapSize(Params(arg), capacity);
            && (0 < size <= capacity && Allocatable(size) <==> !arg.Missing? && Representable(arg))
            && (size == 0 <==> arg.Missing?)
            && (size < 0 <==> !Representable(arg))
  {
    AskedSizeBounds(arg, capacity);
    RoundedSigns(AskedSize(Params(arg), capacity), capacity);
  }

  /**
   `x` bytes cover the whole bytes of the computed share, or the absolute size as a double, capped
   at the capacity.
   */
  predicate Covers(arg: SnapSizeArg, capacity: Int64, x: int)
    requires Accepted(arg)
  {
    match arg
    case Missing => true
    case Percent(parsed) => Share(capacity, parsed.value) < x as real + 1.0
    case Quantity(bytes) => x >= capacity || Float64(bytes.value as real) < x as real + 1.0
  }

  lemma CoversIffAsked(arg: SnapSizeArg, capacity: Int64, x: int)
    requires Accepted(arg) && !arg.Missing? && Representable(arg)
    requires capacity > 0 && InRange(capacity) && Allocatable(capacity)
    ensures Covers(arg, capacity, x) <==> AskedSize(Params(arg), capacity) <= x
  {
    AskedSizeBounds(arg, capacity);
    if arg.Percent? {
      ShareBounds(capacity, arg.parsed.value);
      WholeBelow(Share(capacity, arg.parsed.value), x);
    } else {
      AbsoluteSizeIsLostIff(arg.bytes.value);
      WholeBelow(Float64(arg.bytes.value as real), x);
    }
  }

  lemma WholeBelow(y: real, x: int)
    requires y >= 0.0
    ensures y < x as real + 1.0 <==> y.Floor <= x
  {
    assert y.Floor as real <= y < y.Floor as real + 1.0;
  }

  /** The size is the least allocatable one that covers what was asked for. */
  lemma SnapSizeIsLeast(arg: SnapSizeArg, capacity: Int64, y: int)
    requires Accepted(arg) && !arg.Missing? && Representable(arg)
    requires capacity > 0 && InRange(capacity) && Allocatable(capacity)
    ensures Covers(arg, capacity, SnapSize(Params(arg), capacity))
    ensures Allocatable(y) && Covers(arg, capacity, y) ==> SnapSize(Params(arg), capacity) <= y
  {
    var asked := AskedSize(Params(arg), capacity);
    AskedSizeBounds(arg, capacity);
    CoversIffAsked(arg, capacity, y);
    CoversIffAsked(arg, capacity, RoundedCapacity(asked));
    RoundedIsLeast(asked);
  }

  /**
   An absolute size within the capacity is provided in full if and only if rounding it to a
   double does not take it down to an allocatable size.
   */
  lemma AbsoluteSizeIsCoveredIff(bytes: int, capacity: Int64)
    requires 1 <= bytes <= capacity && InRange(capacity) && Allocatable(capacity)
    ensures var asked := Truncate(Float64(bytes as real));
            bytes <= SnapSize(Params(Quantity(Some(bytes))), capacity) <==> !(asked < bytes && Allocatable(asked))
  {
    var x := bytes as real;
    var asked := Truncate(Float64(x));
    AbsoluteSizeIsLostIff(bytes);
    CapacityIsExact(capacity);
    RoundedIsMonotone(x, capacity as real);
    assert asked == Rounded(x).Floor && 1 <= asked <= capacity;
    RoundedIsLeast(asked);
    var next := RoundedCapacity(asked);
    if asked < next < bytes {
      CapacityIsExact(next);
      RoundedIsMonotone(next as real, x);
    }
  }

  /**
   A recorded size covers what was asked for; a thick snapshot without a size gets the whole
   capacity, a thin one none.
   */
  lemma RecordedSizeCovers(arg: SnapSizeArg, thin: bool, capacity: Int64)
    requires Accepted(arg) && Representable(arg) && capacity > 0 && InRange(capacity) && Allocatable(capacity)
    ensures var size := RecordedSize(SnapSize(Params(arg), capacity), thin, capacity);
            && (size.None? <==> arg.Missing? && thin)
            && (size.Some? ==> 0 < size.value <= capacity && Covers(arg, capacity, size.value))
            && (size.Some? && size.value < capacity ==> !arg.Missing?)
            && (!arg.Missing? ==> forall y | Allocatable(y) && Covers(arg, capacity, y) :: size.value <= y)
  {
    SnapSizeBounds(arg, capacity);
    if !arg.Missing? {
      SnapSizeIsLeast(arg, capacity, 0);
      forall y | Allocatable(y) && Covers(arg, capacity, y)
        ensures SnapSize(Params(arg), capacity) <= y
      {
        SnapSizeIsLeast(arg, capacity, y);
      }
    }
  }

  lemma NothingOfNothing(arg: SnapSizeArg)
    requires Accepted(arg)
    ensures SnapSize(Params(arg), 0) <= 0
  {
    match arg {
      case Quantity(bytes) => AbsoluteSizeIsLostIff(bytes.value);
      case _ => assert Share(0, Params(arg).snapSize) == 0.0;
    }
    SmallestRoundsDown();
  }

  /** Whatever was asked for, what is recorded fits the capacity, and is positive when that is. */
  lemma RecordedSizeFits(arg: SnapSizeArg, thin: bool, capacity: Int64)
    requires Accepted(arg) && InRange(capacity) && Allocatable(capacity)
    ensures var size := RecordedSize(SnapSize(Params(arg), capacity), thin, capacity);
            size.Some? ==> 0 <= size.value <= capacity && (capacity > 0 ==> size.value > 0)
  {
    if capacity > 0 {
      SnapSizeBounds(arg, capacity);
    } else {
      NothingOfNothing(arg);
    }
  }
}
