/**
 An absolute snapshot size goes through a double. In bytes: which sizes then fall short of what was
 asked for.
 */
module AbsoluteSize {
  import opened Capacity
  import opened Floats
  import opened Records
  import opened SnapshotSize

  function PowerOf2(n: nat): (p: nat)
    ensures p > 0
  {
    if n == 0 then 1 else 2 * PowerOf2(n - 1)
  }

  lemma {:induction false} ScaledByPower(x: real, n: nat)
    ensures Scaled(x, n) == PowerOf2(n) as real * x
  {
    if n > 0 {
      ScaledByPower(x, n - 1);
    }
  }

  lemma {:induction false} PowersMultiply(m: nat, n: nat)
    ensures PowerOf2(m + n) == PowerOf2(m) * PowerOf2(n)
  {
    if m > 0 {
      PowersMultiply(m - 1, n);
    }
  }

  /** Between 2^(52+k) and 2^(53+k) the doubles are the multiples of 2^k. */
  lemma RoundedToUnit(x: real, k: nat, y: real)
    requires x == Scaled(y, k) && TWO_TO_52 <= y < TWO_TO_53
    ensures x > 0.0 && Rounded(x) == Scaled(Nearest(y) as real, k)
  {
    RoundedScales(y, k);
  }

  lemma IntegersMultiply(a: int, b: int)
    ensures (a * b) as real == a as real * b as real
  {
  }

  lemma ScaledInteger(n: int, k: nat)
    ensures Scaled(n as real, k) == (PowerOf2(k) * n) as real
  {
    ScaledByPower(n as real, k);
    IntegersMultiply(PowerOf2(k), n);
  }

  lemma ScaledQuotient(bytes: nat, k: nat)
    ensures Scaled(bytes as real / PowerOf2(k) as real, k) == bytes as real
  {
    var y := bytes as real / PowerOf2(k) as real;
    ScaledByPower(y, k);
    assert y * PowerOf2(k) as real == bytes as real;
  }

  /** A size in units of 2^k comes out as the nearest whole number of them. */
  lemma RoundedInUnits(bytes: nat, k: nat, y: real)
    requires y == bytes as real / PowerOf2(k) as real && TWO_TO_52 <= y < TWO_TO_53
    ensures bytes > 0 && Rounded(bytes as real) == (PowerOf2(k) * Nearest(y)) as real
  {
    ScaledQuotient(bytes, k);
    RoundedToUnit(bytes as real, k, y);
    ScaledInteger(Nearest(y), k);
  }

  /** `bytes` is `m` times `unit` times an even number, and `r` more. */
  lemma DownToMultiple(bytes: nat, k: nat, unit: nat, many: nat, m: nat, r: nat)
    requires unit == PowerOf2(k) >= 2 && unit % 2 == 0 && many % 2 == 0 && unit * many == GI
    requires bytes == m * GI + r && TWO_TO_52 <= bytes as real / unit as real < TWO_TO_53
    ensures bytes > 0
    ensures if r <= unit / 2 then Rounded(bytes as real) == (m * GI) as real
            else Rounded(bytes as real) >= (m * GI + unit) as real
  {
    var y, base := bytes as real / unit as real, m * many;
    EvenTimes(m, many);
    Regroup(m, many, unit);
    SplitQuotient(bytes, base, unit, r);
    NearestAboveEven(base, r, unit, y);
    RoundedInUnits(bytes, k, y);
    WholeUnits(unit, base, Nearest(y), m * GI);
  }

  lemma WholeUnits(unit: nat, base: nat, n: int, x: int)
    requires base * unit == x
    ensures n == base ==> unit * n == x
    ensures n >= base + 1 ==> unit * n >= x + unit
  {
    OneMore(unit, base);
    if n >= base + 1 {
      MultipleGrows(unit, n, base + 1);
    }
  }

  lemma OneMore(u: nat, a: nat)
    ensures u * (a + 1) == a * u + u
  {
  }

  lemma MultipleGrows(u: nat, a: int, b: int)
    requires a >= b
    ensures u * a >= u * b
  {
  }

  lemma EvenTimes(m: nat, n: nat)
    requires n % 2 == 0
    ensures (m * n) % 2 == 0
  {
    var h := n / 2;
    assert m * n == 2 * (m * h);
  }

  lemma Regroup(a: nat, b: nat, c: nat)
    ensures (a * b) * c == a * (c * b)
  {
  }

  lemma SplitQuotient(bytes: nat, base: nat, unit: nat, r: nat)
    requires unit > 0 && bytes == base * unit + r
    ensures bytes as real / unit as real == base as real + r as real / unit as real
  {
    var q, f := bytes as real / unit as real, r as real / unit as real;
    assert q * unit as real == bytes as real && f * unit as real == r as real;
    assert bytes as real == base as real * unit as real + r as real;
    assert (q - base as real - f) * unit as real == 0.0;
  }

  /** Sizes up to 2^53 are provided in full. */
  lemma SmallSizesAreCovered(bytes: int, capacity: Int64)
    requires 1 <= bytes <= capacity && bytes <= 0x20_0000_0000_0000 && InRange(capacity) && Allocatable(capacity)
    ensures bytes <= SnapSize(Params(Quantity(Some(bytes))), capacity)
  {
    SurvivesRounded(bytes);
    AbsoluteSizeIsCoveredIff(bytes, capacity);
  }

  /** In bytes: between 2^(52+k) and 2^(53+k), a size falls short that is up to 2^(k-1) above a multiple of GI. */
  lemma AbsoluteSizeFallsShortIff(bytes: int, capacity: Int64, k: nat)
    requires 1 <= bytes <= capacity && InRange(capacity) && Allocatable(capacity)
    requires 1 <= k <= 10 && PowerOf2(52 + k) <= bytes < PowerOf2(53 + k)
    ensures SnapSize(Params(Quantity(Some(bytes))), capacity) < bytes <==> 0 < bytes % GI <= PowerOf2(k - 1)
  {
    UnitsOfGi(k);
    QuotientRange(bytes, k);
    assert bytes == bytes / GI * GI + bytes % GI && bytes / GI > 0;
    FallsShortBetween(bytes, capacity, k, PowerOf2(k), PowerOf2(30 - k), bytes / GI, bytes % GI);
  }

  lemma FallsShortBetween(bytes: int, capacity: Int64, k: nat, unit: nat, many: nat, m: nat, r: nat)
    requires 1 <= bytes <= capacity && InRange(capacity) && Allocatable(capacity)
    requires unit == PowerOf2(k) >= 2 && unit % 2 == 0 && many % 2 == 0 && unit * many == GI
    requires bytes == m * GI + r && r < GI && m > 0 && TWO_TO_52 <= bytes as real / unit as real < TWO_TO_53
    ensures SnapSize(Params(Quantity(Some(bytes))), capacity) < bytes <==> 0 < r <= unit / 2
  {
    DownToMultiple(bytes, k, unit, many, m, r);
    SurvivesRounded(bytes);
    AbsoluteSizeIsCoveredIff(bytes, capacity);
    FallsToMultipleIff(Truncate(Float64(bytes as real)), m, r, unit);
  }

  /** A size between two multiples of GI comes out allocatable and smaller only as the lower one. */
  lemma FallsToMultipleIff(asked: int, m: nat, r: nat, unit: nat)
    requires 0 <= r < GI && unit >= 2 && m > 0
    requires if r <= unit / 2 then asked == m * GI else asked >= m * GI + unit
    ensures asked < m * GI + r && Allocatable(asked) <==> 0 < r <= unit / 2
  {
    if r <= unit / 2 {
      assert Allocatable(m * GI);
    } else if asked < m * GI + r {
      assert m * GI < asked < m * GI + GI && asked > GI;
      NoMultipleBetween(m, asked);
    }
  }

  lemma NoMultipleBetween(m: nat, x: int)
    requires m * GI < x < m * GI + GI
    ensures x % GI != 0
  {
  }

  lemma UnitsOfGi(k: nat)
    requires 1 <= k <= 10
    ensures PowerOf2(k) * PowerOf2(30 - k) == GI && PowerOf2(30 - k) % 2 == 0
    ensures PowerOf2(k) >= 2 && PowerOf2(k) % 2 == 0 && PowerOf2(k) / 2 == PowerOf2(k - 1)
  {
    PowersMultiply(k, 30 - k);
    PowersMultiply(15, 15);
    PowersMultiply(5, 10);
    PowersMultiply(5, 5);
    assert PowerOf2(3) == 8;
    assert PowerOf2(5) == 32;
  }

  lemma QuotientRange(bytes: nat, k: nat)
    requires PowerOf2(52 + k) <= bytes < PowerOf2(53 + k)
    ensures TWO_TO_52 <= bytes as real / PowerOf2(k) as real < TWO_TO_53 && bytes >= 0x10_0000_0000_0000
  {
    PowersMultiply(52, k);
    PowersMultiply(53, k);
    PowerOf52();
    var unit := PowerOf2(k);
    IntegersMultiply(PowerOf2(52), unit);
    IntegersMultiply(PowerOf2(53), unit);
    DivisionRange(bytes as real, unit as real, TWO_TO_52, TWO_TO_53);
  }

  lemma DivisionRange(b: real, u: real, lo: real, hi: real)
    requires u > 0.0 && lo * u <= b < hi * u
    ensures lo <= b / u < hi
  {
    var q := b / u;
    assert q * u == b;
    ProductsOrder(q, lo, u);
    ProductsOrder(q, hi, u);
  }

  lemma ProductsOrder(a: real, b: real, u: real)
    requires u > 0.0
    ensures a < b <==> a * u < b * u
  {
    assert (b - a) * u == b * u - a * u;
    assert a < b <==> (b - a) * u > 0.0;
  }

  lemma PowerOf52()
    ensures PowerOf2(52) == 0x10_0000_0000_0000 && PowerOf2(53) == 0x20_0000_0000_0000
  {
    assert PowerOf2(3) == 8;
    assert PowerOf2(5) == 32;
    PowersMultiply(5, 8);
    PowersMultiply(5, 3);
    PowersMultiply(13, 13);
    PowersMultiply(26, 26);
    assert PowerOf2(53) == 2 * PowerOf2(52);
  }

  /** The first size that falls short: 2^53 + 1 bytes are rounded to 2^53. */
  lemma AbsoluteSizeFallsShort()
    ensures SnapSize(Params(Quantity(Some(0x20_0000_0000_0001))), 0x40_0000_0000_0000) == 0x20_0000_0000_0000
  {
    assert Rounded(9007199254740993.0) == 2.0 * Rounded(4503599627370496.5);
    assert Nearest(4503599627370496.5) == 4503599627370496;
    assert Float64(9007199254740993.0) == 9007199254740992.0;
    assert Allocatable(0x20_0000_0000_0000);
    RoundedIsClosure(0x20_0000_0000_0000, 0);
  }
}
