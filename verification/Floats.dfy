/**
 Double precision as the driver's sizes meet it: a real goes to the nearest value with 53
 significant bits, ties to even. Sizes are far from the limits of the exponent.
 */
module Floats {
  const TWO_TO_52: real := 4503599627370496.0
  const TWO_TO_53: real := 9007199254740992.0

  /** The nearest integer, ties to even. */
  function Nearest(x: real): int {
    var below, rest := x.Floor, x - x.Floor as real;
    if rest < 0.5 || (rest == 0.5 && below % 2 == 0) then below else below + 1
  }

  lemma NearestIsMonotone(x: real, y: real)
    requires x <= y
    ensures Nearest(x) <= Nearest(y)
  {
  }

  /** How often a value can be doubled on its way up to 2^52. */
  function Room(x: real): nat
    requires x > 0.0
  {
    (TWO_TO_52 / x).Floor
  }

  lemma DoublingTakesRoom(x: real)
    requires 0.0 < x < TWO_TO_52
    ensures Room(2.0 * x) < Room(x)
  {
    var y := TWO_TO_52 / x;
    assert y * x == TWO_TO_52;
    assert y > 1.0;
    assert TWO_TO_52 / (2.0 * x) == y / 2.0;
  }

  /** Scales into [2^52, 2^53), where the representable values are the integers. */
  function Rounded(x: real): real
    requires x > 0.0
    decreases if x < TWO_TO_52 then 1 + Room(x) else if x >= TWO_TO_53 then x.Floor else 0
  {
    if x < TWO_TO_52 then
      DoublingTakesRoom(x);
      Rounded(2.0 * x) / 2.0
    else if x >= TWO_TO_53 then 2.0 * Rounded(x / 2.0)
    else Nearest(x) as real
  }

  function Float64(x: real): real {
    if x > 0.0 then Rounded(x) else if x < 0.0 then -Rounded(-x) else 0.0
  }

  /** Multiplication of doubles. */
  function Times(x: real, y: real): real {
    Float64(x * y)
  }

  lemma NearestStaysBetween(x: real)
    requires TWO_TO_52 <= x <= TWO_TO_53
    ensures TWO_TO_52 <= Nearest(x) as real <= TWO_TO_53
    ensures x == TWO_TO_52 ==> Nearest(x) as real == TWO_TO_52
  {
    var lo, hi := 4503599627370496, 9007199254740992;
    assert TWO_TO_52 == lo as real && TWO_TO_53 == hi as real;
    assert lo <= Nearest(x) <= hi;
  }

  lemma {:induction false} RoundedAtMost(x: real)
    requires 0.0 < x
    ensures x <= TWO_TO_52 ==> Rounded(x) <= TWO_TO_52
    ensures x <= TWO_TO_53 ==> Rounded(x) <= TWO_TO_53
    ensures x >= TWO_TO_52 ==> Rounded(x) >= TWO_TO_52
    ensures x >= TWO_TO_53 ==> Rounded(x) >= TWO_TO_53
    decreases if x < TWO_TO_52 then 1 + Room(x) else if x >= TWO_TO_53 then x.Floor else 0
  {
    if x < TWO_TO_52 {
      DoublingTakesRoom(x);
      RoundedAtMost(2.0 * x);
    } else if x >= TWO_TO_53 {
      RoundedAtMost(x / 2.0);
    } else {
      NearestStaysBetween(x);
    }
  }

  /** Rounding keeps the order. */
  lemma {:induction false} RoundedIsMonotone(x: real, y: real)
    requires 0.0 < x <= y
    ensures Rounded(x) <= Rounded(y)
    decreases if x < TWO_TO_52 then 1 + Room(x) else if x >= TWO_TO_53 then x.Floor else 0
  {
    RoundedAtMost(x);
    RoundedAtMost(y);
    if y < TWO_TO_52 {
      DoublingTakesRoom(x);
      RoundedIsMonotone(2.0 * x, 2.0 * y);
    } else if x >= TWO_TO_53 {
      RoundedIsMonotone(x / 2.0, y / 2.0);
    } else if x >= TWO_TO_52 && y < TWO_TO_53 {
      NearestIsMonotone(x, y);
    }
  }

  /** Rounding commutes with doubling. */
  lemma RoundedDoubles(x: real)
    requires x > 0.0
    ensures Rounded(2.0 * x) == 2.0 * Rounded(x)
  {
    if x >= TWO_TO_52 {
      assert 2.0 * x / 2.0 == x;
    }
  }

  /** `x` times 2 to the `n`. */
  function Scaled(x: real, n: nat): real {
    if n == 0 then x else 2.0 * Scaled(x, n - 1)
  }

  lemma {:induction false} RoundedScales(x: real, n: nat)
    requires x > 0.0
    ensures Scaled(x, n) > 0.0 && Rounded(Scaled(x, n)) == Scaled(Rounded(x), n)
  {
    if n > 0 {
      RoundedScales(x, n - 1);
      RoundedDoubles(Scaled(x, n - 1));
    }
  }

  /** Integers up to 2^53 are exact. */
  lemma {:induction false} IntegersAreExact(k: int)
    requires 0.0 < k as real <= TWO_TO_53
    ensures Rounded(k as real) == k as real
    decreases if k as real < TWO_TO_52 then 1 + Room(k as real) else 0
  {
    var x := k as real;
    if x < TWO_TO_52 {
      DoublingTakesRoom(x);
      IntegersAreExact(2 * k);
      assert (2 * k) as real == 2.0 * x;
    } else if x == TWO_TO_53 {
      assert Rounded(x / 2.0) == Nearest(x / 2.0) as real;
    }
  }

  /** Rounding is off by at most half a unit in the last of 53 places. */
  lemma {:induction false} RoundedIsClose(x: real)
    requires x > 0.0
    ensures -x <= (Rounded(x) - x) * TWO_TO_53 <= x
    decreases if x < TWO_TO_52 then 1 + Room(x) else if x >= TWO_TO_53 then x.Floor else 0
  {
    if x < TWO_TO_52 {
      DoublingTakesRoom(x);
      RoundedIsClose(2.0 * x);
    } else if x >= TWO_TO_53 {
      RoundedIsClose(x / 2.0);
    } else {
      assert -0.5 <= Nearest(x) as real - x <= 0.5;
    }
  }

  /** The positive values that 53 significant bits can hold. */
  predicate IsDouble(x: real) {
    x > 0.0 && Rounded(x) == x
  }

  lemma {:induction false} RoundedIsPositive(x: real)
    requires x > 0.0
    ensures Rounded(x) > 0.0
    decreases if x < TWO_TO_52 then 1 + Room(x) else if x >= TWO_TO_53 then x.Floor else 0
  {
    if x < TWO_TO_52 {
      DoublingTakesRoom(x);
      RoundedIsPositive(2.0 * x);
    } else {
      RoundedAtMost(x);
    }
  }

  /** What comes out of rounding is a double. */
  lemma {:induction false} RoundedIsDouble(x: real)
    requires x > 0.0
    ensures IsDouble(Rounded(x))
    decreases if x < TWO_TO_52 then 1 + Room(x) else if x >= TWO_TO_53 then x.Floor else 0
  {
    RoundedIsPositive(x);
    if x < TWO_TO_52 {
      DoublingTakesRoom(x);
      RoundedIsDouble(2.0 * x);
      RoundedDoubles(Rounded(x));
      assert 2.0 * Rounded(x) == Rounded(2.0 * x);
    } else if x >= TWO_TO_53 {
      RoundedIsDouble(x / 2.0);
      RoundedDoubles(Rounded(x / 2.0));
    } else {
      NearestStaysBetween(x);
      IntegersAreExact(Nearest(x));
    }
  }

  /** No double is nearer. */
  lemma {:induction false} RoundedIsNearest(x: real, d: real)
    requires x > 0.0 && IsDouble(d)
    ensures if d <= x then d - x <= Rounded(x) - x <= x - d else x - d <= Rounded(x) - x <= d - x
    decreases if x < TWO_TO_52 then 1 + Room(x) else if x >= TWO_TO_53 then x.Floor else 0
  {
    if x < TWO_TO_52 {
      DoublingTakesRoom(x);
      RoundedDoubles(d);
      RoundedIsNearest(2.0 * x, 2.0 * d);
    } else if x >= TWO_TO_53 {
      RoundedDoubles(d / 2.0);
      RoundedIsNearest(x / 2.0, d / 2.0);
    } else {
      var k := if d >= TWO_TO_52 then d.Floor else 4503599627370496;
      if d >= TWO_TO_52 {
        LargeOnesAreIntegers(d);
      }
      NearestIsNearest(x, k);
    }
  }

  lemma NearestIsNearest(x: real, k: int)
    ensures var n := Nearest(x) as real;
            if k as real <= x then k as real - x <= n - x <= x - k as real else x - k as real <= n - x <= k as real - x
  {
    assert x.Floor as real <= x < (x.Floor + 1) as real;
    assert k <= x.Floor || k >= x.Floor + 1;
  }

  function Distance(x: real, y: real): real {
    if x < y then y - x else x - y
  }

  /** Rounding yields a double, and none is nearer. */
  lemma RoundsToNearest(x: real, d: real)
    requires x > 0.0 && IsDouble(d)
    ensures IsDouble(Rounded(x)) && Distance(Rounded(x), x) <= Distance(d, x)
  {
    RoundedIsDouble(x);
    RoundedIsNearest(x, d);
  }

  /** From 2^52 on only integers are representable. */
  lemma {:induction false} LargeOnesAreIntegers(x: real)
    requires x >= TWO_TO_52
    ensures Rounded(x) == Rounded(x).Floor as real
    decreases x.Floor
  {
    if x >= TWO_TO_53 {
      LargeOnesAreIntegers(x / 2.0);
      var k := Rounded(x / 2.0).Floor;
      assert Rounded(x) == (2 * k) as real;
    }
  }

  /** A value `r` units of `1/unit` above an even integer goes down if it is at most halfway to the next. */
  lemma NearestAboveEven(m: int, r: nat, unit: nat, y: real)
    requires unit >= 2 && unit % 2 == 0 && m % 2 == 0 && y == m as real + r as real / unit as real
    ensures if r <= unit / 2 then Nearest(y) == m else Nearest(y) >= m + 1
  {
    var f := r as real / unit as real;
    assert f * unit as real == r as real;
    var half := unit / 2;
    assert unit as real == 2.0 * half as real;
    if r <= half {
      assert f <= 0.5;
    } else {
      assert f > 0.5;
    }
  }
}
