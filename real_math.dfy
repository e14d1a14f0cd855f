/** The numpy/Python numeric primitives the core uses, over exact reals. */
module RealMath {

  /** `np.floor` followed by `int(...)`. */
  function Floor(x: real): (r: int)
    ensures r as real <= x < r as real + 1.0
  {
    x.Floor
  }

  /** `np.ceil` followed by `int(...)`. */
  function Ceil(x: real): (r: int)
    ensures x <= r as real < x + 1.0
  {
    -((-x).Floor)
  }

  /** Python's `int(x)` on a float: truncation toward zero. */
  function Trunc(x: real): (r: int)
    ensures 0.0 <= x ==> 0 <= r && r as real <= x < r as real + 1.0
    ensures x < 0.0 ==> r <= 0 && x <= r as real < x + 1.0
  {
    if x >= 0.0 then x.Floor else -((-x).Floor)
  }

  /** Truncation is monotone: a larger argument never truncates to less. */
  lemma TruncMonotone(x: real, y: real)
    requires x <= y
    ensures Trunc(x) <= Trunc(y)
  {
    if 0.0 <= x {
      assert Trunc(x) as real <= x <= y;
    } else if y < 0.0 {
      assert x <= Trunc(x) as real;
    }
  }

  /** Truncation of ordered non-negative values: both non-negative, in order. */
  lemma TruncBetween(x: real, y: real)
    requires 0.0 <= x <= y
    ensures 0 <= Trunc(x) <= Trunc(y)
  {
    TruncMonotone(x, y);
  }

  /** A value between two bounds inside `[0, top)` is inside `[0, top)`. */
  lemma Squeeze(lo: real, x: real, hi: real, top: real)
    requires 0.0 <= lo <= x <= hi < top
    ensures 0.0 <= x < top
  {
  }

  /** Multiplying by a non-negative factor preserves order. */
  lemma ScaleMonotone(c: real, a: real, b: real)
    requires 0.0 <= c && a <= b
    ensures c * a <= c * b
  {
    assert c * b - c * a == c * (b - a);
  }

  /** A product of non-negative numbers is non-negative. */
  lemma ScaleNonNegative(c: real, a: real)
    requires 0.0 <= c && 0.0 <= a
    ensures 0.0 <= c * a
  {
  }

  /** A product of positive numbers is positive. */
  lemma ScalePositive(c: real, a: real)
    requires 0.0 < c && 0.0 < a
    ensures 0.0 < c * a
  {
  }

  /** Multiplication distributes over a difference. */
  lemma Distribute(b: real, a: real, f: real)
    ensures b * f - a * f == (b - a) * f
  {
  }

  /** The shares `alpha` and `1 - alpha` of a value add back up to it. */
  lemma Complement(alpha: real, m: real)
    ensures alpha * m + (1.0 - alpha) * m == m
  {
    assert (1.0 - alpha) * m == m - alpha * m;
  }

  /** Two non-negative parts, each below its share of m, add up to at most m. */
  lemma SumBetween(x: real, y: real, xm: real, ym: real, m: real)
    requires 0.0 <= x <= xm && 0.0 <= y <= ym && xm + ym == m
    ensures 0.0 <= x + y <= m
  {
  }

  /** Multiplying on the right by a non-negative factor preserves order. */
  lemma ScaleMonotoneRight(a: real, b: real, c: real)
    requires 0.0 <= c && a <= b
    ensures a * c <= b * c
  {
    ScaleNonNegative(b - a, c);
    Distribute(b, a, c);
  }

  /** Multiplying by a positive factor preserves strict order. */
  lemma ScaleStrict(c: real, a: real, b: real)
    requires 0.0 < c && a < b
    ensures c * a < c * b
  {
    assert c * b - c * a == c * (b - a);
  }

  /** The reciprocal of a positive number is positive. */
  lemma ReciprocalPositive(d: real)
    requires d > 0.0
    ensures 1.0 / d > 0.0 && (1.0 / d) * d == 1.0
  {
    if 1.0 / d <= 0.0 {
      ScaleMonotone(d, 1.0 / d, 0.0);
    }
  }

  /** Dividing by a positive number preserves order. */
  lemma DivMonotone(x: real, y: real, d: real)
    requires x <= y && d > 0.0
    ensures x / d <= y / d
  {
    ReciprocalPositive(d);
    ScaleMonotone(1.0 / d, x, y);
    assert x / d == (1.0 / d) * x && y / d == (1.0 / d) * y;
  }

  /** Dividing by a positive number preserves strict order. */
  lemma DivStrict(x: real, y: real, d: real)
    requires x < y && d > 0.0
    ensures x / d < y / d
  {
    ReciprocalPositive(d);
    ScaleStrict(1.0 / d, x, y);
    assert x / d == (1.0 / d) * x && y / d == (1.0 / d) * y;
  }

  /** Inequalities add up. */
  lemma AddBoth(x1: real, y1: real, x2: real, y2: real)
    requires x1 <= y1 && x2 <= y2
    ensures x1 + x2 <= y1 + y2
  {
  }

  function Min(a: int, b: int): int { if a <= b then a else b }

  function Max(a: int, b: int): int { if a >= b then a else b }

  /** `ndarray.max()`: the largest element of a non-empty sequence. */
  function MaxOf(s: seq<real>): (m: real)
    requires |s| >= 1
    ensures forall i :: 0 <= i < |s| ==> s[i] <= m
    ensures exists i :: 0 <= i < |s| && s[i] == m
    decreases |s|
  {
    if |s| == 1 then s[0]
    else
      var p := MaxOf(s[..|s| - 1]);
      assert forall i :: 0 <= i < |s| - 1 ==> s[..|s| - 1][i] == s[i];
      if p >= s[|s| - 1] then p else s[|s| - 1]
  }

  /** `ndarray.min()`: the smallest element of a non-empty sequence. */
  function MinOf(s: seq<real>): (m: real)
    requires |s| >= 1
    ensures forall i :: 0 <= i < |s| ==> m <= s[i]
    ensures exists i :: 0 <= i < |s| && s[i] == m
    decreases |s|
  {
    if |s| == 1 then s[0]
    else
      var p := MinOf(s[..|s| - 1]);
      assert forall i :: 0 <= i < |s| - 1 ==> s[..|s| - 1][i] == s[i];
      if p <= s[|s| - 1] then p else s[|s| - 1]
  }
}
