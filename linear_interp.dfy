/**
 * Linear interpolation as `scipy.interpolate.interp1d(xs, ys, kind='linear',
 * fill_value=0.0, bounds_error=False)` evaluates it: between two knots the
 * straight line through them, outside the knot range the fill value 0.
 */
module LinearInterp {
  import opened RealMath

  predicate StrictlyIncreasing(xs: seq<real>)
  {
    forall i, j :: 0 <= i < j < |xs| ==> xs[i] < xs[j]
  }

  /** What the two-or-more-sample branch hands to interp1d: paired, sorted knots. */
  predicate Knots(xs: seq<real>, ys: seq<real>)
  {
    |xs| == |ys| >= 2 && StrictlyIncreasing(xs)
  }

  /** The line through (x0, y0) and (x1, y1), evaluated at t, in interp1d's form. */
  function Lerp(x0: real, y0: real, x1: real, y1: real, t: real): real
    requires x0 < x1
  {
    (y1 - y0) / (x1 - x0) * (t - x0) + y0
  }

  /** Interpolation at a query inside the knot range: find the segment holding t. */
  function Within(xs: seq<real>, ys: seq<real>, t: real): real
    requires Knots(xs, ys) && xs[0] <= t <= xs[|xs| - 1]
    decreases |xs|
  {
    if t <= xs[1] then Lerp(xs[0], ys[0], xs[1], ys[1], t)
    else Within(xs[1..], ys[1..], t)
  }

  /** interp1d's value at t: 0 outside [xs[0], xs[last]], never extrapolated. */
  function Interp(xs: seq<real>, ys: seq<real>, t: real): real
    requires Knots(xs, ys)
  {
    if t < xs[0] || t > xs[|xs| - 1] then 0.0 else Within(xs, ys, t)
  }

  /** On a segment, the line stays between the values at its two ends. */
  lemma LerpBetween(x0: real, y0: real, x1: real, y1: real, t: real, lo: real, hi: real)
    requires x0 < x1 && x0 <= t <= x1
    requires lo <= y0 <= hi && lo <= y1 <= hi
    ensures lo <= Lerp(x0, y0, x1, y1, t) <= hi
  {
    var d, u := x1 - x0, t - x0;
    var slope := (y1 - y0) / d;
    assert slope * d == y1 - y0;
    assert Lerp(x0, y0, x1, y1, t) == slope * u + y0;
    if y0 <= y1 {
      assert 0.0 <= slope by {
        if slope < 0.0 { ScaleMonotone(d, 0.0, -slope); }
      }
      ScaleMonotone(slope, 0.0, u);
      ScaleMonotone(slope, u, d);
      assert y0 <= slope * u + y0 <= y1;
    } else {
      assert slope < 0.0 by {
        if slope >= 0.0 { ScaleMonotone(d, 0.0, slope); }
      }
      ScaleMonotone(-slope, 0.0, u);
      ScaleMonotone(-slope, u, d);
      assert y1 <= slope * u + y0 <= y0;
    }
  }

  /** Any bounds on the knot values bound every in-range interpolated value. */
  lemma {:induction false} WithinBounded(xs: seq<real>, ys: seq<real>, t: real, lo: real, hi: real)
    requires Knots(xs, ys) && xs[0] <= t <= xs[|xs| - 1]
    requires forall k :: 0 <= k < |ys| ==> lo <= ys[k] <= hi
    ensures lo <= Within(xs, ys, t) <= hi
    decreases |xs|
  {
    if t <= xs[1] {
      LerpBetween(xs[0], ys[0], xs[1], ys[1], t, lo, hi);
    } else {
      assert forall k :: 0 <= k < |ys| - 1 ==> ys[1..][k] == ys[k + 1];
      WithinBounded(xs[1..], ys[1..], t, lo, hi);
    }
  }

  /**
   * The interpolated value is 0 outside the knot range and, inside it, lies
   * between the smallest and the largest knot value.
   */
  lemma InterpRange(xs: seq<real>, ys: seq<real>, t: real)
    requires Knots(xs, ys)
    ensures t < xs[0] || t > xs[|xs| - 1] ==> Interp(xs, ys, t) == 0.0
    ensures xs[0] <= t <= xs[|xs| - 1] ==>
              MinOf(ys) <= Interp(xs, ys, t) <= MaxOf(ys)
  {
    if xs[0] <= t <= xs[|xs| - 1] {
      WithinBounded(xs, ys, t, MinOf(ys), MaxOf(ys));
    }
  }

  /** Non-negative knot values give non-negative interpolation everywhere. */
  lemma InterpNonNegative(xs: seq<real>, ys: seq<real>, t: real)
    requires Knots(xs, ys)
    requires forall k :: 0 <= k < |ys| ==> 0.0 <= ys[k]
    ensures 0.0 <= Interp(xs, ys, t)
  {
    if xs[0] <= t <= xs[|xs| - 1] {
      WithinBounded(xs, ys, t, 0.0, MaxOf(ys));
    }
  }

  /** The interpolant passes through every knot: at xs[k] it is exactly ys[k]. */
  lemma {:induction false} InterpAtKnot(xs: seq<real>, ys: seq<real>, k: nat)
    requires Knots(xs, ys) && k < |xs|
    ensures Interp(xs, ys, xs[k]) == ys[k]
    decreases k
  {
    if k >= 2 {
      assert xs[1] < xs[k];
      assert Knots(xs[1..], ys[1..]);
      InterpAtKnot(xs[1..], ys[1..], k - 1);
      assert xs[1..][|xs| - 2] == xs[|xs| - 1];
    } else {
      assert k < |xs| - 1 ==> xs[k] < xs[|xs| - 1];
      if k == 1 {
        var x0, x1, y0, y1 := xs[0], xs[1], ys[0], ys[1];
        assert (y1 - y0) / (x1 - x0) * (x1 - x0) == y1 - y0;
      }
    }
  }
}
