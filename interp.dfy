/** The two saturating piecewise interpolators of the acceleration-limit logic:
    `cubic_interp` (a cubic Hermite smoothstep between neighbouring table values)
    and `akima_interp` (a quintic smoothstep, the "reduced overshoot" variant).
    Both return the end value outside the breakpoint range and otherwise blend
    the two table values around the interval that a left-sided search finds.
    Arithmetic is exact over `real`. */
module Interp {

  /** y lies between a and b, whichever of the two is larger. */
  predicate Between(y: real, a: real, b: real) {
    (a <= y <= b) || (b <= y <= a)
  }

  predicate StrictlyIncreasing(xp: seq<real>) {
    forall i, j :: 0 <= i < j < |xp| ==> xp[i] < xp[j]
  }

  /** A curve table as both kernels index it: one value per breakpoint, at least two of each. */
  predicate Table(xp: seq<real>, fp: seq<real>) {
    |xp| == |fp| >= 2
  }

  /** Left-sided `np.searchsorted(xp, x)`: the least index j with x <= xp[j],
      or |xp| when there is none. */
  function SearchSorted(xp: seq<real>, x: real): (j: nat)
    ensures j <= |xp|
    ensures forall k :: 0 <= k < j ==> xp[k] < x
    ensures j < |xp| ==> x <= xp[j]
  {
    if xp == [] then 0
    else if x <= xp[0] then 0
    else
      var j := 1 + SearchSorted(xp[1..], x);
      assert forall k :: 1 <= k < j ==> xp[k] == xp[1..][k - 1];
      j
  }

  /** The interval index after the clamp `max(0, min(i, len(xp) - 2))`. */
  function IntervalIndex(xp: seq<real>, x: real): (i: nat)
    requires |xp| >= 2
    ensures i <= |xp| - 2
  {
    var i := SearchSorted(xp, x) - 1;
    var upper := if i <= |xp| - 2 then i else |xp| - 2;
    if upper < 0 then 0 else upper
  }

  /** Strictly inside the breakpoint range the search lands on 1 .. |xp|-1, the
      clamp changes nothing, and the interval found brackets x with x on its
      closed right end: xp[i] < x <= xp[i+1], so the divisor is positive. */
  lemma IntervalBrackets(xp: seq<real>, x: real)
    requires |xp| >= 2
    requires xp[0] < x < xp[|xp| - 1]
    ensures 1 <= SearchSorted(xp, x) <= |xp| - 1
    ensures IntervalIndex(xp, x) == SearchSorted(xp, x) - 1
    ensures xp[IntervalIndex(xp, x)] < x <= xp[IntervalIndex(xp, x) + 1]
  {
  }

  /** On a strictly increasing table the search finds a breakpoint at its own index. */
  lemma SearchSortedAtBreakpoint(xp: seq<real>, k: nat)
    requires StrictlyIncreasing(xp)
    requires k < |xp|
    ensures SearchSorted(xp, xp[k]) == k
  {
  }

  /** The normalised position of x in (lo, hi] lies in (0, 1]. */
  lemma PositionInUnit(lo: real, hi: real, x: real)
    requires lo < x <= hi
    ensures 0.0 < (x - lo) / (hi - lo) <= 1.0
  {
    var t := (x - lo) / (hi - lo);
    assert t * (hi - lo) == x - lo;
  }

  /** Hermite cubic formula on one interval: it starts at a, ends at b, and a
      flat segment (a == b) stays flat. */
  function HermiteBlend(a: real, b: real, t: real): (r: real)
    ensures t == 0.0 ==> r == a
    ensures t == 1.0 ==> r == b
    ensures a == b ==> r == a
  {
    a * (1.0 - 3.0 * t * t + 2.0 * t * t * t) + b * (3.0 * t * t - 2.0 * t * t * t)
  }

  /** Quintic formula on one interval, with t2, t3, t4 the powers of t: it starts
      at a, ends at b, and a flat segment (a == b) stays flat. */
  function QuinticBlend(a: real, b: real, t: real): (r: real)
    ensures t == 0.0 ==> r == a
    ensures t == 1.0 ==> r == b
    ensures a == b ==> r == a
  {
    var t2 := t * t;
    var t4 := t2 * t2;
    var t3 := t2 * t;
    a * (1.0 - 10.0 * t3 + 15.0 * t4 - 6.0 * t3 * t2)
    + b * (10.0 * t3 - 15.0 * t4 + 6.0 * t3 * t2)
  }

  lemma MulNonNegative(x: real, y: real)
    requires 0.0 <= x && 0.0 <= y
    ensures 0.0 <= x * y
  {}

  lemma DivSelf(d: real)
    requires d != 0.0
    ensures d / d == 1.0
  {}

  lemma SquareNonNegative(x: real)
    ensures 0.0 <= x * x
  {
    if x < 0.0 {
      MulNonNegative(-x, -x);
    }
  }

  /** The two cubic weights sum to 1 and each lies in [0, 1] on the unit interval:
      3t² - 2t³ = t²(3 - 2t) and 1 - 3t² + 2t³ = (1 - t)²(1 + 2t). */
  lemma HermiteWeights(t: real)
    requires 0.0 <= t <= 1.0
    ensures (1.0 - 3.0 * t * t + 2.0 * t * t * t) + (3.0 * t * t - 2.0 * t * t * t) == 1.0
    ensures 0.0 <= 3.0 * t * t - 2.0 * t * t * t <= 1.0
    ensures 0.0 <= 1.0 - 3.0 * t * t + 2.0 * t * t * t <= 1.0
  {
    MulNonNegative(t * t, 3.0 - 2.0 * t);
    assert 3.0 * t * t - 2.0 * t * t * t == (t * t) * (3.0 - 2.0 * t);
    MulNonNegative((1.0 - t) * (1.0 - t), 1.0 + 2.0 * t);
    assert 1.0 - 3.0 * t * t + 2.0 * t * t * t == ((1.0 - t) * (1.0 - t)) * (1.0 + 2.0 * t);
  }

  /** The two quintic weights sum to 1 and each lies in [0, 1] on the unit interval:
      10t³ - 15t⁴ + 6t⁵ = t³(6(t - 5/4)² + 5/8) and
      1 - 10t³ + 15t⁴ - 6t⁵ = (1 - t)³(1 + 3t + 6t²). */
  lemma QuinticWeights(t: real)
    requires 0.0 <= t <= 1.0
    ensures var t2 := t * t; var t3 := t2 * t; var t4 := t2 * t2;
      (1.0 - 10.0 * t3 + 15.0 * t4 - 6.0 * t3 * t2) + (10.0 * t3 - 15.0 * t4 + 6.0 * t3 * t2) == 1.0
    ensures var t2 := t * t; var t3 := t2 * t; var t4 := t2 * t2;
      0.0 <= 10.0 * t3 - 15.0 * t4 + 6.0 * t3 * t2 <= 1.0
    ensures var t2 := t * t; var t3 := t2 * t; var t4 := t2 * t2;
      0.0 <= 1.0 - 10.0 * t3 + 15.0 * t4 - 6.0 * t3 * t2 <= 1.0
  {
    var t2 := t * t;
    var t3 := t2 * t;
    var t4 := t2 * t2;
    var s := 1.0 - t;
    MulNonNegative(t, t);
    MulNonNegative(t2, t);
    var shape := 6.0 * (t - 1.25) * (t - 1.25) + 0.625;
    SquareNonNegative(t - 1.25);
    MulNonNegative(t3, shape);
    assert 10.0 * t3 - 15.0 * t4 + 6.0 * t3 * t2 == t3 * shape;
    MulNonNegative(s, s);
    MulNonNegative(s * s, s);
    MulNonNegative(s * s * s, 1.0 + 3.0 * t + 6.0 * t2);
    assert 1.0 - 10.0 * t3 + 15.0 * t4 - 6.0 * t3 * t2 == (s * s * s) * (1.0 + 3.0 * t + 6.0 * t2);
  }

  /** a + w(b - a) with a weight w in [0, 1] lies between a and b. */
  lemma WeightedBetween(a: real, b: real, w: real)
    requires 0.0 <= w <= 1.0
    ensures Between(a + w * (b - a), a, b)
  {
    if a <= b {
      MulNonNegative(w, b - a);
      MulNonNegative(1.0 - w, b - a);
    } else {
      MulNonNegative(w, a - b);
      MulNonNegative(1.0 - w, a - b);
    }
  }

  /** The cubic blend of a and b on the unit interval stays between a and b. */
  lemma HermiteBetween(a: real, b: real, t: real)
    requires 0.0 <= t <= 1.0
    ensures Between(HermiteBlend(a, b, t), a, b)
  {
    HermiteWeights(t);
    var w := 3.0 * t * t - 2.0 * t * t * t;
    assert HermiteBlend(a, b, t) == a + w * (b - a);
    WeightedBetween(a, b, w);
  }

  /** The quintic blend of a and b on the unit interval stays between a and b. */
  lemma QuinticBetween(a: real, b: real, t: real)
    requires 0.0 <= t <= 1.0
    ensures Between(QuinticBlend(a, b, t), a, b)
  {
    QuinticWeights(t);
    var t2 := t * t;
    var t3 := t2 * t;
    var t4 := t2 * t2;
    var w := 10.0 * t3 - 15.0 * t4 + 6.0 * t3 * t2;
    assert QuinticBlend(a, b, t) == a + w * (b - a);
    WeightedBetween(a, b, w);
  }

  /** `cubic_interp(x, xp, fp)`: flat outside [xp[0], xp[last]], and inside the
      range a value between the two table values of the interval that brackets x. */
  function CubicInterp(x: real, xp: seq<real>, fp: seq<real>): (y: real)
    requires Table(xp, fp)
    ensures x <= xp[0] ==> y == fp[0]
    ensures xp[0] < x && xp[|xp| - 1] <= x ==> y == fp[|fp| - 1]
    ensures xp[0] < x < xp[|xp| - 1] ==>
      Between(y, fp[IntervalIndex(xp, x)], fp[IntervalIndex(xp, x) + 1])
  {
    if x <= xp[0] then fp[0]
    else if x >= xp[|xp| - 1] then fp[|fp| - 1]
    else
      IntervalBrackets(xp, x);
      var i := IntervalIndex(xp, x);
      var t := (x - xp[i]) / (xp[i + 1] - xp[i]);
      PositionInUnit(xp[i], xp[i + 1], x);
      HermiteBetween(fp[i], fp[i + 1], t);
      HermiteBlend(fp[i], fp[i + 1], t)
  }

  /** `akima_interp(x, xp, fp)`: the same search and saturation as CubicInterp,
      with the quintic weights. */
  function AkimaInterp(x: real, xp: seq<real>, fp: seq<real>): (y: real)
    requires Table(xp, fp)
    ensures x <= xp[0] ==> y == fp[0]
    ensures xp[0] < x && xp[|xp| - 1] <= x ==> y == fp[|fp| - 1]
    ensures xp[0] < x < xp[|xp| - 1] ==>
      Between(y, fp[IntervalIndex(xp, x)], fp[IntervalIndex(xp, x) + 1])
  {
    if x <= xp[0] then fp[0]
    else if x >= xp[|xp| - 1] then fp[|fp| - 1]
    else
      IntervalBrackets(xp, x);
      var i := IntervalIndex(xp, x);
      var t := (x - xp[i]) / (xp[i + 1] - xp[i]);
      PositionInUnit(xp[i], xp[i + 1], x);
      QuinticBetween(fp[i], fp[i + 1], t);
      QuinticBlend(fp[i], fp[i + 1], t)
  }

  /** Flat extrapolation on a table whose first breakpoint lies below its last (in
      particular any increasing table): at or below the first breakpoint the first
      value, at or above the last breakpoint the last value, for both kernels. */
  lemma FlatExtrapolation(xp: seq<real>, fp: seq<real>, x: real)
    requires Table(xp, fp) && xp[0] < xp[|xp| - 1]
    ensures x <= xp[0] ==> CubicInterp(x, xp, fp) == fp[0] && AkimaInterp(x, xp, fp) == fp[0]
    ensures x >= xp[|xp| - 1] ==>
      CubicInterp(x, xp, fp) == fp[|fp| - 1] && AkimaInterp(x, xp, fp) == fp[|fp| - 1]
  {
  }

  /** Both kernels reproduce every table value exactly at its breakpoint: at an
      interior breakpoint xp[k] the left-sided search gives the interval k-1 with t = 1. */
  lemma ExactAtBreakpoint(xp: seq<real>, fp: seq<real>, k: nat)
    requires Table(xp, fp) && StrictlyIncreasing(xp)
    requires k < |xp|
    ensures CubicInterp(xp[k], xp, fp) == fp[k]
    ensures AkimaInterp(xp[k], xp, fp) == fp[k]
  {
    var x := xp[k];
    if 0 < k < |xp| - 1 {
      SearchSortedAtBreakpoint(xp, k);
      IntervalBrackets(xp, x);
      var i := IntervalIndex(xp, x);
      assert i + 1 == k;
      var d := xp[i + 1] - xp[i];
      assert x - xp[i] == d && d != 0.0;
      DivSelf(d);
      var t := (x - xp[i]) / d;
      assert t == 1.0;
      assert CubicInterp(x, xp, fp) == HermiteBlend(fp[i], fp[k], 1.0);
      assert AkimaInterp(x, xp, fp) == QuinticBlend(fp[i], fp[k], 1.0);
    } else if k == |xp| - 1 {
      assert xp[0] < x;
    }
  }

  /** Both kernels at the midpoint of an interval return the mean of its two
      table values: the smoothstep weights are symmetric, so the quintic is no
      closer to either end there than the cubic. */
  lemma MidpointIsMean(a: real, b: real)
    ensures HermiteBlend(a, b, 0.5) == (a + b) / 2.0
    ensures QuinticBlend(a, b, 0.5) == (a + b) / 2.0
  {
    assert 0.5 * 0.5 * 0.5 == 0.125;
    assert 0.5 * 0.5 * 0.5 * 0.5 == 0.0625;
  }

  /** Every value either kernel returns lies in any range [lo, hi] that holds all table values. */
  lemma InterpWithin(xp: seq<real>, fp: seq<real>, x: real, lo: real, hi: real)
    requires Table(xp, fp)
    requires forall k :: 0 <= k < |fp| ==> lo <= fp[k] <= hi
    ensures lo <= CubicInterp(x, xp, fp) <= hi
    ensures lo <= AkimaInterp(x, xp, fp) <= hi
  {
    if xp[0] < x < xp[|xp| - 1] {
      var i := IntervalIndex(xp, x);
      assert lo <= fp[i] <= hi && lo <= fp[i + 1] <= hi;
    }
  }

  /** The quintic blend is monotone in both end values on the unit interval. */
  lemma QuinticBlendMonotone(a: real, b: real, c: real, d: real, t: real)
    requires 0.0 <= t <= 1.0
    requires a <= c && b <= d
    ensures QuinticBlend(a, b, t) <= QuinticBlend(c, d, t)
  {
    QuinticWeights(t);
    var t2 := t * t;
    var t3 := t2 * t;
    var t4 := t2 * t2;
    var w0 := 1.0 - 10.0 * t3 + 15.0 * t4 - 6.0 * t3 * t2;
    var w1 := 10.0 * t3 - 15.0 * t4 + 6.0 * t3 * t2;
    MulNonNegative(c - a, w0);
    MulNonNegative(d - b, w1);
    assert QuinticBlend(c, d, t) - QuinticBlend(a, b, t) == (c - a) * w0 + (d - b) * w1;
  }

  /** The quintic kernel is monotone in its table values: raising every table
      value never lowers the sample. */
  lemma AkimaMonotoneInValues(xp: seq<real>, fp: seq<real>, gp: seq<real>, x: real)
    requires Table(xp, fp) && |gp| == |fp|
    requires forall k :: 0 <= k < |fp| ==> fp[k] <= gp[k]
    ensures AkimaInterp(x, xp, fp) <= AkimaInterp(x, xp, gp)
  {
    if xp[0] < x < xp[|xp| - 1] {
      IntervalBrackets(xp, x);
      var i := IntervalIndex(xp, x);
      var t := (x - xp[i]) / (xp[i + 1] - xp[i]);
      PositionInUnit(xp[i], xp[i + 1], x);
      QuinticBlendMonotone(fp[i], fp[i + 1], gp[i], gp[i + 1], t);
    }
  }
}
