/**
 * Points of the (a', b') plane, NumPy's `linspace` and NumPy's `interp`,
 * over exact reals. The spline evaluators and the arc-length lookup are
 * built from these.
 */
module Geometry {

  /** A control point or a curve sample. */
  datatype Point = Point(x: real, y: real)

  /** The weighted sum a*p + b*q of two points. */
  function Blend(a: real, p: Point, b: real, q: Point): Point {
    Point(a * p.x + b * q.x, a * p.y + b * q.y)
  }

  /** `zip(xp, yp)`. */
  function Zip(xp: seq<real>, yp: seq<real>): (ps: seq<Point>)
    requires |xp| == |yp|
    ensures |ps| == |xp|
  {
    seq(|xp|, k requires 0 <= k < |xp| => Point(xp[k], yp[k]))
  }

  function Xs(ps: seq<Point>): seq<real> {
    seq(|ps|, k requires 0 <= k < |ps| => ps[k].x)
  }

  function Ys(ps: seq<Point>): seq<real> {
    seq(|ps|, k requires 0 <= k < |ps| => ps[k].y)
  }

  /** Every point of `ps` lies in the axis-aligned box [lo, hi]. */
  ghost predicate InBox(p: Point, lo: Point, hi: Point) {
    lo.x <= p.x <= hi.x && lo.y <= p.y <= hi.y
  }

  ghost predicate AllInBox(ps: seq<Point>, lo: Point, hi: Point) {
    forall k :: 0 <= k < |ps| ==> InBox(ps[k], lo, hi)
  }

  ghost predicate Increasing(s: seq<real>) {
    forall i, j :: 0 <= i < j < |s| ==> s[i] < s[j]
  }

  ghost predicate NonDecreasing(s: seq<real>) {
    forall i, j :: 0 <= i < j < |s| ==> s[i] <= s[j]
  }

  /**
   * `numpy.linspace(start, stop, num, endpoint)`: `num` evenly spaced values
   * starting at `start`, the step being the span divided by `num - 1` when
   * the endpoint is included and by `num` otherwise.
   */
  function Linspace(start: real, stop: real, num: nat, endpoint: bool): (r: seq<real>)
    ensures |r| == num
    ensures num > 0 ==> r[0] == start
    ensures endpoint && num > 1 ==> r[num - 1] == stop
  {
    var step := LinspaceStep(start, stop, num, endpoint);
    assert endpoint && num > 1 ==> ((num - 1) as real) * step == stop - start by {
      if endpoint && num > 1 {
        StepFacts(start, stop, num, endpoint);
      }
    }
    seq(num, k requires 0 <= k < num => start + (k as real) * step)
  }

  /** How many intervals `Linspace` divides the span into. */
  function Intervals(num: nat, endpoint: bool): int {
    if endpoint then num - 1 else num
  }

  /** The spacing of `Linspace`: the span over its intervals, 0 when there are none. */
  function LinspaceStep(start: real, stop: real, num: nat, endpoint: bool): real {
    var div := Intervals(num, endpoint);
    if div <= 0 then 0.0 else (stop - start) / (div as real)
  }

  /** With start < stop the grid is strictly increasing, and an excluded endpoint is never reached. */
  lemma LinspaceIncreasing(start: real, stop: real, num: nat, endpoint: bool)
    requires start < stop
    ensures Increasing(Linspace(start, stop, num, endpoint))
    ensures forall k :: 0 <= k < num ==> start <= Linspace(start, stop, num, endpoint)[k] <= stop
    ensures !endpoint ==> forall k :: 0 <= k < num ==> Linspace(start, stop, num, endpoint)[k] < stop
  {
    var r := Linspace(start, stop, num, endpoint);
    forall i, j | 0 <= i < j < num ensures r[i] < r[j] {
      LinspaceOrdered(start, stop, num, endpoint, i, j);
    }
    forall k | 0 <= k < num ensures start <= r[k] <= stop && (!endpoint ==> r[k] < stop) {
      LinspaceWithin(start, stop, num, endpoint, k);
    }
  }

  lemma LinspaceOrdered(start: real, stop: real, num: nat, endpoint: bool, i: nat, j: nat)
    requires start < stop && i < j < num
    ensures Linspace(start, stop, num, endpoint)[i] < Linspace(start, stop, num, endpoint)[j]
  {
    assert Intervals(num, endpoint) > 0;
    StepFacts(start, stop, num, endpoint);
    var step := LinspaceStep(start, stop, num, endpoint);
    var r := Linspace(start, stop, num, endpoint);
    LinspaceAt(start, stop, num, endpoint, i);
    LinspaceAt(start, stop, num, endpoint, j);
    assert r[i] == start + (i as real) * step && r[j] == start + (j as real) * step;
    ProgressionStrict(start, step, i as real, j as real);
  }

  lemma LinspaceWithin(start: real, stop: real, num: nat, endpoint: bool, k: nat)
    requires start < stop && k < num
    ensures start <= Linspace(start, stop, num, endpoint)[k] <= stop
    ensures !endpoint ==> Linspace(start, stop, num, endpoint)[k] < stop
  {
    if Intervals(num, endpoint) == 0 {
      assert k == 0;
    } else {
      StepFacts(start, stop, num, endpoint);
      LinspaceAt(start, stop, num, endpoint, k);
      ProgressionBounds(start, LinspaceStep(start, stop, num, endpoint), Intervals(num, endpoint), k);
    }
  }

  lemma LinspaceAt(start: real, stop: real, num: nat, endpoint: bool, k: nat)
    requires k < num
    ensures Linspace(start, stop, num, endpoint)[k] == start + (k as real) * LinspaceStep(start, stop, num, endpoint)
  {
  }

  /** With at least one interval, the intervals together span the range, and the step is positive when the range is. */
  lemma StepFacts(start: real, stop: real, num: nat, endpoint: bool)
    requires Intervals(num, endpoint) > 0
    ensures start < stop ==> LinspaceStep(start, stop, num, endpoint) > 0.0
    ensures (Intervals(num, endpoint) as real) * LinspaceStep(start, stop, num, endpoint) == stop - start
  {
    StepSpan(stop - start, Intervals(num, endpoint) as real);
  }

  /** A span cut into `div` equal steps: the steps add up to the span, and are positive when it is. */
  lemma StepSpan(span: real, div: real)
    requires div > 0.0
    ensures span > 0.0 ==> span / div > 0.0
    ensures div * (span / div) == span
  {
  }

  /** The k-th of `div` positive steps from `start` lies between the first and the last point. */
  lemma ProgressionBounds(start: real, step: real, div: nat, k: nat)
    requires step > 0.0 && k <= div
    ensures start <= start + (k as real) * step <= start + (div as real) * step
    ensures k < div ==> start + (k as real) * step < start + (div as real) * step
  {
    ProductNonneg(k as real, step);
    ScaleMono(k as real, div as real, step);
    if k < div {
      ProgressionStrict(start, step, k as real, div as real);
    }
  }

  /** More positive steps from the same start go further. */
  lemma ProgressionStrict(start: real, step: real, a: real, b: real)
    requires step > 0.0 && a < b
    ensures start + a * step < start + b * step
  {
    ScaleStrictMono(a, b, step);
  }

  lemma ProductNonneg(a: real, b: real)
    requires 0.0 <= a && 0.0 <= b
    ensures 0.0 <= a * b
  {
  }

  lemma ProductPos(a: real, b: real)
    requires 0.0 < a && 0.0 < b
    ensures 0.0 < a * b
  {
  }

  lemma ScaleMono(a: real, b: real, c: real)
    requires a <= b && 0.0 <= c
    ensures a * c <= b * c
  {
    ProductNonneg(b - a, c);
    assert (b - a) * c == b * c - a * c;
  }

  lemma ScaleStrictMono(a: real, b: real, c: real)
    requires a < b && 0.0 < c
    ensures a * c < b * c
  {
    ProductPos(b - a, c);
    assert (b - a) * c == b * c - a * c;
  }

  /** Scaling by a factor in [0, 1] moves a value toward zero without crossing it. */
  lemma ScaleBetween(d: real, s: real)
    requires 0.0 <= s <= 1.0
    ensures 0.0 <= d ==> 0.0 <= d * s <= d
    ensures d < 0.0 ==> d <= d * s <= 0.0
  {
    if 0.0 <= d {
      ProductNonneg(d, s);
      ProductNonneg(d, 1.0 - s);
      assert d * (1.0 - s) == d - d * s;
    } else {
      ProductNonneg(-d, s);
      ProductNonneg(-d, 1.0 - s);
      assert (-d) * s == -(d * s);
      assert (-d) * (1.0 - s) == d * s - d;
    }
  }

  /**
   * For x at or above xp[0], the last index j with xp[j] <= x: the
   * binary search NumPy runs inside `interp`.
   */
  function LastAtMost(x: real, xp: seq<real>): (j: nat)
    requires |xp| > 0 && xp[0] <= x
    ensures j < |xp| && xp[j] <= x
    ensures forall k :: j < k < |xp| ==> x < xp[k]
  {
    if xp[|xp| - 1] <= x then |xp| - 1 else LastAtMost(x, xp[..|xp| - 1])
  }

  /**
   * `numpy.interp(x, xp, fp)`: fp[0] left of the table, fp[-1] from its
   * last abscissa on, and otherwise the straight line between the
   * neighbours of the last table entry at or below x.
   */
  function Interp(x: real, xp: seq<real>, fp: seq<real>): (r: real)
    requires 0 < |xp| == |fp|
    ensures x < xp[0] ==> r == fp[0]
    ensures xp[0] <= x && xp[|xp| - 1] <= x ==> r == fp[|fp| - 1]
    ensures xp[0] <= x < xp[|xp| - 1] ==>
      var j := LastAtMost(x, xp);
      j + 1 < |xp| && Between(fp[j], fp[j + 1], r)
  {
    if x < xp[0] then fp[0]
    else if xp[|xp| - 1] <= x then fp[|fp| - 1]
    else
      var j := LastAtMost(x, xp);
      var d, e, df := xp[j + 1] - xp[j], x - xp[j], fp[j + 1] - fp[j];
      FractionInUnit(e, d);
      DivMulSwap(df, d, e);
      ConvexBetween(fp[j], fp[j + 1], e / d);
      df / d * e + fp[j]
  }

  /** r lies on the segment between a and b. */
  predicate Between(a: real, b: real, r: real) {
    (a <= r <= b) || (b <= r <= a)
  }

  /** An interpolated value lies between the smallest and the largest table value. */
  lemma InterpBounded(x: real, xp: seq<real>, fp: seq<real>, lo: real, hi: real)
    requires 0 < |xp| == |fp|
    requires forall k :: 0 <= k < |fp| ==> lo <= fp[k] <= hi
    ensures lo <= Interp(x, xp, fp) <= hi
  {
    if xp[0] <= x < xp[|xp| - 1] {
      var j := LastAtMost(x, xp);
      assert lo <= fp[j] <= hi && lo <= fp[j + 1] <= hi;
    }
  }

  lemma FractionInUnit(e: real, d: real)
    requires 0.0 <= e <= d && 0.0 < d
    ensures 0.0 <= e / d <= 1.0
  {
  }

  lemma DivMulSwap(a: real, d: real, e: real)
    requires d != 0.0
    ensures a / d * e == a * (e / d)
  {
  }

  lemma ConvexCombination(a: real, b: real, s: real, lo: real, hi: real)
    requires lo <= a <= hi && lo <= b <= hi && 0.0 <= s <= 1.0
    ensures lo <= (b - a) * s + a <= hi
  {
    var d := b - a;
    ScaleBetween(d, s);
    ConvexAt(a, b, d * s, lo, hi);
  }

  /** A convex combination of a and b lies between them. */
  lemma ConvexBetween(a: real, b: real, s: real)
    requires 0.0 <= s <= 1.0
    ensures Between(a, b, (b - a) * s + a)
  {
    if a <= b {
      ConvexCombination(a, b, s, a, b);
    } else {
      ConvexCombination(a, b, s, b, a);
    }
  }

  /** An offset p from a toward b, no longer than b - a, stays between lo and hi. */
  lemma ConvexAt(a: real, b: real, p: real, lo: real, hi: real)
    requires lo <= a <= hi && lo <= b <= hi
    requires a <= b ==> 0.0 <= p <= b - a
    requires b < a ==> b - a <= p <= 0.0
    ensures lo <= p + a <= hi
  {
  }

  /** On a strictly increasing table, interpolating at an abscissa gives its ordinate. */
  lemma InterpAtKnot(k: nat, xp: seq<real>, fp: seq<real>)
    requires 0 < |xp| == |fp| && k < |xp|
    requires Increasing(xp)
    ensures Interp(xp[k], xp, fp) == fp[k]
  {
    if k < |xp| - 1 {
      var j := LastAtMost(xp[k], xp);
      assert j == k;
    }
  }
}
