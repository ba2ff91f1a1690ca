/**
 * The two spline evaluators: the Bernstein-basis Bezier curve (`binom`,
 * `Bernstein`, `Bezier`) and corner-cutting subdivision followed by linear
 * resampling (`CatmulClark`).
 */
module Splines {
  import opened Geometry

  function Factorial(n: nat): (f: nat)
    ensures f >= 1
  {
    if n == 0 then 1 else n * Factorial(n - 1)
  }

  /** Pascal's triangle: the reference definition `binom` is checked against. */
  function Choose(n: nat, k: nat): nat
    decreases n
  {
    if k > n then 0
    else if k == 0 || k == n then 1
    else Choose(n - 1, k - 1) + Choose(n - 1, k)
  }

  /** `binom(n, k)`: n! / (k! (n - k)!), divided as reals, is the binomial coefficient of Pascal's triangle. */
  function Binom(n: nat, k: nat): (b: real)
    requires k <= n
    ensures b == Choose(n, k) as real
  {
    var fk, fnk := Factorial(k), Factorial(n - k);
    PositiveProduct(fk, fnk);
    FactorialSplit(n, k);
    ExactQuotient(Factorial(n), Choose(n, k), fk * fnk);
    (Factorial(n) as real) / ((fk * fnk) as real)
  }

  /** n! = C(n, k) k! (n - k)!, with C from Pascal's rule. */
  lemma {:induction false} FactorialSplit(n: nat, k: nat)
    requires k <= n
    ensures Choose(n, k) * (Factorial(k) * Factorial(n - k)) == Factorial(n)
    decreases n
  {
    if k == 0 || k == n {
    } else {
      FactorialSplit(n - 1, k - 1);
      FactorialSplit(n - 1, k);
      PascalStep(Choose(n - 1, k - 1), Choose(n - 1, k), k, n - k, Factorial(k - 1), Factorial(n - k - 1), Factorial(n - 1));
    }
  }

  /** The arithmetic of one Pascal step: k f + (n - k) f = n f, with the factorials as opaque numbers. */
  lemma PascalStep(c1: int, c2: int, k: int, nk: int, a: int, b: int, f: int)
    requires c1 * (a * (nk * b)) == f
    requires c2 * ((k * a) * b) == f
    ensures (c1 + c2) * ((k * a) * (nk * b)) == (k + nk) * f
  {
    assert (c1 + c2) * ((k * a) * (nk * b)) == k * (c1 * (a * (nk * b))) + nk * (c2 * ((k * a) * b));
  }

  lemma DivCancel(c: real, d: real)
    requires d > 0.0
    ensures (c * d) / d == c
  {
  }

  lemma {:induction false} RealOfProduct(x: nat, y: nat)
    ensures (x * y) as real == (x as real) * (y as real)
  {
    if y > 0 {
      RealOfProduct(x, y - 1);
      assert x * y == x * (y - 1) + x;
    }
  }

  /** Dividing f by d as reals, where f = c d as integers, gives c. */
  lemma ExactQuotient(f: nat, c: nat, d: nat)
    requires d >= 1 && c * d == f
    ensures (f as real) / (d as real) == c as real
  {
    RealOfProduct(c, d);
    DivCancel(c as real, d as real);
  }

  lemma PositiveProduct(a: nat, b: nat)
    requires a >= 1 && b >= 1
    ensures a * b >= 1
  {
  }

  function Pow(x: real, k: nat): real {
    if k == 0 then 1.0 else x * Pow(x, k - 1)
  }

  lemma {:induction false} PowOne(k: nat)
    ensures Pow(1.0, k) == 1.0
  {
    if k > 0 {
      PowOne(k - 1);
    }
  }

  lemma {:induction false} PowNonneg(x: real, k: nat)
    requires x >= 0.0
    ensures Pow(x, k) >= 0.0
  {
    if k > 0 {
      PowNonneg(x, k - 1);
      ProductNonneg(x, Pow(x, k - 1));
    }
  }

  /** `Bernstein(n, k, x)`: binom(n, k) x^k (1 - x)^(n - k), a non-negative weight on [0, 1]. */
  function Bernstein(n: nat, k: nat, x: real): (w: real)
    requires k <= n
    ensures 0.0 <= x <= 1.0 ==> w >= 0.0
  {
    var c, p, q := Binom(n, k), Pow(x, k), Pow(1.0 - x, n - k);
    if 0.0 <= x <= 1.0 then
      PowNonneg(x, k);
      PowNonneg(1.0 - x, n - k);
      TripleNonneg(c, p, q);
      c * p * q
    else
      c * p * q
  }

  lemma TripleNonneg(c: real, p: real, q: real)
    requires 0.0 <= c && 0.0 <= p && 0.0 <= q
    ensures 0.0 <= c * p * q
  {
    var cp := c * p;
    ProductNonneg(c, p);
    ProductNonneg(cp, q);
  }

  /** The k-th basis polynomial at the ends of [0, 1]: 1 for the end it belongs to, 0 otherwise. */
  lemma BernsteinAtEnds(n: nat, k: nat)
    requires k <= n
    ensures Bernstein(n, k, 0.0) == if k == 0 then 1.0 else 0.0
    ensures Bernstein(n, k, 1.0) == if k == n then 1.0 else 0.0
  {
    PowOne(n - k);
    PowOne(k);
  }

  /** acc + w * p, one row of `curve += np.outer(Bernstein(...), points[ii])`. */
  function Accumulate(acc: Point, w: real, p: Point): Point {
    Point(acc.x + w * p.x, acc.y + w * p.y)
  }

  /** The first `count` terms of the Bernstein sum of degree |points| - 1 at t. */
  function BernsteinSum(points: seq<Point>, t: real, count: nat): Point
    requires count <= |points|
  {
    if count == 0 then Point(0.0, 0.0)
    else Accumulate(BernsteinSum(points, t, count - 1), Bernstein(|points| - 1, count - 1, t), points[count - 1])
  }

  /**
   * The Bezier curve of the control polygon at parameter t (the origin for
   * an empty polygon): it starts at the first control point and ends at the
   * last.
   */
  function BezierAt(points: seq<Point>, t: real): (p: Point)
    ensures |points| >= 1 && t == 0.0 ==> p == points[0]
    ensures |points| >= 1 && t == 1.0 ==> p == points[|points| - 1]
  {
    if |points| >= 1 then
      BernsteinSumAtZero(points, |points|);
      BernsteinSumAtOne(points, |points| - 1);
      BernsteinAtEnds(|points| - 1, |points| - 1);
      BernsteinSum(points, t, |points|)
    else
      Point(0.0, 0.0)
  }

  lemma {:induction false} BernsteinSumAtZero(points: seq<Point>, count: nat)
    requires 1 <= count <= |points|
    ensures BernsteinSum(points, 0.0, count) == points[0]
  {
    BernsteinAtEnds(|points| - 1, count - 1);
    if count > 1 {
      BernsteinSumAtZero(points, count - 1);
    }
  }

  lemma {:induction false} BernsteinSumAtOne(points: seq<Point>, count: nat)
    requires count < |points|
    ensures BernsteinSum(points, 1.0, count) == Point(0.0, 0.0)
  {
    if count > 0 {
      BernsteinAtEnds(|points| - 1, count - 1);
      BernsteinSumAtOne(points, count - 1);
    }
  }

  /** `Bezier(points, at)`: the curve accumulated one basis polynomial at a time. */
  method Bezier(points: seq<Point>, at: seq<real>) returns (curve: seq<Point>)
    ensures |curve| == |at|
    ensures forall k :: 0 <= k < |at| ==> curve[k] == BezierAt(points, at[k])
  {
    curve := seq(|at|, _ => Point(0.0, 0.0));
    var ii := 0;
    while ii < |points|
      invariant 0 <= ii <= |points|
      invariant |curve| == |at|
      invariant forall k :: 0 <= k < |at| ==> curve[k] == BernsteinSum(points, at[k], ii)
    {
      curve := seq(|at|, k requires 0 <= k < |at| => Accumulate(curve[k], Bernstein(|points| - 1, ii, at[k]), points[ii]));
      ii := ii + 1;
    }
  }

  /**
   * One round of corner cutting: the ends are kept, and each edge
   * p[q] p[q+1] contributes 3/4 p[q] + 1/4 p[q+1] and 1/4 p[q] + 3/4 p[q+1].
   */
  function Subdivide(p: seq<Point>): (r: seq<Point>)
    requires |p| >= 1
    ensures |r| == 2 * |p|
  {
    seq(2 * |p|, k requires 0 <= k < 2 * |p| =>
      if k == 0 then p[0]
      else if k == 2 * |p| - 1 then p[|p| - 1]
      else if k % 2 == 1 then Blend(0.75, p[k / 2], 0.25, p[k / 2 + 1])
      else Blend(0.25, p[k / 2 - 1], 0.75, p[k / 2]))
  }

  /** The rounds of the `while` loop of `CatmulClark`: subdivide until there are at least n points. */
  function Refine(p: seq<Point>, n: nat): (r: seq<Point>)
    requires |p| >= 1
    ensures |r| >= n && |r| >= |p|
    ensures r[0] == p[0] && r[|r| - 1] == p[|p| - 1]
    decreases n - |p|
  {
    if |p| >= n then p else Refine(Subdivide(p), n)
  }

  /** The refined polygon read as two series over the uniform grid on [0, 1], interpolated at t. */
  function ResampleAt(p: seq<Point>, t: real): Point
    requires |p| >= 1
  {
    var grid := Linspace(0.0, 1.0, |p|, true);
    Point(Interp(t, grid, Xs(p)), Interp(t, grid, Ys(p)))
  }

  /** One round of the loop body, written into a fresh buffer as NumPy does. */
  method SubdivideStep(points: seq<Point>) returns (newp: seq<Point>)
    requires |points| >= 1
    ensures newp == Subdivide(points)
  {
    var m := |points|;
    var a := new Point[2 * m](_ => Point(0.0, 0.0));
    a[0] := points[0];
    a[2 * m - 1] := points[m - 1];
    forall k | 0 < k < 2 * m - 1 {
      a[k] := if k % 2 == 1 then Blend(0.75, points[k / 2], 0.25, points[k / 2 + 1])
              else Blend(0.25, points[k / 2 - 1], 0.75, points[k / 2]);
    }
    newp := a[..];
  }

  /** `CatmulClark(points, at)`: subdivide until there are at least |at| points, then resample at `at`. */
  method CatmulClark(points: seq<Point>, at: seq<real>) returns (curve: seq<Point>)
    requires |points| >= 1
    ensures |curve| == |at|
    ensures forall k :: 0 <= k < |at| ==> curve[k] == ResampleAt(Refine(points, |at|), at[k])
  {
    var pts := points;
    while |pts| < |at|
      invariant |pts| >= 1
      invariant Refine(pts, |at|) == Refine(points, |at|)
      decreases |at| - |pts|
    {
      pts := SubdivideStep(pts);
    }
    var grid := Linspace(0.0, 1.0, |pts|, true);
    var xs := seq(|at|, k requires 0 <= k < |at| => Interp(at[k], grid, Xs(pts)));
    var ys := seq(|at|, k requires 0 <= k < |at| => Interp(at[k], grid, Ys(pts)));
    curve := Zip(xs, ys);
  }

  /** Resampling at 0 gives the first point of the polygon and at 1 the last. */
  lemma ResampleEndpoints(p: seq<Point>)
    requires |p| >= 1
    ensures ResampleAt(p, 0.0) == p[0]
    ensures ResampleAt(p, 1.0) == p[|p| - 1]
  {
    var grid := Linspace(0.0, 1.0, |p|, true);
    LinspaceIncreasing(0.0, 1.0, |p|, true);
    InterpAtKnot(0, grid, Xs(p));
    InterpAtKnot(0, grid, Ys(p));
  }

  /** The subdivision curve starts at the first control point and ends at the last. */
  lemma CatmulClarkEndpoints(points: seq<Point>, n: nat)
    requires |points| >= 1
    ensures ResampleAt(Refine(points, n), 0.0) == points[0]
    ensures ResampleAt(Refine(points, n), 1.0) == points[|points| - 1]
  {
    ResampleEndpoints(Refine(points, n));
  }

  /** Corner cutting only blends neighbouring points, so it stays inside any box holding the polygon. */
  lemma SubdivideInBox(p: seq<Point>, lo: Point, hi: Point)
    requires |p| >= 1 && AllInBox(p, lo, hi)
    ensures AllInBox(Subdivide(p), lo, hi)
  {
    var r := Subdivide(p);
    forall k | 0 <= k < |r| ensures InBox(r[k], lo, hi) {
      if 0 < k < |r| - 1 {
        var a, b := if k % 2 == 1 then p[k / 2] else p[k / 2 - 1], if k % 2 == 1 then p[k / 2 + 1] else p[k / 2];
        var s := if k % 2 == 1 then 0.25 else 0.75;
        ConvexCombination(a.x, b.x, s, lo.x, hi.x);
        ConvexCombination(a.y, b.y, s, lo.y, hi.y);
      }
    }
  }

  lemma {:induction false} RefineInBox(p: seq<Point>, n: nat, lo: Point, hi: Point)
    requires |p| >= 1 && AllInBox(p, lo, hi)
    ensures AllInBox(Refine(p, n), lo, hi)
    decreases n - |p|
  {
    if |p| < n {
      SubdivideInBox(p, lo, hi);
      RefineInBox(Subdivide(p), n, lo, hi);
    }
  }

  /**
   * Every sample of the subdivision curve lies in any axis-aligned box that
   * holds all the control points, whatever the requested position.
   */
  lemma CatmulClarkInBox(points: seq<Point>, n: nat, t: real, lo: Point, hi: Point)
    requires |points| >= 1 && AllInBox(points, lo, hi)
    ensures InBox(ResampleAt(Refine(points, n), t), lo, hi)
  {
    var p := Refine(points, n);
    RefineInBox(points, n, lo, hi);
    var grid := Linspace(0.0, 1.0, |p|, true);
    InterpBounded(t, grid, Xs(p), lo.x, hi.x);
    InterpBounded(t, grid, Ys(p), lo.y, hi.y);
  }

  /** The spline method, chosen by name when a curve model is built. */
  datatype SplineMethod = BezierMethod | CatmulClarkMethod

  /** What the chosen method returns for the polygon and the positions. */
  function EvaluateSpec(m: SplineMethod, points: seq<Point>, at: seq<real>): (r: seq<Point>)
    requires |points| >= 1
    ensures |r| == |at|
  {
    match m
    case BezierMethod => seq(|at|, k requires 0 <= k < |at| => BezierAt(points, at[k]))
    case CatmulClarkMethod => seq(|at|, k requires 0 <= k < |at| => ResampleAt(Refine(points, |at|), at[k]))
  }

  /** `self.method(points, at)`. */
  method Evaluate(m: SplineMethod, points: seq<Point>, at: seq<real>) returns (curve: seq<Point>)
    requires |points| >= 1
    ensures curve == EvaluateSpec(m, points, at)
  {
    match m {
      case BezierMethod =>
        curve := Bezier(points, at);
      case CatmulClarkMethod =>
        curve := CatmulClark(points, at);
    }
  }

  /** Both methods pass through the first control point at 0 and the last at 1. */
  lemma EvaluateEndpoints(m: SplineMethod, points: seq<Point>, at: seq<real>, k: nat)
    requires |points| >= 1 && k < |at|
    ensures at[k] == 0.0 ==> EvaluateSpec(m, points, at)[k] == points[0]
    ensures at[k] == 1.0 ==> EvaluateSpec(m, points, at)[k] == points[|points| - 1]
  {
    CatmulClarkEndpoints(points, |at|);
  }
}
