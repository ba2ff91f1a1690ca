/**
 * Arc-length reparameterisation of a spline (`compute_arc_length`,
 * `compute_bezier_points`): the cumulative length table over a uniform
 * grid, normalised and inverted with `numpy.interp`.
 */
module ArcLength {
  import opened Wrappers
  import opened Geometry
  import opened Splines

  /** The `grid` default of both functions. */
  const DefaultGrid: nat := 1000

  /** The length of a step (dx, dy); `numpy.hypot` is a parameter of the model, assumed only to be non-negative. */
  ghost predicate NonNegative(hypot: (real, real) -> real) {
    forall dx, dy :: hypot(dx, dy) >= 0.0
  }

  function StepLength(a: Point, b: Point, hypot: (real, real) -> real): real {
    hypot(b.x - a.x, b.y - a.y)
  }

  /** `np.cumsum` of 0 followed by the step lengths along the sampled curve. */
  function CumulativeLength(c: seq<Point>, hypot: (real, real) -> real): (r: seq<real>)
    requires |c| >= 1
    ensures |r| == |c| && r[0] == 0.0
  {
    if |c| == 1 then [0.0]
    else
      var prev := CumulativeLength(c[..|c| - 1], hypot);
      prev + [prev[|prev| - 1] + StepLength(c[|c| - 2], c[|c| - 1], hypot)]
  }

  /** The table of a longer prefix extends the table of the shorter one by one step. */
  lemma CumulativeLengthPrefix(c: seq<Point>, hypot: (real, real) -> real, k: nat)
    requires 1 <= k < |c|
    ensures CumulativeLength(c[..k + 1], hypot)
      == CumulativeLength(c[..k], hypot) + [CumulativeLength(c[..k], hypot)[k - 1] + StepLength(c[k - 1], c[k], hypot)]
  {
    assert c[..k + 1][..k] == c[..k];
  }

  /** Each entry is the previous one plus the length of the step between their samples. */
  lemma {:induction false} CumulativeLengthStep(c: seq<Point>, hypot: (real, real) -> real, k: nat)
    requires 0 < k < |c|
    ensures CumulativeLength(c, hypot)[k] == CumulativeLength(c, hypot)[k - 1] + StepLength(c[k - 1], c[k], hypot)
  {
    if k < |c| - 1 {
      var c' := c[..|c| - 1];
      CumulativeLengthStep(c', hypot, k);
      assert c'[k - 1] == c[k - 1] && c'[k] == c[k];
    }
  }

  /** With non-negative steps the table never decreases. */
  lemma {:induction false} CumulativeLengthMonotone(c: seq<Point>, hypot: (real, real) -> real)
    requires |c| >= 1 && NonNegative(hypot)
    ensures NonDecreasing(CumulativeLength(c, hypot))
  {
    var r := CumulativeLength(c, hypot);
    if |c| > 1 {
      CumulativeLengthMonotone(c[..|c| - 1], hypot);
      assert r[|r| - 1] >= r[|r| - 2];
    }
  }

  /** `compute_arc_length(xp, yp, method, grid)`: [0] for an empty grid. */
  function ArcLengthTable(m: SplineMethod, points: seq<Point>, grid: nat, hypot: (real, real) -> real): (r: seq<real>)
    requires |points| >= 1
    ensures |r| == if grid == 0 then 1 else grid
    ensures r[0] == 0.0
  {
    if grid == 0 then [0.0]
    else CumulativeLength(EvaluateSpec(m, points, Linspace(0.0, 1.0, grid, true)), hypot)
  }

  /** `ndarray.max()`. */
  function MaxOf(s: seq<real>): (r: real)
    requires |s| >= 1
    ensures forall k :: 0 <= k < |s| ==> s[k] <= r
    ensures exists k :: 0 <= k < |s| && s[k] == r
  {
    if |s| == 1 then s[0]
    else
      var rest := MaxOf(s[..|s| - 1]);
      assert forall k :: 0 <= k < |s| - 1 ==> s[..|s| - 1][k] == s[k];
      if rest < s[|s| - 1] then s[|s| - 1] else rest
  }

  /** The largest entry of the length table is the total length, and it is not negative. */
  lemma ArcLengthMax(m: SplineMethod, points: seq<Point>, grid: nat, hypot: (real, real) -> real)
    requires |points| >= 1 && NonNegative(hypot)
    ensures var r := ArcLengthTable(m, points, grid, hypot);
      MaxOf(r) == r[|r| - 1] && MaxOf(r) >= 0.0
  {
    var r := ArcLengthTable(m, points, grid, hypot);
    if grid > 0 {
      CumulativeLengthMonotone(EvaluateSpec(m, points, Linspace(0.0, 1.0, grid, true)), hypot);
    }
    assert r[0] <= r[|r| - 1];
  }

  /** `compute_arc_length`, accumulating the table one step at a time. */
  method ComputeArcLength(m: SplineMethod, points: seq<Point>, grid: nat, hypot: (real, real) -> real)
    returns (table: seq<real>)
    requires |points| >= 1
    ensures table == ArcLengthTable(m, points, grid, hypot)
  {
    var t := Linspace(0.0, 1.0, grid, true);
    var curve := Evaluate(m, points, t);
    if grid == 0 {
      return [0.0];
    }
    table := [0.0];
    var k := 1;
    while k < grid
      invariant 1 <= k <= grid
      invariant table == CumulativeLength(curve[..k], hypot)
    {
      CumulativeLengthPrefix(curve, hypot, k);
      table := table + [table[k - 1] + StepLength(curve[k - 1], curve[k], hypot)];
      k := k + 1;
    }
    assert curve[..grid] == curve;
  }

  /**
   * The parameter of the curve at normalised arc length a: the table
   * divided by its total, inverted against the uniform grid. Every position
   * maps into [0, 1]; on a table from 0, positions before the start map to
   * 0 and positions from the end on map to 1.
   */
  function ParameterAt(table: seq<real>, a: real): (t: real)
    requires |table| >= 1 && table[|table| - 1] != 0.0
    ensures 0.0 <= t <= 1.0
    ensures |table| >= 2 && table[0] == 0.0 ==> (a < 0.0 ==> t == 0.0) && (a >= 1.0 ==> t == 1.0)
  {
    var total := table[|table| - 1];
    var normalized := seq(|table|, k requires 0 <= k < |table| => table[k] / total);
    var grid := Linspace(0.0, 1.0, |table|, true);
    LinspaceIncreasing(0.0, 1.0, |table|, true);
    InterpBounded(a, normalized, grid, 0.0, 1.0);
    assert total / total == 1.0;
    Interp(a, normalized, grid)
  }

  /** `np.interp(at, arc_length, t)`: the curve parameter of every position. */
  function Parameters(table: seq<real>, at: seq<real>): seq<real>
    requires |table| >= 1 && table[|table| - 1] != 0.0
  {
    seq(|at|, k requires 0 <= k < |at| => ParameterAt(table, at[k]))
  }

  /**
   * `compute_bezier_points(xp, yp, at, method, grid)`. None stands for the
   * NaN-filled (or failing) result of a curve with no control points, an
   * empty grid, or zero total length. A result has one point per position;
   * positions from 1 on give the last control point and positions below 0
   * the first.
   */
  function BezierPointsSpec(m: SplineMethod, points: seq<Point>, at: seq<real>, grid: nat, hypot: (real, real) -> real)
    : (r: Option<seq<Point>>)
    ensures |points| == 0 || grid == 0 ==> r.None?
    ensures r.Some? ==>
      && |r.value| == |at|
      && (forall k :: 0 <= k < |at| && at[k] >= 1.0 ==> r.value[k] == points[|points| - 1])
      && (forall k :: 0 <= k < |at| && at[k] < 0.0 ==> r.value[k] == points[0])
  {
    if |points| == 0 || grid == 0 then None
    else
      var table := ArcLengthTable(m, points, grid, hypot);
      if table[|table| - 1] == 0.0 then None
      else
        ResampledEnds(m, points, table, at);
        Some(EvaluateSpec(m, points, Parameters(table, at)))
  }

  /** Evaluating at the parameters of the positions: one point per position, clamped to the ends. */
  lemma ResampledEnds(m: SplineMethod, points: seq<Point>, table: seq<real>, at: seq<real>)
    requires |points| >= 1 && |table| >= 2 && table[0] == 0.0 && table[|table| - 1] != 0.0
    ensures var out := EvaluateSpec(m, points, Parameters(table, at));
      && |out| == |at|
      && (forall k :: 0 <= k < |at| && at[k] >= 1.0 ==> out[k] == points[|points| - 1])
      && (forall k :: 0 <= k < |at| && at[k] < 0.0 ==> out[k] == points[0])
  {
    var ts := Parameters(table, at);
    forall k | 0 <= k < |at|
      ensures at[k] >= 1.0 ==> EvaluateSpec(m, points, ts)[k] == points[|points| - 1]
      ensures at[k] < 0.0 ==> EvaluateSpec(m, points, ts)[k] == points[0]
    {
      assert ts[k] == ParameterAt(table, at[k]);
      EvaluateEndpoints(m, points, ts, k);
    }
  }

  method ComputeBezierPoints(m: SplineMethod, points: seq<Point>, at: seq<real>, grid: nat, hypot: (real, real) -> real)
    returns (r: Option<seq<Point>>)
    ensures r == BezierPointsSpec(m, points, at, grid, hypot)
  {
    if |points| == 0 || grid == 0 {
      return None;
    }
    var table := ComputeArcLength(m, points, grid, hypot);
    var total := table[|table| - 1];
    if total == 0.0 {
      return None;
    }
    var curve := Evaluate(m, points, Parameters(table, at));
    r := Some(curve);
  }
}
