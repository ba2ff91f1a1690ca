/**
 * The curve of a diverging or cyclic map (`TwoBezierCurveModel`): the
 * control polygon is cut into a low and a high half at the fixed points,
 * positions below 0.5 go to the low half and the others to the high half,
 * and the halves are matched in arc length — by remapping the positions of
 * the longer half (diverging), or by pulling the interior points of the
 * longer half towards the middle of the fixed points until both have about
 * the same length (cyclic).
 */
module TwoSegment {
  import opened Wrappers
  import opened Geometry
  import opened ControlPoints
  import opened Splines
  import opened ArcLength

  /** The low and high control polygons. */
  datatype Halves = Halves(low: seq<Point>, high: seq<Point>)

  /** What `get_control_points` gives a two-segment map: one pivot index, or an ordered pair. */
  ghost predicate PivotOk(cmtype: CmType, view: FixedView, n: nat) {
    || (cmtype == Diverging && view.Index? && 0 <= view.i < n)
    || (cmtype == Cyclic && view.Indices? && |view.list| == 2 && 0 <= view.list[0] <= view.list[1] < n)
  }

  /**
   * The slices of `get_bezier_points_at`: for a diverging map both halves
   * hold the pivot; for a cyclic map the low half runs from the first fixed
   * point to the second and the high half from the second round to the first.
   */
  function Split(ps: seq<Point>, cmtype: CmType, view: FixedView): (h: Halves)
    requires PivotOk(cmtype, view, |ps|)
    ensures |h.low| >= 1 && |h.high| >= 1
    ensures cmtype == Diverging ==>
      && h.low[|h.low| - 1] == h.high[0] == ps[view.i]
      && h.low[0] == ps[0] && h.high[|h.high| - 1] == ps[|ps| - 1]
    ensures cmtype == Cyclic ==>
      && h.low[0] == h.high[|h.high| - 1] == ps[view.list[0]]
      && h.low[|h.low| - 1] == h.high[0] == ps[view.list[1]]
  {
    if cmtype == Diverging then
      Halves(ps[..view.i + 1], ps[view.i..])
    else
      var f0, f1 := view.list[0], view.list[1];
      CyclicSplitEnds(ps, f0, f1);
      Halves(ps[f0..f1 + 1], ps[f1..] + ps[..f0 + 1])
  }

  /** Together the halves hold every control point: in order for a diverging map, once each besides the fixed points for a cyclic map. */
  lemma SplitShares(ps: seq<Point>, cmtype: CmType, view: FixedView)
    requires PivotOk(cmtype, view, |ps|)
    ensures var h := Split(ps, cmtype, view);
      && (cmtype == Diverging ==> h.low + h.high[1..] == ps)
      && (cmtype == Cyclic ==>
            && |h.low| + |h.high| == |ps| + 2
            && multiset(h.low[1..] + h.high[1..]) == multiset(ps))
  {
    var h := Split(ps, cmtype, view);
    if cmtype == Diverging {
      assert h == Halves(ps[..view.i + 1], ps[view.i..]);
      DivergingSplit(ps, view.i);
    } else {
      var f0, f1 := view.list[0], view.list[1];
      assert h == Halves(ps[f0..f1 + 1], ps[f1..] + ps[..f0 + 1]);
      CyclicSplitEnds(ps, f0, f1);
      CyclicSplitShares(ps, f0, f1);
    }
  }

  /** The diverging halves run from the first point to the pivot and from the pivot to the last point. */
  lemma DivergingSplit(ps: seq<Point>, p: nat)
    requires p < |ps|
    ensures ps[..p + 1][p] == ps[p..][0] == ps[p]
    ensures ps[..p + 1][0] == ps[0] && ps[p..][|ps| - p - 1] == ps[|ps| - 1]
    ensures ps[..p + 1] + ps[p..][1..] == ps
  {
    assert ps[p..][1..] == ps[p + 1..];
  }

  /** The cyclic halves meet at both fixed points. */
  lemma CyclicSplitEnds(ps: seq<Point>, f0: nat, f1: nat)
    requires f0 <= f1 < |ps|
    ensures var low, high := ps[f0..f1 + 1], ps[f1..] + ps[..f0 + 1];
      && |low| == f1 - f0 + 1 && |high| == |ps| - f1 + f0 + 1
      && low[0] == high[|high| - 1] == ps[f0]
      && low[|low| - 1] == high[0] == ps[f1]
  {
  }

  /** The cyclic halves hold every control point once, besides the two fixed points they share. */
  lemma CyclicSplitShares(ps: seq<Point>, f0: nat, f1: nat)
    requires f0 <= f1 < |ps|
    ensures multiset(ps[f0..f1 + 1][1..] + (ps[f1..] + ps[..f0 + 1])[1..]) == multiset(ps)
  {
    assert ps[f0..f1 + 1][1..] + (ps[f1..] + ps[..f0 + 1])[1..] == ps[f0 + 1..f1 + 1] + (ps[f1 + 1..] + ps[..f0 + 1]);
    calc {
      multiset(ps);
      { assert ps == ps[..f0 + 1] + ps[f0 + 1..f1 + 1] + ps[f1 + 1..]; }
      multiset(ps[..f0 + 1]) + multiset(ps[f0 + 1..f1 + 1]) + multiset(ps[f1 + 1..]);
      multiset(ps[f0 + 1..f1 + 1] + (ps[f1 + 1..] + ps[..f0 + 1]));
    }
  }

  /** `at[at < 0.5]`. */
  function LowPositions(at: seq<real>): (r: seq<real>)
    ensures forall k :: 0 <= k < |r| ==> r[k] < 0.5
  {
    if at == [] then [] else (if at[0] < 0.5 then [at[0]] else []) + LowPositions(at[1..])
  }

  /** `at[at >= 0.5]`. */
  function HighPositions(at: seq<real>): (r: seq<real>)
    ensures forall k :: 0 <= k < |r| ==> r[k] >= 0.5
  {
    if at == [] then [] else (if at[0] >= 0.5 then [at[0]] else []) + HighPositions(at[1..])
  }

  /** Every position goes to exactly one half. */
  lemma {:induction false} RoutingPartition(at: seq<real>)
    ensures |LowPositions(at)| + |HighPositions(at)| == |at|
    ensures multiset(LowPositions(at)) + multiset(HighPositions(at)) == multiset(at)
  {
    if at != [] {
      RoutingPartition(at[1..]);
      assert at == [at[0]] + at[1..];
    }
  }

  function Min(a: real, b: real): real { if a <= b then a else b }
  function Max(a: real, b: real): real { if a <= b then b else a }

  /** `sf`: the shorter half's length over the longer half's. */
  function Ratio(lowAl: real, highAl: real): (sf: real)
    requires Max(lowAl, highAl) != 0.0
  {
    Min(lowAl, highAl) / Max(lowAl, highAl)
  }

  /** For two lengths, not both zero, the ratio lies in [0, 1] and scales the longer onto the shorter. */
  lemma RatioBounds(lowAl: real, highAl: real)
    requires lowAl >= 0.0 && highAl >= 0.0 && Max(lowAl, highAl) != 0.0
    ensures 0.0 <= Ratio(lowAl, highAl) <= 1.0
    ensures Ratio(lowAl, highAl) * Max(lowAl, highAl) == Min(lowAl, highAl)
  {
    var lo, hi := Min(lowAl, highAl), Max(lowAl, highAl);
    assert lo / hi * hi == lo;
    assert lo / hi <= hi / hi;
  }

  lemma RatioInUnit(lowAl: real, highAl: real)
    requires lowAl >= 0.0 && highAl >= 0.0 && Max(lowAl, highAl) != 0.0
    ensures 0.0 <= Ratio(lowAl, highAl) <= 1.0
  {
    RatioBounds(lowAl, highAl);
  }

  /**
   * Where a low position lands on the low curve of a diverging map. When
   * the low half is the shorter, positions of [0, 0.5) are stretched over
   * [0, 1); when it is the longer, they only use the window [1 - sf, 1] next
   * to the pivot, short of it unless sf is 0. Position 0.5 is the pivot.
   */
  function RemapLow(l: real, lowAl: real, highAl: real): (r: real)
    requires Max(lowAl, highAl) != 0.0
    ensures lowAl >= 0.0 && highAl >= 0.0 && 0.0 <= l < 0.5 ==>
      && (lowAl <= highAl ==> 0.0 <= r < 1.0)
      && (highAl < lowAl ==> 1.0 - Ratio(lowAl, highAl) <= r <= 1.0)
      && (highAl < lowAl && Ratio(lowAl, highAl) > 0.0 ==> r < 1.0)
    ensures l == 0.5 ==> r == 1.0
  {
    if highAl < lowAl then
      var sf := Ratio(lowAl, highAl);
      var r := (0.5 - (0.5 - l) * sf) * 2.0;
      if lowAl >= 0.0 && highAl >= 0.0 && 0.0 <= l < 0.5 then
        RatioInUnit(lowAl, highAl);
        LongLowWindow(l, sf, r);
        r
      else
        r
    else
      l * 2.0
  }

  /**
   * Where a high position lands on the high curve of a diverging map. When
   * the high half is the shorter, positions of [0.5, 1] are stretched over
   * [0, 1]; when it is the longer, they only use the window [0, sf] next to
   * the pivot. Position 0.5 is the pivot.
   */
  function RemapHigh(h: real, lowAl: real, highAl: real): (r: real)
    requires Max(lowAl, highAl) != 0.0
    ensures lowAl >= 0.0 && highAl >= 0.0 && 0.5 <= h <= 1.0 ==>
      && (highAl < lowAl ==> 0.0 <= r <= 1.0)
      && (lowAl <= highAl ==> 0.0 <= r <= Ratio(lowAl, highAl))
    ensures h == 0.5 ==> r == 0.0
  {
    if highAl < lowAl then
      h * 2.0 - 1.0
    else
      var sf := Ratio(lowAl, highAl);
      var r := (0.5 + (h - 0.5) * sf) * 2.0 - 1.0;
      if lowAl >= 0.0 && highAl >= 0.0 && 0.5 <= h <= 1.0 then
        RatioInUnit(lowAl, highAl);
        LongHighWindow(h, sf, r);
        r
      else
        r
  }

  lemma LongLowWindow(l: real, sf: real, r: real)
    requires 0.0 <= l < 0.5 && 0.0 <= sf <= 1.0 && r == (0.5 - (0.5 - l) * sf) * 2.0
    ensures 1.0 - sf <= r <= 1.0
    ensures sf > 0.0 ==> r < 1.0
  {
    LowIdentity(l, sf);
    WindowAtEnd(1.0 - 2.0 * l, sf);
  }

  lemma LongHighWindow(h: real, sf: real, r: real)
    requires 0.5 <= h <= 1.0 && 0.0 <= sf <= 1.0 && r == (0.5 + (h - 0.5) * sf) * 2.0 - 1.0
    ensures 0.0 <= r <= sf
  {
    HighIdentity(h, sf);
    WindowAtStart(2.0 * h - 1.0, sf);
  }

  lemma LowIdentity(l: real, sf: real)
    ensures (0.5 - (0.5 - l) * sf) * 2.0 == 1.0 - (1.0 - 2.0 * l) * sf
  {
  }

  lemma HighIdentity(h: real, sf: real)
    ensures (0.5 + (h - 0.5) * sf) * 2.0 - 1.0 == (2.0 * h - 1.0) * sf
  {
  }

  /** Scaling a position of [0, 1] by sf lands in [0, sf]. */
  lemma WindowAtStart(x: real, sf: real)
    requires 0.0 <= x <= 1.0 && 0.0 <= sf <= 1.0
    ensures 0.0 <= x * sf <= sf
  {
    ProductNonneg(x, sf);
    ProductNonneg(1.0 - x, sf);
    assert (1.0 - x) * sf == sf - x * sf;
  }

  /** Scaling a distance of (0, 1] from the end by sf lands in [1 - sf, 1), or at 1 when sf is 0. */
  lemma WindowAtEnd(y: real, sf: real)
    requires 0.0 < y <= 1.0 && 0.0 <= sf <= 1.0
    ensures 1.0 - sf <= 1.0 - y * sf <= 1.0
    ensures sf > 0.0 ==> 1.0 - y * sf < 1.0
  {
    ProductNonneg(y, sf);
    ProductNonneg(1.0 - y, sf);
    assert (1.0 - y) * sf == sf - y * sf;
    if sf > 0.0 {
      ProductPos(y, sf);
    }
  }

  /** `np.isclose(a, b)` with its default tolerances. */
  predicate IsClose(a: real, b: real) {
    var d := if a >= b then a - b else b - a;
    d <= 0.00000001 + 0.00001 * (if b >= 0.0 then b else -b)
  }

  /**
   * One rewrite of `low_xp[1:-1]`/`high_xp[1:-1]`: the interior points are
   * pulled towards `mid` by the factor sf; the end points stay.
   */
  function ShrinkInterior(half: seq<Point>, mid: Point, sf: real): (r: seq<Point>)
    ensures |r| == |half|
    ensures forall k :: 0 <= k < |half| && (k == 0 || k == |half| - 1) ==> r[k] == half[k]
    ensures forall k :: 0 < k < |half| - 1 ==>
      r[k].x - mid.x == (half[k].x - mid.x) * sf && r[k].y - mid.y == (half[k].y - mid.y) * sf
  {
    seq(|half|, k requires 0 <= k < |half| =>
      if k == 0 || k == |half| - 1 then half[k]
      else Point((half[k].x - mid.x) * sf + mid.x, (half[k].y - mid.y) * sf + mid.y))
  }

  /** The middle of the two fixed points, `xf1 + (xf2 - xf1) / 2`. */
  function Midpoint(a: Point, b: Point): Point {
    Point(a.x + (b.x - a.x) / 2.0, a.y + (b.y - a.y) / 2.0)
  }

  /** The arc length of a half: the maximum of its length table. */
  function HalfLength(m: SplineMethod, grid: nat, hypot: (real, real) -> real, p: seq<Point>): real {
    if |p| == 0 then 0.0 else MaxOf(ArcLengthTable(m, p, grid, hypot))
  }

  /** `compute_arc_length(...).max()` for a fixed method, grid and step length. */
  function Measure(m: SplineMethod, grid: nat, hypot: (real, real) -> real): seq<Point> -> real {
    p => HalfLength(m, grid, hypot, p)
  }

  /**
   * The balancing loop of a cyclic map under the length function `len`,
   * with at most `fuel` rounds: None when both halves have zero length (the
   * ratio is NaN and the loop never ends) or when the rounds run out before
   * the lengths are close. A result keeps the sizes of both halves and
   * their end points (the fixed points of the map), and its two lengths are
   * within the tolerance of each other.
   */
  function Balance(h: Halves, mid: Point, len: seq<Point> -> real, fuel: nat): (r: Option<Halves>)
    ensures r.Some? ==> |r.value.low| == |h.low| && |r.value.high| == |h.high|
    ensures r.Some? ==>
      Max(len(r.value.low), len(r.value.high)) != 0.0 && IsClose(Ratio(len(r.value.low), len(r.value.high)), 1.0)
    decreases fuel
  {
    var la, ha := len(h.low), len(h.high);
    if Max(la, ha) == 0.0 then None
    else
      var sf := Ratio(la, ha);
      if IsClose(sf, 1.0) then Some(h)
      else if fuel == 0 then None
      else if ha < la then Balance(Halves(ShrinkInterior(h.low, mid, sf), h.high), mid, len, fuel - 1)
      else Balance(Halves(h.low, ShrinkInterior(h.high, mid, sf)), mid, len, fuel - 1)
  }

  /** Balancing moves only interior points: both halves keep their first and last points, the fixed points. */
  lemma {:induction false} BalanceKeepsEnds(h: Halves, mid: Point, len: seq<Point> -> real, fuel: nat)
    requires |h.low| >= 1 && |h.high| >= 1
    ensures var r := Balance(h, mid, len, fuel);
      r.Some? ==>
        && r.value.low[0] == h.low[0] && r.value.low[|h.low| - 1] == h.low[|h.low| - 1]
        && r.value.high[0] == h.high[0] && r.value.high[|h.high| - 1] == h.high[|h.high| - 1]
    decreases fuel
  {
    var la, ha := len(h.low), len(h.high);
    if Max(la, ha) != 0.0 && !IsClose(Ratio(la, ha), 1.0) && fuel > 0 {
      var sf := Ratio(la, ha);
      if ha < la {
        BalanceKeepsEnds(Halves(ShrinkInterior(h.low, mid, sf), h.high), mid, len, fuel - 1);
      } else {
        BalanceKeepsEnds(Halves(h.low, ShrinkInterior(h.high, mid, sf)), mid, len, fuel - 1);
      }
    }
  }

  /** `compute_arc_length(xp, yp, method, grid).max()` for one half. */
  method MeasureHalf(m: SplineMethod, p: seq<Point>, grid: nat, hypot: (real, real) -> real, ghost len: seq<Point> -> real)
    returns (al: real)
    requires |p| >= 1
    requires forall q {:trigger HalfLength(m, grid, hypot, q)} :: len(q) == HalfLength(m, grid, hypot, q)
    ensures al == len(p)
  {
    var table := ComputeArcLength(m, p, grid, hypot);
    al := MaxOf(table);
    assert al == HalfLength(m, grid, hypot, p);
  }

  /** One round of `Balance` that is neither done nor out of fuel shrinks the longer half and carries on. */
  lemma BalanceStep(h: Halves, mid: Point, len: seq<Point> -> real, fuel: nat)
    requires Max(len(h.low), len(h.high)) != 0.0 && !IsClose(Ratio(len(h.low), len(h.high)), 1.0) && fuel > 0
    ensures var sf := Ratio(len(h.low), len(h.high));
      Balance(h, mid, len, fuel) ==
        if len(h.high) < len(h.low) then Balance(Halves(ShrinkInterior(h.low, mid, sf), h.high), mid, len, fuel - 1)
        else Balance(Halves(h.low, ShrinkInterior(h.high, mid, sf)), mid, len, fuel - 1)
  {
  }

  /** The `while not np.isclose(sf, 1)` loop, rewriting the longer half in each round. */
  method BalanceLoop(m: SplineMethod, h: Halves, mid: Point, grid: nat, hypot: (real, real) -> real,
                     ghost len: seq<Point> -> real, fuel: nat)
    returns (r: Option<Halves>)
    requires |h.low| >= 1 && |h.high| >= 1
    requires forall p {:trigger HalfLength(m, grid, hypot, p)} :: len(p) == HalfLength(m, grid, hypot, p)
    ensures r == Balance(h, mid, len, fuel)
  {
    var low, high := h.low, h.high;
    var la := MeasureHalf(m, low, grid, hypot, len);
    var ha := MeasureHalf(m, high, grid, hypot, len);
    if Max(la, ha) == 0.0 {
      return None;
    }
    var sf := Ratio(la, ha);
    var rounds := fuel;
    while !IsClose(sf, 1.0)
      invariant |low| == |h.low| && |high| == |h.high|
      invariant la == len(low) && ha == len(high) && Max(la, ha) != 0.0
      invariant sf == Ratio(la, ha)
      invariant Balance(Halves(low, high), mid, len, rounds) == Balance(h, mid, len, fuel)
      decreases rounds
    {
      if rounds == 0 {
        return None;
      }
      BalanceStep(Halves(low, high), mid, len, rounds);
      if ha < la {
        low := ShrinkInterior(low, mid, sf);
      } else {
        high := ShrinkInterior(high, mid, sf);
      }
      rounds := rounds - 1;
      la := MeasureHalf(m, low, grid, hypot, len);
      ha := MeasureHalf(m, high, grid, hypot, len);
      if Max(la, ha) == 0.0 {
        return None;
      }
      sf := Ratio(la, ha);
    }
    r := Some(Halves(low, high));
  }

  /** The positions handed to each half and the halves they are evaluated on, or None. */
  datatype Routing = Routing(halves: Halves, lowAt: seq<real>, highAt: seq<real>)

  /**
   * The routing of `get_bezier_points_at` under the length function `len`:
   * None when both halves have zero length (sf is NaN) or the balancing
   * loop does not settle. Every position is handed to exactly one half; a
   * diverging map keeps the halves of the split, and a cyclic map keeps
   * their sizes and their ends, the fixed points.
   */
  function Route(cmtype: CmType, ps: seq<Point>, view: FixedView, at: seq<real>, len: seq<Point> -> real, fuel: nat)
    : (r: Option<Routing>)
    requires PivotOk(cmtype, view, |ps|)
    ensures r.Some? ==> |r.value.lowAt| + |r.value.highAt| == |at|
    ensures r.Some? && cmtype == Diverging ==> r.value.halves == Split(ps, cmtype, view)
  {
    RoutingPartition(at);
    var h := Split(ps, cmtype, view);
    var la, ha := len(h.low), len(h.high);
    var lows, highs := LowPositions(at), HighPositions(at);
    if Max(la, ha) == 0.0 then None
    else if cmtype == Diverging then
      Some(Routing(h, seq(|lows|, k requires 0 <= k < |lows| => RemapLow(lows[k], la, ha)),
                      seq(|highs|, k requires 0 <= k < |highs| => RemapHigh(highs[k], la, ha))))
    else
      match Balance(h, Midpoint(ps[view.list[0]], ps[view.list[1]]), len, fuel)
      case None => None
      case Some(b) =>
        Some(Routing(b, seq(|lows|, k requires 0 <= k < |lows| => lows[k] * 2.0),
                        seq(|highs|, k requires 0 <= k < |highs| => highs[k] * 2.0 - 1.0)))
  }

  /** Whatever the map type, the routed halves have the sizes and the ends (the fixed points) of the split. */
  lemma RouteKeepsEnds(cmtype: CmType, ps: seq<Point>, view: FixedView, at: seq<real>, len: seq<Point> -> real, fuel: nat)
    requires PivotOk(cmtype, view, |ps|)
    ensures var r := Route(cmtype, ps, view, at, len, fuel);
      r.Some? ==>
        var s, b := Split(ps, cmtype, view), r.value.halves;
        && |b.low| == |s.low| && |b.high| == |s.high|
        && b.low[0] == s.low[0] && b.low[|b.low| - 1] == s.low[|s.low| - 1]
        && b.high[0] == s.high[0] && b.high[|b.high| - 1] == s.high[|s.high| - 1]
  {
    if cmtype == Cyclic {
      var h := Split(ps, cmtype, view);
      BalanceKeepsEnds(h, Midpoint(ps[view.list[0]], ps[view.list[1]]), len, fuel);
    }
  }

  /** Positions in increasing order, as every grid of the editor is. */
  predicate Sorted(at: seq<real>) {
    forall i, j :: 0 <= i < j < |at| ==> at[i] <= at[j]
  }

  /** For sorted positions the masks cut the sequence in two: the low positions come first, then the high ones. */
  lemma {:induction false} SortedRouting(at: seq<real>)
    requires Sorted(at)
    ensures LowPositions(at) + HighPositions(at) == at
  {
    if at != [] {
      if at[0] >= 0.5 {
        SortedAbove(at);
        AllHigh(at);
      } else {
        var rest := at[1..];
        SortedTail(at);
        SortedRouting(rest);
        assert LowPositions(at) == [at[0]] + LowPositions(rest);
        assert HighPositions(at) == HighPositions(rest);
        assert at == [at[0]] + rest;
      }
    }
  }

  lemma SortedTail(at: seq<real>)
    requires Sorted(at) && at != []
    ensures Sorted(at[1..])
  {
    var rest := at[1..];
    forall i, j | 0 <= i < j < |rest| ensures rest[i] <= rest[j] {
      assert rest[i] == at[i + 1] && rest[j] == at[j + 1];
    }
  }

  lemma SortedAbove(at: seq<real>)
    requires Sorted(at) && at != [] && at[0] >= 0.5
    ensures forall k :: 0 <= k < |at| ==> at[k] >= 0.5
  {
    forall k | 0 < k < |at| ensures at[k] >= 0.5 {
      assert at[0] <= at[k];
    }
  }

  /** Positions all at least 0.5 go to the high half, and none to the low half. */
  lemma {:induction false} AllHigh(at: seq<real>)
    requires forall k :: 0 <= k < |at| ==> at[k] >= 0.5
    ensures LowPositions(at) == [] && HighPositions(at) == at
  {
    if at != [] {
      AllHigh(at[1..]);
      assert at == [at[0]] + at[1..];
    }
  }

  /** Where `Route` sends a low position: the diverging remap, or `2 * at` for a cyclic map. */
  function LowTarget(cmtype: CmType, l: real, la: real, ha: real): real
    requires Max(la, ha) != 0.0
  {
    if cmtype == Diverging then RemapLow(l, la, ha) else l * 2.0
  }

  /** Where `Route` sends a high position: the diverging remap, or `2 * at - 1` for a cyclic map. */
  function HighTarget(cmtype: CmType, h: real, la: real, ha: real): real
    requires Max(la, ha) != 0.0
  {
    if cmtype == Diverging then RemapHigh(h, la, ha) else h * 2.0 - 1.0
  }

  /** Each routed position is the remap of the masked position at the same place. */
  lemma RouteRemaps(cmtype: CmType, ps: seq<Point>, view: FixedView, at: seq<real>, len: seq<Point> -> real, fuel: nat)
    requires PivotOk(cmtype, view, |ps|)
    ensures var r := Route(cmtype, ps, view, at, len, fuel);
      r.Some? ==>
        var lows, highs, h := LowPositions(at), HighPositions(at), Split(ps, cmtype, view);
        var la, ha := len(h.low), len(h.high);
        && |r.value.lowAt| == |lows| && |r.value.highAt| == |highs|
        && (forall k :: 0 <= k < |lows| ==>
              r.value.lowAt[k] == LowTarget(cmtype, lows[k], la, ha))
        && (forall k :: 0 <= k < |highs| ==>
              r.value.highAt[k] == HighTarget(cmtype, highs[k], la, ha))
  {
  }

  /**
   * For sorted positions the routing keeps their order: the first
   * `|lowAt|` positions are the low ones, each remapped for the low half,
   * and the rest are the high ones, each remapped for the high half, so the
   * concatenated samples follow the positions one by one.
   */
  lemma RouteOrder(cmtype: CmType, ps: seq<Point>, view: FixedView, at: seq<real>, len: seq<Point> -> real, fuel: nat)
    requires PivotOk(cmtype, view, |ps|) && Sorted(at)
    ensures var r := Route(cmtype, ps, view, at, len, fuel);
      r.Some? ==>
        var n, h := |r.value.lowAt|, Split(ps, cmtype, view);
        var la, ha := len(h.low), len(h.high);
        && n <= |at| && at[..n] == LowPositions(at) && at[n..] == HighPositions(at)
        && |r.value.highAt| == |at| - n
        && (forall k :: 0 <= k < n ==>
              r.value.lowAt[k] == LowTarget(cmtype, at[k], la, ha))
        && (forall k :: n <= k < |at| ==>
              r.value.highAt[k - n] == HighTarget(cmtype, at[k], la, ha))
  {
    var r := Route(cmtype, ps, view, at, len, fuel);
    if r.Some? {
      RouteRemaps(cmtype, ps, view, at, len, fuel);
      var h := Split(ps, cmtype, view);
      SortedRouting(at);
      RemapInOrder(cmtype, at, len(h.low), len(h.high), r.value.lowAt, r.value.highAt);
    }
  }

  /** The order argument of `RouteOrder`, on the remapped positions alone: the masks keep the positions in order. */
  lemma RemapInOrder(cmtype: CmType, at: seq<real>, la: real, ha: real, lowAt: seq<real>, highAt: seq<real>)
    requires LowPositions(at) + HighPositions(at) == at && Max(la, ha) != 0.0
    requires |lowAt| == |LowPositions(at)| && |highAt| == |HighPositions(at)|
    requires forall k :: 0 <= k < |lowAt| ==>
      lowAt[k] == LowTarget(cmtype, LowPositions(at)[k], la, ha)
    requires forall k :: 0 <= k < |highAt| ==>
      highAt[k] == HighTarget(cmtype, HighPositions(at)[k], la, ha)
    ensures var n := |lowAt|;
      && n <= |at| && at[..n] == LowPositions(at) && at[n..] == HighPositions(at)
      && |highAt| == |at| - n
      && (forall k :: 0 <= k < n ==> lowAt[k] == LowTarget(cmtype, at[k], la, ha))
      && (forall k :: n <= k < |at| ==>
            highAt[k - n] == HighTarget(cmtype, at[k], la, ha))
  {
    var lows, highs := LowPositions(at), HighPositions(at);
    var n := |lows|;
    ConcatAt(lows, highs, at);
    forall k | n <= k < |at|
      ensures highAt[k - n] == HighTarget(cmtype, at[k], la, ha)
    {
      assert highs[k - n] == at[k];
    }
  }

  /** The entries of a concatenation: those of the first part, then those of the second shifted by its length. */
  lemma ConcatAt<T>(a: seq<T>, b: seq<T>, s: seq<T>)
    requires a + b == s
    ensures s[..|a|] == a && s[|a|..] == b
    ensures forall k :: 0 <= k < |a| ==> a[k] == s[k]
    ensures forall k :: |a| <= k < |s| ==> b[k - |a|] == s[k]
  {
    assert s[..|a|] == a;
  }

  /** `get_bezier_points_at`: the low samples followed by the high samples, one point per position. */
  function TwoSegmentPoints(m: SplineMethod, cmtype: CmType, ps: seq<Point>, view: FixedView, at: seq<real>, grid: nat,
                            hypot: (real, real) -> real, fuel: nat): (r: Option<seq<Point>>)
    requires PivotOk(cmtype, view, |ps|)
    ensures r.Some? ==> |r.value| == |at|
  {
    match Route(cmtype, ps, view, at, Measure(m, grid, hypot), fuel)
    case None => None
    case Some(rt) =>
      var lowPts := BezierPointsSpec(m, rt.halves.low, rt.lowAt, grid, hypot);
      var highPts := BezierPointsSpec(m, rt.halves.high, rt.highAt, grid, hypot);
      if lowPts.Some? && highPts.Some? then Some(lowPts.value + highPts.value) else None
  }

  /** The slicing, routing and matching part of `get_bezier_points_at`. */
  method RoutePositions(m: SplineMethod, cmtype: CmType, ps: seq<Point>, view: FixedView, at: seq<real>, grid: nat,
                        hypot: (real, real) -> real, ghost len: seq<Point> -> real, fuel: nat)
    returns (rt: Option<Routing>)
    requires PivotOk(cmtype, view, |ps|)
    requires forall p {:trigger HalfLength(m, grid, hypot, p)} :: len(p) == HalfLength(m, grid, hypot, p)
    ensures rt == Route(cmtype, ps, view, at, len, fuel)
  {
    var h := Split(ps, cmtype, view);
    var la := MeasureHalf(m, h.low, grid, hypot, len);
    var ha := MeasureHalf(m, h.high, grid, hypot, len);
    if Max(la, ha) == 0.0 {
      return None;
    }
    var lows, highs := LowPositions(at), HighPositions(at);
    if cmtype == Diverging {
      rt := Some(Routing(h, seq(|lows|, k requires 0 <= k < |lows| => RemapLow(lows[k], la, ha)),
                            seq(|highs|, k requires 0 <= k < |highs| => RemapHigh(highs[k], la, ha))));
    } else {
      var b := BalanceLoop(m, h, Midpoint(ps[view.list[0]], ps[view.list[1]]), grid, hypot, len, fuel);
      if b.None? {
        return None;
      }
      rt := Some(Routing(b.value, seq(|lows|, k requires 0 <= k < |lows| => lows[k] * 2.0),
                                  seq(|highs|, k requires 0 <= k < |highs| => highs[k] * 2.0 - 1.0)));
    }
  }

  method GetBezierPointsAt(m: SplineMethod, cmtype: CmType, ps: seq<Point>, view: FixedView, at: seq<real>, grid: nat,
                           hypot: (real, real) -> real, fuel: nat)
    returns (out: Option<seq<Point>>)
    requires PivotOk(cmtype, view, |ps|)
    ensures out == TwoSegmentPoints(m, cmtype, ps, view, at, grid, hypot, fuel)
  {
    var rt := RoutePositions(m, cmtype, ps, view, at, grid, hypot, Measure(m, grid, hypot), fuel);
    if rt.None? {
      return None;
    }
    var lowPts := ComputeBezierPoints(m, rt.value.halves.low, rt.value.lowAt, grid, hypot);
    var highPts := ComputeBezierPoints(m, rt.value.halves.high, rt.value.highAt, grid, hypot);
    if lowPts.Some? && highPts.Some? {
      out := Some(lowPts.value + highPts.value);
    } else {
      out := None;
    }
  }
}
