/**
 * The colormap-level rules of the editor: the sample grid, the lightness
 * ramp (folded for two-segment maps), the out-of-gamut mask, the lightness
 * range update, and the light/dark background hysteresis of the gamut view.
 */
module ColorMap {
  import opened Wrappers
  import opened Geometry
  import opened ControlPoints

  /** The number of samples `get_Jpapbp` takes. */
  function GridSize(cmtype: CmType): nat {
    match cmtype
    case Sequential => 256
    case Diverging => 511
    case Cyclic => 510
  }

  /**
   * The positions `get_Jpapbp` samples: an even grid on [0, 1] with the end
   * point 1 left out only for cyclic maps, whose two ends are the same colour.
   */
  function Positions(cmtype: CmType): (at: seq<real>)
    ensures |at| == GridSize(cmtype) && at[0] == 0.0
    ensures Increasing(at)
    ensures forall k :: 0 <= k < |at| ==> 0.0 <= at[k] <= 1.0
    ensures cmtype != Cyclic ==> at[|at| - 1] == 1.0
    ensures cmtype == Cyclic ==> forall k :: 0 <= k < |at| ==> at[k] < 1.0
  {
    LinspaceIncreasing(0.0, 1.0, GridSize(cmtype), cmtype != Cyclic);
    Linspace(0.0, 1.0, GridSize(cmtype), cmtype != Cyclic)
  }

  /** `np.abs(1 - 2 * at)`: distance from the middle, scaled to [0, 1]. */
  function Fold(a: real): real {
    if 1.0 - 2.0 * a >= 0.0 then 1.0 - 2.0 * a else 2.0 * a - 1.0
  }

  /**
   * The lightness `(max_Jp - min_Jp) * at + min_Jp` of a sample, the
   * position folded first for diverging and cyclic maps: sequential maps
   * run from min_Jp to max_Jp, two-segment maps from max_Jp down to min_Jp
   * in the middle and back.
   */
  function Lightness(cmtype: CmType, minJp: real, maxJp: real, a: real): (jp: real)
    ensures cmtype == Sequential && a == 0.0 ==> jp == minJp
    ensures cmtype == Sequential && a == 1.0 ==> jp == maxJp
    ensures cmtype != Sequential && a == 0.5 ==> jp == minJp
    ensures cmtype != Sequential && (a == 0.0 || a == 1.0) ==> jp == maxJp
    ensures 0.0 <= a <= 1.0 ==> Min(minJp, maxJp) <= jp <= Max(minJp, maxJp)
  {
    var t := if cmtype == Sequential then a else Fold(a);
    var v := (maxJp - minJp) * t + minJp;
    if 0.0 <= t <= 1.0 then RampBetween(minJp, maxJp, t); v else v
  }

  lemma RampBetween(minJp: real, maxJp: real, t: real)
    requires 0.0 <= t <= 1.0
    ensures Min(minJp, maxJp) <= (maxJp - minJp) * t + minJp <= Max(minJp, maxJp)
  {
    ConvexCombination(minJp, maxJp, t, Min(minJp, maxJp), Max(minJp, maxJp));
  }

  function Min(a: real, b: real): real { if a <= b then a else b }
  function Max(a: real, b: real): real { if a <= b then b else a }

  /** A two-segment map is as light at a as at 1 - a. */
  lemma LightnessSymmetric(cmtype: CmType, minJp: real, maxJp: real, a: real)
    requires cmtype != Sequential
    ensures Lightness(cmtype, minJp, maxJp, a) == Lightness(cmtype, minJp, maxJp, 1.0 - a)
  {
    assert Fold(1.0 - a) == Fold(a);
  }

  /** A colour in the uniform space: lightness J' and the two chroma coordinates a', b'. */
  datatype Jab = Jab(jp: real, ap: real, bp: real)

  /**
   * `get_Jpapbp`: the lightness of each grid sample next to the (a', b')
   * point the curve model gives for it.
   */
  function GetJpapbp(cmtype: CmType, minJp: real, maxJp: real, curve: seq<Point>): (r: seq<Jab>)
    requires |curve| == GridSize(cmtype)
    ensures |r| == |curve|
    ensures forall k :: 0 <= k < |r| ==> r[k].ap == curve[k].x && r[k].bp == curve[k].y
    ensures forall k :: 0 <= k < |r| ==> r[k].jp == Lightness(cmtype, minJp, maxJp, Positions(cmtype)[k])
  {
    var at := Positions(cmtype);
    seq(|curve|, k requires 0 <= k < |curve| => Jab(Lightness(cmtype, minJp, maxJp, at[k]), curve[k].x, curve[k].y))
  }

  /**
   * The lightness profile over the grid: a sequential map starts at min_Jp
   * and ends at max_Jp; a diverging map starts and ends at max_Jp and
   * reaches min_Jp at its middle sample 255; a cyclic map starts at max_Jp,
   * reaches min_Jp at sample 255 and is symmetric about it.
   */
  lemma JpapbpProfile(cmtype: CmType, minJp: real, maxJp: real, curve: seq<Point>)
    requires |curve| == GridSize(cmtype)
    ensures var r := GetJpapbp(cmtype, minJp, maxJp, curve);
      && (cmtype == Sequential ==> r[0].jp == minJp && r[255].jp == maxJp)
      && (cmtype == Diverging ==> r[0].jp == maxJp && r[510].jp == maxJp && r[255].jp == minJp)
      && (cmtype == Cyclic ==> r[0].jp == maxJp && r[255].jp == minJp)
      && (cmtype != Sequential ==> forall k :: 0 < k < |r| ==> r[k].jp == r[510 - k].jp)
  {
    var r := GetJpapbp(cmtype, minJp, maxJp, curve);
    if cmtype != Sequential {
      TwoSegmentGrid(cmtype, 255);
      forall k | 0 < k < |r| ensures r[k].jp == r[510 - k].jp {
        TwoSegmentGrid(cmtype, k);
        TwoSegmentGrid(cmtype, 510 - k);
        LightnessSymmetric(cmtype, minJp, maxJp, Positions(cmtype)[k]);
      }
    }
  }

  /** Both two-segment grids step by 1/510: 511 points with the end point, 510 without. */
  lemma TwoSegmentGrid(cmtype: CmType, k: nat)
    requires cmtype != Sequential && k < GridSize(cmtype)
    ensures Positions(cmtype)[k] == (k as real) / 510.0
  {
  }

  /**
   * `get_Jpapbp_at_point`: `interp1d` over the grid [0, 1] of the table, which
   * fails (None) for a point outside [0, 1] or a table of fewer than two rows;
   * the ends of [0, 1] give the first and the last row.
   */
  function JpapbpAtPoint(table: seq<Jab>, point: real): (r: Option<Jab>)
    ensures r.Some? <==> |table| >= 2 && 0.0 <= point <= 1.0
    ensures r.Some? && point == 0.0 ==> r.value == table[0]
    ensures r.Some? && point == 1.0 ==> r.value == table[|table| - 1]
  {
    if |table| < 2 || point < 0.0 || point > 1.0 then None
    else
      var grid := Linspace(0.0, 1.0, |table|, true);
      var jps := seq(|table|, k requires 0 <= k < |table| => table[k].jp);
      var aps := seq(|table|, k requires 0 <= k < |table| => table[k].ap);
      var bps := seq(|table|, k requires 0 <= k < |table| => table[k].bp);
      LinspaceIncreasing(0.0, 1.0, |table|, true);
      InterpAtKnot(0, grid, jps);
      InterpAtKnot(0, grid, aps);
      InterpAtKnot(0, grid, bps);
      Some(Jab(Interp(point, grid, jps), Interp(point, grid, aps), Interp(point, grid, bps)))
  }

  /** At the grid point of a row the query gives that row back. */
  lemma JpapbpAtKnot(table: seq<Jab>, k: nat)
    requires |table| >= 2 && k < |table|
    ensures JpapbpAtPoint(table, Linspace(0.0, 1.0, |table|, true)[k]) == Some(table[k])
  {
    var grid := Linspace(0.0, 1.0, |table|, true);
    LinspaceIncreasing(0.0, 1.0, |table|, true);
    InterpAtKnot(k, grid, seq(|table|, i requires 0 <= i < |table| => table[i].jp));
    InterpAtKnot(k, grid, seq(|table|, i requires 0 <= i < |table| => table[i].ap));
    InterpAtKnot(k, grid, seq(|table|, i requires 0 <= i < |table| => table[i].bp));
  }

  /** An sRGB colour with channels in [0, 1] when it is displayable. */
  datatype Color = Color(r: real, g: real, b: real)

  /** A row of the sRGB table: a colour, or the NaN row that marks an undisplayable sample. */
  datatype Pixel = Shown(color: Color) | NotANumber

  predicate OutOfGamut(c: Color) {
    c.r > 1.0 || c.g > 1.0 || c.b > 1.0 || c.r < 0.0 || c.g < 0.0 || c.b < 0.0
  }

  /** `sRGB[oog, :] = np.nan`: every flagged row becomes the NaN row. */
  method MaskRows(srgb: array<Pixel>, oog: array<bool>)
    requires srgb.Length == oog.Length
    modifies srgb
    ensures forall i :: 0 <= i < srgb.Length ==> srgb[i] == if oog[i] then NotANumber else old(srgb[i])
  {
    var i := 0;
    while i < srgb.Length
      invariant 0 <= i <= srgb.Length
      invariant forall j :: 0 <= j < i ==> srgb[j] == if oog[j] then NotANumber else old(srgb[j])
      invariant forall j :: i <= j < srgb.Length ==> srgb[j] == old(srgb[j])
    {
      if oog[i] {
        srgb[i] := NotANumber;
      }
      i := i + 1;
    }
  }

  /**
   * `get_sRGB`: convert every sample with the colour-space converter (a
   * parameter of the model), flag the rows with a channel outside [0, 1],
   * and replace exactly those rows with NaN.
   */
  method GetSRGB(jab: seq<Jab>, convert: Jab -> Color) returns (srgb: array<Pixel>, oog: array<bool>)
    ensures fresh(srgb) && fresh(oog)
    ensures srgb.Length == |jab| && oog.Length == |jab|
    ensures forall i :: 0 <= i < |jab| ==> (oog[i] <==> OutOfGamut(convert(jab[i])))
    ensures forall i :: 0 <= i < |jab| ==> srgb[i] == if oog[i] then NotANumber else Shown(convert(jab[i]))
    ensures forall i :: 0 <= i < |jab| && srgb[i].Shown? ==> !OutOfGamut(srgb[i].color)
  {
    srgb := new Pixel[|jab|](i requires 0 <= i < |jab| => Shown(convert(jab[i])));
    oog := new bool[|jab|](i requires 0 <= i < |jab| => OutOfGamut(convert(jab[i])));
    MaskRows(srgb, oog);
  }

  /** `BezierCMapModel`: the lightness range of the map and its change notification. */
  class CMapModel {
    var minJp: real
    var maxJp: real
    const cmtype: CmType
    /** How often the model has fired its trigger. */
    ghost var fired: nat

    constructor(minJp0: real, maxJp0: real, cmtype0: CmType)
      ensures minJp == minJp0 && maxJp == maxJp0 && cmtype == cmtype0 && fired == 0
    {
      minJp, maxJp, cmtype := minJp0, maxJp0, cmtype0;
      fired := 0;
    }

    /** `set_Jp_minmax`: store both bounds, unchecked, and fire. */
    method SetJpMinmax(lo: real, hi: real)
      modifies this
      ensures minJp == lo && maxJp == hi && fired == old(fired) + 1
    {
      minJp, maxJp := lo, hi;
      fired := fired + 1;
    }
  }

  predicate InPercent(v: real) {
    0.0 <= v <= 100.0
  }

  /** The lightness range of `viscm_editor`, mirrored in its colormap model. */
  class Editor {
    var minJp: real
    var maxJp: real
    const cmap: CMapModel

    /** The editor's bounds are the ones its colormap model uses. */
    ghost predicate Valid()
      reads this, cmap
    {
      cmap.minJp == minJp && cmap.maxJp == maxJp
    }

    constructor(minJp0: real, maxJp0: real, cmtype: CmType)
      ensures Valid() && minJp == minJp0 && maxJp == maxJp0 && fresh(cmap)
    {
      minJp, maxJp := minJp0, maxJp0;
      cmap := new CMapModel(minJp0, maxJp0, cmtype);
    }

    /**
     * `_jp_update`: take the new bounds, and pass them to the colormap
     * model, only when both lie in [0, 100]; otherwise change nothing.
     */
    method JpUpdate(lo: real, hi: real)
      requires Valid()
      modifies this, cmap
      ensures Valid()
      ensures InPercent(lo) && InPercent(hi) ==> minJp == lo && maxJp == hi && cmap.fired == old(cmap.fired) + 1
      ensures !(InPercent(lo) && InPercent(hi)) ==>
        minJp == old(minJp) && maxJp == old(maxJp) && cmap.fired == old(cmap.fired)
    {
      if InPercent(lo) && InPercent(hi) {
        minJp, maxJp := lo, hi;
        cmap.SetJpMinmax(minJp, maxJp);
      }
    }
  }

  /** The background of the gamut view. */
  datatype Background = Light | Dark

  function Opposite(bg: Background): Background {
    match bg
    case Light => Dark
    case Dark => Light
  }

  /** The lightness range a background suits: [0, 60] for light, [40, 100] for dark. */
  predicate Suits(bg: Background, jp: real) {
    match bg
    case Light => 0.0 <= jp <= 60.0
    case Dark => 40.0 <= jp <= 100.0
  }

  /**
   * The background after a refresh at lightness jp: it flips exactly when
   * jp is outside the current background's range; afterwards any jp in
   * [0, 100] is inside the range, and a jp in [40, 60] never flips it.
   */
  function NextBackground(bg: Background, jp: real): (next: Background)
    ensures next != bg <==> !Suits(bg, jp)
    ensures 0.0 <= jp <= 100.0 ==> Suits(next, jp)
    ensures 40.0 <= jp <= 60.0 ==> next == bg
  {
    if Suits(bg, jp) then bg else Opposite(bg)
  }

  /** A second refresh at the same lightness changes nothing. */
  lemma RefreshSettles(bg: Background, jp: real)
    requires 0.0 <= jp <= 100.0
    ensures NextBackground(NextBackground(bg, jp), jp) == NextBackground(bg, jp)
  {
  }

  /** `GamutViewer2D`: the background it shows. */
  class GamutViewer {
    var bg: Background

    constructor()
      ensures bg == Light
    {
      bg := Light;
    }

    /** `_refresh` at the highlighted lightness jp. */
    method Refresh(jp: real)
      modifies this
      ensures bg == NextBackground(old(bg), jp)
    {
      if !Suits(bg, jp) {
        bg := Opposite(bg);
      }
    }
  }
}
