# viscm colormap editor core, in Dafny

This project models the computational core of viscm's colormap editor.

- **Control points.** `ControlPointModel` holds the control points and the fixed indices. It inserts, removes and moves points, and keeps the fixed indices pointing at the same points.
- **Click placement.** The editor decides where a clicked point goes. The two sentinel clicks either overwrite a fixed point or go to one end of the polygon. Any other click goes next to the earliest nearest sample of the chords between neighbouring control points.
- **Spline evaluators.** `Bezier` is the Bernstein-polynomial form. `CatmulClark` refines the polygon by corner cutting and then interpolates.
- **Arc-length reparameterisation.** `compute_arc_length` and `compute_bezier_points` take samples at equal arc length.
- **Two-segment curves.** A diverging or cyclic map is made of two segments. The polygon is split at the fixed points. Positions below 0.5 go to the low half and the rest to the high half. The two halves are then matched in arc length: a diverging map remaps its positions, and a cyclic map shrinks the longer half until both lengths are close.
- **Colour table.** This covers the lightness ramp (folded for two-segment maps), the sampling grid per map type, and the out-of-gamut mask of `get_sRGB`.
- **Editor behaviour.** The editor accepts a lightness range only when both ends lie in [0, 100]. The gamut viewer switches its background with hysteresis.
- **Saved files.** This covers the hex colour blob and the `.jscm` document written by `save_colormap` and read by `Colormap.load`.

The modules, in dependency order:

| module | file |
|---|---|
| `Wrappers` | wrappers.dfy |
| `Geometry` | geometry.dfy |
| `ControlPoints` | control_points.dfy |
| `Insertion` | insertion.dfy |
| `Splines` | splines.dfy |
| `ArcLength` | arc_length.dfy |
| `TwoSegment` | two_segment.dfy |
| `ColorMap` | colormap.dfy |
| `HexCodec` | hex_codec.dfy |
| `Jscm` | jscm.dfy |

### How the source is mapped

- **Numbers.** Floats are exact reals.
- **The NumPy grid and lookup.** `numpy.linspace` and `numpy.interp` are spelled out in `Geometry`.
- **The object model.** `ControlPointModel` is a class. Its point lists are `seq<real>` fields that the methods reassign. Its `_fixed` list is an `array?<int>` that is updated in place (`null` is Python's `None`).
- **Triggers.** A `Trigger` is a ghost counter `fired`. The contract of each state-changing method says whether it fires.
- **Loops.** Loops in the source are `while` loops here, proved against a specification function:
  - the Bernstein sum in `Bezier`;
  - the refinement loop of `CatmulClark`;
  - the cumulative sum of `compute_arc_length`;
  - the nearest-sample scan of `add_point`;
  - the cyclic balancing loop;
  - the mask of `get_sRGB`;
  - the hex writer of `save_colormap`.

The reading of two-segment maps follows the code. When one half is longer, the code scales the **longer** half toward the midpoint of the fixed points. At viscm/bezierbuilder.py:350-355, when `high_al < low_al` it is `low_xp`, the longer half, that is scaled. For a diverging map, it remaps the positions routed to the longer half into a window of width `sf`. The model follows the code.

## Model

| member | source | states |
|---|---|---|
| `ControlPoints.ControlPointModel.constructor` | viscm/bezierbuilder.py:46-54 | copies the points; a single fixed index is stored as the pair `[i, i]`; the fixed-point lock starts on and nothing has fired |
| `ControlPoints.ControlPointModel.GetControlPoints` | viscm/bezierbuilder.py:56-58 | returns the point lists; a diverging map reports its stored pivot `_fixed[0]`, any other map its stored fixed list (or none); a diverging pivot is a valid index and a cyclic pair is ordered and valid |
| `ControlPoints.ControlPointModel.AddPoint` | viscm/bezierbuilder.py:60-67 | the points are those with the new one inserted at `i`; each fixed index at or after `i` moves up by one and still names the point it named before; the lock flag is kept; fires once; the invariant holds |
| `ControlPoints.ControlPointModel.RemovePoint` | viscm/bezierbuilder.py:69-78 | removing a fixed point changes nothing and fires nothing; otherwise the point is deleted, fixed indices after it move down by one and still name the points they named before, and it fires once |
| `ControlPoints.ControlPointModel.MovePoint` | viscm/bezierbuilder.py:80-85 | a locked fixed point does not move and nothing fires; any other point is overwritten in place and it fires once |
| `ControlPoints.ControlPointModel.SetControlPoints` | viscm/bezierbuilder.py:87-91 | replaces the points and the fixed indices (a single index stored as a pair) and fires once |
| `ControlPoints.ShiftUp` | viscm/bezierbuilder.py:63-66 | in place, every fixed index at or after `i` grows by one and the others are kept |
| `ControlPoints.ShiftDown` | viscm/bezierbuilder.py:74-77 | in place, every fixed index after `i` shrinks by one and the others are kept |
| `ControlPoints.ShiftedUpAt` | viscm/bezierbuilder.py:64-66 | the shifted list has the same length, with each entry bumped exactly when it is at or after `i` |
| `ControlPoints.ShiftedDownAt` | viscm/bezierbuilder.py:75-77 | the shifted list has the same length, with each entry dropped exactly when it is after `i` |
| `ControlPoints.RemovedInserted` | viscm/bezierbuilder.py:61-62 | inserting a point puts it at `i`, and deleting index `i` afterwards gives back the original list |
| `ControlPoints.InsertedTracks` | viscm/bezierbuilder.py:60-67 | after an insertion at `i`, each shifted fixed index names the point the old index named |
| `ControlPoints.RemovedTracks` | viscm/bezierbuilder.py:69-78 | after deleting a point that is not fixed, each shifted fixed index names the point the old index named |
| `ControlPoints.AddThenRemoveFixed` | viscm/bezierbuilder.py:60-78 | after an insertion at `i`, no fixed index equals `i`, and removing `i` restores the fixed indices |
| `ControlPoints.ShiftsKeepFixedOk` | viscm/bezierbuilder.py:60-78 | inserting keeps every fixed index valid for the longer polygon; removing a non-fixed point keeps them valid for the shorter one, as pivots and as an ordered pair |
| `ControlPoints.AddThenRemove` | viscm/bezierbuilder.py:60-78 | adding a point and then removing it restores the points and the fixed indices, having fired twice |
| `Insertion.Chords` | viscm/bezierbuilder.py:170-179 | one chord per pair of neighbours, plus the closing chord from the last point to the first on a cyclic map |
| `Insertion.EarliestNearestUnique` | viscm/bezierbuilder.py:183-198 | the earliest nearest chord sample, the one the strict `<` scan keeps, is unique |
| `Insertion.NearestInsertion` | viscm/bezierbuilder.py:183-198 | no result exactly when there are no chords; otherwise the index is the earliest nearest sample's chord, or one after it when the sample is not the chord's first, and at most the number of chords |
| `Insertion.ChoosePlacement` | viscm/bezierbuilder.py:135-201 | the low sentinel overwrites fixed slot 0 of a two-segment map and goes to the darker end of a sequential one; the high sentinel does the same with slot 1 and the lighter end; any other point goes beside its earliest nearest chord sample |
| `Insertion.AddPoint` | viscm/bezierbuilder.py:135-201 | carries out the placement chosen for the click: overwrites the fixed point (firing once), or inserts with the fixed indices shifted onto the same points (firing once), or leaves the model alone when there is no chord; the lock flag is kept |
| `Geometry.Linspace` | viscm/bezierbuilder.py:296-297 | `num` values from `start`, ending at `stop` when the endpoint is included |
| `Geometry.LinspaceIncreasing` | viscm/gui.py:733-736 | with start < stop the grid is strictly increasing and within [start, stop], and an excluded endpoint is never reached |
| `Geometry.LastAtMost` | viscm/bezierbuilder.py:242 | the last table abscissa at or below x; every later one is above x |
| `Geometry.Interp` | viscm/bezierbuilder.py:434-435 | `np.interp`: below the table the first ordinate, at or beyond its last abscissa the last ordinate, and in between a value between the ordinates of the surrounding pair |
| `Geometry.InterpBounded` | viscm/bezierbuilder.py:434-435 | an interpolated value lies between the table's lower and upper bounds |
| `Geometry.InterpAtKnot` | viscm/bezierbuilder.py:434-435 | on a strictly increasing table, interpolating at an abscissa returns its ordinate |
| `Splines.Factorial` | viscm/bezierbuilder.py:399-400 | a factorial is at least one, so `binom` never divides by zero |
| `Splines.FactorialSplit` | viscm/bezierbuilder.py:399-400 | the Pascal-triangle coefficient times k!(n-k)! is n! |
| `Splines.Binom` | viscm/bezierbuilder.py:399-400 | `binom(n, k)` computed from factorials equals the Pascal-triangle coefficient, a whole number |
| `Splines.Bernstein` | viscm/bezierbuilder.py:403-407 | the Bernstein weight is non-negative on [0, 1] |
| `Splines.BernsteinAtEnds` | viscm/bezierbuilder.py:403-407 | at 0 only the first basis polynomial is non-zero, at 1 only the last, and each is 1 there |
| `Splines.BernsteinSumAtZero` | viscm/bezierbuilder.py:418-419 | any partial Bernstein sum at t = 0 is the first control point |
| `Splines.BernsteinSumAtOne` | viscm/bezierbuilder.py:418-419 | a partial Bernstein sum that stops before the last point is the origin at t = 1 |
| `Splines.BezierAt` | viscm/bezierbuilder.py:410-420 | the Bézier curve starts at the first control point and ends at the last |
| `Splines.Bezier` | viscm/bezierbuilder.py:410-420 | one point per position, each equal to the Bernstein-weighted sum of the control points |
| `Splines.Subdivide` | viscm/bezierbuilder.py:427-432 | one corner-cutting round doubles the number of points |
| `Splines.SubdivideStep` | viscm/bezierbuilder.py:427-432 | the array-filling round produces exactly the corner-cut polygon |
| `Splines.Refine` | viscm/bezierbuilder.py:426-432 | refinement stops with at least as many points as positions, never fewer than it started with, and keeps the first and last points |
| `Splines.CatmulClark` | viscm/bezierbuilder.py:423-436 | one point per position, each the interpolation of the refined polygon at that position |
| `Splines.ResampleEndpoints` | viscm/bezierbuilder.py:433-436 | interpolating a polygon at 0 and at 1 gives its first and last points |
| `Splines.CatmulClarkEndpoints` | viscm/bezierbuilder.py:423-436 | the Catmull-Clark curve starts at the first control point and ends at the last |
| `Splines.SubdivideInBox` | viscm/bezierbuilder.py:430-431 | corner cutting keeps every point inside any box that holds the control points |
| `Splines.RefineInBox` | viscm/bezierbuilder.py:426-432 | so does the whole refinement |
| `Splines.CatmulClarkInBox` | viscm/bezierbuilder.py:423-436 | every Catmull-Clark sample lies inside any box that holds the control points |
| `Splines.EvaluateSpec` | viscm/bezierbuilder.py:247 | either spline method gives one point per position |
| `Splines.Evaluate` | viscm/bezierbuilder.py:247 | dispatches to the chosen method |
| `Splines.EvaluateEndpoints` | viscm/bezierbuilder.py:410-436 | either method maps position 0 to the first control point and 1 to the last |
| `ArcLength.CumulativeLength` | viscm/bezierbuilder.py:253-260 | one entry per sample, starting at 0 |
| `ArcLength.CumulativeLengthStep` | viscm/bezierbuilder.py:258-260 | each entry is the previous one plus the length of the step between the samples |
| `ArcLength.CumulativeLengthMonotone` | viscm/bezierbuilder.py:258-260 | with non-negative step lengths the table never decreases |
| `ArcLength.ArcLengthTable` | viscm/bezierbuilder.py:250-260 | `grid` entries (the single entry `[0]` for an empty grid), starting at 0 |
| `ArcLength.ComputeArcLength` | viscm/bezierbuilder.py:250-260 | the cumulative-sum loop builds exactly the arc-length table |
| `ArcLength.MaxOf` | viscm/bezierbuilder.py:323-324 | an upper bound of the table that the table attains |
| `ArcLength.ArcLengthMax` | viscm/bezierbuilder.py:323-324 | the maximum of the table is its last entry, the total length, and is non-negative |
| `ArcLength.ParameterAt` | viscm/bezierbuilder.py:237-242 | the curve parameter looked up for any arc-length fraction lies in [0, 1]; a fraction below 0 gives 0 and one at or above 1 gives 1 |
| `ArcLength.ComputeBezierPoints` | viscm/bezierbuilder.py:230-247 | computes exactly the equal-arc-length samples, or no result for an empty polygon, empty grid or zero length |
| `ArcLength.BezierPointsSpec` | viscm/bezierbuilder.py:230-247 | no result for an empty polygon or grid; otherwise one sample per position, positions at or beyond 1 giving the last control point and those below 0 the first |
| `ArcLength.ResampledEnds` | viscm/bezierbuilder.py:237-247 | evaluating the curve at the looked-up parameters gives one point per position, the last control point for positions at or beyond 1 and the first for those below 0 |
| `TwoSegment.Split` | viscm/bezierbuilder.py:310-321 | both halves are non-empty; diverging halves meet at the pivot and run from the first point to the last; cyclic halves meet at both fixed points |
| `TwoSegment.SplitShares` | viscm/bezierbuilder.py:310-321 | diverging halves join back to the polygon; cyclic halves hold every point once besides the fixed points |
| `TwoSegment.CyclicSplitShares` | viscm/bezierbuilder.py:316-321 | the cyclic halves, each without its first point, are together a permutation of the control polygon |
| `TwoSegment.LowPositions` | viscm/bezierbuilder.py:304 | every position routed to the low half is below 0.5 |
| `TwoSegment.HighPositions` | viscm/bezierbuilder.py:305 | every position routed to the high half is at least 0.5 |
| `TwoSegment.RoutingPartition` | viscm/bezierbuilder.py:304-305 | the two masks partition the positions: together they hold each position exactly once |
| `TwoSegment.RatioBounds` | viscm/bezierbuilder.py:326 | `sf` lies in [0, 1], and the longer length times `sf` is the shorter |
| `TwoSegment.RemapLow` | viscm/bezierbuilder.py:328-337 | a low position in [0, 0.5) lies in [0, 1) when the low half is the shorter; when it is the longer, it lies in the window [1 - `sf`, 1] at the pivot end; 0.5 maps to 1 |
| `TwoSegment.RemapHigh` | viscm/bezierbuilder.py:328-337 | a high position in [0.5, 1] lies in [0, 1] when the high half is the shorter; when it is the longer, it lies in the window [0, `sf`] at the pivot end; 0.5 maps to 0 |
| `TwoSegment.ShrinkInterior` | viscm/bezierbuilder.py:350-355 | the end points stay, and every interior point's offset from the midpoint is scaled by `sf` |
| `TwoSegment.Balance` | viscm/bezierbuilder.py:342-360 | balancing keeps both halves' sizes, and when it stops the two lengths are not both zero and are close (`np.isclose(sf, 1)`) |
| `TwoSegment.BalanceKeepsEnds` | viscm/bezierbuilder.py:350-355 | balancing keeps both halves' end points, the fixed points |
| `TwoSegment.MeasureHalf` | viscm/bezierbuilder.py:323-324 | measures a half's arc length as the maximum of its table |
| `TwoSegment.BalanceLoop` | viscm/bezierbuilder.py:342-360 | the while loop produces exactly the balanced halves |
| `TwoSegment.Route` | viscm/bezierbuilder.py:304-363 | every position is handed to exactly one half; a diverging map keeps the halves of the split |
| `TwoSegment.RouteKeepsEnds` | viscm/bezierbuilder.py:310-363 | for either map type the routed halves have the sizes and the end points, the fixed points, of the split |
| `TwoSegment.RoutePositions` | viscm/bezierbuilder.py:304-363 | computes exactly the halves and the remapped low and high positions |
| `TwoSegment.GetBezierPointsAt` | viscm/bezierbuilder.py:299-370 | the low half's samples followed by the high half's |
| `TwoSegment.SortedRouting` | viscm/bezierbuilder.py:304-305 | for sorted positions the low positions are a prefix and the high positions the rest |
| `TwoSegment.RouteOrder` | viscm/bezierbuilder.py:304-363 | for sorted positions the first `|lowAt|` positions are the low ones and the rest the high ones, each remapped in place, so the concatenated samples follow the positions one by one |
| `TwoSegment.TwoSegmentPoints` | viscm/bezierbuilder.py:299-370 | the result has one point per position |
| `ColorMap.Positions` | viscm/gui.py:733-736 | 256/511/510 increasing positions in [0, 1] from 0; non-cyclic grids end at 1, and the cyclic grid stays below 1 |
| `ColorMap.Lightness` | viscm/gui.py:737-740 | a sequential ramp goes from `min_Jp` at 0 to `max_Jp` at 1; a two-segment ramp has `max_Jp` at both ends and `min_Jp` at 0.5; the value stays between the two |
| `ColorMap.RampBetween` | viscm/gui.py:740 | the linear ramp over [0, 1] stays between `min_Jp` and `max_Jp` |
| `ColorMap.LightnessSymmetric` | viscm/gui.py:738-740 | a two-segment ramp is symmetric about 0.5 |
| `ColorMap.GetJpapbp` | viscm/gui.py:732-741 | one row per grid position, its lightness the ramp at that position and a' and b' taken from the curve |
| `ColorMap.JpapbpProfile` | viscm/gui.py:732-741 | the lightness at the grid's ends and middle, and the mirror symmetry of two-segment tables |
| `ColorMap.TwoSegmentGrid` | viscm/gui.py:733-736 | both two-segment grids have step 1/510 |
| `ColorMap.JpapbpAtPoint` | viscm/gui.py:725-730 | a result exactly for a point in [0, 1] and a table of at least two rows; 0 gives the first row and 1 the last |
| `ColorMap.JpapbpAtKnot` | viscm/gui.py:725-730 | interpolating the table at its k-th grid position returns row k |
| `ColorMap.MaskRows` | viscm/gui.py:746-747 | in place, out-of-gamut rows become NaN and the others are kept |
| `ColorMap.GetSRGB` | viscm/gui.py:743-749 | one row per table entry; a row is flagged exactly when a channel leaves [0, 1], flagged rows are NaN, and every shown row is in gamut |
| `ColorMap.CMapModel.constructor` | viscm/gui.py:708-718 | stores the lightness range and the map type |
| `ColorMap.CMapModel.SetJpMinmax` | viscm/gui.py:720-723 | sets the range and fires once |
| `ColorMap.Editor.constructor` | viscm/gui.py:530-544 | stores the range and creates its colour table model with the same range |
| `ColorMap.Editor.JpUpdate` | viscm/gui.py:700-704 | with both ends in [0, 100], sets the range in the editor and the colour table model and fires once; otherwise nothing changes |
| `ColorMap.NextBackground` | viscm/gui.py:879-884 | the background flips exactly when the lightness is outside its band; afterwards a lightness in [0, 100] suits it; in [40, 60] it never flips |
| `ColorMap.RefreshSettles` | viscm/gui.py:879-884 | a second refresh at the same lightness changes nothing |
| `ColorMap.GamutViewer.constructor` | viscm/gui.py:866-870 | the viewer starts on the light background |
| `ColorMap.GamutViewer.Refresh` | viscm/gui.py:879-884 | the new background follows the hysteresis rule |
| `HexCodec.RoundHalfEven` | viscm/gui.py:637 | Python's `round`: within 0.5 of its argument, with ties to the even integer |
| `HexCodec.Hex2` | viscm/gui.py:637 | `"%02x"` writes a byte as two digits |
| `HexCodec.ParseHex2` | viscm/gui.py:1002 | base-16 parsing of two written digits gives the byte back |
| `HexCodec.DigitRoundTrip` | viscm/gui.py:1002 | every digit value below 16 is read back from its written hexadecimal digit |
| `HexCodec.HexBlob` | viscm/gui.py:633-637 | six characters per colour |
| `HexCodec.EncodeColors` | viscm/gui.py:633-639 | the blob is "N/A" exactly when some row is NaN, and six characters per colour otherwise |
| `HexCodec.WriteColors` | viscm/gui.py:633-639 | the nested loops build exactly the blob |
| `HexCodec.Chunks` | viscm/gui.py:1000-1001 | the blob is cut into non-empty pieces of at most six characters |
| `HexCodec.ChunksAppend` | viscm/gui.py:1000-1001 | cutting a concatenation whose first part is a multiple of six cuts each part separately |
| `HexCodec.DecodeChunks` | viscm/gui.py:1000-1004 | a result exactly when every chunk decodes, with one colour per chunk, each the decoding of its chunk |
| `HexCodec.DecodeColors` | viscm/gui.py:999-1008 | "N/A" is refused; otherwise a result exactly when every six-character chunk decodes, one colour per chunk, and bad digits when some chunk does not |
| `HexCodec.DecodeRow` | viscm/gui.py:1002-1003 | decoding a written colour gives each channel rounded to a multiple of 1/255 |
| `HexCodec.DecodeBytes` | viscm/gui.py:1000-1003 | the six digits written for three bytes decode to the colour whose channels are those bytes over 255 |
| `HexCodec.ChunksOfBlob` | viscm/gui.py:1000-1001 | the six-character pieces of a blob are the colours' own hex strings |
| `HexCodec.DecodeRows` | viscm/gui.py:999-1004 | decoding the pieces of a blob gives the rounded colours |
| `HexCodec.EncodeDecode` | viscm/gui.py:633-639 | writing then reading the colours gives "invalid" for a table with a NaN row and the rounded colours otherwise |
| `HexCodec.RowHexes` | viscm/gui.py:635-637 | one six-character string per colour |
| `HexCodec.QuantizedAll` | viscm/gui.py:1002-1003 | one rounded colour per row |
| `Jscm.FilterParams` | viscm/gui.py:971-977 | exactly the extension entries under the editor's keys, plus the document's name |
| `Jscm.FilterSkip` | viscm/gui.py:971-976 | an extension entry outside the editor's keys does not reach the parameters |
| `Jscm.FilterKeep` | viscm/gui.py:971-976 | an extension entry under one of the editor's keys reaches the parameters unchanged |
| `Jscm.SaveDocument` | viscm/gui.py:629-669 | the document holds the name, the colour blob and the viscm extension section with the editor's state |
| `Jscm.LoadJscm` | viscm/gui.py:962-1008 | a document without a name is refused; an editable result takes only the editor's keys and the document's name, never the map type "linear"; a colour list carries the document's name and the decoded `colors` entry |
| `Jscm.SaveLoad` | viscm/gui.py:629-669 | loading a saved document gives the editor its control points, fixed indices, lightness range and name, with the saved map type, spline method and colour space |
| `Jscm.ExtensionParams` | viscm/gui.py:971-977 | the editor parameters taken from a saved extension section are exactly the points, fixed indices, range and name |
| `Jscm.LegacyLinear` | viscm/gui.py:965-983 | a viscm section whose map type is "linear" opens as an editable sequential map, and a document without a name is refused |
| `Jscm.LoadColorList` | viscm/gui.py:996-1008 | without the viscm section, a saved table loads as its rounded colours, and a table with a NaN row is refused |

## Left out

- The user interface is not modelled. This covers matplotlib drawing, Qt windows, mouse dispatch (`on_button_press` and friends), `viscm` analysis figures, `export_py`, `main` and the `.py` and `.txt` loaders. They draw or do I/O.
- `ColorMap.GetJpapbp`: the a' and b' column is a parameter `curve`. The source takes it from `get_bezier_points_at` (viscm/gui.py:737). The model does not compose the colour table with `TwoSegment.TwoSegmentPoints` or `ArcLength.BezierPointsSpec`.
- The colour-space conversion (`cspace_converter`) is a parameter `convert` of `GetSRGB`. The gamut slice image is left out. Both are foreign library code.
- `np.hypot` is an abstract step-length function, required to be non-negative where a lemma needs it. All arc lengths are therefore symbolic.
- Floating point is not modelled. Reals are exact, so rounding in `binom`, in `interp` and in the arc-length sums does not appear.
- `TwoSegment.Balance`: the cyclic balancing loop is bounded by a `fuel` argument and gives no result when the fuel runs out. The source loops until `np.isclose` holds and may never stop.
- `ArcLength.BezierPointsSpec`: with zero total length the source divides by zero and gets NaN samples. The model gives no result instead.
- `TwoSegment.Route`: with both halves of zero length, `sf` is NaN in the source. The model gives no result instead.
- `ArcLength.ArcLengthTable`: with `grid == 0` and the Catmull-Clark method, `x, y = method(...).T` at viscm/bezierbuilder.py:251 raises before the guard at line 256. The model returns `[0]` for both methods. The editor always uses a grid of 1000, so this case never arises.
- `TwoSegment.TwoSegmentPoints`: when a Catmull-Clark half gets no positions, `np.concatenate(..., 1)` at viscm/bezierbuilder.py:369 raises on its differently shaped empty result. The model concatenates the empty sequence. The grids of viscm/gui.py:733-736 always feed both halves.
- The map type "diverging-continuous" is not modelled. The sampling grid of `get_Jpapbp` has no entry for it.
- `get_bezier_points_at` with a 0-dimensional `at` is not modelled. The positions are always a sequence.
- `ColorMap.JpapbpAtPoint`: scipy's `interp1d` raises outside [0, 1] or with fewer than two rows. The model gives no result in both cases.
- `HexCodec.WriteColors`: shown rows are required to have channels in [0, 1]. This holds for every row `get_sRGB` leaves unmasked. Other values would make `"%02x"` write a sign or more digits.
- `HexCodec.DecodeChunk`: Python's `int(s, 16)` also accepts signs, underscores, whitespace and a `0x` prefix. The model accepts only hex digits. It treats every other piece, including a short final piece, as bad digits.
- `Jscm.LoadJscm`: an "extensions" value that is not a JSON object is treated as having no viscm section. In Python, `in` would test list membership or a substring.
- `Jscm.LoadJscm`: the editor built from the loaded parameters and its `show_viscm` colormap are not part of the load result.
- `ControlPoints.ControlPointModel`: the `Trigger` callbacks are represented by the ghost counter `fired`. What the callbacks do is left out.
- `ControlPoints.ControlPointModel.MovePoint`: the lock flag `_fixed_point` is a field that the user interface toggles. The model only reads it.
