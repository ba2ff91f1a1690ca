/**
 * Where `ControlPointBuilder.add_point` puts a point the user adds: the two
 * sentinel coordinates, and otherwise the chord sample nearest to the click.
 */
module Insertion {
  import opened Wrappers
  import opened Geometry
  import opened ControlPoints

  /** The coordinates the editor's menu sends for "add a point at the lowest lightness". */
  const LowSentinel: Point := Point(0.0, 0.0)

  /** The coordinates the editor's menu sends for "add a point at the highest lightness". */
  const HighSentinel: Point := Point(-1.91200895, -1.15144878)

  /** How many samples `np.linspace` draws along each chord. */
  const ChordSamples: nat := 100

  datatype Chord = Chord(from: Point, to: Point)

  /**
   * The chords between consecutive control points, followed for a cyclic
   * map by the closing chord from the last point back to the first.
   */
  function Chords(ps: seq<Point>, cyclic: bool): (r: seq<Chord>)
    requires cyclic ==> |ps| > 0
    ensures |r| == (if |ps| == 0 then 0 else |ps| - 1) + (if cyclic then 1 else 0)
  {
    var open := seq(if |ps| == 0 then 0 else |ps| - 1, i requires 0 <= i < |ps| - 1 => Chord(ps[i], ps[i + 1]));
    if cyclic then open + [Chord(ps[|ps| - 1], ps[0])] else open
  }

  /** Sample j of the 100 evenly spaced samples along a chord, both ends included. */
  function ChordSample(c: Chord, j: nat): Point
    requires j < ChordSamples
  {
    Point(Linspace(c.from.x, c.to.x, ChordSamples, true)[j], Linspace(c.from.y, c.to.y, ChordSamples, true)[j])
  }

  function SqDist(p: Point, q: Point): real {
    (p.x - q.x) * (p.x - q.x) + (p.y - q.y) * (p.y - q.y)
  }

  function SampleDist(chords: seq<Chord>, p: Point, i: nat, j: nat): real
    requires i < |chords| && j < ChordSamples
  {
    SqDist(p, ChordSample(chords[i], j))
  }

  /** Sample (i2, j2) is visited before sample (i, j) by the nested scan. */
  predicate Before(i2: nat, j2: nat, i: nat, j: nat) {
    i2 < i || (i2 == i && j2 < j)
  }

  /** The first sample in scan order among those nearest to p. */
  ghost predicate EarliestNearest(chords: seq<Chord>, p: Point, i: nat, j: nat) {
    && i < |chords| && j < ChordSamples
    && forall i2: nat, j2: nat :: i2 < |chords| && j2 < ChordSamples ==>
         && SampleDist(chords, p, i, j) <= SampleDist(chords, p, i2, j2)
         && (Before(i2, j2, i, j) ==> SampleDist(chords, p, i, j) < SampleDist(chords, p, i2, j2))
  }

  /** The first sample of chord i puts the point before point i, any other sample after it. */
  function InsertionIndex(i: nat, j: nat): nat {
    if j == 0 then i else i + 1
  }

  /** At most one sample is the earliest nearest one, so the scan's answer is determined. */
  lemma EarliestNearestUnique(chords: seq<Chord>, p: Point, i: nat, j: nat, i2: nat, j2: nat)
    requires EarliestNearest(chords, p, i, j) && EarliestNearest(chords, p, i2, j2)
    ensures i == i2 && j == j2
  {
    assert SampleDist(chords, p, i, j) == SampleDist(chords, p, i2, j2);
    assert !Before(i2, j2, i, j) && !Before(i, j, i2, j2);
  }

  /** The scan state: (bi, bj) is the earliest nearest sample among those visited before (i, j). */
  ghost predicate BestSoFar(chords: seq<Chord>, p: Point, i: nat, j: nat, bi: nat, bj: nat, bd: real) {
    && bi < |chords| && bj < ChordSamples && Before(bi, bj, i, j)
    && bd == SampleDist(chords, p, bi, bj)
    && forall i2: nat, j2: nat :: i2 < |chords| && j2 < ChordSamples && Before(i2, j2, i, j) ==>
         && bd <= SampleDist(chords, p, i2, j2)
         && (Before(i2, j2, bi, bj) ==> bd < SampleDist(chords, p, i2, j2))
  }

  /**
   * The nested scan of `add_point` over every chord sample, keeping the
   * strictly smallest squared distance seen so far; None when there is no
   * chord (the source then inserts at an infinite index and fails).
   */
  method NearestInsertion(chords: seq<Chord>, p: Point) returns (best: Option<nat>)
    ensures best.None? <==> chords == []
    ensures best.Some? ==> best.value <= |chords|
    ensures best.Some? ==> exists i: nat, j: nat :: EarliestNearest(chords, p, i, j) && best.value == InsertionIndex(i, j)
  {
    best := None;
    var bestDist: real := 0.0;
    ghost var bi: nat, bj: nat := 0, 0;
    var i := 0;
    while i < |chords|
      invariant 0 <= i <= |chords|
      invariant best.None? <==> i == 0
      invariant best.Some? ==> BestSoFar(chords, p, i, 0, bi, bj, bestDist) && best.value == InsertionIndex(bi, bj)
    {
      var j := 0;
      while j < ChordSamples
        invariant 0 <= j <= ChordSamples
        invariant best.None? <==> i == 0 && j == 0
        invariant best.Some? ==> BestSoFar(chords, p, i, j, bi, bj, bestDist) && best.value == InsertionIndex(bi, bj)
      {
        var dist := SqDist(p, ChordSample(chords[i], j));
        if best.None? || dist < bestDist {
          best := Some(if j == 0 then i else i + 1);
          bestDist := dist;
          bi, bj := i, j;
        }
        j := j + 1;
      }
      i := i + 1;
    }
    if best.Some? {
      assert EarliestNearest(chords, p, bi, bj);
    }
  }

  /** What `add_point` does with a click. */
  datatype Placement =
    | Overwrite(slot: nat)   // overwrite the point at fixed index number `slot`
    | InsertAt(index: nat)   // insert a new point at `index`
    | NoChord                // no chord to measure against: the source fails

  /**
   * The placement rule: the sentinels overwrite a fixed point of a
   * two-segment map, and go to the darker or lighter end of a sequential
   * map; any other point goes next to its earliest nearest chord sample.
   */
  ghost predicate Chosen(ps: seq<Point>, cmtype: CmType, minJp: real, maxJp: real, p: Point, r: Placement)
    requires cmtype == Cyclic ==> |ps| > 0
  {
    if p == LowSentinel then
      r == (if cmtype != Sequential then Overwrite(0) else if minJp < maxJp then InsertAt(0) else InsertAt(|ps|))
    else if p == HighSentinel then
      r == (if cmtype != Sequential then Overwrite(1) else if minJp < maxJp then InsertAt(|ps|) else InsertAt(0))
    else
      var chords := Chords(ps, cmtype == Cyclic);
      && (r == NoChord <==> chords == [])
      && !r.Overwrite?
      && (r.InsertAt? ==> r.index <= |ps| && exists i: nat, j: nat :: EarliestNearest(chords, p, i, j) && r.index == InsertionIndex(i, j))
  }

  /** The decision part of `ControlPointBuilder.add_point`. */
  method ChoosePlacement(xp: seq<real>, yp: seq<real>, cmtype: CmType, minJp: real, maxJp: real, p: Point)
    returns (r: Placement)
    requires |xp| == |yp| && (cmtype == Cyclic ==> |xp| > 0)
    ensures Chosen(Zip(xp, yp), cmtype, minJp, maxJp, p, r)
  {
    if p == LowSentinel {
      if cmtype != Sequential {
        r := Overwrite(0);
      } else if minJp < maxJp {
        r := InsertAt(0);
      } else {
        r := InsertAt(|xp|);
      }
    } else if p == HighSentinel {
      if cmtype != Sequential {
        r := Overwrite(1);
      } else if minJp < maxJp {
        r := InsertAt(|xp|);
      } else {
        r := InsertAt(0);
      }
    } else {
      var best := NearestInsertion(Chords(Zip(xp, yp), cmtype == Cyclic), p);
      r := if best.Some? then InsertAt(best.value) else NoChord;
    }
  }

  /**
   * `ControlPointBuilder.add_point` on the store: a sentinel on a
   * two-segment map overwrites a fixed point directly (past the drag lock,
   * keeping the length); otherwise the point is inserted through
   * `ControlPointModel.add_point`. `ok` is false where the source fails.
   */
  method AddPoint(m: ControlPointModel, minJp: real, maxJp: real, x: real, y: real)
    returns (r: Placement, ok: bool)
    requires m.Valid()
    modifies m, m.fixed
    ensures m.Valid() && m.fixed == old(m.fixed) && m.fixedPoint == old(m.fixedPoint)
    ensures Chosen(Zip(old(m.xp), old(m.yp)), m.cmtype, minJp, maxJp, Point(x, y), r)
    ensures ok <==> !r.NoChord?
    ensures r.Overwrite? ==>
      && r.slot < 2 && m.cmtype != Sequential && m.fixed != null && m.fixed.Length == 2
      && 0 <= m.fixed[r.slot] < |old(m.xp)|
      && m.xp == old(m.xp)[m.fixed[r.slot] := x] && m.yp == old(m.yp)[m.fixed[r.slot] := y]
      && m.Fixed() == old(m.Fixed())
      && m.fired == old(m.fired) + 1
    ensures r.InsertAt? ==>
      && r.index <= |old(m.xp)|
      && m.xp == Inserted(old(m.xp), r.index, x) && m.yp == Inserted(old(m.yp), r.index, y)
      && (m.fixed != null ==> m.fixed[..] == ShiftedUp(old(m.fixed[..]), r.index))
      && (m.fixed != null ==>
            KeepsPoints(old(m.xp), m.xp, old(m.fixed[..]), m.fixed[..])
            && KeepsPoints(old(m.yp), m.yp, old(m.fixed[..]), m.fixed[..]))
      && m.fired == old(m.fired) + 1
    ensures r.NoChord? ==> m.xp == old(m.xp) && m.yp == old(m.yp) && m.Fixed() == old(m.Fixed()) && m.fired == old(m.fired)
  {
    r := ChoosePlacement(m.xp, m.yp, m.cmtype, minJp, maxJp, Point(x, y));
    match r {
      case Overwrite(slot) =>
        var k := m.fixed[slot];
        m.xp := m.xp[k := x];
        m.yp := m.yp[k := y];
        m.fired := m.fired + 1;
        ok := true;
      case InsertAt(index) =>
        m.AddPoint(index, x, y);
        ok := true;
      case NoChord =>
        ok := false;
    }
  }
}
