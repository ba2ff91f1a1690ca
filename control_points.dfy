/**
 * The control-point store of the editor (`ControlPointModel`): two parallel
 * coordinate lists, the indices of the fixed points, and the edits that
 * keep the fixed indices pointing at the same points.
 */
module ControlPoints {
  import opened Wrappers

  /** The colormap topology, fixed when the store is built. */
  datatype CmType = Sequential | Diverging | Cyclic

  /** The `fixed` argument of the constructor and of `set_control_points`. */
  datatype FixedArg = NoFixed | OneIndex(index: int) | IndexList(indices: seq<int>)

  /** What `get_control_points` returns in place of the fixed indices. */
  datatype FixedView = Unfixed | Index(i: int) | Indices(list: seq<int>)

  /** A single index is stored as the pair [index, index]; a list is stored as given. */
  function StoredFixed(f: FixedArg): Option<seq<int>> {
    match f
    case NoFixed => None
    case OneIndex(i) => Some([i, i])
    case IndexList(s) => Some(s)
  }

  /**
   * What the editor relies on: every fixed index names a point, or is -1
   * (the editor's "no fixed point" for sequential maps); diverging and
   * cyclic maps have a pair of non-negative fixed indices, in order for
   * cyclic maps.
   */
  ghost predicate FixedOk(cmtype: CmType, f: Option<seq<int>>, n: nat) {
    && (f.Some? ==> forall k :: 0 <= k < |f.value| ==> -1 <= f.value[k] < n)
    && (cmtype != Sequential ==> f.Some? && |f.value| == 2 && 0 <= f.value[0] && 0 <= f.value[1])
    && (cmtype == Cyclic ==> f.value[0] <= f.value[1])
  }

  ghost predicate IsFixed(f: Option<seq<int>>, i: int) {
    f.Some? && i in f.value
  }

  /** `list.insert(i, v)` for a position inside the list. */
  function Inserted<T>(s: seq<T>, i: nat, v: T): seq<T>
    requires i <= |s|
  {
    s[..i] + [v] + s[i..]
  }

  /** `del list[i]`. */
  function Removed<T>(s: seq<T>, i: nat): seq<T>
    requires i < |s|
  {
    s[..i] + s[i + 1..]
  }

  /** Deleting what was just inserted gives the list back. */
  lemma RemovedInserted<T>(s: seq<T>, i: nat, v: T)
    requires i <= |s|
    ensures |Inserted(s, i, v)| == |s| + 1 && Inserted(s, i, v)[i] == v
    ensures Removed(Inserted(s, i, v), i) == s
  {
    var t := Inserted(s, i, v);
    assert t[..i] == s[..i];
    assert t[i + 1..] == s[i..];
  }

  /** After an insertion at i, a point at f sits at the bumped index. */
  lemma InsertedAtBumped<T>(s: seq<T>, i: nat, v: T, f: int)
    requires i <= |s| && 0 <= f < |s|
    ensures Bumped(f, i) < |Inserted(s, i, v)| && Inserted(s, i, v)[Bumped(f, i)] == s[f]
  {
  }

  /** After a deletion at i, a point at f other than i sits at the dropped index. */
  lemma RemovedAtDropped<T>(s: seq<T>, i: nat, f: int)
    requires i < |s| && 0 <= f < |s| && f != i
    ensures 0 <= Dropped(f, i) < |Removed(s, i)| && Removed(s, i)[Dropped(f, i)] == s[f]
  {
  }

  /** A fixed index after an insertion at i. */
  function Bumped(f: int, i: int): int {
    if i <= f then f + 1 else f
  }

  /** A fixed index after a deletion at i. */
  function Dropped(f: int, i: int): int {
    if i < f then f - 1 else f
  }

  /** The fixed indices after the loop of `add_point`, one entry at a time. */
  function ShiftedUp(fs: seq<int>, i: int): seq<int> {
    if fs == [] then [] else ShiftedUp(fs[..|fs| - 1], i) + [Bumped(fs[|fs| - 1], i)]
  }

  /** The fixed indices after the loop of `remove_point`, one entry at a time. */
  function ShiftedDown(fs: seq<int>, i: int): seq<int> {
    if fs == [] then [] else ShiftedDown(fs[..|fs| - 1], i) + [Dropped(fs[|fs| - 1], i)]
  }

  lemma {:induction false} ShiftedUpAt(fs: seq<int>, i: int)
    ensures |ShiftedUp(fs, i)| == |fs|
    ensures forall k :: 0 <= k < |fs| ==> ShiftedUp(fs, i)[k] == Bumped(fs[k], i)
  {
    if fs != [] {
      ShiftedUpAt(fs[..|fs| - 1], i);
    }
  }

  lemma {:induction false} ShiftedDownAt(fs: seq<int>, i: int)
    ensures |ShiftedDown(fs, i)| == |fs|
    ensures forall k :: 0 <= k < |fs| ==> ShiftedDown(fs, i)[k] == Dropped(fs[k], i)
  {
    if fs != [] {
      ShiftedDownAt(fs[..|fs| - 1], i);
    }
  }

  /**
   * The fixed indices gs of the edited list t name the points that the old
   * indices fs named in s (an index outside s names no point).
   */
  ghost predicate KeepsPoints<T>(s: seq<T>, t: seq<T>, fs: seq<int>, gs: seq<int>) {
    |gs| == |fs| && forall k :: 0 <= k < |fs| && 0 <= fs[k] < |s| ==> 0 <= gs[k] < |t| && t[gs[k]] == s[fs[k]]
  }

  /** The shifted fixed indices of an insertion name the points the old ones named. */
  lemma InsertedTracks<T>(s: seq<T>, i: nat, v: T, fs: seq<int>)
    requires i <= |s| && forall k :: 0 <= k < |fs| ==> fs[k] < |s|
    ensures KeepsPoints(s, Inserted(s, i, v), fs, ShiftedUp(fs, i))
  {
    ShiftedUpAt(fs, i);
    forall k | 0 <= k < |fs| && 0 <= fs[k]
      ensures 0 <= ShiftedUp(fs, i)[k] < |s| + 1 && Inserted(s, i, v)[ShiftedUp(fs, i)[k]] == s[fs[k]]
    {
      InsertedAtBumped(s, i, v, fs[k]);
    }
  }

  /** When i is not fixed, the shifted fixed indices of a deletion name the points the old ones named. */
  lemma RemovedTracks<T>(s: seq<T>, i: nat, fs: seq<int>)
    requires i < |s| && i !in fs && forall k :: 0 <= k < |fs| ==> fs[k] < |s|
    ensures KeepsPoints(s, Removed(s, i), fs, ShiftedDown(fs, i))
  {
    ShiftedDownAt(fs, i);
    forall k | 0 <= k < |fs| && 0 <= fs[k]
      ensures 0 <= ShiftedDown(fs, i)[k] < |s| - 1 && Removed(s, i)[ShiftedDown(fs, i)[k]] == s[fs[k]]
    {
      RemovedAtDropped(s, i, fs[k]);
    }
  }

  /** An insertion keeps the store well formed, and its shifted fixed indices follow their points in both lists. */
  lemma InsertionKeeps(cmtype: CmType, xs: seq<real>, ys: seq<real>, i: nat, x: real, y: real, fs: seq<int>)
    requires |xs| == |ys| && i <= |xs| && FixedOk(cmtype, Some(fs), |xs|)
    ensures FixedOk(cmtype, Some(ShiftedUp(fs, i)), |xs| + 1)
    ensures KeepsPoints(xs, Inserted(xs, i, x), fs, ShiftedUp(fs, i))
    ensures KeepsPoints(ys, Inserted(ys, i, y), fs, ShiftedUp(fs, i))
  {
    ShiftsKeepFixedOk(cmtype, fs, |xs|, i);
    InsertedTracks(xs, i, x, fs);
    InsertedTracks(ys, i, y, fs);
  }

  /** So does a deletion of a point that is not fixed. */
  lemma RemovalKeeps(cmtype: CmType, xs: seq<real>, ys: seq<real>, i: nat, fs: seq<int>)
    requires |xs| == |ys| && i < |xs| && i !in fs && FixedOk(cmtype, Some(fs), |xs|)
    ensures FixedOk(cmtype, Some(ShiftedDown(fs, i)), |xs| - 1)
    ensures KeepsPoints(xs, Removed(xs, i), fs, ShiftedDown(fs, i))
    ensures KeepsPoints(ys, Removed(ys, i), fs, ShiftedDown(fs, i))
  {
    ShiftsKeepFixedOk(cmtype, fs, |xs|, i);
    RemovedTracks(xs, i, fs);
    RemovedTracks(ys, i, fs);
  }

  /**
   * After an insertion at i no fixed index equals i, so a removal at i is
   * never refused, and its decrement undoes the increment.
   */
  lemma AddThenRemoveFixed(fs: seq<int>, i: int)
    ensures i !in ShiftedUp(fs, i)
    ensures ShiftedDown(ShiftedUp(fs, i), i) == fs
  {
    ShiftedUpAt(fs, i);
    ShiftedDownAt(ShiftedUp(fs, i), i);
  }

  /** An edit keeps every fixed index on its point, so the store stays well formed. */
  lemma ShiftsKeepFixedOk(cmtype: CmType, fs: seq<int>, n: nat, i: int)
    requires FixedOk(cmtype, Some(fs), n) && 0 <= i
    ensures i <= n ==> FixedOk(cmtype, Some(ShiftedUp(fs, i)), n + 1)
    ensures i < n && i !in fs ==> FixedOk(cmtype, Some(ShiftedDown(fs, i)), n - 1)
  {
    ShiftedUpAt(fs, i);
    ShiftedDownAt(fs, i);
  }

  /** The `for j, fixed in enumerate(self._fixed)` loop of `add_point`, in place. */
  method ShiftUp(fs: array<int>, i: int)
    modifies fs
    ensures fs[..] == ShiftedUp(old(fs[..]), i)
  {
    var j := 0;
    while j < fs.Length
      invariant 0 <= j <= fs.Length
      invariant fs[..j] == ShiftedUp(old(fs[..j]), i)
      invariant forall k :: j <= k < fs.Length ==> fs[k] == old(fs[k])
    {
      ghost var done := fs[..j];
      if i <= fs[j] {
        fs[j] := fs[j] + 1;
      }
      assert fs[..j] == done && fs[j] == Bumped(old(fs[j]), i);
      assert old(fs[..j + 1])[..j] == old(fs[..j]);
      assert ShiftedUp(old(fs[..j + 1]), i) == ShiftedUp(old(fs[..j]), i) + [Bumped(old(fs[j]), i)];
      assert fs[..j + 1] == fs[..j] + [fs[j]];
      j := j + 1;
    }
    assert fs[..] == fs[..j];
    assert old(fs[..j]) == old(fs[..]);
  }

  /** The `for j, fixed in enumerate(self._fixed)` loop of `remove_point`, in place. */
  method ShiftDown(fs: array<int>, i: int)
    modifies fs
    ensures fs[..] == ShiftedDown(old(fs[..]), i)
  {
    var j := 0;
    while j < fs.Length
      invariant 0 <= j <= fs.Length
      invariant fs[..j] == ShiftedDown(old(fs[..j]), i)
      invariant forall k :: j <= k < fs.Length ==> fs[k] == old(fs[k])
    {
      ghost var done := fs[..j];
      if i < fs[j] {
        fs[j] := fs[j] - 1;
      }
      assert fs[..j] == done && fs[j] == Dropped(old(fs[j]), i);
      assert old(fs[..j + 1])[..j] == old(fs[..j]);
      assert ShiftedDown(old(fs[..j + 1]), i) == ShiftedDown(old(fs[..j]), i) + [Dropped(old(fs[j]), i)];
      assert fs[..j + 1] == fs[..j] + [fs[j]];
      j := j + 1;
    }
    assert fs[..] == fs[..j];
    assert old(fs[..j]) == old(fs[..]);
  }

  class ControlPointModel {
    var xp: seq<real>
    var yp: seq<real>
    /** The fixed indices, changed in place by the edits; null when no point is fixed. */
    var fixed: array?<int>
    const cmtype: CmType
    /** Whether fixed points refuse to be dragged (the editor's menu toggles it). */
    var fixedPoint: bool
    /** How many times the change trigger has fired. */
    ghost var fired: nat

    ghost function Fixed(): Option<seq<int>>
      reads this, fixed
    {
      if fixed == null then None else Some(fixed[..])
    }

    ghost predicate Valid()
      reads this, fixed
    {
      |xp| == |yp| && FixedOk(cmtype, Fixed(), |xp|)
    }

    constructor (xp0: seq<real>, yp0: seq<real>, cmtype0: CmType, f: FixedArg)
      requires |xp0| == |yp0| && FixedOk(cmtype0, StoredFixed(f), |xp0|)
      ensures Valid() && (fixed != null ==> fresh(fixed))
      ensures xp == xp0 && yp == yp0 && cmtype == cmtype0 && Fixed() == StoredFixed(f)
      ensures fixedPoint && fired == 0
    {
      xp, yp, cmtype := xp0, yp0, cmtype0;
      match StoredFixed(f) {
        case None =>
          fixed := null;
        case Some(s) =>
          var a := new int[|s|](k => if 0 <= k < |s| then s[k] else 0);
          assert a[..] == s;
          fixed := a;
      }
      fixedPoint := true;
      fired := 0;
    }

    /**
     * `get_control_points`: copies of the lists, and the fixed index of a
     * diverging map or the fixed list of any other map.
     */
    function GetControlPoints(): (r: (seq<real>, seq<real>, FixedView))
      reads this, fixed
      requires Valid()
      ensures r.0 == xp && r.1 == yp
      ensures cmtype == Diverging ==> r.2.Index? && 0 <= r.2.i < |xp|
      ensures cmtype == Cyclic ==> r.2.Indices? && |r.2.list| == 2 && 0 <= r.2.list[0] <= r.2.list[1] < |xp|
      ensures cmtype == Sequential ==> (r.2 == Unfixed <==> fixed == null)
      ensures cmtype == Diverging ==> r.2 == Index(fixed[0])
      ensures cmtype != Diverging ==> r.2 == (if fixed == null then Unfixed else Indices(fixed[..]))
    {
      if cmtype == Diverging then (xp, yp, Index(fixed[0]))
      else if fixed == null then (xp, yp, Unfixed)
      else (xp, yp, Indices(fixed[..]))
    }

    /** `add_point`: insert (x, y) at i and move every fixed index at or after i up by one. */
    method AddPoint(i: int, x: real, y: real)
      requires Valid() && 0 <= i <= |xp|
      modifies this, fixed
      ensures Valid() && fixed == old(fixed) && fixedPoint == old(fixedPoint)
      ensures xp == Inserted(old(xp), i, x) && yp == Inserted(old(yp), i, y)
      ensures fixed != null ==> fixed[..] == ShiftedUp(old(fixed[..]), i)
      ensures fixed != null ==>
        KeepsPoints(old(xp), xp, old(fixed[..]), fixed[..]) && KeepsPoints(old(yp), yp, old(fixed[..]), fixed[..])
      ensures fired == old(fired) + 1
    {
      ghost var xs, ys := xp, yp;
      xp := Inserted(xp, i, x);
      yp := Inserted(yp, i, y);
      if fixed != null {
        ghost var before := fixed[..];
        assert FixedOk(cmtype, Some(before), |xs|);
        ShiftUp(fixed, i);
        InsertionKeeps(cmtype, xs, ys, i, x, y, before);
        assert Fixed() == Some(ShiftedUp(before, i)) && old(fixed[..]) == before;
        assert KeepsPoints(old(xp), xp, old(fixed[..]), fixed[..]);
        assert KeepsPoints(old(yp), yp, old(fixed[..]), fixed[..]);
      }
      assert Valid();
      fired := fired + 1;
    }

    /**
     * `remove_point`: a fixed point is never removed (nothing changes and
     * nothing fires); any other point is deleted and the fixed indices after
     * it move down by one.
     */
    method RemovePoint(i: int)
      requires Valid() && 0 <= i < |xp|
      modifies this, fixed
      ensures Valid() && fixed == old(fixed) && fixedPoint == old(fixedPoint)
      ensures IsFixed(old(Fixed()), i) ==>
        xp == old(xp) && yp == old(yp) && Fixed() == old(Fixed()) && fired == old(fired)
      ensures !IsFixed(old(Fixed()), i) ==>
        && xp == Removed(old(xp), i) && yp == Removed(old(yp), i)
        && (fixed != null ==> fixed[..] == ShiftedDown(old(fixed[..]), i))
        && (fixed != null ==>
              KeepsPoints(old(xp), xp, old(fixed[..]), fixed[..]) && KeepsPoints(old(yp), yp, old(fixed[..]), fixed[..]))
        && fired == old(fired) + 1
    {
      if fixed != null && i in fixed[..] {
        return;
      }
      ghost var xs, ys := xp, yp;
      xp := Removed(xp, i);
      yp := Removed(yp, i);
      if fixed != null {
        ghost var before := fixed[..];
        assert FixedOk(cmtype, Some(before), |xs|) && i !in before;
        ShiftDown(fixed, i);
        RemovalKeeps(cmtype, xs, ys, i, before);
        assert Fixed() == Some(ShiftedDown(before, i)) && old(fixed[..]) == before;
        assert KeepsPoints(old(xp), xp, old(fixed[..]), fixed[..]);
        assert KeepsPoints(old(yp), yp, old(fixed[..]), fixed[..]);
      }
      assert Valid();
      fired := fired + 1;
    }

    /**
     * `move_point`: while fixed points are locked, dragging one changes
     * nothing; otherwise only entry i of each list changes.
     */
    method MovePoint(i: int, x: real, y: real)
      requires Valid() && 0 <= i < |xp|
      modifies this
      ensures Valid() && fixed == old(fixed) && fixedPoint == old(fixedPoint)
      ensures IsFixed(Fixed(), i) && fixedPoint ==> xp == old(xp) && yp == old(yp) && fired == old(fired)
      ensures !(IsFixed(Fixed(), i) && fixedPoint) ==>
        xp == old(xp)[i := x] && yp == old(yp)[i := y] && fired == old(fired) + 1
    {
      if fixed != null && i in fixed[..] && fixedPoint {
        return;
      }
      xp := xp[i := x];
      yp := yp[i := y];
      fired := fired + 1;
    }

    /** `set_control_points`: replace the lists and the fixed indices wholesale. */
    method SetControlPoints(xp0: seq<real>, yp0: seq<real>, f: FixedArg)
      requires |xp0| == |yp0| && FixedOk(cmtype, StoredFixed(f), |xp0|)
      modifies this
      ensures Valid() && (fixed != null ==> fresh(fixed)) && fixedPoint == old(fixedPoint)
      ensures xp == xp0 && yp == yp0 && Fixed() == StoredFixed(f)
      ensures fired == old(fired) + 1
    {
      xp, yp := xp0, yp0;
      match StoredFixed(f) {
        case None =>
          fixed := null;
        case Some(s) =>
          var a := new int[|s|](k => if 0 <= k < |s| then s[k] else 0);
          assert a[..] == s;
          fixed := a;
      }
      fired := fired + 1;
    }
  }

  /**
   * A caller's view of the round trip: inserting a point and then removing
   * it at the same index restores the lists and the fixed indices.
   */
  method AddThenRemove(m: ControlPointModel, i: int, x: real, y: real)
    requires m.Valid() && 0 <= i <= |m.xp|
    modifies m, m.fixed
    ensures m.Valid() && m.fixed == old(m.fixed)
    ensures m.xp == old(m.xp) && m.yp == old(m.yp) && m.Fixed() == old(m.Fixed())
    ensures m.fired == old(m.fired) + 2
  {
    ghost var fs := m.Fixed();
    m.AddPoint(i, x, y);
    if m.fixed != null {
      AddThenRemoveFixed(fs.value, i);
    }
    m.RemovePoint(i);
    RemovedInserted(old(m.xp), i, x);
    RemovedInserted(old(m.yp), i, y);
  }
}
