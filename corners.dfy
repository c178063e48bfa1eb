/**
 * Corner ordering of a detected document quadrilateral (utils.py, `reorder`).
 *
 * The four corners of the approximated contour are sent to four fixed slots:
 * top-left, top-right, bottom-left, bottom-right. Slot 0 and slot 3 take the
 * points with the smallest and the largest `x + y`; slots 1 and 2 take the
 * points with the smallest and the largest `y - x`. Ties go to the earliest
 * point, as numpy's `argmin` and `argmax` return the first extremal index.
 */
module Corners {
  import opened Wrappers

  /** An integer pixel coordinate `[x, y]`. */
  datatype Point = Point(x: int, y: int)

  /** `myPoints.sum(1)`: the coordinate sum of one point. */
  function Sum(p: Point): int { p.x + p.y }

  /** `np.diff(myPoints, axis=1)`: the second coordinate minus the first. */
  function Diff(p: Point): int { p.y - p.x }

  function Sums(pts: seq<Point>): seq<int>
  {
    seq(|pts|, i requires 0 <= i < |pts| => Sum(pts[i]))
  }

  function Diffs(pts: seq<Point>): seq<int>
  {
    seq(|pts|, i requires 0 <= i < |pts| => Diff(pts[i]))
  }

  // ---------------------------------------------------------------------
  // numpy's argmin / argmax: the FIRST index of an extremal value
  // ---------------------------------------------------------------------

  /** `k` is the first index at which `s` takes its minimum. */
  ghost predicate IsFirstMin(s: seq<int>, k: int)
  {
    && 0 <= k < |s|
    && (forall j :: 0 <= j < |s| ==> s[k] <= s[j])
    && (forall j :: 0 <= j < k ==> s[k] < s[j])
  }

  /** `k` is the first index at which `s` takes its maximum. */
  ghost predicate IsFirstMax(s: seq<int>, k: int)
  {
    && 0 <= k < |s|
    && (forall j :: 0 <= j < |s| ==> s[j] <= s[k])
    && (forall j :: 0 <= j < k ==> s[j] < s[k])
  }

  /** `np.argmin`: scans left to right and moves only on a strictly smaller value. */
  function ArgMin(s: seq<int>): (k: nat)
    requires |s| > 0
    ensures IsFirstMin(s, k)
  {
    if |s| == 1 then 0
    else
      var k' := ArgMin(s[..|s| - 1]);
      if s[|s| - 1] < s[k'] then |s| - 1 else k'
  }

  /** `np.argmax`: scans left to right and moves only on a strictly larger value. */
  function ArgMax(s: seq<int>): (k: nat)
    requires |s| > 0
    ensures IsFirstMax(s, k)
  {
    if |s| == 1 then 0
    else
      var k' := ArgMax(s[..|s| - 1]);
      if s[|s| - 1] > s[k'] then |s| - 1 else k'
  }

  /** The first index of a minimum is unique: `argmin` is fully determined. */
  lemma FirstMinUnique(s: seq<int>, i: int, j: int)
    requires IsFirstMin(s, i) && IsFirstMin(s, j)
    ensures i == j
  {
    assert s[i] <= s[j] && s[j] <= s[i];
  }

  /** The first index of a maximum is unique: `argmax` is fully determined. */
  lemma FirstMaxUnique(s: seq<int>, i: int, j: int)
    requires IsFirstMax(s, i) && IsFirstMax(s, j)
    ensures i == j
  {
    assert s[i] <= s[j] && s[j] <= s[i];
  }

  // ---------------------------------------------------------------------
  // reorder
  // ---------------------------------------------------------------------

  /** numpy's ValueError from `reshape((4, 2))` on an array of `size` values. */
  datatype ReshapeError = CannotReshape(size: nat)

  /** Slot `q` holds the earliest point of `pts` whose `key` value is minimal. */
  ghost predicate HoldsFirstMin(pts: seq<Point>, key: seq<int>, q: Point)
    requires |key| == |pts|
  {
    exists i :: IsFirstMin(key, i) && pts[i] == q
  }

  /** Slot `q` holds the earliest point of `pts` whose `key` value is maximal. */
  ghost predicate HoldsFirstMax(pts: seq<Point>, key: seq<int>, q: Point)
    requires |key| == |pts|
  {
    exists i :: IsFirstMax(key, i) && pts[i] == q
  }

  /**
   * `utils.reorder`. The input is the contour approximation, a list of points;
   * it must reshape to four points of two coordinates, otherwise numpy raises.
   * The result lists the slots top-left, top-right, bottom-left, bottom-right.
   */
  function Reorder(pts: seq<Point>): (r: Result<seq<Point>, ReshapeError>)
    ensures r.Failure? <==> |pts| != 4
    ensures r.Failure? ==> r.error == CannotReshape(2 * |pts|)
    ensures r.Success? ==>
      && |r.value| == 4
      && HoldsFirstMin(pts, Sums(pts), r.value[0])
      && HoldsFirstMin(pts, Diffs(pts), r.value[1])
      && HoldsFirstMax(pts, Diffs(pts), r.value[2])
      && HoldsFirstMax(pts, Sums(pts), r.value[3])
  {
    if |pts| != 4 then Failure(CannotReshape(2 * |pts|))
    else
      var add, diff := Sums(pts), Diffs(pts);
      var tl, br := ArgMin(add), ArgMax(add);
      var tr, bl := ArgMin(diff), ArgMax(diff);
      Success([pts[tl], pts[tr], pts[bl], pts[br]])
  }

  /** The slots are the points at the four extremal indices. */
  lemma ReorderValue(pts: seq<Point>)
    requires |pts| == 4
    ensures Reorder(pts) == Success([
      pts[ArgMin(Sums(pts))], pts[ArgMin(Diffs(pts))], pts[ArgMax(Diffs(pts))], pts[ArgMax(Sums(pts))]])
  {
  }

  /**
   * Each slot is an input point that is extremal for its key over ALL input
   * points; no input point before it in the list has the same key value.
   */
  lemma ReorderSlots(pts: seq<Point>)
    requires |pts| == 4
    ensures Reorder(pts).Success?
    ensures var q := Reorder(pts).value;
      && (forall k :: 0 <= k < 4 ==> q[k] in pts)
      && (forall p :: p in pts ==> Sum(q[0]) <= Sum(p) <= Sum(q[3]))
      && (forall p :: p in pts ==> Diff(q[1]) <= Diff(p) <= Diff(q[2]))
  {
    ReorderValue(pts);
    var add, diff := Sums(pts), Diffs(pts);
    var i0, i1, i2, i3 := ArgMin(add), ArgMin(diff), ArgMax(diff), ArgMax(add);
    var q := [pts[i0], pts[i1], pts[i2], pts[i3]];
    assert Reorder(pts).value == q;
    forall p | p in pts
      ensures Sum(q[0]) <= Sum(p) <= Sum(q[3])
      ensures Diff(q[1]) <= Diff(p) <= Diff(q[2])
    {
      var j :| 0 <= j < 4 && pts[j] == p;
      assert add[j] == Sum(p) && diff[j] == Diff(p);
    }
  }

  /**
   * A point whose key is strictly smaller than that of every DIFFERENT input
   * point is the one its slot receives, wherever (and however often) it
   * stands in the list.
   */
  lemma StrictMinIsPicked(pts: seq<Point>, key: seq<int>, q: Point, v: int, i: int)
    requires |key| == |pts| && IsFirstMin(key, i)
    requires q in pts
    requires forall j :: 0 <= j < |pts| && pts[j] == q ==> key[j] == v
    requires forall j :: 0 <= j < |pts| && pts[j] != q ==> key[j] > v
    ensures pts[i] == q
  {
    var m :| 0 <= m < |pts| && pts[m] == q;
    assert key[i] <= key[m];
  }

  /** The counterpart of StrictMinIsPicked for a strictly largest key. */
  lemma StrictMaxIsPicked(pts: seq<Point>, key: seq<int>, q: Point, v: int, i: int)
    requires |key| == |pts| && IsFirstMax(key, i)
    requires q in pts
    requires forall j :: 0 <= j < |pts| && pts[j] == q ==> key[j] == v
    requires forall j :: 0 <= j < |pts| && pts[j] != q ==> key[j] < v
    ensures pts[i] == q
  {
    var m :| 0 <= m < |pts| && pts[m] == q;
    assert key[m] <= key[i];
  }

  /** The corner order of the perspective target at main.py:75. */
  function Target(w: int, h: int): seq<Point>
  {
    [Point(0, 0), Point(w, 0), Point(0, h), Point(w, h)]
  }

  /** Every point is one of the rectangle's corners. */
  lemma RectangleCorner(pts: seq<Point>, w: int, h: int, j: int)
    requires forall p :: p in pts ==> p in Target(w, h)
    requires 0 <= j < |pts|
    ensures pts[j] == Point(0, 0) || pts[j] == Point(w, 0) || pts[j] == Point(0, h) || pts[j] == Point(w, h)
  {
    assert pts[j] in pts;
  }

  /** The top-left corner has the strictly smallest `x + y`, so slot 0 receives it. */
  lemma RectangleTopLeft(pts: seq<Point>, w: int, h: int)
    requires w > 0 && h > 0 && |pts| == 4 && Point(0, 0) in pts
    requires forall p :: p in pts ==> p in Target(w, h)
    ensures pts[ArgMin(Sums(pts))] == Point(0, 0)
  {
    var add := Sums(pts);
    forall j | 0 <= j < |pts|
      ensures pts[j] == Point(0, 0) ==> add[j] == 0
      ensures pts[j] != Point(0, 0) ==> add[j] > 0
    {
      RectangleCorner(pts, w, h, j);
    }
    StrictMinIsPicked(pts, add, Point(0, 0), 0, ArgMin(add));
  }

  /** The top-right corner has the strictly smallest `y - x`, so slot 1 receives it. */
  lemma RectangleTopRight(pts: seq<Point>, w: int, h: int)
    requires w > 0 && h > 0 && |pts| == 4 && Point(w, 0) in pts
    requires forall p :: p in pts ==> p in Target(w, h)
    ensures pts[ArgMin(Diffs(pts))] == Point(w, 0)
  {
    var diff := Diffs(pts);
    forall j | 0 <= j < |pts|
      ensures pts[j] == Point(w, 0) ==> diff[j] == -w
      ensures pts[j] != Point(w, 0) ==> diff[j] > -w
    {
      RectangleCorner(pts, w, h, j);
    }
    StrictMinIsPicked(pts, diff, Point(w, 0), -w, ArgMin(diff));
  }

  /** The bottom-left corner has the strictly largest `y - x`, so slot 2 receives it. */
  lemma RectangleBottomLeft(pts: seq<Point>, w: int, h: int)
    requires w > 0 && h > 0 && |pts| == 4 && Point(0, h) in pts
    requires forall p :: p in pts ==> p in Target(w, h)
    ensures pts[ArgMax(Diffs(pts))] == Point(0, h)
  {
    var diff := Diffs(pts);
    forall j | 0 <= j < |pts|
      ensures pts[j] == Point(0, h) ==> diff[j] == h
      ensures pts[j] != Point(0, h) ==> diff[j] < h
    {
      RectangleCorner(pts, w, h, j);
    }
    StrictMaxIsPicked(pts, diff, Point(0, h), h, ArgMax(diff));
  }

  /** The bottom-right corner has the strictly largest `x + y`, so slot 3 receives it. */
  lemma RectangleBottomRight(pts: seq<Point>, w: int, h: int)
    requires w > 0 && h > 0 && |pts| == 4 && Point(w, h) in pts
    requires forall p :: p in pts ==> p in Target(w, h)
    ensures pts[ArgMax(Sums(pts))] == Point(w, h)
  {
    var add := Sums(pts);
    forall j | 0 <= j < |pts|
      ensures pts[j] == Point(w, h) ==> add[j] == w + h
      ensures pts[j] != Point(w, h) ==> add[j] < w + h
    {
      RectangleCorner(pts, w, h, j);
    }
    StrictMaxIsPicked(pts, add, Point(w, h), w + h, ArgMax(add));
  }

  /**
   * The corners of an upright `w` by `h` rectangle, listed in any order, are
   * put into exactly the slot order that the perspective target
   * [0,0],[w,0],[0,h],[w,h] expects.
   */
  lemma {:induction false} ReorderRectangle(pts: seq<Point>, w: int, h: int)
    requires w > 0 && h > 0 && |pts| == 4
    requires forall c :: c in Target(w, h) ==> c in pts
    requires forall p :: p in pts ==> p in Target(w, h)
    ensures Reorder(pts) == Success(Target(w, h))
  {
    assert Point(0, 0) in pts && Point(w, 0) in pts && Point(0, h) in pts && Point(w, h) in pts by {
      assert Target(w, h)[0] in Target(w, h) && Target(w, h)[1] in Target(w, h);
      assert Target(w, h)[2] in Target(w, h) && Target(w, h)[3] in Target(w, h);
    }
    RectangleTopLeft(pts, w, h);
    RectangleTopRight(pts, w, h);
    RectangleBottomLeft(pts, w, h);
    RectangleBottomRight(pts, w, h);
    ReorderValue(pts);
  }

  /** The extremal indices of the keys of the quadrilateral in ReorderMayRepeatAPoint. */
  lemma CounterexampleIndices()
    ensures ArgMin([20, 5, 60, 75]) == 1 && ArgMax([20, 5, 60, 75]) == 3
    ensures ArgMin([-20, 5, 0, -5]) == 0 && ArgMax([-20, 5, 0, -5]) == 1
  {
    var add, diff := [20, 5, 60, 75], [-20, 5, 0, -5];
    assert IsFirstMin(add, 1);
    FirstMinUnique(add, ArgMin(add), 1);
    assert IsFirstMax(add, 3);
    FirstMaxUnique(add, ArgMax(add), 3);
    assert IsFirstMin(diff, 0);
    FirstMinUnique(diff, ArgMin(diff), 0);
    assert IsFirstMax(diff, 1);
    FirstMaxUnique(diff, ArgMax(diff), 1);
  }

  /** The two keys of the quadrilateral in ReorderMayRepeatAPoint, and their extremal indices. */
  lemma CounterexampleKeys(pts: seq<Point>)
    requires pts == [Point(20, 0), Point(0, 5), Point(30, 30), Point(40, 35)]
    ensures ArgMin(Sums(pts)) == 1 && ArgMax(Sums(pts)) == 3
    ensures ArgMin(Diffs(pts)) == 0 && ArgMax(Diffs(pts)) == 1
  {
    assert Sums(pts) == [20, 5, 60, 75];
    assert Diffs(pts) == [-20, 5, 0, -5];
    CounterexampleIndices();
  }

  /**
   * The slots are not a permutation of the input in general: for this
   * quadrilateral the point (0, 5) has both the smallest `x + y` and the
   * largest `y - x`, so it fills both slot 0 and slot 2, and the input point
   * (30, 30) is in no slot.
   */
  lemma ReorderMayRepeatAPoint(pts: seq<Point>)
    requires pts == [Point(20, 0), Point(0, 5), Point(30, 30), Point(40, 35)]
    ensures Reorder(pts) == Success([Point(0, 5), Point(20, 0), Point(0, 5), Point(40, 35)])
    ensures Point(30, 30) in pts && Point(30, 30) !in Reorder(pts).value
  {
    CounterexampleKeys(pts);
    ReorderValue(pts);
    assert Reorder(pts).value == [pts[1], pts[0], pts[1], pts[3]];
    assert pts[2] == Point(30, 30);
  }
}
