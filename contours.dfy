/**
 * Document-candidate selection (utils.py, `biggestContour`) and its use in
 * the frame loop (main.py:67-69).
 *
 * A contour is modelled by the two values the selection reads from OpenCV:
 * its area (`cv2.contourArea`) and its polygon approximation
 * (`cv2.approxPolyDP` at 2% of the perimeter), both taken as given.
 */
module Contours {
  import opened Wrappers
  import opened Corners

  datatype Contour = Contour(area: real, approx: seq<Point>)

  /** Contours of at most this area are ignored as too small. */
  const MIN_AREA: real := 5000.0

  /** A contour the scan will consider: large enough and a quadrilateral. */
  predicate Qualifies(c: Contour)
  {
    c.area > MIN_AREA && |c.approx| == 4
  }

  /**
   * `k` is the selected contour: it qualifies, no qualifying contour is
   * larger, and every qualifying contour before it is strictly smaller.
   */
  ghost predicate IsFirstLargest(cs: seq<Contour>, k: int)
  {
    && 0 <= k < |cs|
    && Qualifies(cs[k])
    && (forall j :: 0 <= j < |cs| && Qualifies(cs[j]) ==> cs[j].area <= cs[k].area)
    && (forall j :: 0 <= j < k && Qualifies(cs[j]) ==> cs[j].area < cs[k].area)
  }

  /** At most one contour is the selected one. */
  lemma FirstLargestUnique(cs: seq<Contour>, i: int, j: int)
    requires IsFirstLargest(cs, i) && IsFirstLargest(cs, j)
    ensures i == j
  {
    assert cs[i].area <= cs[j].area && cs[j].area <= cs[i].area;
  }

  /**
   * `utils.biggestContour`: one pass over the contours with the accumulators
   * `biggest` (initially an empty array) and `max_area` (initially 0).
   */
  method BiggestContour(cs: seq<Contour>) returns (biggest: seq<Point>, maxArea: real)
    ensures (forall j :: 0 <= j < |cs| ==> !Qualifies(cs[j])) ==> biggest == [] && maxArea == 0.0
    ensures (exists j :: 0 <= j < |cs| && Qualifies(cs[j])) ==>
      exists k :: IsFirstLargest(cs, k) && biggest == cs[k].approx && maxArea == cs[k].area
  {
    biggest, maxArea := [], 0.0;
    ghost var best := -1;
    for i := 0 to |cs|
      invariant best == -1 <==> forall j :: 0 <= j < i ==> !Qualifies(cs[j])
      invariant best == -1 ==> biggest == [] && maxArea == 0.0
      invariant best != -1 ==>
        IsFirstLargest(cs[..i], best) && biggest == cs[best].approx && maxArea == cs[best].area
    {
      var area := cs[i].area;
      if area > MIN_AREA {
        var approx := cs[i].approx;
        if area > maxArea && |approx| == 4 {
          biggest, maxArea := approx, area;
          best := i;
        }
      }
    }
    assert cs[..|cs|] == cs;
  }

  /**
   * main.py:67-69: select the biggest quadrilateral and, when there is one
   * (`biggest.size != 0`), order its corners for the perspective warp.
   */
  method DetectDocument(cs: seq<Contour>) returns (corners: Option<seq<Point>>)
    ensures corners.None? <==> forall j :: 0 <= j < |cs| ==> !Qualifies(cs[j])
    ensures corners.Some? ==>
      exists k :: IsFirstLargest(cs, k) && Reorder(cs[k].approx) == Success(corners.value)
  {
    var biggest, _ := BiggestContour(cs);
    if biggest != [] {
      var r := Reorder(biggest);
      corners := Some(r.value);
    } else {
      corners := None;
    }
  }
}
