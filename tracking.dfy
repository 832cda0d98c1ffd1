/**
 * The marker locator of steering_wheel_org.py (detect_and_track_points).
 *
 * The OpenCV work (HSV conversion, masks, erosion and dilation, contours,
 * largest contour, minimal enclosing circle) is abstracted into its outcome:
 * for each colour band, the centre of the largest blob if the band has one.
 * What is modelled is how those two outcomes become the returned point list,
 * including the fall-back to the previous frame's list.
 */
module Tracking {
  import opened Optional

  /** The centre of a detected marker, in image pixel coordinates. */
  datatype Point = Point(x: real, y: real)

  /** Number of bands that produced a point (0, 1 or 2). */
  function Detected(rose: Option<Point>, green: Option<Point>): (n: nat)
    ensures n <= 2
    ensures n == 0 <==> rose.None? && green.None?
    ensures n == 2 <==> rose.Some? && green.Some?
  {
    |ToSeq(rose)| + |ToSeq(green)|
  }

  /**
   * The list detect_and_track_points returns, given each band's point and the
   * previous list: the found points, rose first and green second, or the
   * previous list untouched when neither band found anything.
   */
  function Located(rose: Option<Point>, green: Option<Point>, prev: seq<Point>): (r: seq<Point>)
    // total dropout: the previous list comes back verbatim
    ensures rose.None? && green.None? ==> r == prev
    // otherwise exactly the new points, in band order, nothing from prev
    ensures rose.Some? || green.Some? ==>
              && |r| == Detected(rose, green)
              && 1 <= |r| <= 2
              && (rose.Some? ==> r[0] == rose.value)
              && (green.Some? ==> r[|r| - 1] == green.value)
    ensures |prev| <= 2 ==> |r| <= 2
    ensures |r| == 2 <==> (rose.Some? && green.Some?) || (rose.None? && green.None? && |prev| == 2)
  {
    var found := ToSeq(rose) + ToSeq(green);
    if |found| == 0 then prev else found
  }

  /**
   * The tail of detect_and_track_points: build the list by appending each
   * band's point in turn, then fall back to prev when the list is empty.
   */
  method DetectAndTrack(rose: Option<Point>, green: Option<Point>, prev: seq<Point>)
    returns (centers: seq<Point>)
    ensures centers == Located(rose, green, prev)
  {
    centers := [];
    if rose.Some? {
      centers := centers + [rose.value];
    }
    if green.Some? {
      centers := centers + [green.value];
    }
    if |centers| == 0 {
      centers := prev;
    }
  }
}
