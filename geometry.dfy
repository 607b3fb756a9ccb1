/**
 * Integer contour geometry: OpenCV's `boundingRect` on integer points and the
 * candidate record built by `ImageProcessor.get_contour_info`.
 */
module Geometry {

  /** A contour point `(x, y)`: `x` is the column and `y` the row, as OpenCV stores them. */
  type Point = (int, int)

  /** A contour is the ordered list of its points. */
  type Contour = seq<Point>

  /** An axis-aligned box: top-left corner `(x, y)`, width `w`, height `h`. */
  datatype Rect = Rect(x: int, y: int, w: int, h: int)

  /** The columns of a contour's points. */
  function Xs(c: Contour): seq<int>
  {
    seq(|c|, k requires 0 <= k < |c| => c[k].0)
  }

  /** The rows of a contour's points. */
  function Ys(c: Contour): seq<int>
  {
    seq(|c|, k requires 0 <= k < |c| => c[k].1)
  }

  /** The least element of a non-empty list. */
  function MinOf(s: seq<int>): (m: int)
    requires |s| > 0
    ensures exists k :: 0 <= k < |s| && s[k] == m
    ensures forall k :: 0 <= k < |s| ==> m <= s[k]
  {
    if |s| == 1 then s[0]
    else
      var m' := MinOf(s[1..]);
      if s[0] <= m' then s[0] else m'
  }

  /** The greatest element of a non-empty list. */
  function MaxOf(s: seq<int>): (m: int)
    requires |s| > 0
    ensures exists k :: 0 <= k < |s| && s[k] == m
    ensures forall k :: 0 <= k < |s| ==> s[k] <= m
  {
    if |s| == 1 then s[0]
    else
      var m' := MaxOf(s[1..]);
      if s[0] >= m' then s[0] else m'
  }

  /**
   * OpenCV's `boundingRect` of a point set: the smallest box of whole pixels
   * that holds every point, so a single point has width and height 1. An empty
   * contour gets the all-zero box.
   */
  function BoundingRect(c: Contour): (r: Rect)
    ensures c == [] ==> r == Rect(0, 0, 0, 0)
    ensures c != [] ==> 1 <= r.w && 1 <= r.h
  {
    if c == [] then Rect(0, 0, 0, 0)
    else
      var xs, ys := Xs(c), Ys(c);
      var x0, x1 := MinOf(xs), MaxOf(xs);
      var y0, y1 := MinOf(ys), MaxOf(ys);
      Rect(x0, y0, x1 - x0 + 1, y1 - y0 + 1)
  }

  /**
   * The box is tight: it holds every point of the contour, and each of its four
   * edges passes through some point.
   */
  lemma BoundingRectIsTight(c: Contour)
    ensures var r := BoundingRect(c);
      (forall k :: 0 <= k < |c| ==> r.x <= c[k].0 < r.x + r.w && r.y <= c[k].1 < r.y + r.h) &&
      (c != [] ==>
        (exists k :: 0 <= k < |c| && c[k].0 == r.x) &&
        (exists k :: 0 <= k < |c| && c[k].0 == r.x + r.w - 1) &&
        (exists k :: 0 <= k < |c| && c[k].1 == r.y) &&
        (exists k :: 0 <= k < |c| && c[k].1 == r.y + r.h - 1))
  {
    if c != [] {
      var xs, ys := Xs(c), Ys(c);
      assert forall k :: 0 <= k < |c| ==> xs[k] == c[k].0 && ys[k] == c[k].1;
    }
  }

  /**
   * A candidate as `process_for_gear_target` keeps it: the bounding box, its
   * centre (true division, hence `real`) and the contour itself (`'cnt'`).
   */
  datatype TargetInfo = TargetInfo(x: int, y: int, w: int, h: int, cx: real, cy: real, cnt: Contour)

  /**
   * `get_contour_info` followed by the `'cnt'` assignment its callers make:
   * the box is the bounding box, and the centroid is the box's centre, equally
   * far from its left and right (top and bottom) edges.
   */
  function GetContourInfo(c: Contour): (t: TargetInfo)
    ensures t.cnt == c
    ensures Rect(t.x, t.y, t.w, t.h) == BoundingRect(c)
    ensures t.cx - t.x as real == (t.x + t.w) as real - t.cx
    ensures t.cy - t.y as real == (t.y + t.h) as real - t.cy
  {
    var r := BoundingRect(c);
    TargetInfo(r.x, r.y, r.w, r.h, r.x as real + r.w as real / 2.0, r.y as real + r.h as real / 2.0, c)
  }

  /** A point lies in a frame of `height` rows and `width` columns. */
  predicate InFrame(p: Point, height: int, width: int)
  {
    0 <= p.0 < width && 0 <= p.1 < height
  }

  /** Every point of the contour lies in the frame. */
  predicate ContourInFrame(c: Contour, height: int, width: int)
  {
    forall k :: 0 <= k < |c| ==> InFrame(c[k], height, width)
  }

  /**
   * A contour inside the frame has its centroid inside the closed frame
   * rectangle; a non-empty one also proves the frame has positive area.
   */
  lemma CentroidInFrame(c: Contour, height: nat, width: nat)
    requires ContourInFrame(c, height, width)
    ensures var t := GetContourInfo(c);
      0.0 <= t.cx <= width as real && 0.0 <= t.cy <= height as real
    ensures c != [] ==> 0 < height && 0 < width
  {
    var t := GetContourInfo(c);
    BoundingRectIsTight(c);
    if c != [] {
      assert InFrame(c[0], height, width);
      var k0 :| 0 <= k0 < |c| && c[k0].0 == t.x;
      var k1 :| 0 <= k1 < |c| && c[k1].0 == t.x + t.w - 1;
      var l0 :| 0 <= l0 < |c| && c[l0].1 == t.y;
      var l1 :| 0 <= l1 < |c| && c[l1].1 == t.y + t.h - 1;
      assert InFrame(c[k0], height, width) && InFrame(c[k1], height, width);
      assert InFrame(c[l0], height, width) && InFrame(c[l1], height, width);
    }
  }
}
