/**
 * The detector's tunables and the OpenCV contour operations it relies on.
 * The tunables are NetworkTables numbers (doubles) that the source reads
 * live; here they are one immutable record passed into each call.
 */
module Tunables {
  import opened Geometry

  /** The `ntproperty` tunables that the contour rules read (image_processor.py, lines 18-32). */
  datatype Config = Config(
    minWidth: real,
    minHeight: real,
    squareTolerance: real,
    brokenToleranceX: real,
    brokenToleranceY: real,
    gearSpacing: real)

  /** The values the source publishes as defaults. */
  const Defaults: Config := Config(5.0, 10.0, 10.0, 2.0, 20.0, 2.0)

  /**
   * The OpenCV contour operations, left uninterpreted:
   * `simplify(c)` is `approxPolyDP(c, 0.01 * arcLength(c, True), True)` and
   * `hull(c)` is `convexHull(c)`.
   */
  datatype Ops = Ops(simplify: Contour -> Contour, hull: Contour -> Contour)

  /** `f` only ever returns points taken from its argument. */
  ghost predicate KeepsPoints(f: Contour -> Contour)
  {
    forall c: Contour, p: Point :: p in f(c) ==> p in c
  }

  /**
   * What OpenCV guarantees of both operations and the model uses where it
   * needs it: polygon simplification and the convex hull keep a subset of
   * the input points.
   */
  ghost predicate Faithful(ops: Ops)
  {
    KeepsPoints(ops.simplify) && KeepsPoints(ops.hull)
  }

  /** A contour operation keeps an in-frame contour in the frame when it keeps points. */
  lemma KeepsFrame(f: Contour -> Contour, c: Contour, height: int, width: int)
    requires KeepsPoints(f)
    requires ContourInFrame(c, height, width)
    ensures ContourInFrame(f(c), height, width)
  {
    forall k | 0 <= k < |f(c)|
      ensures InFrame(f(c)[k], height, width)
    {
      assert f(c)[k] in f(c);
      var m :| 0 <= m < |c| && c[m] == f(c)[k];
    }
  }
}
