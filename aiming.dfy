/**
 * The aiming formulas of `process_for_gear_target` (image_processor.py,
 * lines 223-224), over the reals. The source names the vertical one `angle`
 * and the horizontal one `height`; the model keeps those names.
 */
module Aiming {

  /** The Lifecam 3000's vertical field of view, in degrees. */
  const VFOV: real := 45.6

  /** The Lifecam 3000's horizontal field of view, in degrees. */
  const HFOV: real := 61.0

  /**
   * `angle = VFOV * cy / h - VFOV / 2`: a centroid row inside the frame gives
   * a value within half the vertical field of view, and the frame's middle row
   * gives exactly zero.
   */
  function Angle(cy: real, h: real): (a: real)
    requires h > 0.0
    ensures 0.0 <= cy <= h ==> -VFOV / 2.0 <= a <= VFOV / 2.0
    ensures a == 0.0 <==> cy == h / 2.0
  {
    FovBound(VFOV, cy, h);
    VFOV * cy / h - VFOV / 2.0
  }

  /**
   * `height = HFOV * cx / w - HFOV / 2`: a centroid column inside the frame
   * gives a value within half the horizontal field of view, and the frame's
   * middle column gives exactly zero.
   */
  function Height(cx: real, w: real): (a: real)
    requires w > 0.0
    ensures 0.0 <= cx <= w ==> -HFOV / 2.0 <= a <= HFOV / 2.0
    ensures a == 0.0 <==> cx == w / 2.0
  {
    FovBound(HFOV, cx, w);
    HFOV * cx / w - HFOV / 2.0
  }

  /** The shared arithmetic: `fov * c / d - fov / 2` lies in `[-fov/2, fov/2]` for `0 <= c <= d`. */
  lemma FovBound(fov: real, c: real, d: real)
    requires fov > 0.0 && d > 0.0
    ensures 0.0 <= c <= d ==> -fov / 2.0 <= fov * c / d - fov / 2.0 <= fov / 2.0
    ensures fov * c / d - fov / 2.0 == 0.0 <==> c == d / 2.0
  {
    var q := c / d;
    assert fov * c / d == fov * q;
    assert c == q * d;
    if 0.0 <= c <= d {
      assert 0.0 <= q <= 1.0;
    }
  }
}
