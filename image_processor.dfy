/**
 * The `ImageProcessor` class of image_processor.py: its size-keyed working
 * buffers, the candidate filter of `find_contours`, the target rules of
 * `process_for_gear_target` over the `targets` lists, and `process_frame`.
 * Each method is proved against the value specifications of the other modules.
 */
module ImageProcessing {
  import opened Wrappers
  import opened Geometry
  import opened Tunables
  import opened Aiming
  import opened ContourFilter
  import opened GearRules

  /** numpy's `uint8`. */
  newtype uint8 = x: int | 0 <= x < 256

  /** One colour pixel, channels in OpenCV's blue-green-red order. */
  datatype Pixel = Pixel(b: uint8, g: uint8, r: uint8)

  const BlackPixel: Pixel := Pixel(0, 0, 0)

  /** Copy `src` into `dst` cell by cell (`copyMakeBorder` with an empty border); the two may be one array. */
  method CopyFrame(src: array2<Pixel>, dst: array2<Pixel>)
    requires src.Length0 == dst.Length0 && src.Length1 == dst.Length1
    modifies dst
    ensures forall i, j :: 0 <= i < dst.Length0 && 0 <= j < dst.Length1 ==> dst[i, j] == old(src[i, j])
  {
    var i := 0;
    while i < dst.Length0
      invariant 0 <= i <= dst.Length0
      invariant forall p, q :: 0 <= p < i && 0 <= q < dst.Length1 ==> dst[p, q] == old(src[p, q])
      invariant forall p, q :: i <= p < dst.Length0 && 0 <= q < dst.Length1 ==> src[p, q] == old(src[p, q])
    {
      var j := 0;
      while j < dst.Length1
        invariant 0 <= j <= dst.Length1
        invariant forall p, q :: 0 <= p < i && 0 <= q < dst.Length1 ==> dst[p, q] == old(src[p, q])
        invariant forall q :: 0 <= q < j ==> dst[i, q] == old(src[i, q])
        invariant forall p, q :: i <= p < dst.Length0 && 0 <= q < dst.Length1 && (p > i || q >= j) ==> src[p, q] == old(src[p, q])
      {
        dst[i, j] := src[i, j];
        j := j + 1;
      }
      i := i + 1;
    }
  }

  class ImageProcessor {
    /** The `(h, w)` the buffers were allocated for; `None` until the first frame. */
    var size: Option<(nat, nat)>
    var img: array2<Pixel>
    var hsv: array2<Pixel>
    var bin: array2<uint8>
    var bin2: array2<uint8>
    var out: array2<Pixel>
    /** Overlay buffers: an all-false mask and an all-black image. */
    var zeros: array2<bool>
    var black: array2<Pixel>
    /** The 2x2 rectangular structuring element of the closing step. */
    var morphKernel: array2<uint8>
    /** `self.targets['complete']` and `self.targets['broken']`. */
    var complete: seq<TargetInfo>
    var broken: seq<TargetInfo>

    /** Every working buffer has `h` rows and `w` columns; the kernel is 2x2. */
    ghost predicate Sized(h: nat, w: nat)
      reads this
    {
      img.Length0 == h && img.Length1 == w &&
      hsv.Length0 == h && hsv.Length1 == w &&
      bin.Length0 == h && bin.Length1 == w &&
      bin2.Length0 == h && bin2.Length1 == w &&
      out.Length0 == h && out.Length1 == w &&
      zeros.Length0 == h && zeros.Length1 == w &&
      black.Length0 == h && black.Length1 == w &&
      morphKernel.Length0 == 2 && morphKernel.Length1 == 2
    }

    /** Once a size is cached, the buffers have that size. */
    ghost predicate Valid()
      reads this
    {
      size.Some? ==> Sized(size.value.0, size.value.1)
    }

    /** A frame with these dimensions makes `preallocate` allocate new buffers. */
    predicate SizeChanges(h: nat, w: nat)
      reads this
    {
      size.None? || size.value.0 != h || size.value.1 != w
    }

    constructor ()
      ensures Valid() && size == None
      ensures complete == [] && broken == []
    {
      size := None;
      img, hsv, out, black := new Pixel[0, 0], new Pixel[0, 0], new Pixel[0, 0], new Pixel[0, 0];
      bin, bin2, morphKernel := new uint8[0, 0], new uint8[0, 0], new uint8[0, 0];
      zeros := new bool[0, 0];
      complete, broken := [], [];
    }

    /** Fresh colour buffers (`img`, `hsv`, `out`, and the all-black overlay) of `h` rows and `w` columns. */
    method AllocateImages(h: nat, w: nat)
      modifies this`img, this`hsv, this`out, this`black
      ensures fresh(img) && fresh(hsv) && fresh(out) && fresh(black)
      ensures img.Length0 == h && img.Length1 == w && hsv.Length0 == h && hsv.Length1 == w
      ensures out.Length0 == h && out.Length1 == w && black.Length0 == h && black.Length1 == w
      ensures out != black
      ensures forall i, j :: 0 <= i < h && 0 <= j < w ==> black[i, j] == BlackPixel
    {
      img := new Pixel[h, w];
      hsv := new Pixel[h, w];
      out := new Pixel[h, w];
      black := new Pixel[h, w]((i, j) => BlackPixel);
    }

    /** Fresh single-channel buffers (`bin`, `bin2`, the all-false overlay mask) and the 2x2 all-ones kernel. */
    method AllocateMasks(h: nat, w: nat)
      modifies this`bin, this`bin2, this`zeros, this`morphKernel
      ensures fresh(bin) && fresh(bin2) && fresh(zeros) && fresh(morphKernel)
      ensures bin.Length0 == h && bin.Length1 == w && bin2.Length0 == h && bin2.Length1 == w
      ensures zeros.Length0 == h && zeros.Length1 == w && morphKernel.Length0 == 2 && morphKernel.Length1 == 2
      ensures forall i, j :: 0 <= i < h && 0 <= j < w ==> !zeros[i, j]
      ensures forall i, j :: 0 <= i < 2 && 0 <= j < 2 ==> morphKernel[i, j] == 1
    {
      bin := new uint8[h, w];
      bin2 := new uint8[h, w];
      zeros := new bool[h, w]((i, j) => false);
      morphKernel := new uint8[2, 2]((i, j) => 1);
    }

    /** The allocation branch of `preallocate` (lines 50-65): cache the size and allocate every buffer. */
    method Allocate(h: nat, w: nat)
      modifies this`size, this`img, this`hsv, this`bin, this`bin2, this`out, this`zeros, this`black, this`morphKernel
      ensures Valid() && size == Some((h, w))
      ensures fresh(img) && fresh(hsv) && fresh(bin) && fresh(bin2) && fresh(out)
      ensures fresh(zeros) && fresh(black) && fresh(morphKernel) && out != black
      ensures forall i, j :: 0 <= i < h && 0 <= j < w ==> !zeros[i, j] && black[i, j] == BlackPixel
      ensures forall i, j :: 0 <= i < 2 && 0 <= j < 2 ==> morphKernel[i, j] == 1
    {
      size := Some((h, w));
      AllocateImages(h, w);
      AllocateMasks(h, w);
    }

    /**
     * `preallocate`: cache the frame's size, allocate fresh buffers of that size
     * exactly when it differs from the cached one (or none is cached), keep the
     * same buffer objects otherwise, and copy the frame into `out`.
     */
    method Preallocate(frame: array2<Pixel>)
      requires Valid()
      modifies this`size, this`img, this`hsv, this`bin, this`bin2, this`out, this`zeros, this`black, this`morphKernel, out
      ensures Valid() && size == Some((frame.Length0, frame.Length1))
      ensures old(SizeChanges(frame.Length0, frame.Length1)) ==>
        fresh(img) && fresh(hsv) && fresh(bin) && fresh(bin2) && fresh(out) &&
        fresh(zeros) && fresh(black) && fresh(morphKernel) &&
        (forall i, j :: 0 <= i < frame.Length0 && 0 <= j < frame.Length1 ==> !zeros[i, j] && black[i, j] == BlackPixel) &&
        (forall i, j :: 0 <= i < 2 && 0 <= j < 2 ==> morphKernel[i, j] == 1)
      ensures !old(SizeChanges(frame.Length0, frame.Length1)) ==>
        img == old(img) && hsv == old(hsv) && bin == old(bin) && bin2 == old(bin2) && out == old(out) &&
        zeros == old(zeros) && black == old(black) && morphKernel == old(morphKernel)
      ensures forall i, j :: 0 <= i < frame.Length0 && 0 <= j < frame.Length1 ==> out[i, j] == old(frame[i, j])
    {
      if SizeChanges(frame.Length0, frame.Length1) {
        Allocate(frame.Length0, frame.Length1);
      }
      CopyFrame(frame, out);
    }

    /**
     * The filter loop of `find_contours` over the contours OpenCV found in the
     * thresholded frame: it yields exactly the specified candidate list.
     */
    static method FindContours(cfg: Config, ops: Ops, contours: seq<Contour>) returns (result: seq<Contour>)
      ensures result == FilterContours(cfg, ops, contours)
    {
      result := [];
      for k := 0 to |contours|
        invariant result == FilterContours(cfg, ops, contours[..k])
      {
        var cnt := contours[k];
        var approx := ops.simplify(cnt);
        assert contours[..k + 1][..k] == contours[..k];
        if 3 < |approx| < 15 {
          var r := BoundingRect(approx);
          if r.h as real > cfg.minHeight && r.w as real > cfg.minWidth {
            var hull := ops.hull(cnt);
            var approx2 := ops.simplify(hull);
            result := result + [approx2];
          }
        }
      }
      assert contours[..|contours|] == contours;
    }

    /**
     * The inner loop of both selection passes (lines 187-189 and 206-208):
     * `greater_than` stays true exactly when no element from `i` on has a
     * greater `cx`. It shifts both sides by `h / 2`, as the source does.
     */
    static method GreaterThanRest(cs: seq<TargetInfo>, i: nat, h: real) returns (greaterThan: bool)
      requires i < |cs|
      ensures greaterThan <==> SuffixMax(cs, i)
    {
      var g := cs[i];
      greaterThan := true;
      for k := i to |cs|
        invariant greaterThan <==> forall m :: i <= m < k ==> cs[m].cx <= g.cx
      {
        if g.cx - (h / 2.0) < cs[k].cx - (h / 2.0) {
          greaterThan := false;
        }
      }
    }

    /**
     * Lines 132-142: reset both lists and sort every candidate into `broken`
     * (square-ish), `complete` (tall) or neither; `target_info` is left at the
     * last candidate classified.
     */
    method ClassifyCandidates(cfg: Config, contours: seq<Contour>) returns (targetInfo: Option<TargetInfo>)
      modifies this`complete, this`broken
      ensures complete == OfKind(cfg, Infos(contours), Complete)
      ensures broken == OfKind(cfg, Infos(contours), Broken)
      ensures targetInfo == if contours == [] then None else Some(GetContourInfo(contours[|contours| - 1]))
    {
      ghost var infos := Infos(contours);
      complete, broken := [], [];
      targetInfo := None;
      for k := 0 to |contours|
        invariant complete == OfKind(cfg, infos[..k], Complete)
        invariant broken == OfKind(cfg, infos[..k], Broken)
        invariant targetInfo == if k == 0 then None else Some(infos[k - 1])
      {
        var t := GetContourInfo(contours[k]);
        assert infos[..k + 1][..k] == infos[..k] && infos[..k + 1][k] == t;
        if t.w as real >= t.h as real - cfg.squareTolerance && t.w as real <= t.h as real + cfg.squareTolerance {
          broken := broken + [t];
        } else if t.w < t.h {
          complete := complete + [t];
        }
        targetInfo := Some(t);
      }
      assert infos[..|contours|] == infos;
    }

    /**
     * Lines 145-165: merge the first pair of broken targets within both
     * tolerances, append the merged blob to `complete` and reset `broken`, which
     * ends the scan; `target_info` becomes the merged blob.
     */
    method PatchBroken(cfg: Config, ops: Ops, last: Option<TargetInfo>) returns (targetInfo: Option<TargetInfo>)
      modifies this`complete, this`broken
      ensures var p := Patched(cfg, ops, old(broken), old(complete));
        complete == p.complete && broken == p.broken &&
        targetInfo == (if p.merged.Some? then p.merged else last)
    {
      targetInfo := last;
      var bs, cs := broken, complete;
      ghost var merged: Option<TargetInfo> := None;
      var i := 0;
      while i < |bs|
        invariant 0 <= i <= |bs|
        invariant merged.None? ==>
          broken == bs && complete == cs && targetInfo == last && FirstPair(cfg, bs, 0) == FirstPair(cfg, bs, i)
        invariant merged.Some? ==>
          Patched(cfg, ops, bs, cs) == Patch(complete, broken, merged) && broken == [] && targetInfo == merged
      {
        if |broken| == 0 {
          break;
        }
        targetInfo, merged := MergeWithPartner(cfg, ops, bs, i, targetInfo);
        i := i + 1;
      }
    }

    /**
     * Lines 149-165 for the broken target at position `i`: merge it with the
     * first later broken target within both tolerances, if there is one.
     */
    method MergeWithPartner(cfg: Config, ops: Ops, bs: seq<TargetInfo>, i: nat, last: Option<TargetInfo>)
      returns (targetInfo: Option<TargetInfo>, ghost merged: Option<TargetInfo>)
      requires i < |bs| && broken == bs
      modifies this`complete, this`broken
      ensures var j := FirstPartner(cfg, bs, i, i + 1);
        if j.None? then
          complete == old(complete) && broken == bs && targetInfo == last && merged == None
        else
          var m := Merged(ops, bs[i], bs[j.value]);
          complete == old(complete) + [m] && broken == [] && targetInfo == Some(m) && merged == Some(m)
    {
      targetInfo, merged := last, None;
      var b := bs[i];
      var rest := broken[i + 1..];
      var j := 0;
      while j < |rest|
        invariant 0 <= j <= |rest| && rest == bs[i + 1..]
        invariant complete == old(complete) && broken == bs && targetInfo == last && merged == None
        invariant FirstPartner(cfg, bs, i, i + 1) == FirstPartner(cfg, bs, i, i + 1 + j)
      {
        var b2 := rest[j];
        if b.cx >= b2.cx - cfg.brokenToleranceX && b.cx <= b2.cx + cfg.brokenToleranceX {
          if b.cy >= b2.cy - cfg.brokenToleranceY && b.cy <= b2.cy + cfg.brokenToleranceY {
            assert b2 == bs[i + 1 + j];
            var newBlob := ops.simplify(ops.hull(b.cnt + b2.cnt));
            var t := GetContourInfo(newBlob);
            complete := complete + [t];
            broken := [];
            targetInfo, merged := Some(t), Some(t);
            return;
          }
        }
        j := j + 1;
      }
    }

    /**
     * Lines 183-194: scan `complete` for the first target that no later one
     * beats and remove it; that is always the first target of greatest `cx`.
     */
    method TakeCenterMost(h: real) returns (centerMost: TargetInfo)
      requires |complete| > 0
      modifies this`complete
      ensures centerMost == PrimaryOf(old(complete))
      ensures complete == RemoveFirst(old(complete), centerMost)
    {
      var all := complete;
      PrimaryIsFirstMax(all);
      centerMost := all[0];
      var i := 0;
      while i < |all|
        invariant 0 <= i <= |all|
        invariant complete == all && PrimaryFrom(all, 0) == PrimaryFrom(all, i)
      {
        var g := all[i];
        var greaterThan := GreaterThanRest(complete, i, h);
        if greaterThan {
          centerMost := g;
          complete := RemoveFirst(complete, g);
          return;
        }
        i := i + 1;
      }
      // Some target always beats the rest, so the scan never runs off the end
      assert false;
    }

    /**
     * Lines 198-215: the first remaining target within `gear_spacing` primary
     * heights (strictly) that no later target beats becomes the secondary; its
     * contour is joined to the primary's and `partial` turns false.
     */
    static method FindSecondary(cfg: Config, rest: seq<TargetInfo>, primary: TargetInfo, h: real)
      returns (partial: bool, mainContour: Contour)
      ensures var s := SecondaryFrom(cfg, rest, primary, 0);
        partial == s.None? &&
        mainContour == if s.Some? then rest[s.value].cnt + primary.cnt else primary.cnt
    {
      mainContour := primary.cnt;
      partial := true;
      if |rest| > 0 {
        var i := 0;
        while i < |rest|
          invariant 0 <= i <= |rest|
          invariant partial && mainContour == primary.cnt
          invariant SecondaryFrom(cfg, rest, primary, 0) == SecondaryFrom(cfg, rest, primary, i)
        {
          var g := rest[i];
          var greaterThan := true;
          if Abs(g.cx - primary.cx) < SpacingLimit(cfg, primary) {
            greaterThan := GreaterThanRest(rest, i, h);
          } else {
            greaterThan := false;
          }
          assert greaterThan == Qualifies(cfg, rest, primary, i);
          if greaterThan {
            assert SecondaryFrom(cfg, rest, primary, i) == Some(i);
            mainContour := g.cnt + mainContour;
            partial := false;
            break;
          }
          assert SecondaryFrom(cfg, rest, primary, i) == SecondaryFrom(cfg, rest, primary, i + 1);
          i := i + 1;
        }
      }
    }

    /**
     * `process_for_gear_target`: rebuilds `complete` and `broken`, patches broken
     * targets, selects the primary and an optional secondary and returns what the
     * source publishes, with the aiming contour the overlay would draw.
     */
    method ProcessForGearTarget(cfg: Config, ops: Ops, contours: seq<Contour>) returns (outcome: GearOutcome, aim: Option<Contour>)
      modifies this`complete, this`broken
      ensures var st := GearSpec(cfg, ops, contours, size);
        outcome == st.outcome && aim == st.aim && complete == st.complete && broken == st.broken
    {
      var targetInfo := ClassifyCandidates(cfg, contours);
      ghost var infos := Infos(contours);
      targetInfo := PatchBroken(cfg, ops, targetInfo);
      ghost var p := PatchOf(cfg, ops, contours);

      // No complete target: only "absent" is published
      if |complete| == 0 {
        outcome, aim := Absent, None;
        return;
      }
      if size.None? {
        outcome, aim := Raised(NoFrameSize), None;
        return;
      }
      PatchedFromCandidates(cfg, ops, contours);
      assert targetInfo == Some(AimingInfo(infos, p.merged));

      var h, w := size.value.0 as real, size.value.1 as real;
      var primary := TakeCenterMost(h);
      var partial, mainContour := FindSecondary(cfg, complete, primary, h);

      // Aiming contour (drawn by the overlay; the published numbers do not use it)
      mainContour := ops.simplify(ops.hull(mainContour));
      aim := Some(mainContour);

      var t := targetInfo.value;
      if h == 0.0 || w == 0.0 {
        outcome := Raised(ZeroDivision);
        return;
      }
      outcome := Present(partial, Angle(t.cy, h), Height(t.cx, w));
    }

    /**
     * `process_frame`: `preallocate`, the candidate filter and the target rules
     * in turn; it returns `out`, the copy of the frame. On contours inside the
     * frame, with faithful OpenCV operations, it never raises and the published
     * angles lie within half the fields of view.
     */
    method ProcessFrame(frame: array2<Pixel>, cfg: Config, ops: Ops, raw: seq<Contour>) returns (result: array2<Pixel>, outcome: GearOutcome)
      requires Valid()
      modifies this`size, this`img, this`hsv, this`bin, this`bin2, this`out, this`zeros, this`black, this`morphKernel, out
      modifies this`complete, this`broken
      ensures Valid() && size == Some((frame.Length0, frame.Length1)) && result == out
      ensures old(SizeChanges(frame.Length0, frame.Length1)) ==>
        fresh(img) && fresh(hsv) && fresh(bin) && fresh(bin2) && fresh(out) &&
        fresh(zeros) && fresh(black) && fresh(morphKernel)
      ensures !old(SizeChanges(frame.Length0, frame.Length1)) ==>
        img == old(img) && hsv == old(hsv) && bin == old(bin) && bin2 == old(bin2) && out == old(out) &&
        zeros == old(zeros) && black == old(black) && morphKernel == old(morphKernel)
      ensures forall i, j :: 0 <= i < frame.Length0 && 0 <= j < frame.Length1 ==> result[i, j] == old(frame[i, j])
      ensures var st := GearSpec(cfg, ops, FilterContours(cfg, ops, raw), size);
        outcome == st.outcome && complete == st.complete && broken == st.broken
      ensures Faithful(ops) && (forall k :: 0 <= k < |raw| ==> ContourInFrame(raw[k], frame.Length0, frame.Length1)) ==>
        !outcome.Raised? &&
        (outcome.Present? ==> -VFOV / 2.0 <= outcome.angle <= VFOV / 2.0 && -HFOV / 2.0 <= outcome.height <= HFOV / 2.0)
    {
      Preallocate(frame);
      var cnt := FindContours(cfg, ops, raw);
      var aim;
      outcome, aim := ProcessForGearTarget(cfg, ops, cnt);
      result := out;
      if Faithful(ops) && (forall k :: 0 <= k < |raw| ==> ContourInFrame(raw[k], frame.Length0, frame.Length1)) {
        FilterKeepsFrame(cfg, ops, raw, frame.Length0, frame.Length1);
        PublishedWithinFieldOfView(cfg, ops, cnt, frame.Length0, frame.Length1);
      }
    }
  }
}
