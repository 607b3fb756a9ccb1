/**
 * The candidate filter of `ImageProcessor.find_contours`
 * (image_processor.py, lines 92-118), as a specification on values.
 */
module ContourFilter {
  import opened Geometry
  import opened Tunables

  /**
   * A raw contour survives when its simplification has strictly between 3 and
   * 15 vertices and the simplification's bounding box is strictly taller than
   * `minHeight` and strictly wider than `minWidth`.
   */
  predicate Survives(cfg: Config, ops: Ops, cnt: Contour)
  {
    var approx := ops.simplify(cnt);
    3 < |approx| < 15 &&
    var r := BoundingRect(approx);
    r.h as real > cfg.minHeight && r.w as real > cfg.minWidth
  }

  /** What a survivor contributes: the simplification of its convex hull. */
  function Candidate(ops: Ops, cnt: Contour): Contour
  {
    ops.simplify(ops.hull(cnt))
  }

  /** The filter's output for a list of raw contours, built in scan order. */
  function FilterContours(cfg: Config, ops: Ops, raw: seq<Contour>): (r: seq<Contour>)
    ensures |r| <= |raw|
    decreases |raw|
  {
    if raw == [] then []
    else
      var last := raw[|raw| - 1];
      FilterContours(cfg, ops, raw[..|raw| - 1]) + (if Survives(cfg, ops, last) then [Candidate(ops, last)] else [])
  }

  /** The positions in `s` of the elements `keep` accepts, in scan order. */
  function Positions<T>(keep: T -> bool, s: seq<T>): seq<nat>
    decreases |s|
  {
    if s == [] then []
    else Positions(keep, s[..|s| - 1]) + (if keep(s[|s| - 1]) then [|s| - 1] else [])
  }

  /**
   * The positions listed are exactly those of the accepted elements, in
   * strictly increasing order.
   */
  lemma {:induction false} PositionsInOrder<T>(keep: T -> bool, s: seq<T>)
    ensures var idx := Positions(keep, s);
      (forall k :: 0 <= k < |idx| ==> idx[k] < |s|) &&
      (forall k :: 0 <= k < |idx| ==> keep(s[idx[k]])) &&
      (forall k, l :: 0 <= k < l < |idx| ==> idx[k] < idx[l]) &&
      (forall i :: 0 <= i < |s| && keep(s[i]) ==> i in idx)
  {
    if s != [] {
      var n := |s| - 1;
      var init := s[..n];
      PositionsInOrder(keep, init);
      var idx0, idx := Positions(keep, init), Positions(keep, s);
      assert idx == idx0 + (if keep(s[n]) then [n] else []);
      assert forall i :: 0 <= i < n ==> init[i] == s[i];
      forall k | 0 <= k < |idx0|
        ensures idx[k] == idx0[k] < n && keep(s[idx[k]])
      {
        assert idx0[k] < |init| && keep(init[idx0[k]]);
        assert init[idx0[k]] == s[idx0[k]];
      }
    }
  }

  /** The survival test as a value, for `Positions`. */
  function Survival(cfg: Config, ops: Ops): Contour -> bool
  {
    cnt => Survives(cfg, ops, cnt)
  }

  /** The positions of the surviving raw contours. */
  function SurvivorIndices(cfg: Config, ops: Ops, raw: seq<Contour>): seq<nat>
  {
    Positions(Survival(cfg, ops), raw)
  }

  /**
   * The survivor positions are exactly the surviving raw contours, listed by
   * strictly increasing position.
   */
  lemma SurvivorIndicesInOrder(cfg: Config, ops: Ops, raw: seq<Contour>)
    ensures var idx := SurvivorIndices(cfg, ops, raw);
      (forall k :: 0 <= k < |idx| ==> idx[k] < |raw| && Survives(cfg, ops, raw[idx[k]])) &&
      (forall k, l :: 0 <= k < l < |idx| ==> idx[k] < idx[l]) &&
      (forall i :: 0 <= i < |raw| && Survives(cfg, ops, raw[i]) ==> i in idx)
  {
    var keep, idx := Survival(cfg, ops), SurvivorIndices(cfg, ops, raw);
    PositionsInOrder(keep, raw);
    assert idx == Positions(keep, raw);
    forall k | 0 <= k < |idx|
      ensures idx[k] < |raw| && keep(raw[idx[k]])
    {
      assert Positions(keep, raw)[k] == idx[k];
    }
    assert forall i :: 0 <= i < |raw| && keep(raw[i]) ==> i in idx;
    assert forall c :: keep(c) == Survives(cfg, ops, c);
  }

  /**
   * The filter emits exactly one candidate per surviving raw contour, in input
   * order: the k-th output is the candidate of the k-th survivor.
   */
  lemma {:induction false} FilterIsSurvivorsInOrder(cfg: Config, ops: Ops, raw: seq<Contour>)
    ensures var r, idx := FilterContours(cfg, ops, raw), SurvivorIndices(cfg, ops, raw);
      |idx| == |r| &&
      forall k :: 0 <= k < |idx| ==> idx[k] < |raw| && r[k] == Candidate(ops, raw[idx[k]])
  {
    if raw != [] {
      var init := raw[..|raw| - 1];
      FilterIsSurvivorsInOrder(cfg, ops, init);
      assert forall i :: 0 <= i < |init| ==> init[i] == raw[i];
    }
  }

  /**
   * With faithful OpenCV operations, every candidate of an in-frame raw list is
   * in the frame, and a non-empty output proves the frame has positive area.
   */
  lemma {:induction false} FilterKeepsFrame(cfg: Config, ops: Ops, raw: seq<Contour>, height: nat, width: nat)
    requires Faithful(ops)
    requires forall i :: 0 <= i < |raw| ==> ContourInFrame(raw[i], height, width)
    ensures forall k :: 0 <= k < |FilterContours(cfg, ops, raw)| ==> ContourInFrame(FilterContours(cfg, ops, raw)[k], height, width)
    ensures FilterContours(cfg, ops, raw) != [] ==> 0 < height && 0 < width
  {
    if raw != [] {
      var init, last := raw[..|raw| - 1], raw[|raw| - 1];
      FilterKeepsFrame(cfg, ops, init, height, width);
      if Survives(cfg, ops, last) {
        KeepsFrame(ops.hull, last, height, width);
        KeepsFrame(ops.simplify, ops.hull(last), height, width);
        var approx := ops.simplify(last);
        assert approx[0] in approx;
        var m :| 0 <= m < |last| && last[m] == approx[0];
        assert InFrame(last[m], height, width);
      }
    }
  }
}
