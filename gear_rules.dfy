/**
 * The target rules of `ImageProcessor.process_for_gear_target`
 * (image_processor.py, lines 130-229) as a specification on values:
 * classification, broken-target patching, primary and secondary selection,
 * and the published record. The rules are stated as the code does them,
 * including where that departs from what its comments say.
 */
module GearRules {
  import opened Wrappers
  import opened Geometry
  import opened Tunables
  import opened Aiming

  // ---------------------------------------------------------------------
  // Results

  /** The Python exceptions the method can raise on a frame with targets. */
  datatype PyError =
    | NoFrameSize   // `self.size[0]` while `size` is still `None` (line 180)
    | ZeroDivision  // `/ h` or `/ w` of a zero frame dimension (lines 223-224)

  /**
   * What one call publishes to NetworkTables: only `gear_target_present =
   * False`, or `present = True` with `partial`, `angle` and `height`; or the
   * exception that stopped it before it published anything.
   */
  datatype GearOutcome =
    | Absent
    | Present(partial: bool, angle: real, height: real)
    | Raised(error: PyError)

  /**
   * The state one call leaves: its outcome, the two lists of `self.targets`
   * and the aiming contour drawn by the overlay (`main_target_contour`).
   */
  datatype GearState = GearState(outcome: GearOutcome, complete: seq<TargetInfo>, broken: seq<TargetInfo>, aim: Option<Contour>)

  function Abs(r: real): real
  {
    if r < 0.0 then -r else r
  }

  // ---------------------------------------------------------------------
  // Classification (lines 134-142)

  datatype Kind = Broken | Complete | Discarded

  /** The candidate of each contour, in order. */
  function Infos(contours: seq<Contour>): (infos: seq<TargetInfo>)
    ensures |infos| == |contours|
    ensures forall k :: 0 <= k < |contours| ==> infos[k] == GetContourInfo(contours[k])
  {
    seq(|contours|, k requires 0 <= k < |contours| => GetContourInfo(contours[k]))
  }

  /** Width within `squareTolerance` of height, both ends inclusive. */
  predicate SquareIsh(cfg: Config, t: TargetInfo)
  {
    t.w as real >= t.h as real - cfg.squareTolerance && t.w as real <= t.h as real + cfg.squareTolerance
  }

  /** Square-ish blobs may be half a target; otherwise tall ones are complete and wide ones dropped. */
  function Classify(cfg: Config, t: TargetInfo): Kind
  {
    if SquareIsh(cfg, t) then Broken
    else if t.w < t.h then Complete
    else Discarded
  }

  /** The candidates of one kind, in scan order (the list the loop appends them to). */
  function OfKind(cfg: Config, infos: seq<TargetInfo>, kind: Kind): (r: seq<TargetInfo>)
    ensures |r| <= |infos|
    ensures forall t :: t in r ==> t in infos && Classify(cfg, t) == kind
    decreases |infos|
  {
    if infos == [] then []
    else
      var last := infos[|infos| - 1];
      OfKind(cfg, infos[..|infos| - 1], kind) + (if Classify(cfg, last) == kind then [last] else [])
  }

  /**
   * Every candidate goes to at most one list: it is in `broken` exactly when
   * square-ish, in `complete` exactly when not square-ish and taller than wide,
   * and in neither otherwise; so the two lists together are no longer than the input.
   */
  lemma {:induction false} ClassificationPartitions(cfg: Config, infos: seq<TargetInfo>)
    ensures var b, c := OfKind(cfg, infos, Broken), OfKind(cfg, infos, Complete);
      (forall t :: t in infos ==> (t in b <==> SquareIsh(cfg, t))) &&
      (forall t :: t in infos ==> (t in c <==> !SquareIsh(cfg, t) && t.w < t.h)) &&
      (forall t :: !(t in b && t in c)) &&
      |b| + |c| <= |infos|
    decreases |infos|
  {
    if infos != [] {
      var init := infos[..|infos| - 1];
      ClassificationPartitions(cfg, init);
      assert infos == init + [infos[|infos| - 1]];
    }
  }

  // ---------------------------------------------------------------------
  // Broken-target patching (lines 145-165)

  /** Both centroid tests of lines 151-152, bounds inclusive. */
  predicate Close(cfg: Config, b: TargetInfo, b2: TargetInfo)
  {
    b.cx >= b2.cx - cfg.brokenToleranceX && b.cx <= b2.cx + cfg.brokenToleranceX &&
    b.cy >= b2.cy - cfg.brokenToleranceY && b.cy <= b2.cy + cfg.brokenToleranceY
  }

  /** The two one-sided tests say that the centroid distances are within the tolerances. */
  lemma CloseIsWithinTolerance(cfg: Config, b: TargetInfo, b2: TargetInfo)
    ensures Close(cfg, b, b2) <==>
      Abs(b.cx - b2.cx) <= cfg.brokenToleranceX && Abs(b.cy - b2.cy) <= cfg.brokenToleranceY
  {
  }

  /** The inner scan: the first `j' >= j` whose broken candidate is close to `bs[i]`. */
  function FirstPartner(cfg: Config, bs: seq<TargetInfo>, i: nat, j: nat): (r: Option<nat>)
    requires i < |bs|
    ensures r.Some? ==> j <= r.value < |bs| && Close(cfg, bs[i], bs[r.value])
    decreases |bs| - j
  {
    if j >= |bs| then None
    else if Close(cfg, bs[i], bs[j]) then Some(j)
    else FirstPartner(cfg, bs, i, j + 1)
  }

  /** No candidate the inner scan passes over is close to `bs[i]`. */
  lemma {:induction false} FirstPartnerIsFirst(cfg: Config, bs: seq<TargetInfo>, i: nat, j: nat)
    requires i < |bs|
    ensures var r := FirstPartner(cfg, bs, i, j);
      (r.Some? ==> forall m :: j <= m < r.value ==> !Close(cfg, bs[i], bs[m])) &&
      (r.None? ==> forall m :: j <= m < |bs| ==> !Close(cfg, bs[i], bs[m]))
    decreases |bs| - j
  {
    if j < |bs| && !Close(cfg, bs[i], bs[j]) {
      FirstPartnerIsFirst(cfg, bs, i, j + 1);
    }
  }

  /**
   * The outer scan from position `i`: the first pair `(a, b)`, `a < b`, in
   * lexicographic order, whose candidates are close; `None` when no pair is.
   */
  function FirstPair(cfg: Config, bs: seq<TargetInfo>, i: nat): (r: Option<(nat, nat)>)
    ensures r.Some? ==> i <= r.value.0 < r.value.1 < |bs| && Close(cfg, bs[r.value.0], bs[r.value.1])
    decreases |bs| - i
  {
    if i >= |bs| then None
    else match FirstPartner(cfg, bs, i, i + 1)
      case Some(j) => Some((i, j))
      case None => FirstPair(cfg, bs, i + 1)
  }

  /**
   * The pair found is the lexicographically first close pair from `i` on,
   * and no pair is close when none is found.
   */
  lemma {:induction false} FirstPairIsFirst(cfg: Config, bs: seq<TargetInfo>, i: nat)
    ensures var r := FirstPair(cfg, bs, i);
      (r.Some? ==> forall a, b :: i <= a < b < |bs| && (a < r.value.0 || (a == r.value.0 && b < r.value.1)) ==> !Close(cfg, bs[a], bs[b])) &&
      (r.None? ==> forall a, b :: i <= a < b < |bs| ==> !Close(cfg, bs[a], bs[b]))
    decreases |bs| - i
  {
    if i < |bs| {
      FirstPartnerIsFirst(cfg, bs, i, i + 1);
      if FirstPartner(cfg, bs, i, i + 1).None? {
        FirstPairIsFirst(cfg, bs, i + 1);
      }
    }
  }

  /** The merged blob: the simplified hull of both contours' points. */
  function Merged(ops: Ops, b: TargetInfo, b2: TargetInfo): TargetInfo
  {
    GetContourInfo(ops.simplify(ops.hull(b.cnt + b2.cnt)))
  }

  /** The two lists after patching, and the merged blob if a merge ran. */
  datatype Patch = Patch(complete: seq<TargetInfo>, broken: seq<TargetInfo>, merged: Option<TargetInfo>)

  /** Patching: merge the first close pair, append it to `complete` and reset `broken`. */
  function Patched(cfg: Config, ops: Ops, bs: seq<TargetInfo>, cs: seq<TargetInfo>): Patch
  {
    match FirstPair(cfg, bs, 0)
    case None => Patch(cs, bs, None)
    case Some((i, j)) =>
      var m := Merged(ops, bs[i], bs[j]);
      Patch(cs + [m], [], Some(m))
  }

  /**
   * At most one merge per frame: `complete` only ever grows by one element at
   * its end, it grows exactly when some pair of broken candidates is close,
   * and the element added is the merge of the first such pair.
   */
  lemma AtMostOneMerge(cfg: Config, ops: Ops, bs: seq<TargetInfo>, cs: seq<TargetInfo>)
    ensures var p := Patched(cfg, ops, bs, cs);
      |cs| <= |p.complete| <= |cs| + 1 && p.complete[..|cs|] == cs &&
      (|p.complete| == |cs| + 1 <==> exists a, b :: 0 <= a < b < |bs| && Close(cfg, bs[a], bs[b])) &&
      (p.merged.None? ==> p.complete == cs && p.broken == bs) &&
      (p.merged.Some? ==>
        (p.broken == [] && p.complete == cs + [p.merged.value] &&
         exists a, b :: FirstPair(cfg, bs, 0) == Some((a, b)) && p.merged.value == Merged(ops, bs[a], bs[b])))
  {
    var p := Patched(cfg, ops, bs, cs);
    FirstPairIsFirst(cfg, bs, 0);
    match FirstPair(cfg, bs, 0)
    case None =>
    case Some((a, b)) =>
      assert p.complete[..|cs|] == cs;
  }

  /**
   * No broken candidate reaches `complete` unmerged: after patching, every
   * element of `complete` is a complete-classified candidate or the merged blob.
   */
  lemma UnmergedBrokenDropped(cfg: Config, ops: Ops, infos: seq<TargetInfo>)
    ensures var p := Patched(cfg, ops, OfKind(cfg, infos, Broken), OfKind(cfg, infos, Complete));
      forall t :: t in p.complete ==> (t in infos && Classify(cfg, t) == Complete) || p.merged == Some(t)
  {
  }

  // ---------------------------------------------------------------------
  // Primary selection (lines 179-194)

  /** `cs[i]` is not beaten by any element from position `i` on (the loop's `greater_than`). */
  predicate SuffixMax(cs: seq<TargetInfo>, i: nat)
    requires i < |cs|
  {
    forall k :: i <= k < |cs| ==> cs[k].cx <= cs[i].cx
  }

  /** The selection loop from position `i`: the first position whose element beats its suffix. */
  function PrimaryFrom(cs: seq<TargetInfo>, i: nat): (r: Option<nat>)
    ensures r.Some? ==> i <= r.value < |cs| && SuffixMax(cs, r.value)
    ensures r.Some? ==> forall k :: i <= k < r.value ==> !SuffixMax(cs, k)
    ensures r.None? ==> forall k :: i <= k < |cs| ==> !SuffixMax(cs, k)
    decreases |cs| - i
  {
    if i >= |cs| then None
    else if SuffixMax(cs, i) then Some(i)
    else PrimaryFrom(cs, i + 1)
  }

  /** The first position of a greatest centroid column. */
  function FirstMaxIndex(cs: seq<TargetInfo>): (r: nat)
    requires |cs| > 0
    ensures r < |cs|
    ensures forall k :: 0 <= k < |cs| ==> cs[k].cx <= cs[r].cx
    ensures forall k :: 0 <= k < r ==> cs[k].cx < cs[r].cx
    decreases |cs|
  {
    if |cs| == 1 then 0
    else
      var m := FirstMaxIndex(cs[..|cs| - 1]);
      if cs[|cs| - 1].cx > cs[m].cx then |cs| - 1 else m
  }

  /**
   * The selection loop always finds a primary in a non-empty list, and it is
   * the first element of greatest `cx` (not the one nearest the frame centre).
   */
  lemma PrimaryIsFirstMax(cs: seq<TargetInfo>)
    requires |cs| > 0
    ensures PrimaryFrom(cs, 0) == Some(FirstMaxIndex(cs))
  {
    var m := FirstMaxIndex(cs);
    assert SuffixMax(cs, m);
    forall k | 0 <= k < m
      ensures !SuffixMax(cs, k)
    {
      assert cs[k].cx < cs[m].cx;
    }
  }

  /**
   * Python's `list.remove(x)`: drop the first element equal to `x`. Python
   * raises `ValueError` when `x` is absent; the one call (line 193) removes an
   * element it has just read from the list.
   */
  function RemoveFirst<T(==)>(s: seq<T>, x: T): (r: seq<T>)
    requires x in s
    ensures |r| == |s| - 1
  {
    assert s == [s[0]] + s[1..];
    if s[0] == x then s[1..] else [s[0]] + RemoveFirst(s[1..], x)
  }

  /** `remove` takes out one occurrence of `x` and keeps every other element. */
  lemma {:induction false} RemoveFirstRemovesOne<T>(s: seq<T>, x: T)
    requires x in s
    ensures multiset(RemoveFirst(s, x)) == multiset(s) - multiset{x}
  {
    assert s == [s[0]] + s[1..];
    if s[0] != x {
      RemoveFirstRemovesOne(s[1..], x);
    }
  }

  /** Removing the element at its first occurrence splits the list around that position. */
  lemma {:induction false} RemoveFirstAt<T>(s: seq<T>, x: T, p: nat)
    requires p < |s| && s[p] == x
    requires forall k :: 0 <= k < p ==> s[k] != x
    ensures x in s && RemoveFirst(s, x) == s[..p] + s[p + 1..]
  {
    assert s[p] in s;
    if p > 0 {
      var t := s[1..];
      assert s[0] != x && t[p - 1] == x;
      assert forall k :: 0 <= k < p - 1 ==> t[k] == s[k + 1];
      RemoveFirstAt(t, x, p - 1);
      assert RemoveFirst(s, x) == [s[0]] + RemoveFirst(t, x);
      assert s[..p] == [s[0]] + t[..p - 1];
      assert t[p..] == s[p + 1..];
    }
  }

  /** The primary of a non-empty `complete` list. */
  function PrimaryOf(cs: seq<TargetInfo>): TargetInfo
    requires |cs| > 0
  {
    cs[FirstMaxIndex(cs)]
  }

  /** `remove(center_most_target)` takes out exactly the primary's position. */
  lemma RemovePrimary(cs: seq<TargetInfo>)
    requires |cs| > 0
    ensures var m := FirstMaxIndex(cs);
      RemoveFirst(cs, PrimaryOf(cs)) == cs[..m] + cs[m + 1..]
  {
    var m := FirstMaxIndex(cs);
    forall k | 0 <= k < m
      ensures cs[k] != cs[m]
    {
      assert cs[k].cx < cs[m].cx;
    }
    RemoveFirstAt(cs, cs[m], m);
  }

  // ---------------------------------------------------------------------
  // Secondary selection (lines 197-215)

  /** Horizontal spacing strictly under `gearSpacing` primary heights. */
  function SpacingLimit(cfg: Config, primary: TargetInfo): real
  {
    cfg.gearSpacing * primary.h as real
  }

  predicate Near(cfg: Config, g: TargetInfo, primary: TargetInfo)
  {
    Abs(g.cx - primary.cx) < SpacingLimit(cfg, primary)
  }

  /** Position `i` of the remaining list is accepted as the secondary. */
  predicate Qualifies(cfg: Config, rest: seq<TargetInfo>, primary: TargetInfo, i: nat)
    requires i < |rest|
  {
    Near(cfg, rest[i], primary) && SuffixMax(rest, i)
  }

  /** The secondary loop from position `i`: the first qualifying position. */
  function SecondaryFrom(cfg: Config, rest: seq<TargetInfo>, primary: TargetInfo, i: nat): (r: Option<nat>)
    ensures r.Some? ==> i <= r.value < |rest| && Qualifies(cfg, rest, primary, r.value)
    ensures r.Some? ==> forall k :: i <= k < r.value ==> !Qualifies(cfg, rest, primary, k)
    ensures r.None? ==> forall k :: i <= k < |rest| ==> !Qualifies(cfg, rest, primary, k)
    decreases |rest| - i
  {
    if i >= |rest| then None
    else if Qualifies(cfg, rest, primary, i) then Some(i)
    else SecondaryFrom(cfg, rest, primary, i + 1)
  }

  /**
   * A remaining target of greatest `cx` that is near the primary guarantees a
   * secondary: the first greatest element always beats its suffix.
   */
  lemma SecondaryFoundWhenMaxNear(cfg: Config, rest: seq<TargetInfo>, primary: TargetInfo)
    requires |rest| > 0
    requires Near(cfg, rest[FirstMaxIndex(rest)], primary)
    ensures SecondaryFrom(cfg, rest, primary, 0).Some?
  {
    var m := FirstMaxIndex(rest);
    assert Qualifies(cfg, rest, primary, m);
  }

  // ---------------------------------------------------------------------
  // The whole call

  /**
   * `target_info` at line 223: the merged blob when a merge ran, otherwise the
   * candidate of the last contour classified, whatever its kind.
   */
  function AimingInfo(infos: seq<TargetInfo>, merged: Option<TargetInfo>): TargetInfo
    requires merged.Some? || |infos| > 0
  {
    if merged.Some? then merged.value else infos[|infos| - 1]
  }

  /** The patching step applied to the classified candidates of a contour list. */
  function PatchOf(cfg: Config, ops: Ops, contours: seq<Contour>): Patch
  {
    var infos := Infos(contours);
    Patched(cfg, ops, OfKind(cfg, infos, Broken), OfKind(cfg, infos, Complete))
  }

  /**
   * A complete target after patching comes from some candidate: either a merge
   * ran or the contour list was not empty, so `target_info` is set.
   */
  lemma PatchedFromCandidates(cfg: Config, ops: Ops, contours: seq<Contour>)
    requires PatchOf(cfg, ops, contours).complete != []
    ensures PatchOf(cfg, ops, contours).merged.Some? || (contours != [] && |Infos(contours)| == |contours|)
  {
    var infos := Infos(contours);
    assert |OfKind(cfg, infos, Complete)| <= |infos|;
  }

  /** One call of `process_for_gear_target` on `contours`, with the cached frame size. */
  function GearSpec(cfg: Config, ops: Ops, contours: seq<Contour>, size: Option<(nat, nat)>): GearState
  {
    var infos := Infos(contours);
    var p := PatchOf(cfg, ops, contours);
    if p.complete == [] then GearState(Absent, [], p.broken, None)
    else if size.None? then GearState(Raised(NoFrameSize), p.complete, p.broken, None)
    else
      var h, w := size.value.0 as real, size.value.1 as real;
      var primary := PrimaryOf(p.complete);
      var rest := RemoveFirst(p.complete, primary);
      var s := SecondaryFrom(cfg, rest, primary, 0);
      var aim := ops.simplify(ops.hull(if s.Some? then rest[s.value].cnt + primary.cnt else primary.cnt));
      var t := AimingInfo(infos, p.merged);
      var outcome :=
        if h == 0.0 || w == 0.0 then Raised(ZeroDivision)
        else Present(s.None?, Angle(t.cy, h), Height(t.cx, w));
      GearState(outcome, rest, p.broken, Some(aim))
  }

  /**
   * The shape of what one call publishes: nothing but "absent" exactly when no
   * complete target survives patching; otherwise a record whose `partial` is
   * false exactly when some remaining target qualifies as secondary, whose
   * `angle` and `height` come from `target_info`, and whose remaining
   * `complete` list is the patched list without its first greatest-`cx` element.
   */
  lemma GearOutcomeShape(cfg: Config, ops: Ops, contours: seq<Contour>, h: nat, w: nat)
    ensures var st, p := GearSpec(cfg, ops, contours, Some((h, w))), PatchOf(cfg, ops, contours);
      (st.outcome == Absent <==> p.complete == []) &&
      (p.complete != [] && 0 < h && 0 < w ==>
        var m := FirstMaxIndex(p.complete);
        var primary := p.complete[m];
        var t := AimingInfo(Infos(contours), p.merged);
        st.complete == p.complete[..m] + p.complete[m + 1..] &&
        st.outcome.Present? &&
        (st.outcome.partial <==> forall k :: 0 <= k < |st.complete| ==> !Qualifies(cfg, st.complete, primary, k)) &&
        st.outcome.angle == Angle(t.cy, h as real) &&
        st.outcome.height == Height(t.cx, w as real))
  {
    var p := PatchOf(cfg, ops, contours);
    if p.complete != [] {
      RemovePrimary(p.complete);
    }
  }

  /**
   * Without a merge, `angle` and `height` come from the last contour of the
   * input, even when that contour was itself discarded as too wide.
   */
  lemma AngleFromLastContour(cfg: Config, ops: Ops, contours: seq<Contour>, h: nat, w: nat)
    requires PatchOf(cfg, ops, contours).complete != [] && PatchOf(cfg, ops, contours).merged.None?
    requires 0 < h && 0 < w
    ensures var st, t := GearSpec(cfg, ops, contours, Some((h, w))), GetContourInfo(contours[|contours| - 1]);
      st.outcome == Present(st.outcome.partial, Angle(t.cy, h as real), Height(t.cx, w as real))
  {
    var infos := Infos(contours);
    assert |OfKind(cfg, infos, Complete)| <= |infos|;
  }

  /**
   * With faithful OpenCV operations and in-frame contours, the contour that
   * `target_info` measures lies in the frame too.
   */
  lemma AimingInfoInFrame(cfg: Config, ops: Ops, contours: seq<Contour>, h: nat, w: nat)
    requires Faithful(ops)
    requires forall k :: 0 <= k < |contours| ==> ContourInFrame(contours[k], h, w)
    requires PatchOf(cfg, ops, contours).complete != []
    ensures contours != []
    ensures PatchOf(cfg, ops, contours).merged.Some? || |Infos(contours)| > 0
    ensures ContourInFrame(AimingInfo(Infos(contours), PatchOf(cfg, ops, contours).merged).cnt, h, w)
  {
    var infos := Infos(contours);
    var bs := OfKind(cfg, infos, Broken);
    var p := PatchOf(cfg, ops, contours);
    PatchedFromCandidates(cfg, ops, contours);
    if p.merged.Some? {
      var ij := FirstPair(cfg, bs, 0).value;
      BrokenInFrame(cfg, contours, h, w, ij.0);
      BrokenInFrame(cfg, contours, h, w, ij.1);
      MergedInFrame(ops, bs[ij.0], bs[ij.1], h, w);
    } else {
      assert ContourInFrame(contours[|contours| - 1], h, w);
    }
  }

  /** A broken candidate of in-frame contours lies in the frame. */
  lemma BrokenInFrame(cfg: Config, contours: seq<Contour>, h: nat, w: nat, k: nat)
    requires forall k :: 0 <= k < |contours| ==> ContourInFrame(contours[k], h, w)
    requires k < |OfKind(cfg, Infos(contours), Broken)|
    ensures ContourInFrame(OfKind(cfg, Infos(contours), Broken)[k].cnt, h, w)
  {
    var infos := Infos(contours);
    var b := OfKind(cfg, infos, Broken)[k];
    assert b in OfKind(cfg, infos, Broken);
    var kb :| 0 <= kb < |infos| && infos[kb] == b;
  }

  /** The merge of two in-frame candidates lies in the frame, with faithful operations. */
  lemma MergedInFrame(ops: Ops, b: TargetInfo, b2: TargetInfo, h: nat, w: nat)
    requires Faithful(ops)
    requires ContourInFrame(b.cnt, h, w) && ContourInFrame(b2.cnt, h, w)
    ensures ContourInFrame(Merged(ops, b, b2).cnt, h, w)
  {
    assert ContourInFrame(b.cnt + b2.cnt, h, w) by {
      forall k | 0 <= k < |b.cnt + b2.cnt|
        ensures InFrame((b.cnt + b2.cnt)[k], h, w)
      {
        if k < |b.cnt| { assert (b.cnt + b2.cnt)[k] == b.cnt[k]; }
        else { assert (b.cnt + b2.cnt)[k] == b2.cnt[k - |b.cnt|]; }
      }
    }
    KeepsFrame(ops.hull, b.cnt + b2.cnt, h, w);
    KeepsFrame(ops.simplify, ops.hull(b.cnt + b2.cnt), h, w);
  }

  /**
   * On in-frame contours, with faithful OpenCV operations, a frame with a
   * target never raises and publishes `|angle| <= VFOV/2`, `|height| <= HFOV/2`.
   */
  lemma PublishedWithinFieldOfView(cfg: Config, ops: Ops, contours: seq<Contour>, h: nat, w: nat)
    requires Faithful(ops)
    requires forall k :: 0 <= k < |contours| ==> ContourInFrame(contours[k], h, w)
    requires contours != [] ==> 0 < h && 0 < w
    ensures var st := GearSpec(cfg, ops, contours, Some((h, w)));
      !st.outcome.Raised? &&
      (st.outcome.Present? ==>
        -VFOV / 2.0 <= st.outcome.angle <= VFOV / 2.0 && -HFOV / 2.0 <= st.outcome.height <= HFOV / 2.0)
  {
    var p := PatchOf(cfg, ops, contours);
    if p.complete != [] {
      AimingInfoInFrame(cfg, ops, contours, h, w);
      var t := AimingInfo(Infos(contours), p.merged);
      CentroidInFrame(t.cnt, h, w);
      GearOutcomeShape(cfg, ops, contours, h, w);
    }
  }

  // ---------------------------------------------------------------------
  // The source's selection is not "closest to the centre"

  /** A 10-column, 40-row contour whose left edge is column `x0`: two opposite corners. */
  function SampleContour(x0: int): Contour
  {
    [(x0, 0), (x0 + 9, 39)]
  }

  /** The candidate of `SampleContour(x0)` is centred on column `x0 + 5` and is a complete target. */
  lemma SampleCandidate(x0: int)
    ensures var t := GetContourInfo(SampleContour(x0));
      t.cx == x0 as real + 5.0 && Classify(Defaults, t) == Complete
  {
    var c := SampleContour(x0);
    assert Xs(c) == [x0, x0 + 9] && Ys(c) == [0, 39];
    assert MinOf(Xs(c)[1..]) == x0 + 9 && MaxOf(Xs(c)[1..]) == x0 + 9;
    assert MinOf(Ys(c)[1..]) == 39 && MaxOf(Ys(c)[1..]) == 39;
    assert GetContourInfo(c).w == 10 && GetContourInfo(c).h == 40;
  }

  /** Two candidates that both classify as complete form the whole complete list. */
  lemma BothComplete(cfg: Config, cs: seq<TargetInfo>)
    requires |cs| == 2 && Classify(cfg, cs[0]) == Complete && Classify(cfg, cs[1]) == Complete
    ensures OfKind(cfg, cs, Complete) == cs
  {
    assert cs[..1][..0] == [];
    assert cs[..1] == [cs[0]];
    assert cs == cs[..1] + [cs[1]];
  }

  /** Two contours of a 240-by-320 frame, centred on columns 150 and 300. */
  function SampleContours(): seq<Contour>
  {
    [SampleContour(145), SampleContour(295)]
  }

  /**
   * On `SampleContours`, with the default tunables, both contours classify as
   * complete targets, and the selection loop picks the one at column 300 as
   * primary although the one at column 150 is nearer the centre column 160.
   */
  lemma PrimaryIsNotCentreMost()
    ensures forall k :: 0 <= k < |SampleContours()| ==> ContourInFrame(SampleContours()[k], 240, 320)
    ensures var cs := Infos(SampleContours());
      OfKind(Defaults, cs, Complete) == cs &&
      PrimaryFrom(cs, 0) == Some(1) &&
      Abs(cs[0].cx - 160.0) < Abs(cs[1].cx - 160.0)
  {
    SampleInFrame();
    var cs := Infos(SampleContours());
    SampleInfos();
    BothComplete(Defaults, cs);
    SecondOfTwoIsPrimary(cs);
  }

  /** Both sample contours lie in a frame of 240 rows and 320 columns. */
  lemma SampleInFrame()
    ensures forall k :: 0 <= k < |SampleContours()| ==> ContourInFrame(SampleContours()[k], 240, 320)
  {
    var contours := SampleContours();
    assert contours[0] == [(145, 0), (154, 39)];
    assert contours[1] == [(295, 0), (304, 39)];
    assert ContourInFrame(contours[0], 240, 320) && ContourInFrame(contours[1], 240, 320);
  }

  /** The two sample candidates: complete targets centred on columns 150 and 300. */
  lemma SampleInfos()
    ensures var cs := Infos(SampleContours());
      |cs| == 2 && cs[0].cx == 150.0 && cs[1].cx == 300.0 &&
      Classify(Defaults, cs[0]) == Complete && Classify(Defaults, cs[1]) == Complete
  {
    var cs := Infos(SampleContours());
    SampleCandidate(145);
    SampleCandidate(295);
    assert cs[0] == GetContourInfo(SampleContour(145)) && cs[1] == GetContourInfo(SampleContour(295));
  }

  /** Of two targets, the selection loop picks the second when its `cx` is greater. */
  lemma SecondOfTwoIsPrimary(cs: seq<TargetInfo>)
    requires |cs| == 2 && cs[0].cx < cs[1].cx
    ensures PrimaryFrom(cs, 0) == Some(1)
  {
    assert !SuffixMax(cs, 0);
    assert SuffixMax(cs, 1);
  }
}
