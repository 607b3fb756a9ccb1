# Gear-target detection of the 2017 vision processor, in Dafny

This project models the `ImageProcessor` class of the FRC team 1418 2017 vision code
(`image_processor.py`) and proves what each step does. For each camera frame, the class:

- keeps working buffers sized to the frame;
- filters the contours OpenCV finds in the thresholded image down to gear-target candidates;
- sorts the candidates into "complete" and "broken" targets and merges at most one broken pair;
- picks a primary target and an optional secondary;
- publishes whether a target is present, whether it is `partial`, and two aiming numbers (`angle` and `height`).

Files and modules:

| file | module | contents |
|---|---|---|
| wrappers.dfy | `Wrappers` | `Option` |
| geometry.dfy | `Geometry` | contour points, `boundingRect`, `get_contour_info`, "inside the frame" |
| aiming.dfy | `Aiming` | the two aiming formulas and their bounds |
| tunables.dfy | `Tunables` | the tunables as a `Config` record; the OpenCV polygon operations as function values (`Ops`) |
| contour_filter.dfy | `ContourFilter` | the candidate filter of `find_contours`, stated on values |
| gear_rules.dfy | `GearRules` | the rules of `process_for_gear_target`, stated on values, and their properties |
| image_processor.dfy | `ImageProcessing` | the class itself: its fields, with array buffers, and its loops, proved against the value statements above |

Modelling conventions:

- **Integers.** Contour points and bounding boxes are unbounded `int`s.
- **Centroids and aiming numbers.** `cx` and `cy` come from Python 3 true division, so they are `real`s. So are the tunables and the aiming numbers.
- **`boundingRect`.** `x` is the least column and `w` is the greatest column minus `x` plus 1 (likewise `y` and `h`). The empty contour gets `(0, 0, 0, 0)`.
- **Exceptions.** A Python exception becomes an outcome:
  - `Raised(NoFrameSize)` when `self.size[0]` is read while `size` is `None` (line 180);
  - `Raised(ZeroDivision)` when a frame dimension is zero (lines 223-224).
- **`list.remove(g)`.** Modelled as removing the first element equal to `g`.

## Model

| member | source | states |
|---|---|---|
| Geometry.BoundingRect | image_processor.py:100 | On the empty contour the box is all zero; on any other contour the width and height are at least 1. |
| Geometry.BoundingRectIsTight | image_processor.py:123 | Every point of the contour lies inside its bounding box, and each of the four edges passes through a point of the contour. |
| Geometry.GetContourInfo | image_processor.py:120-128 | The record carries the contour's bounding box and the contour itself (`'cnt'`). Its centroid is equally far from the left and right edges, and equally far from the top and bottom edges. |
| Geometry.CentroidInFrame | image_processor.py:125-126 | For a contour inside a frame, `0 <= cx <= width` and `0 <= cy <= height`. A non-empty contour inside the frame implies that both frame dimensions are positive. |
| Aiming.Angle | image_processor.py:223 | If `0 <= cy <= h`, then `angle` lies in `[-VFOV/2, VFOV/2]`. `angle` is zero exactly when `cy` is the middle row. |
| Aiming.Height | image_processor.py:224 | If `0 <= cx <= w`, then `height` lies in `[-HFOV/2, HFOV/2]`. `height` is zero exactly when `cx` is the middle column. |
| ContourFilter.Survives | image_processor.py:93-102 | The survival test of one raw contour: its simplification has more than 3 and fewer than 15 vertices, and that simplification's box has `h > min_height` and `w > min_width`, both strict. Used by `SurvivorIndicesInOrder`. |
| ContourFilter.Candidate | image_processor.py:104-105 | What a survivor contributes: the simplification of its convex hull (not of the contour itself). Used by `FilterIsSurvivorsInOrder`. |
| ContourFilter.FilterContours | image_processor.py:92-118 | The filter output is never longer than its input. |
| ContourFilter.SurvivorIndicesInOrder | image_processor.py:92-102 | The survivor positions increase strictly. Each one holds a raw contour whose simplification has 4 to 14 vertices and a box with `h > min_height` and `w > min_width`. Every raw contour that passes those tests is listed. |
| ContourFilter.FilterIsSurvivorsInOrder | image_processor.py:92-118 | There is one output per survivor, in input order. The k-th output is the simplified hull of the k-th survivor. |
| ContourFilter.FilterKeepsFrame | image_processor.py:104-110 | With OpenCV operations that keep a subset of their input points, in-frame raw contours give in-frame candidates. A non-empty output implies that the frame has positive area. |
| GearRules.Infos | image_processor.py:134-136 | There is one candidate record per contour, in order, each the `get_contour_info` of its contour. |
| GearRules.Classify | image_processor.py:138-142 | The kind of one candidate: broken when square-ish (tested first), complete when otherwise `w < h`, discarded when neither. `ClassificationPartitions` proves what the two lists then hold. |
| GearRules.OfKind | image_processor.py:134-142 | Each list is no longer than the input and holds only candidates of its kind. |
| GearRules.ClassificationPartitions | image_processor.py:138-142 | A candidate is `broken` exactly when `h - square_tolerance <= w <= h + square_tolerance`. It is `complete` exactly when it is not square-ish and `w < h`. No candidate is in both lists, and the two lists together are no longer than the input. |
| GearRules.CloseIsWithinTolerance | image_processor.py:151-152 | The four one-sided tests mean `|cx - cx2| <= broken_tolerance_x` and `|cy - cy2| <= broken_tolerance_y`, both inclusive. |
| GearRules.FirstPartner | image_processor.py:150-152 | The inner scan over `broken[i+1:]`: a result lies after `i` and is close to `broken[i]`. `FirstPartnerIsFirst` proves it is the first such. |
| GearRules.FirstPartnerIsFirst | image_processor.py:150-152 | The inner scan returns the first later broken target close to `b`, and `None` only when none is close. |
| GearRules.FirstPair | image_processor.py:145-152 | The outer scan: a pair found has `i < j`, both within `broken`, and is close. `FirstPairIsFirst` proves it is the lexicographically first. |
| GearRules.FirstPairIsFirst | image_processor.py:145-152 | The two nested scans find the lexicographically first close pair `(i, j)` with `i < j`. They find none only when no pair is close. |
| GearRules.Merged | image_processor.py:153-159 | The merged blob: the `get_contour_info` record of the simplified convex hull of both contours' points, first `b`'s then `b2`'s. `MergedInFrame` proves it stays in the frame. |
| GearRules.Patched | image_processor.py:145-165 | The result of the patching loop: the first close pair is merged, the blob appended to `complete` and `broken` emptied; with no close pair nothing changes. `AtMostOneMerge` states its properties, and `PatchBroken` is proved equal to it. |
| GearRules.AtMostOneMerge | image_processor.py:145-165 | Patching grows `complete` by at most one element, at its end. It grows exactly when some broken pair is close, and the element added is the merge of the first close pair. Without a merge both lists are unchanged; with one, `broken` is emptied. |
| GearRules.UnmergedBrokenDropped | image_processor.py:138-165 | After patching, every element of `complete` is a candidate classified complete or the merged blob. No other broken candidate enters it. |
| GearRules.PrimaryFrom | image_processor.py:184-194 | The selection loop returns the first position whose `cx` no later element exceeds. |
| GearRules.PrimaryIsFirstMax | image_processor.py:183-194 | On a non-empty list the selection loop always finds a primary: the first element of greatest `cx`. |
| GearRules.RemoveFirst | image_processor.py:193 | `remove(g)` demands that `g` is in the list, where Python would raise `ValueError` (line 193 reads `g` from the list, so it never does), and shortens the list by one. |
| GearRules.RemoveFirstRemovesOne | image_processor.py:193 | `remove(g)` takes out one occurrence of `g` and keeps every other element, with multiplicity. |
| GearRules.RemoveFirstAt | image_processor.py:193 | Removing a value whose first occurrence is at `p` splits the list around `p`. |
| GearRules.RemovePrimary | image_processor.py:192-193 | `remove(center_most_target)` takes out exactly the primary's position. |
| GearRules.SecondaryFrom | image_processor.py:200-215 | The secondary loop returns the first remaining target with `abs(cx - primary.cx) < gear_spacing * primary.h` (strict) whose `cx` no later element exceeds. It returns `None` only when no target qualifies. |
| GearRules.SecondaryFoundWhenMaxNear | image_processor.py:200-215 | If the first remaining target of greatest `cx` is near the primary, a secondary is always found. |
| GearRules.AimingInfo | image_processor.py:223-224 | The record that `target_info` holds at line 223: the merged blob when a merge ran (line 158), otherwise the record of the last contour of the loop at line 135, whatever its kind. `AngleFromLastContour` and `AimingInfoInFrame` state its properties. |
| GearRules.PatchedFromCandidates | image_processor.py:134-165 | A non-empty `complete` after patching means that a merge ran or that the contour list was not empty, so `target_info` is defined. |
| GearRules.GearSpec | image_processor.py:130-229 | One whole call on the cached size: the outcome it publishes or the exception it raises, the `complete` and `broken` lists it leaves, and the aiming contour. `GearOutcomeShape`, `PublishedWithinFieldOfView` and `ProcessForGearTarget` state and prove its properties. |
| GearRules.GearOutcomeShape | image_processor.py:130-229 | Only "absent" is published exactly when no complete target survives patching. Otherwise, on a frame of positive size, the outcome is `Present`. `complete` is left without its first greatest-`cx` element. `partial` holds exactly when no remaining target qualifies as secondary. `angle` and `height` are the formulas applied to `target_info`. |
| GearRules.AngleFromLastContour | image_processor.py:134-136 | Without a merge, `angle` and `height` come from the last input contour, even if it was discarded as too wide. |
| GearRules.AimingInfoInFrame | image_processor.py:153-159 | With faithful OpenCV operations and in-frame contours, the contour that `target_info` measures is in the frame. |
| GearRules.MergedInFrame | image_processor.py:153-158 | With faithful operations, the merge of two in-frame candidates is in the frame. |
| GearRules.PublishedWithinFieldOfView | image_processor.py:175-224 | With in-frame contours and faithful operations the call never raises, and a published `angle` and `height` lie within half the vertical and horizontal fields of view. |
| GearRules.PrimaryIsNotCentreMost | image_processor.py:134-194 | Two concrete contours of a 240-by-320 frame, centred on columns 150 and 300, both classify as complete under the default tunables; the loop the comment calls "closest to the center" picks the one at column 300. |
| ImageProcessing.CopyFrame | image_processor.py:67 | `out` becomes a cell-by-cell copy of the frame. |
| ImageProcessing.ImageProcessor.constructor | image_processor.py:41-42 | The size starts as `None`. |
| ImageProcessing.ImageProcessor.AllocateImages | image_processor.py:53-63 | Fresh `img`, `hsv`, `out` and `black` arrays of `h` by `w`; `black` is all zeros. |
| ImageProcessing.ImageProcessor.AllocateMasks | image_processor.py:56-65 | Fresh `bin`, `bin2` and `zeros` of `h` by `w`, with `zeros` all false, and the 2x2 all-ones structuring element. |
| ImageProcessing.ImageProcessor.Allocate | image_processor.py:49-65 | The size is cached, and every buffer is fresh and sized to it. |
| ImageProcessing.ImageProcessor.Preallocate | image_processor.py:48-67 | `size` becomes the frame's `(h, w)` and every buffer has those dimensions. Buffers are fresh exactly when the size was `None` or differed; otherwise the same objects are kept. `out` ends as a copy of the frame. |
| ImageProcessing.ImageProcessor.FindContours | image_processor.py:90-118 | The loop returns exactly the specified filter output. |
| ImageProcessing.ImageProcessor.GreaterThanRest | image_processor.py:185-189 | `greater_than` stays true exactly when no element from `i` on has a greater `cx`; the shift by `h/2` on both sides cancels. |
| ImageProcessing.ImageProcessor.ClassifyCandidates | image_processor.py:132-142 | The two lists become the specified `broken` and `complete` lists, and `target_info` is the last contour's record. |
| ImageProcessing.ImageProcessor.PatchBroken | image_processor.py:145-165 | The lists become the specified patched lists, and `target_info` becomes the merged blob when a merge ran. |
| ImageProcessing.ImageProcessor.MergeWithPartner | image_processor.py:150-165 | For one `b`: merge with its first close partner, append the blob and empty `broken`, or change nothing when there is no partner. |
| ImageProcessing.ImageProcessor.TakeCenterMost | image_processor.py:183-194 | Returns the primary (the first greatest `cx`) and removes it from `complete`. |
| ImageProcessing.ImageProcessor.FindSecondary | image_processor.py:198-215 | `partial` is false exactly when a secondary qualifies. The aiming contour is then the secondary's points followed by the primary's, and otherwise the primary's. |
| ImageProcessing.ImageProcessor.ProcessForGearTarget | image_processor.py:130-229 | The outcome, the aiming contour and both lists are those the specification of one call gives for the cached size. |
| ImageProcessing.ImageProcessor.ProcessFrame | image_processor.py:234-241 | Preallocation, filtering and the target rules together: the returned image is `out`, a copy of the frame. The outcome and lists follow the specification on the filtered contours. On in-frame contours with faithful operations, nothing is raised and the published numbers lie within half the fields of view. |

## Behaviours of the code the model keeps

The model follows the code as written in each of these cases:

- **Primary selection (lines 179-194).** The comment at line 179 says "closest to the center". The loop picks the first candidate of greatest `cx`: subtracting `h/2` on both sides of the comparison at line 188 cancels, and `h` is the row count while `cx` is a column. `GearRules.PrimaryIsNotCentreMost` exhibits a frame where the two differ.
- **Axes of the aiming numbers (lines 223-224).** `angle` is computed from `cy` and the vertical field of view, `height` from `cx` and the horizontal one.
- **Where the aiming numbers come from (lines 135, 158, 223-224).** They are taken from `target_info`: the merged blob if a merge ran, otherwise the record of the last contour of the classification loop, of whatever kind. They are not taken from the selected targets or the aiming contour.
- **Merge condition (lines 151-152).** The comment at line 144 says the loop "Groups contours together if within a certain tolerance". It tests both the `x` and the `y` tolerance, inclusively, and merges at most one pair per frame (the `break` at line 165 and the emptied `broken` at line 163).
- **Broken candidates (lines 138-142).** The comment at line 138 says a square-ish blob "might indecate broken gear target". Broken candidates that are not merged never reach `complete`.
- **Secondary selection (lines 200-215).** The secondary must be within `gear_spacing * h` of the primary, strictly, and also have a `cx` that no later remaining target exceeds.
- **Zero frame dimension (lines 223-224).** With a target present, a zero frame dimension raises `ZeroDivisionError`.

## Left out

- Colour thresholding (`cvtColor`, `inRange`, `morphologyEx`, lines 69-83) and `cv2.findContours` (line 89) are pixel operations in a foreign library. `ProcessFrame` takes the raw contour list as an input, and the `hsv`, `bin` and `bin2` buffers are allocated but never written.
- `approxPolyDP(c, 0.01*arcLength(c, True), True)` and `convexHull` are uninterpreted functions (`Ops`). The only property assumed of them, and only where stated (`Faithful`), is that they return a subset of their input points.
- The debug overlays (`draw_*` flags, `drawContours`, lines 78-81, 95-97, 107-108, 168-172, 231-232) are not modelled. With `draw_thresh` set, lines 78-81 overwrite `out` with the threshold mask; the model's `out`/`ProcessFrame` copy result describes the frame with that overlay off.
- NetworkTables is replaced:
  - The `ntproperty` tunables are one immutable `Config` per call.
  - `putBoolean`/`putNumber` become the returned `GearOutcome`.
  - The `thresh_low`/`thresh_high` arrays and the table handle of `__init__` (lines 43-46) feed only thresholding and publishing, so they are not modelled.
- Floating point: divisions and comparisons are exact over `real`, with no IEEE rounding.
- The aiming contour's `get_contour_info` (`cnt_info`, line 221) is computed but never used, so it is not modelled.
- Broken reset: the source resets `broken` to an empty dict `{}` (line 163). The model uses the empty list, which behaves the same for the `len` test that follows.
- The constructor gives the buffers 0-by-0 arrays and the target lists empty lists. `__init__` (lines 41-46) creates neither; the buffers first appear in `preallocate` (lines 51-65) and the lists at line 132. Nothing reads these placeholders before they are set.
- victis_vision.py (camera acquisition, streaming, the frame loop) and ImageProcessor.py (an abandoned draft that cannot run) are not part of this model.
