# ika_tracker, modelled in Dafny

ika_tracker watches a game capture and a drawing board. The board is an overlay
on which a person circles characters ("ika") in white. For every circled region
it looks for the downward triangle that marks a character, and it starts
tracking that character under a random name. On every poll cycle it then
re-finds each tracked character near its last position. It counts the
cycles in which the character's name label is seen but its triangle is not. A
cycle that misses the label leaves the count as it is, and only a cycle that
finds the triangle again starts a fresh record with the count back at 0. When
the board has changed, a character whose count has reached `--missed` (3 by
default) is dropped before that cycle's re-localisation; in the other cycles
the count can grow past the threshold. A board capture with no frame in the
cached chroma colour (the colour estimated from the first capture) ends
tracking altogether.

This project models the deterministic core of that tool over integers, small
2-D grids and maps, and proves properties of it. Every image-processing call is
replaced by an input: similarity maps, contours and the histogram chroma
estimate. So is every call into the compositor.

- `wrappers.dfy` holds `Option` and `Result`. Python's exceptions become
  `Err` values.
- `geometry.dfy` models `size.py`: box sizes measured at 1080x1920 and rescaled
  by truncating integer division, plus the three anchor conversions.
- `images.dfy` holds rasters as sequences of rows, Python slice semantics
  (negative bounds wrap, bounds clip, `start >= stop` gives nothing), counting,
  and filled rectangles.
- `board.dfy` models `board.py`:
  - the colour band of `get_in_range`;
  - the chroma colour cached on first use;
  - the four edge scans of `crop_background`, as recursive functions and as loops;
  - the 10 % border zeroing and the one-mask-per-contour output of `get_roi`;
  - the 3x3 dilation of `expand_roi`.
- `ika.dfy` models `ika.py`:
  - the record, its name-label snapshot and the search-window mask;
  - the overlay colour;
  - `set_coord` and `update`.
- `view.py` is modelled in `view.dfy`:
  - `search_ika` over given similarity maps, as a loop over the map;
  - `is_tracking`, `start_tracking`, `stop_tracking` and `load_settings`;
  - the three-way outcome of `update_ika`;
  - `get_marked_ika` over given per-region search results.
- `cli.dfy` models one iteration of `main`'s loop as a step function on the
  tracked map, and the loop over cycles. A cycle carries both board captures
  that reach `get_roi` (the one `board_is_updated` compares and, after a
  change, the one `get_marked_ika` uses); the board state is threaded through
  the cycles, so the chroma colour is fixed by the first capture. The loop ends
  at the first cycle with a capture that has no frame in that colour. The file
  proves that the source's loops, whatever order the map is iterated in, have
  the effect of the map-level definitions.

Where the code differs from what its comments and evident intent describe, the model follows the code:

- An entity whose name label is not found keeps its miss count (`view.py:90-91`).
- A re-found entity is rebuilt, so its name snapshot is re-cut from the new capture (`view.py:102-111`).
- The `+15` in `triangle_to_tracker` is not rescaled with the resolution (`size.py:85`).
- `expand=True` multiplies the search box by one (`ika.py:41-42`, `view.py:87`).
- No background raises `ValueError` (`board.py:77`). Nothing in `main` catches it, so the loop ends (`Cli.Run`, `Cli.Loop`).
- Removal runs only in cycles where the board changed, and before that cycle's
  updates. So an entity can be drawn with three misses in the "stale" colour.
  That colour is black `(0, 0, 0, 255)`, though the comment calls it white (`ika.py:81-83`).
- `expand_roi` is never called.
- The loop variable `ikas` is a live view of the tracked map, so the update loop
  sees the entities admitted and removed in the same cycle.
- A tracker box that starts above the top edge of the capture is sliced with a
  negative start. Python wraps such a start to the far end, so the crop comes out
  empty, not clipped (`view.py:79-81`, `view.py:109-111`).

## Model

| member | source | states |
|---|---|---|
| Geometry.Scale | src/ika_tracker/size.py:36-62 | a scaled box side is the floor of `ref * actual / base`: it times the base is at most `ref * actual`, and one more is above it |
| Geometry.ReferenceShapes | src/ika_tracker/size.py:22-62 | at 1080x1920 the tracker, icon, name and triangle boxes are exactly (110,130), (91,91), (28,130), (12,11) |
| Geometry.ScaleMonotone | src/ika_tracker/size.py:36-62 | rescaling keeps the order of two reference lengths at every resolution |
| Geometry.TrackerWiderThanTriangle | src/ika_tracker/size.py:36-62 | the scaled tracker box is never narrower than the scaled triangle, whatever the resolution |
| Geometry.TriangleToName | src/ika_tracker/size.py:64-70 | needs an in-bounds anchor; the label corner is `(tracker.w - triangle.w)//2` left of and `triangle.h + name.h` above the anchor, so neither coordinate grows |
| Geometry.NameToTriangle | src/ika_tracker/size.py:72-78 | needs an in-bounds label corner; the anchor is exactly `(tracker.w - triangle.w)//2` right of and `triangle.h + name.h` below the corner, and `triangle_to_name` of the result gives the label corner back |
| Geometry.TriangleNameRoundTrip | src/ika_tracker/size.py:64-78 | anchor to label to anchor is the identity whenever both points are in bounds |
| Geometry.TriangleToTracker | src/ika_tracker/size.py:80-86 | the box corner is exactly `tracker.w//2` left of the anchor, which lies within the box's columns, and the box bottom is 15 pixels below the anchor |
| Geometry.TrackerLiftNotRescaled | src/ika_tracker/size.py:80-86 | at 540x960 the box halves to (55,65) but the lift is still 15 |
| Images.PySlice | src/ika_tracker/view.py:79-81 | a Python slice: never longer than the sequence; the plain slice for in-range bounds; otherwise the elements from the wrapped and clipped start to the wrapped and clipped stop, in order |
| Images.Crop | src/ika_tracker/board.py:97-98 | a 2-D numpy slice: the rows of the row slice, each cut by the column slice |
| Images.FillRect | src/ika_tracker/ika.py:43-52 | a filled `cv2.rectangle` on a zero mask: HxW, with value 1 exactly on `[x, x+w)` by `[y, y+h)` and 0 elsewhere |
| Board.BandIsByteInterval | src/ika_tracker/board.py:49-51 | for a byte channel `max(c-20,0) <= c <= min(c+10,255)` and both ends are bytes |
| Board.InRange | src/ika_tracker/board.py:49-52 | same shape as the screen; a cell is 255 exactly when every channel is inside its band, else 0 |
| Board.Background | src/ika_tracker/board.py:68 | the mask of the screen in the cached chroma's band: same shape as the screen, 255 exactly where the pixel is in the band, 0 elsewhere |
| Board.BinaryScreen | src/ika_tracker/board.py:54-57 | with the default white, a byte pixel is marked exactly when all three channels are at least 235 |
| Board.CacheChroma | src/ika_tracker/board.py:59-66 | after a crop the chroma is set; it is the estimate only if none was cached before, and otherwise the old one is kept |
| Board.ChromaComputedOnce | src/ika_tracker/board.py:59-68 | a second crop never changes the cached chroma, whatever its estimate |
| Board.FirstOver | src/ika_tracker/board.py:72-77 | the upward scan returns the first index in range whose count exceeds the threshold, and nothing exactly when no count in range does |
| Board.LastOver | src/ika_tracker/board.py:78-83 | the downward scan `range(start, stop, -1)` returns the first index from the top end whose count exceeds the threshold, and nothing exactly when none does |
| Board.FrameOf | src/ika_tracker/board.py:69-95 | success gives `top < h//2 < bottom` and `left < w//2 < right`, each side the first line from its edge with more than half the other dimension marked; "no background found" exactly when some side has no such line |
| Board.ScanUp | src/ika_tracker/board.py:72-77 | the `for ... else` loop finds what the upward scan finds |
| Board.ScanDown | src/ika_tracker/board.py:78-83 | the descending `for ... else` loop finds what the downward scan finds |
| Board.Scans | src/ika_tracker/board.py:72-95 | on the row and column counts, success gives the four first-over-half lines from each edge, and "no background found" exactly when some side has none |
| Board.ScanAll | src/ika_tracker/board.py:72-95 | the four loops on the counts, stopping at the first empty one, agree with the scans |
| Board.FindFrame | src/ika_tracker/board.py:68-95 | the four loops in source order give exactly the frame, or the no-background error |
| Board.CropToFrame | src/ika_tracker/board.py:97-98 | the crop is `bottom-top` rows by `right-left` columns, and each cell is the screen cell offset by `(top, left)` |
| Board.CroppedNonEmpty | src/ika_tracker/board.py:72-98 | a successful crop is at least two rows by two columns, although it drops the found bottom row and right column |
| Board.CropBackground | src/ika_tracker/board.py:59-101 | caches the chroma even when the scans fail; no background exactly when some side has no frame line; strict mode always fails; otherwise it returns the frame crop |
| Board.NegativeTenthStart | src/ika_tracker/board.py:39-41 | the slice start `-n//10` is `n - ceil(n/10)`, so the bottom and right bands are ceil(n/10) wide |
| Board.ZeroBorder | src/ika_tracker/board.py:37-41 | every cell in the first h//10 rows, last ceil(h/10) rows, first w//10 or last ceil(w/10) columns is 0; every other cell is unchanged |
| Board.GetRoi | src/ika_tracker/board.py:22-43 | caches the chroma; fails exactly when the crop does; otherwise exactly one border-zeroed mask per contour, in contour order |
| Board.ExpandRoi | src/ika_tracker/board.py:45-47 | the dilated mask has the same shape and never clears a set cell |
| Board.ExpandIsWindowMax | src/ika_tracker/board.py:45-47 | each dilated cell is at least every in-raster neighbour and equals one of them, so it is the 3x3 maximum |
| Ika.NameImg | src/ika_tracker/ika.py:58-65 | the label snapshot is never taller than the tracker image, and is `name.h` rows when its window lies inside it |
| Ika.NameImgWindow | src/ika_tracker/ika.py:58-65 | on a full tracker image the snapshot is the `name.h` by `2*(tracker.w//4)` window at `(top, tracker.w//4)`, cell for cell |
| Ika.ReferenceNameWindow | src/ika_tracker/ika.py:58-65 | at 1080x1920 the window is rows 63..91 and columns 32..96 |
| Ika.NewIka | src/ika_tracker/ika.py:22-36 | needs an in-bounds anchor; the miss count starts at 0, the snapshot is cut from the tracker image, and the label corner is always `triangle_to_name` of the anchor, up and to its left, which `name_to_triangle` inverts when it is in bounds |
| Ika.IkaRoi | src/ika_tracker/ika.py:38-56 | an HxW 0/1 mask that is 1 exactly on the `expand`-scaled tracker box centred on the anchor, clipped to the capture |
| Ika.RoiCoversAnchor | src/ika_tracker/ika.py:38-52 | a non-empty search window contains the anchor pixel |
| Ika.ExpandTrueIsOne | src/ika_tracker/ika.py:41-42 | `expand=True` gives the same mask as `expand=1` |
| Ika.GetColor | src/ika_tracker/ika.py:71-83 | always opaque; green exactly for 0 misses, yellow for 1, red for 2, black for every other count |
| Ika.SetCoord | src/ika_tracker/ika.py:103-104 | only the anchor changes; name, both images, label corner and miss count are kept |
| Ika.Update | src/ika_tracker/ika.py:110-113 | moves the anchor to the given point; name, images, label corner and miss count are kept |
| Ika.UpdateInPlace | src/ika_tracker/ika.py:110-113 | updating a record to its own anchor leaves it unchanged |
| View.ElementwiseMax | src/ika_tracker/view.py:114-116 | the stacked maximum is at least every template's score and equals one of them in every cell |
| View.ElementwiseMaxOfOne | src/ika_tracker/view.py:114-118 | with one template the maximum is that template's own map |
| View.MaxLoc | src/ika_tracker/view.py:120 | returns a location in the map whose score is at least every other score |
| View.SearchOne | src/ika_tracker/view.py:117-128 | not found exactly when every score is below the threshold (a tie counts as found); otherwise a location of the best score, which reaches the threshold |
| View.SearchBest | src/ika_tracker/view.py:113-128 | with several templates, not found exactly when every template scores below the threshold everywhere; otherwise the location of the best score over all templates |
| View.DetectInRegion | src/ika_tracker/view.py:64-68 | the triangle search of `get_marked_ika` at threshold 0.5: nothing exactly when every template scores below 0.5 everywhere; otherwise an in-map location where some template scores at least 0.5 and at least every score of every template |
| View.ObserveEntity | src/ika_tracker/view.py:85-97 | the two searches of `update_ika` at threshold 0.9: the label counts as found exactly when some score reaches 0.9; the triangle is looked for only then, and is missing exactly when the label is missing or every triangle score is below 0.9; a triangle found is an in-map location where some template scores at least 0.9 and at least every triangle score |
| View.IsTracking | src/ika_tracker/view.py:133-141 | true exactly when some tracked entity's tracker image matches the candidate's label above 0.9 (strictly); false on an empty map |
| View.StartTracking | src/ika_tracker/view.py:151-153 | inserts under the entity's own name and leaves every other entry alone |
| View.StopTracking | src/ika_tracker/view.py:146-149 | deletes exactly the entity's key and keeps the rest; a key that is not tracked is a `KeyError` |
| View.TrackerCrop | src/ika_tracker/view.py:79-81 | the tracker slice of the capture at the box corner of the anchor (a Python slice, see `Images.Crop`); its own contract says only that it has no more rows than the capture, and the exact shape comes from `View.TrackerCropInside` |
| View.TrackerCropInside | src/ika_tracker/view.py:109-111 | when the box lies inside the capture the crop is exactly tracker.h by tracker.w |
| View.TrackerCropEmptyNearTop | src/ika_tracker/view.py:79-81 | at 1080x1920 an anchor at row 50 gives an empty tracker image |
| View.Relocalise | src/ika_tracker/view.py:85-111 | label not found: the entity is unchanged. Label found, triangle not: one more miss and nothing else. Hit: a fresh record with miss count 0, the new anchor, its label corner `triangle_to_name` of that anchor, and a tracker image and snapshot re-cut from the new capture |
| View.UpdateIka | src/ika_tracker/view.py:90-111 | on the map, only the entity's own entry changes; the keys and the name-keying are kept |
| View.UpdateTracking | src/ika_tracker/view.py:155-160 | the trailing `update` changes nothing beyond `update_ika` |
| View.HitPositions | src/ika_tracker/view.py:63-68 | the regions whose search found a triangle, each exactly once, in strictly increasing region order |
| View.MarkedIka | src/ika_tracker/view.py:57-83 | as many records as hit regions; the `k`-th has miss count 0, lies in the capture, has its tracker image cut at its anchor, its snapshot cut from that image and its label corner `triangle_to_name` of its anchor, and is the triangle and generated name of the `k`-th hit region |
| View.GetMarkedIka | src/ika_tracker/view.py:62-83 | the loop over the regions, appending a fresh record at each hit and skipping the others, returns exactly `MarkedIka` |
| View.LoadSettings | src/ika_tracker/view.py:42-55 | `ValueError` exactly when no output is accepted; otherwise the size of the first accepted output (the named one, or without a name the first with positive width) |
| Cli.AdmitFirst | src/ika_tracker/cli.py:39-43 | admitting the first `m` candidates in list order never drops a tracked key |
| Cli.AdmitTurnStarts | src/ika_tracker/cli.py:39-43 | each admission turn leaves the map alone when `is_tracking` finds the candidate and is `start_tracking` of it otherwise |
| Cli.AdmitOnlyCandidates | src/ika_tracker/cli.py:39-43 | every key after admission was tracked before or is the name of one of the admitted candidates |
| Cli.AdmitKeyed | src/ika_tracker/cli.py:39-43 | if every entity is stored under its own name before admission, the same holds after it |
| Cli.AdmitKeepsTracked | src/ika_tracker/cli.py:39-43 | with fresh names, admission never changes an entity that was already tracked |
| Cli.AdmittedIffNotDuplicate | src/ika_tracker/cli.py:39-43 | a candidate is tracked after admission exactly when it duplicates nothing tracked when its turn came, counting earlier admissions; it is then stored as built |
| Cli.RemoveMissing | src/ika_tracker/cli.py:49-58 | exactly the entities with fewer than `missed` misses remain, unchanged |
| Cli.MissingKeysFilter | src/ika_tracker/cli.py:50-54 | the collected names are exactly the listed names with `missing >= missed`, each once |
| Cli.Collect | src/ika_tracker/cli.py:50-54 | `to_stop` lists, in iteration order, the tracked records of exactly the collected names, each with `missing >= missed` |
| Cli.StopEach | src/ika_tracker/cli.py:55-58 | the pop loop either removes exactly the names of `to_stop` or raises the `KeyError` of one of them |
| Cli.StopEachRemoves | src/ika_tracker/cli.py:55-58 | popping and stopping distinctly named tracked entities never raises, and removes exactly their names |
| Cli.RemovalLoopIsFilter | src/ika_tracker/cli.py:46-58 | collect-then-pop over any iteration order of the map never raises, and leaves exactly the entities with fewer than `missed` misses |
| Cli.CollectedNames | src/ika_tracker/cli.py:50-54 | `to_stop` names, without repetition, exactly the tracked entities with `missing >= missed` |
| Cli.UpdateAll | src/ika_tracker/cli.py:60-63 | every tracked entity is re-localised against its own observation; the keys are kept |
| Cli.UpdateInOrder | src/ika_tracker/cli.py:60-63 | the sequential update loop keeps the key set |
| Cli.UpdateInOrderVisitsOnce | src/ika_tracker/cli.py:60-63 | each key the loop visits is re-localised once from its value before the loop; the others are untouched |
| Cli.UpdateOrderIrrelevant | src/ika_tracker/cli.py:46-63 | the update loop over any iteration order of the live view equals re-localising every entity once |
| Cli.Step | src/ika_tracker/cli.py:31-63 | a cycle in which no `get_roi` raises keeps every entry under its own name, and keeps the key set when the board did not change |
| Cli.Run | src/ika_tracker/cli.py:30-72 | threads the board state: afterwards the chroma is cached from the board check's capture; the cycle raises "no background found" exactly when that capture has no frame in the cached colour, or the board changed and `get_marked_ika`'s capture has none (that second `get_roi` reuses the cached colour); otherwise it is the step |
| Cli.RoiFailsWithoutBackground | src/ika_tracker/board.py:22-24 | `get_roi` caches the chroma and raises exactly when the capture has no frame in the cached colour |
| Cli.Cycles | src/ika_tracker/cli.py:30-66 | the `while True` loop over cycles, for any cycle body and raising test: it completes exactly the cycles before the first raising one (all of them when none raises), and leaves the body folded over the completed cycles |
| Cli.Loop | src/ika_tracker/cli.py:30-72 | over a sequence of cycles: the board state afterwards has the chroma of the first cycle's capture, at most all cycles complete, the map left is the step applied in turn for each completed cycle, and it keeps the name-keying |
| Cli.StepsKeyed | src/ika_tracker/cli.py:30-66 | the steps of any sequence of cycles keep every entity stored under its own name |
| Cli.LoopStopsAtFirstAbort | src/ika_tracker/cli.py:30-72 | the loop completes exactly the cycles before the first one with a capture that has no frame in the cached chroma colour, and all of them when there is none |
| Cli.StepWithoutBoardChange | src/ika_tracker/cli.py:33-63 | without a board change nothing is admitted or removed, and every entity is re-localised |
| Cli.StepRemovesExactlyMissing | src/ika_tracker/cli.py:33-63 | on a board change an entity tracked before survives exactly when it has fewer than `missed` misses, and is then re-localised once |
| Cli.StepAdmitsNonDuplicates | src/ika_tracker/cli.py:33-63 | on a board change a candidate is tracked after the cycle exactly when it was not a duplicate on its turn and `missed > 0`; it is re-localised in the same cycle |
| Cli.StepAddsOnlyCandidates | src/ika_tracker/cli.py:36-63 | every key after a cycle was tracked before it or is the name of an entity `get_marked_ika` built |
| Cli.MissCountsOneMiss | src/ika_tracker/cli.py:33-63 | in any cycle, an entity whose label is seen without its triangle stays tracked unless the board changed and it already had `missed` misses, and when it stays it has exactly one more miss |
| Cli.StaleColourReachable | src/ika_tracker/cli.py:17-63 | with the default threshold an entity can reach three misses in a cycle without a board change, stay tracked and be drawn black |

## Left out

- Compositor I/O from `source.py` is not modelled: the websocket calls, screenshot decoding and resizing, creating, updating and removing sources, and the busy-wait on removal. It is external I/O. The capture a step sees is an input.
- `game.py` is not part of this model. It is a stub whose `is_birdseye` is always true.
- OpenCV internals are inputs, not models:
  - `matchTemplate` becomes a given score map, or the `sim` function for `is_tracking`;
  - `findContours`, `fillPoly` and `resize` become the `contours` function of `Board.GetRoi`;
  - `minMaxLoc`'s tie-breaking is left open: any location of a best score.
- The histogram chroma estimate (`np.histogram(..., bins=255).argmax()+1`) is an input. It uses floating-point bin edges.
- `crop_background`'s `chroma` parameter is not modelled. No caller passes it.
- `board_is_updated` is a boolean input per cycle. Its list-of-arrays `!=` would raise `ValueError` on equal-length non-empty lists. The first cycle always counts as updated, because `last_used_roi` starts as `None`.
- Random name generation is an input: `Cycle.names`. The lemmas that need it assume the names are fresh.
- File writing and deleting are not modelled, nor are the `.tri` and `.roi` paths and reading the triangle templates. These are `create_image`, `remove_image` and `cv2.imwrite`.
- argparse, logging, `time.sleep`, the `--interval` type and the signal handling in `main`'s `finally` block are not modelled. `clean_tracking` only removes overlay images and sources, which is I/O; `Cli.Loop` returns the map it would sweep.
- Cli.Run: the abort the model has is "no background found". The `ValueError` that `board_is_updated`'s list comparison would raise is not modelled, because the comparison itself is an input.
- Cli.Run: errors raised by `cv2.matchTemplate` are not modelled, because the similarity function and the score maps are total inputs. It raises when a template is empty or larger than the image. Such inputs can arise: an entity whose anchor moves near the top or left edge gets an empty tracker image and label snapshot (`View.TrackerCropEmptyNearTop`). The next `is_tracking` or `update_ika` search with them would then end `main` (`view.py:90`, `view.py:136`).
- Geometry.Scale: computes `int(a*h/1080)` as exact integer division. It ignores floating-point rounding of the true division, which could differ only when `a*h` is beyond 2^53.
- Ika.IkaRoi: the filled rectangle covers `[x, x+w)` by `[y, y+h)`. It does not model what OpenCV draws for a zero-width or zero-height box.
- View.SearchBest: `np.stack` needs all score maps to have the same shape. This is a precondition rather than an error path.
- View.MarkedIka: each region's masking and search is an input (`hits`). Only what is built from a hit is modelled.
- `Ika.create`, `Ika.remove`, `get` and the string forms are not modelled. They are overlay I/O or have no logic.
