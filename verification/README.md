# Road-drawing canvas: a Dafny model of its interaction logic

The application is a single React component, `App`. It lets the user draw
directed road segments on a canvas, drag their endpoints, erase them, and
open a lane-label menu with a right click. This project models the
component's state and its event handlers as a class, `Drawing.App`. The
two hit tests that drive the handlers are pure predicates in `Geometry`,
and the array operations the handlers use are in `Sequences`. `Gestures`
holds facts about sequences of handler calls and a few concrete drawings.

- `Geometry`: points and segments with integer pixel coordinates.
  - `OnLine` is `isPointOnLine`: the perpendicular distance to the infinite line through the segment is under 5. Because `|Cross| / sqrt(L2) < 5` is equivalent to `Cross² < 25·L2`, it is stated without a square root.
  - `Near` and `NearEndpoint` are the endpoint test of the mouse-down handler: both coordinate deltas under 5.
  - The lemmas prove four things:
    - the integer test is the distance test;
    - the perpendicular distance is the smallest distance to any point of the line;
    - the test is not clamped to the segment's extent, and does not depend on the segment's direction;
    - a zero-length segment is never hit, as `NaN < 5` is false in JavaScript.
- `Sequences`: `FindFirst`, `RemoveAt`, and `Without`. `FindFirst` is `Array.prototype.find` in its index form (`findIndex`): it returns the index `i`, and the element `find` returns is `lines[i]`. A segment object is never falsy, so the `if (found)` tests of the handlers are exactly `FindFirst(...).Some?`. `Without` is the component's `filter(line => line !== found)`, a filter by object identity.
- `Drawing.App`: the component state (`lines`, `currentLine`, `selectedEndPoint`, `tool`, `showComboBox`, `selectedLane`) and one method per handler.
  - JavaScript objects have an identity that Dafny datatype values lack, so the class keeps a ghost identity per committed segment.
  - `Valid()` states that every segment object occurs at most once, so the segment in progress is never also committed. Under that invariant, the identity filter removes exactly the element at the index `find` returned (`Sequences.WithoutUnique`).
- `Gestures`: grab, move and release keeps the number of segments and the points at the untouched end; the scenarios draw, erase, drag and right-click.

Behaviour of the code, modelled as written:

- Mouse-up does not check the mouse button. A right click's mouse-up commits a segment in progress, like any other mouse-up.
- A mouse-down with the road tool replaces any segment already in progress. If a drag ended outside the canvas, so that its mouse-up never reached the handler, the grabbed segment is then lost: it is neither in `lines` nor in progress.
- A fresh press that hits no endpoint leaves `selectedEndPoint` as it was. Because mouse-up clears it, the selection is always empty when nothing is in progress (part of `Valid()`).
- A grabbed segment goes back at the END of `lines` on release, not at its old position. A click on an endpoint without moving only reorders `lines`.

## Model

| member | source | states |
|---|---|---|
| `Geometry.OnLineIffPerpDist` | src/App.js:69-77 | the integer test holds iff the segment has non-zero length and the squared perpendicular distance `Cross²/L2` is below 25, i.e. `Math.abs(d) < 5` |
| `Geometry.OnLineIffNearLine` | src/App.js:69-77 | a point hits iff the segment has non-zero length and some point `start + t·(end − start)` of the infinite line lies at squared distance below 25 |
| `Geometry.PerpendicularFoot` | src/App.js:73-74 | the foot of the perpendicular, at `t = Dot/L2`, is exactly at the formula's distance from the point |
| `Geometry.PerpendicularIsClosest` | src/App.js:73-74 | no point of the line is closer than the formula's distance, so the formula is the distance to the line |
| `Geometry.CollinearBeyondEndpointHits` | src/App.js:69-77 | the test is not clamped: every point `start + k·(end − start)`, for any integer k and so also beyond either endpoint, hits a non-degenerate segment |
| `Geometry.OnLineSymmetric` | src/App.js:69-77 | swapping start and end does not change the result |
| `Geometry.DegenerateNeverHits` | src/App.js:73-76 | a segment whose start equals its end is never hit |
| `Geometry.ToleranceExample` | src/App.js:69-77 | for (0,0)-(100,0), the point (50,4) hits and (50,6) does not |
| `Geometry.GrabbedEnd` | src/App.js:99-103 | the grabbed endpoint is near the pointer, and it is `end` exactly when `start` is not near (start wins a tie) |
| `Geometry.MoveEndpoint` | src/App.js:121-132 | the moved endpoint is at the pointer and the other endpoint is unchanged |
| `Geometry.OnLine` | src/App.js:69-77 | `isPointOnLine`; a hit implies the segment has non-zero length (the NaN case never hits) |
| `Geometry.OnLineAt` | src/App.js:86 | the callback handed to `find` accepts a segment iff it has non-zero length and some point `start + t·(end − start)` of its infinite line lies at squared distance below 25 from the pointer |
| `Geometry.Near` | src/App.js:94-95 | an endpoint is near iff the pointer lies strictly inside the 9×9-pixel box centred on it (both deltas under 5) |
| `Geometry.NearEndpoint` | src/App.js:93-96 | the endpoint test holds iff some endpoint of the segment, start or end, is near the pointer |
| `Geometry.NearEndpointAt` | src/App.js:93-96 | the callback handed to `find` accepts a segment iff its start or its end lies strictly inside the box of half-width 5 around the pointer |
| `Sequences.FindFirst` | src/App.js:86 | `find` in its index form: the index of an element satisfying the test with none before it, or None iff no element satisfies it |
| `Sequences.RemoveAt` | src/App.js:105 | one element fewer; the elements before the index and after it are kept in order |
| `Sequences.RemoveAtMultiset` | src/App.js:105 | the multiset of the result is the input's minus exactly one copy of the removed element |
| `Sequences.Without` | src/App.js:88 | the identity filter removes exactly as many elements as there are occurrences of the identity, and keeps only elements of the input |
| `Sequences.WithoutKeeps` | src/App.js:105 | every element whose identity differs from the filtered one is kept |
| `Sequences.WithoutUnique` | src/App.js:88 | with distinct identities, filtering out the identity at index i is removal at index i |
| `Drawing.App.constructor` | src/App.js:6-12 | initial state: no segments, nothing in progress, no selection, road tool, menu hidden at (0,0), no lane |
| `Drawing.App.MouseDown` | src/App.js:79-113 | button 2 changes nothing. With the eraser, `lines` loses the first segment the point is on (or stays the same) and nothing else changes. With the road tool, the first segment with a near endpoint leaves `lines`, becomes the segment in progress and has its near endpoint selected; with no such segment, a zero-length segment at the point starts and `lines` and the selection are unchanged |
| `Drawing.App.Erase` | src/App.js:85-91 | `lines` is the identity filter of the first hit, which equals removal at that index; no hit leaves `lines` unchanged; the object invariant is kept |
| `Drawing.App.Press` | src/App.js:93-112 | the grab or fresh-start effect of the road tool, with `lines` both as the identity filter and as removal at the found index |
| `Drawing.App.Grab` | src/App.js:98-106 | the segment at the found index becomes the segment in progress, with `GrabbedEnd` selected; `lines` is its identity filter, which equals removal at that index; the object invariant is kept |
| `Drawing.App.MouseMove` | src/App.js:115-133 | with nothing in progress, nothing changes; otherwise only the selected endpoint (`end` when none is selected) moves to the pointer; `lines` and the selection are unchanged |
| `Drawing.App.MouseUp` | src/App.js:135-141 | with nothing in progress, nothing changes; otherwise the segment in progress is appended at the end of `lines`, and the segment in progress and the selection are cleared |
| `Drawing.App.ContextMenu` | src/App.js:143-157 | with the road tool, the menu is shown at the client position iff the click is on some committed segment, and is hidden at (0,0) otherwise; with the eraser, the menu state is unchanged |
| `Drawing.App.LaneSelect` | src/App.js:168-171 | the chosen option becomes the selected lane and the menu is hidden |
| `Drawing.App.SelectTool` | src/App.js:193-194 | the tool becomes the chosen one |
| `Drawing.App.Clear` | src/App.js:195 | `lines` becomes empty and the segment in progress is kept |
| `Gestures.MoveEndpointLastWins` | src/App.js:121-132 | moving the same endpoint twice equals moving it once to the last position |
| `Gestures.GrabMoveRelease` | src/App.js:93-141 | removing segment i and appending it with endpoint e moved to q keeps the length; it changes the multiset of segments by exactly that replacement; it keeps the multiset of points at the other end; and it replaces one point at end e by q |
| `Gestures.DragEndpoint` | src/App.js:79-141 | mouse-down on an endpoint, a move and mouse-up leave `lines` as the old `lines` minus the grabbed segment, plus it resized at the back. The multisets of points are as in `GrabMoveRelease`, and nothing is left in progress |
| `Gestures.Draw` | src/App.js:109-141 | with the road tool and nothing in progress, pressing away from every endpoint, moving and releasing appends exactly `Segment(a, b)` to `lines` |
| `Gestures.DrawRoundTrip` | src/App.js:109-141 | press at (10,10), move to (100,10) and release yield `[(10,10)-(100,10)]` with nothing in progress |
| `Gestures.EraseFirstMatch` | src/App.js:85-91 | with (0,0)-(100,0) and (0,50)-(100,50) drawn, the eraser at (50,0) leaves only the second |
| `Gestures.EndpointDrag` | src/App.js:93-141 | dragging (0,0)-(100,0) from near its end to (100,50) yields `[(0,0)-(100,50)]`, with no duplicate |
| `Gestures.ComboOnlyInRoadMode` | src/App.js:143-157 | a right click on a segment does not show the menu with the eraser, and shows it at the client position with the road tool |

## Left out

- The render effect and `drawArrow` (src/App.js:14-67): canvas calls with `Math.atan2`, `cos` and `sin`; purely cosmetic output.
- Floating point: coordinates are assumed to be whole pixels. The line test is the exact squared comparison, so the rounding of `Math.sqrt` and of the division at distance exactly 5 is not modelled.
- React specifics: hooks, closures over stale state, batching of `setState` calls, and `e.preventDefault()`. Each handler is one atomic sequential update of the state.
- The free-text lane input (src/App.js:215): it sets the lane to the string `"lane "` followed by the browser's input text, unvalidated. Browser input is not modelled.
- JSX, style objects and the rendering of the menu options (src/App.js:159-220). The list of preset lane labels (src/App.js:11), which nothing ever changes, is not modelled: `LaneSelect` takes any label, as `handleLaneSelect` does.
- Object identity: the ghost identities in `Drawing.App` stand for JavaScript references. The model does not capture aliasing beyond "each segment object is in at most one place".
