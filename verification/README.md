# The logic of the O3D WebGL scene library, in Dafny

O3D is a retained-mode 3D library written in JavaScript on top of WebGL. This project models the parts of it that
compute something and proves what they promise. Numbers are exact (`real`, or `int` for indices); rounding is not
modelled. Objects that the library changes in place are classes here, their methods are proved against functions on
values, and the laws are proved about those functions.

| files | what they model |
|---|---|
| `Callbacks`, `Motion`, `Counter`, `CounterMotion`, `CounterLaws`, `PointRange`, `CounterManager` | animation counters: modes, callback queue, cached cursors, the manager that advances them |
| `CurveKeys`, `Curve`, `CurveShape` | keyframe curves: key lookup, Bezier bisection, evaluation beyond the keys, the shape that results |
| `Geometry`, `BoundingBox`, `Frustum`, `RayBox` | homogeneous transforms, boxes, culling, ray against box |
| `RayTriangle`, `RayPrimitive`, `RayFacing`, `Wireframe` | ray against the triangles of a primitive; wireframe index generation |
| `Buffer`, `BufferNumbers`, `Skin`, `SkinSum` | interleaved vertex buffers and skinning in software, also number by number |
| `RenderState`, `GlMeaning`, `Client`, `RenderGraph`, `RenderTarget` | render-state variables and what they do to a drawing, the incremental GL setter, state stacks, the render traversal and the framebuffers it binds |
| `Performance` | the frame-time controller |
| `Loader`, `LoaderHistory` | the loader barrier, by its counts and by what was asked of it |
| `RealMath`, `Options` | arithmetic and the option type used by the others |

`dafny verify dfyconfig.toml` checks everything.

## Where the code and its comments differ

The model follows the code.

- A leg of a counter fires a closed interval, both ends included, unless it continues at the count where the last leg
  ended; the comments at counter.js:622 and :677-679 describe a half-open one.
- A cursor value of -1 means both "invalid" and "nothing further down". A downward run that stops exactly on the smallest
  callback therefore calls it again on the next call. `CounterLaws.StepSizeIndependence` says that this is the only case
  for a counter whose start and end differ, or that does not wrap or turn.
- `advance(0)` counts as counting up on a counter whose end is not below its start, so it stops or wraps a counter that
  stands on its end, even one running backward; and a cycling counter past an end that is also its start calls the
  callbacks between the two on every `advance(0)`. `CounterLaws.ZeroAdvance` gives the exact condition. The first `tick`
  after start-up advances second counters by 0.
- An oscillating counter whose start is its end turns once in every call that reaches it, so two steps leave it facing the
  other way than one (`PointRanges.PointOscillation`, `PointRanges.TwoStepsTurnBack`). A cycling one keeps its state but
  may call more callbacks (`PointRanges.PointCycle`).
- The side filter of the triangle test is said to drop only triangles that cannot be met. It can also drop one that the
  ray meets on its rim (`RayPrimitives.MetIsSided`, `RayPrimitives.RimCanBeFiltered`).
- `createKey` clears neither the flag that says the keys are sorted nor the one that says there is no jump; the `input`
  setter of a key does not clear the sorted flag. `Curves.Curve.CreateKey` and `Curves.Curve.SetInput` say exactly when
  the curve is as it should be afterwards.
- "If it reports that the box is outside then it's guaranteed to be outside" (bounding_box.js:274-275) is not so for a box
  with corners in front of the eye and behind it: `BoundingBoxes.VisibleButCulled` is one that is culled with a point in
  view. `Frustums.HiddenExactly` says when a box is out of view: exactly if some non-negative mixture of the six side
  functions is positive at all eight corners. That the corners in front of the eye are at least as far out as those behind
  it is exact for lying beyond the one side the box was culled for (`BoundingBoxes.CulledIsOut`), so it is enough for being
  out of view, but not needed (`Frustums.HiddenByTwoSides`).
- The names of the cull modes are the other way round in the ray test than in the render state: `CULL_CCW` leaves hits on
  triangles whose vertices run counter-clockwise as seen from the start (`RayFacings.HitFaces`), while in GL it culls those
  that run so in the window (`GlMeanings.ShownMeans`).
- A Bezier key need not lie on its curve: the root finder never answers 0 and takes an input a thousandth off
  (`CurveShapes.BezierMissesItsKey`, `CurveShapes.BezierFollowsControls`).
- A triangle whose plane holds the start of the ray is never reported, even if the ray runs along it, because the code then
  divides by zero and its comparisons fail; only with the start strictly inside the triangle do they succeed, on
  infinities (`RayPrimitives.OverflowsInside`).
- Leaving a `RenderSurfaceSet` binds the default framebuffer, not the enclosing set's: what is drawn after a nested set
  misses the outer one (`RenderTargets.LandExactly`, `RenderTargets.PassAfterNestedSurface`).
- With separate alpha blending on, what GL shows depends on which variables a state happens to set, because the plain
  blend calls come later and overwrite the separate ones, and because the destination's blend function is missing from
  the values looked up. `RenderStates.UpdatedSynced` gives the exact condition for an update from a state without it,
  `Clients.PopRestoresView` for a push and a pop on such a state, and `Clients.PopRestoresAnyView` on any state. The code
  passes one argument to `stencilFunc`; the model records that one.
- The damping of the frame monitor may equal the minimum number of samples, but then the mean is not a mean
  (`Performance.MeanIsBounded`).
- A vertex with an empty influence list is passed over without moving the streams on (`Skins.ListsMatchVertices`).
- A loader that starts something after it counted down to zero calls back again (`Loaders.RestartFiresTwice`).

## Model

| member | source | states |
|---|---|---|
| `Counters.Counter.Advance` | scalajs/o3d/src/main/javascript/o3d-webgl/counter.js:373-618 | one call of `advance`, for every mode and both signs of period and delta, terminates and ends in the state, callback queue and `old_count` that the mode's trip between the two bounds prescribes (one account of the motion for the four copies in the code) |
| `CounterMotions.OnceStops` | scalajs/o3d/src/main/javascript/o3d-webgl/counter.js:392-400 | ONCE, both orientations and both directions: with the distance amount * multiplier, backward if the flag says so, the counter stops exactly if the count plus the distance (minus, for start above end) is at or past the bound it heads for; the new count is then that bound, and else that target |
| `CounterMotions.OthersRun` | scalajs/o3d/src/main/javascript/o3d-webgl/counter.js:373-618 | in the other modes `running` never changes; without bounds the new count is the target; only OSCILLATE changes the direction |
| `CounterMotions.CycleWraps` | scalajs/o3d/src/main/javascript/o3d-webgl/counter.js:401-411 | CYCLE: a target short of the bound is the new count, another is taken back by whole ranges, to the far bound but not to the one it heads for |
| `CounterMotions.OscillateRotates` | scalajs/o3d/src/main/javascript/o3d-webgl/counter.js:412-603 | OSCILLATE, for either sign of the distance: the point on the circle moves on by the distance modulo twice the range, and the flag changes exactly if it comes to the other half |
| `CounterMotions.OscillateOnPoint` | scalajs/o3d/src/main/javascript/o3d-webgl/counter.js:412-439 | OSCILLATE with start = end: the counter stays on the point and turns if the call gets it there, and else moves |
| `CounterMotions.LegCalls` | scalajs/o3d/src/main/javascript/o3d-webgl/counter.js:625-672 | a leg calls exactly the callbacks on its way, both ends included unless the counter came that way to the first, once each, in the order it comes to them |
| `CounterMotions.CycleCallsPerLap` | scalajs/o3d/src/main/javascript/o3d-webgl/counter.js:401-411 | over any advance in CYCLE mode a callback inside the range is called as often as the count, rolled out without wrapping, comes to one of its copies |
| `CounterMotions.OscillateCallsPerRound` | scalajs/o3d/src/main/javascript/o3d-webgl/counter.js:412-439 | over any advance in OSCILLATE mode it is called as often as the point going round the circle comes to one of its two places |
| `Counters.Counter.OscillateForward` | scalajs/o3d/src/main/javascript/o3d-webgl/counter.js:412-439 | the reflect loop for a rising counter follows the recursive oscillation, turn by turn, with its direction and queue |
| `Counters.Counter.OscillateBackwardDescending` | scalajs/o3d/src/main/javascript/o3d-webgl/counter.js:576-603 | the same loop in the quadrant with end below start, counting up towards start |
| `Counters.Counter.CycleForward` | scalajs/o3d/src/main/javascript/o3d-webgl/counter.js:401-411 | the wrap loop queues one leg per lap and ends where the recursive cycle ends, including a landing on the end and a range of length zero |
| `Counters.Counter.CallCallbacks` | scalajs/o3d/src/main/javascript/o3d-webgl/counter.js:625-672 | a leg queues, after what was queued, exactly the callbacks in its window in travel order, and leaves cursors that mean what their names say |
| `Counters.Counter.AddCallback` | scalajs/o3d/src/main/javascript/o3d-webgl/counter.js:683-702 | afterwards the new count has the new callback, every other count its old one; the list stays strictly sorted; both cursors are invalid |
| `Counters.Counter.RemoveCallback` | scalajs/o3d/src/main/javascript/o3d-webgl/counter.js:710-723 | true exactly if the count had a callback; it alone disappears; otherwise nothing at all changes |
| `Counters.Counter.RemoveAllCallbacks` | scalajs/o3d/src/main/javascript/o3d-webgl/counter.js:728-732 | the list is empty and the cursors are invalid; the rest is as before |
| `Counters.Counter.SetCount` | scalajs/o3d/src/main/javascript/o3d-webgl/counter.js:353-358 | sets the count and `old_count` and invalidates both cursors, and nothing else |
| `Callbacks.SelectIsSlice` | scalajs/o3d/src/main/javascript/o3d-webgl/counter.js:629-672 | filtering a sorted list by a window, up or down, is one contiguous slice between two ranks: what the cursor walks traverse |
| `Callbacks.FlyAllCursorOk` | scalajs/o3d/src/main/javascript/o3d-webgl/counter.js:625-672 | cursors stay right over any journey: a valid next cursor is the number of callbacks at or below the last end, a valid prev cursor the last index below it |
| `Callbacks.SplitLeg` | scalajs/o3d/src/main/javascript/o3d-webgl/counter.js:625-672 | making one leg in two pieces leaves the same cursors and queues the same callbacks, plus the smallest callback again if a downward leg stops exactly on it |
| `Callbacks.GluedFires` | scalajs/o3d/src/main/javascript/o3d-webgl/counter.js:401-439 | for whole journeys: same cursors always, same queue exactly if the break is not such a seam |
| `Motion.TripSplits` | scalajs/o3d/src/main/javascript/o3d-webgl/counter.js:373-618 | in every mode, from any count, moving by a and then by b is one trip of length a + b: same path, count, stop and turn; the range may be a single point unless the mode wraps or turns |
| `Motion.OscillationIsRotation` | scalajs/o3d/src/main/javascript/o3d-webgl/counter.js:412-439 | an oscillating count is a point moving round a circle of twice the period at constant speed |
| `CounterLaws.OscillationPhase` | scalajs/o3d/src/main/javascript/o3d-webgl/counter.js:412-603 | phase after = (phase + a * multiplier) mod 2P, and forward exactly if it is below P, for start below end and for start above end |
| `CounterLaws.StepSizeIndependence` | scalajs/o3d/src/main/javascript/o3d-webgl/counter.js:373-672 | advance(a) then advance(b) gives the state of advance(a + b) in every mode, direction and orientation, from any count, for positive and for negative amounts; the queues agree if and only if the first call does not stop a downward run on the smallest callback. Only CYCLE and OSCILLATE need start and end to differ |
| `CounterLaws.CountingUpIsExact` | scalajs/o3d/src/main/javascript/o3d-webgl/counter.js:373-446 | counting up with start below end, in CONTINUOUS, ONCE and CYCLE mode, from any count, state and queue never depend on the step size, landings on start after a wrap included |
| `CounterLaws.LowestCallbackCalledTwice` | scalajs/o3d/src/main/javascript/o3d-webgl/counter.js:651-657 | a concrete counter for which two steps down call the smallest callback twice and one step calls it once |
| `CounterLaws.SeamIsVisible` | scalajs/o3d/src/main/javascript/o3d-webgl/counter.js:651-657 | the seam of the two paths is the condition that a caller can read off the counter between the calls |
| `CounterLaws.ZeroAdvance` | scalajs/o3d/src/main/javascript/o3d-webgl/counter.js:391-411 | advance(0) calls nothing and changes no field but the cursors, except, exactly, for a counter at or past an end that is not below its start: in ONCE mode if it runs or is past it, in CYCLE mode if start and end differ, or if they coincide, the count is past them and a callback lies in the leg back; what becomes of the cursors otherwise is stated too |
| `CounterLaws.ZeroAdvanceCalls` | scalajs/o3d/src/main/javascript/o3d-webgl/counter.js:401-407 | a concrete counter of the last kind: each advance(0) calls its callback again and leaves it where it was |
| `PointRanges.PointOscillation` | scalajs/o3d/src/main/javascript/o3d-webgl/counter.js:412-439 | OSCILLATE with start = end: two steps give the state of one if and only if the first does not reach that point, and then the queues agree except at the seam |
| `PointRanges.TwoStepsTurnBack` | scalajs/o3d/src/main/javascript/o3d-webgl/counter.js:412-439 | a concrete counter standing on start = end: two steps of 1 turn it twice, one of 2 once |
| `PointRanges.PointCycle` | scalajs/o3d/src/main/javascript/o3d-webgl/counter.js:401-411 | CYCLE with start = end: the state never depends on the step size; the queues agree exactly under a condition on the callbacks and the three counts |
| `CounterManagers.CounterManager.SetRunning` | scalajs/o3d/src/main/javascript/o3d-webgl/counter.js:249-261 | the `running` setter keeps every list equal to the running counters of its type, each once |
| `CounterManagers.CounterManager.Attach` | scalajs/o3d/src/main/javascript/o3d-webgl/counter.js:285-296 | a counter, with or without a manager before, leaves the old one and joins this one and its list with its state unchanged; both managers stay consistent |
| `CounterManagers.CounterManager.AdvanceCounters` | scalajs/o3d/src/main/javascript/o3d-webgl/counter.js:57-71 | every running counter of the type is advanced exactly once and no other counter changes, although counters that stop leave the list during the walk; the callbacks called are those of the counters one after the other in list order |
| `CounterManagers.CounterManager.Tick` | scalajs/o3d/src/main/javascript/o3d-webgl/counter.js:77-86 | tick counters advance by 1, second counters by the seconds since the last tick (0 at first), render-frame counters not at all; the callbacks of the tick counters are called first, then those of the second counters, each in list order |
| `CounterManagers.SecondsAreThousands` | scalajs/o3d/src/main/javascript/o3d-webgl/counter.js:79-83 | second counters advance by the milliseconds since the last tick over 1000, and by 0 at first |
| `CounterManagers.WithoutMembers` | scalajs/o3d/src/main/javascript/o3d-webgl/counter.js:114-120 | unregistering removes that counter and keeps the rest, still distinct |
| `CurveKeys.FindTIsGood` | scalajs/o3d/src/main/javascript/o3d-webgl/curve.js:224-267 | for an input between the outer controls the answer is within tolerance of the input, or an end of a bracket no wider than the tolerance that the cubic crosses |
| `CurveKeys.BisectFindsRoot` | scalajs/o3d/src/main/javascript/o3d-webgl/curve.js:247-266 | the same from any bracket the bisection may have reached |
| `CurveKeys.FindTLoop` | scalajs/o3d/src/main/javascript/o3d-webgl/curve.js:224-267 | the loop computes that answer, strictly inside (0, 1), after at most eleven looks |
| `CurveKeys.CoverUnique` | scalajs/o3d/src/main/javascript/o3d-webgl/curve.js:666-776 | sorted keys, duplicates allowed, have at most one index with keys[i].input <= input < keys[i+1].input |
| `CurveKeys.SearchNearby` | scalajs/o3d/src/main/javascript/o3d-webgl/curve.js:687-730 | from any remembered index, stale or not, a reported hit covers the input; no key outside the list is read |
| `CurveKeys.SearchAll` | scalajs/o3d/src/main/javascript/o3d-webgl/curve.js:732-762 | binary search and walk find the covering index; the "outside range" error cannot happen |
| `Curves.Curve.GetOutputInSpan` | scalajs/o3d/src/main/javascript/o3d-webgl/curve.js:666-776 | the cached lookup returns the value of the covering key pair whatever the context holds; no division by zero; neither error is reported |
| `Curves.Curve.Evaluate` | scalajs/o3d/src/main/javascript/o3d-webgl/curve.js:785-912 | for any number of keys and any context the result is the whole-line value of the sorted keys under the two infinity modes; keys are only reordered; no error is reported for a known mode |
| `CurveShapes.StepStays` | scalajs/o3d/src/main/javascript/o3d-webgl/curve.js:129-136 | between a step key and the next the value is the key's output |
| `CurveShapes.LinearGoesStraight` | scalajs/o3d/src/main/javascript/o3d-webgl/curve.js:79-83 | between a linear key and the next: (value - output) * (next input - input) = (x - input) * (next output - output) |
| `CurveShapes.BezierFollowsControls` | scalajs/o3d/src/main/javascript/o3d-webgl/curve.js:277-305 | between a Bezier key and the next the value is the cubic of the four outputs at a t that solves the cubic of the four inputs to a thousandth; before a key of another kind the third control is a third of the way back |
| `CurveShapes.ThroughKeys` | scalajs/o3d/src/main/javascript/o3d-webgl/curve.js:79-83 | the curve goes through its step and linear keys |
| `CurveShapes.BezierMissesItsKey` | scalajs/o3d/src/main/javascript/o3d-webgl/curve.js:224-267 | a concrete Bezier key that is not on its curve |
| `CurveShapes.LinearBefore` | scalajs/o3d/src/main/javascript/o3d-webgl/curve.js:818-827 | LINEAR before the keys: the slope equation of the first two keys, or flat if they are at most 0.00001 apart |
| `CurveShapes.LinearAfter` | scalajs/o3d/src/main/javascript/o3d-webgl/curve.js:861-871 | and after them that of the last two |
| `CurveShapes.ConstantIsFlat` | scalajs/o3d/src/main/javascript/o3d-webgl/curve.js:815-860 | CONSTANT: the outer key's output on either side |
| `CurveShapes.FlatOtherwise` | scalajs/o3d/src/main/javascript/o3d-webgl/curve.js:811-896 | so it is for an unknown mode, and if all keys lie at one input |
| `CurveShapes.KeysFromValues` | scalajs/o3d/src/main/javascript/o3d-webgl/curve.js:521-597 | the keys added from a list of values take their numbers from it in the documented order |
| `Curves.OneFormula` | scalajs/o3d/src/main/javascript/o3d-webgl/curve.js:804-905 | CYCLE, CYCLE_RELATIVE and OSCILLATE at both ends are each one formula over the whole line, inside the span included |
| `Curves.CycleIsPeriodic` | scalajs/o3d/src/main/javascript/o3d-webgl/curve.js:804-905 | CYCLE: f(x + span) = f(x) for every x and any mix of keys |
| `Curves.CycleRelativeRises` | scalajs/o3d/src/main/javascript/o3d-webgl/curve.js:804-905 | CYCLE_RELATIVE: f(x + span) = f(x) + (end output - start output) |
| `Curves.OscillateIsEvenAndPeriodic` | scalajs/o3d/src/main/javascript/o3d-webgl/curve.js:804-905 | OSCILLATE: f(x + 2 span) = f(x), and f is even about start and about end |
| `Curves.Curve.UpdateCurveInfo` | scalajs/o3d/src/main/javascript/o3d-webgl/curve.js:634-658 | sorts the keys by input (a permutation; unchanged if the flag says sorted) and renews the discontinuity flag |
| `Curves.SortKeysSorts` | scalajs/o3d/src/main/javascript/o3d-webgl/curve.js:624-637 | the sort is ordered and keeps the multiset of keys |
| `Curves.JumpsAreAdjacent` | scalajs/o3d/src/main/javascript/o3d-webgl/curve.js:648-656 | two keys with one input and two outputs exist exactly if two neighbours do, so looking at neighbours is enough |
| `Curves.Curve.FindDiscontinuity` | scalajs/o3d/src/main/javascript/o3d-webgl/curve.js:641-657 | the flag is set exactly if step keys are mixed with others or an input has two outputs |
| `Curves.Curve.AddLinearKeys` | scalajs/o3d/src/main/javascript/o3d-webgl/curve.js:521-534 | appends one key per pair, or reports an error and changes nothing if the number of values is odd |
| `Curves.Curve.AddStepKeys` | scalajs/o3d/src/main/javascript/o3d-webgl/curve.js:550-563 | the same for step keys, which are also counted |
| `Curves.Curve.AddBezierKeys` | scalajs/o3d/src/main/javascript/o3d-webgl/curve.js:580-597 | the same for groups of six |
| `Curves.Curve.CreateKey` | scalajs/o3d/src/main/javascript/o3d-webgl/curve.js:501-505 | appends at (0, 0) without clearing a flag: a valid curve stays valid exactly if it was to be sorted anyway, or no key lies above 0 and the jump flag is set or due or the new key makes neither a jump nor a mix of kinds |
| `Curves.NewKeyOutOfOrder` | scalajs/o3d/src/main/javascript/o3d-webgl/curve.js:501-505 | concrete keys that are out of order afterwards under a set sorted flag |
| `Curves.NewKeyMakesJump` | scalajs/o3d/src/main/javascript/o3d-webgl/curve.js:501-505 | concrete keys, still in order, that have a jump afterwards under a clear jump flag |
| `Curves.AppendDiscontinuous` | scalajs/o3d/src/main/javascript/o3d-webgl/curve.js:641-657 | after an append there is a jump or a mix of kinds exactly if there was one or the new key makes one |
| `Curves.Curve.SetInput` | scalajs/o3d/src/main/javascript/o3d-webgl/curve.js:92-97 | moves one key and asks for a new discontinuity check: a sorted curve stays valid exactly if the key stays between its neighbours |
| `Curves.KeyMovedPast` | scalajs/o3d/src/main/javascript/o3d-webgl/curve.js:92-97 | concrete keys that are out of order after one is moved, under a set sorted flag |
| `Curves.AppendKeepsOrder` | scalajs/o3d/src/main/javascript/o3d-webgl/curve.js:501-505 | the order survives an append exactly if the last input is not above the new one |
| `Curves.Curve.DestroyKey` | scalajs/o3d/src/main/javascript/o3d-webgl/curve.js:67-70 | removes that key alone and keeps count of the step keys |
| `RayBoxes.IntersectRay` | scalajs/o3d/src/main/javascript/o3d-webgl/bounding_box.js:168-264 | for an ordered box: intersected exactly if some t >= 0 is in the box, position is the point at the least such t, inside exactly if the start is |
| `RayBoxes.HitAtLastEntry` | scalajs/o3d/src/main/javascript/o3d-webgl/bounding_box.js:224-259 | the candidate axis with the latest entry time decides: in there, the hit is there and not earlier |
| `RayBoxes.NoHitIfOutAtEntry` | scalajs/o3d/src/main/javascript/o3d-webgl/bounding_box.js:241-252 | out of the box at that time, the ray never meets it |
| `RayBoxes.NoHitIfEntryIsPast` | scalajs/o3d/src/main/javascript/o3d-webgl/bounding_box.js:242-243 | a negative entry time rules every hit out |
| `BoundingBoxes.FitBoxToPoints` | scalajs/o3d/src/main/javascript/o3d-webgl/bounding_box.js:84-116 | the result holds all points and lies inside every box that does |
| `BoundingBoxes.Mul` | scalajs/o3d/src/main/javascript/o3d-webgl/bounding_box.js:126-136 | with w nonzero at the corners: the smallest box around the mapped corners; if w is positive there it holds the image of every point of the box |
| `BoundingBoxes.CornersBeyond` | scalajs/o3d/src/main/javascript/o3d-webgl/transform.js:623-636 | if all corners map to one side of a coordinate plane, so does the whole box |
| `BoundingBoxes.InFrustum` | scalajs/o3d/src/main/javascript/o3d-webgl/bounding_box.js:280-299 | with w nonzero at the corners: false exactly if all eight corners map beyond one and the same side of the view volume |
| `BoundingBoxes.CulledIsOut` | scalajs/o3d/src/main/javascript/o3d-webgl/bounding_box.js:274-299 | everything of a culled box that is in front of the eye lies beyond the side it was culled for, if and only if its corners in front of the eye are at least as far out as those behind it; enough, but not needed, for being out of view |
| `Frustums.HiddenExactly` | scalajs/o3d/src/main/javascript/o3d-webgl/bounding_box.js:268-299 | for an invertible matrix and an ordered box: no point of the box is in view if and only if some non-negative mixture of the six side functions is positive at all eight corners |
| `Frustums.OutOfViewExactly` | scalajs/o3d/src/main/javascript/o3d-webgl/bounding_box.js:268-299 | the same for any matrix, with the points that it maps to the zero vector counted as not out of view |
| `Frustums.Alternative` | scalajs/o3d/src/main/javascript/o3d-webgl/bounding_box.js:268-299 | the theorem of alternatives behind it: for finitely many affine functions and points, either some point of the hull has none of the functions positive, or some non-negative mixture of them is positive on all the points |
| `Frustums.HiddenByTwoSides` | scalajs/o3d/src/main/javascript/o3d-webgl/bounding_box.js:280-299 | a concrete box that is culled for one side alone, reaches inside it in front of the eye, and is still out of view |
| `Frustums.InViewMeans` | scalajs/o3d/src/main/javascript/o3d-webgl/bounding_box.js:287-295 | in view means: w positive, x and y between -w and w, z between 0 and w |
| `BoundingBoxes.VisibleButCulled` | scalajs/o3d/src/main/javascript/o3d-webgl/bounding_box.js:274-299 | a concrete box that is culled and has a point in view |
| `BoundingBoxes.CullingIsConservative` | scalajs/o3d/src/main/javascript/o3d-webgl/bounding_box.js:280-299 | a culled box that is wholly in front of the eye maps wholly beyond one common side |
| `Geometry.Corners` | scalajs/o3d/src/main/javascript/o3d-webgl/bounding_box.js:60-72 | the eight corners in the order of the triple loop |
| `Geometry.LowestCorner` | scalajs/o3d/src/main/javascript/o3d-webgl/bounding_box.js:60-72 | an affine function is nowhere in the box smaller than at some corner |
| `RayTriangles.StrikeMeets` | scalajs/o3d/src/main/javascript/o3d-webgl/primitive.js:525-551 | coefficients in the first octant give a point of the triangle on the ray: convex weights and a positive time |
| `RayTriangles.MeetingStrikes` | scalajs/o3d/src/main/javascript/o3d-webgl/primitive.js:525-551 | conversely every meeting has those coefficients, that time and those weights |
| `RayTriangles.CramerInverse` | scalajs/o3d/src/main/javascript/o3d-webgl/primitive.js:525-535 | the three minors recover the coefficients of any combination of the rows, times the determinant |
| `RayTriangles.NormalsAreNormal` | scalajs/o3d/src/main/javascript/o3d-webgl/primitive.js:430-447 | for a nonzero direction u and v are nonzero and orthogonal to it |
| `RayPrimitives.TestTriangle` | scalajs/o3d/src/main/javascript/o3d-webgl/primitive.js:512-547 | the code's cofactors, octant test and rescaling, division by zero included: hit exactly if the volume is not zero and the coefficients are in the first octant, and the point is on the ray |
| `RayPrimitives.OverflowsInside` | scalajs/o3d/src/main/javascript/o3d-webgl/primitive.js:518-537 | the one case in which the tests succeed on infinities: volume zero and three minors of one sign, which is to say that the start lies strictly inside the triangle and the ray leaves its plane |
| `RayPrimitives.MeetingTime` | scalajs/o3d/src/main/javascript/o3d-webgl/primitive.js:496-547 | seen from outside its plane a triangle is met exactly if it is struck, at one time only |
| `RayPrimitives.CheckSides` | scalajs/o3d/src/main/javascript/o3d-webgl/primitive.js:449-494 | the absolute test against u.start and v.start is the one-sidedness test of the shifted triangle |
| `RayPrimitives.PiercedIsNotSided` | scalajs/o3d/src/main/javascript/o3d-webgl/primitive.js:430-494 | the side filter never discards a triangle whose strict interior the ray meets |
| `RayPrimitives.MetIsSided` | scalajs/o3d/src/main/javascript/o3d-webgl/primitive.js:478-494 | a triangle that is met is discarded exactly if no vertex lies strictly above one of the two planes |
| `RayPrimitives.RimCanBeFiltered` | scalajs/o3d/src/main/javascript/o3d-webgl/primitive.js:489-494 | a concrete ray into a vertex that the filter discards |
| `RayPrimitives.DistanceIncreases` | scalajs/o3d/src/main/javascript/o3d-webgl/primitive.js:548-557 | on one ray squared distance orders hits as time does |
| `RayPrimitives.IntersectRay` | scalajs/o3d/src/main/javascript/o3d-webgl/primitive.js:410-563 | over strip, fan and list (as which points and lines are read too), degenerate triangles included: intersected exactly if some triangle that is neither filtered nor culled nor in a plane with the start is met; the reported index and position are such a meeting, and no accepted triangle is met earlier |
| `RayFacings.HitFaces` | scalajs/o3d/src/main/javascript/o3d-webgl/primitive.js:518-523 | from the vertices a, b, c in index order: a hit under CULL_CW has (b - a) x (c - a) along the ray, one under CULL_CCW against it |
| `RayFacings.FacingIsFound` | scalajs/o3d/src/main/javascript/o3d-webgl/primitive.js:410-563 | conversely a triangle that is pierced inside its rim and faces the right way is a hit, so the search reports one |
| `RayFacings.Corners` | scalajs/o3d/src/main/javascript/o3d-webgl/primitive.js:369-396 | which points of the buffer make up triangle n of a strip, a fan and a list, every other triangle of a strip turned round |
| `RayFacings.StripHitFaces` | scalajs/o3d/src/main/javascript/o3d-webgl/primitive.js:369-396 | in a strip, told by its points in order, the side that is hit alternates with the triangle |
| `RayPrimitives.PiercedIsFound` | scalajs/o3d/src/main/javascript/o3d-webgl/primitive.js:410-563 | a triangle pierced inside its rim and not culled is never missed |
| `Wireframes.ComputeWireframeIndices` | scalajs/o3d/src/main/javascript/o3d-webgl/primitive.js:276-360 | for n > 0 the array is completely written, as long as what `render` draws, and its undirected segments are exactly the sides of triangles 0..n-1 |
| `Wireframes.OutlineMembers` | scalajs/o3d/src/main/javascript/o3d-webgl/primitive.js:370-396 | an outline holds exactly the sides of the triangles that `computeTriangleIndices_` names |
| `Wireframes.OutlineJoinsCorners` | scalajs/o3d/src/main/javascript/o3d-webgl/primitive.js:263-268 | an outline joins exactly what stands in the index buffer at two corner positions of one of the triangles |
| `Wireframes.StripOutline` | scalajs/o3d/src/main/javascript/o3d-webgl/primitive.js:331-357 | the strip's lines, with every other triangle turned round, are its outline |
| `Wireframes.FanOutline` | scalajs/o3d/src/main/javascript/o3d-webgl/primitive.js:309-329 | the fan's lines are its outline |
| `Wireframes.ListOutline` | scalajs/o3d/src/main/javascript/o3d-webgl/primitive.js:289-306 | the list's lines are its outline |
| `Buffers.OneOwner` | scalajs/o3d/src/main/javascript/o3d-webgl/buffer.js:84-91 | with prefix-sum offsets every component of an element belongs to exactly one field |
| `Buffers.SlotsApart` | scalajs/o3d/src/main/javascript/o3d-webgl/buffer.js:192-202 | two strided slots are the same number exactly if element and component agree |
| `Buffers.Buffer.UpdateTotalComponents` | scalajs/o3d/src/main/javascript/o3d-webgl/buffer.js:84-91 | offsets become the prefix sums of the widths and the total their sum |
| `Buffers.Buffer.AllocateElements` | scalajs/o3d/src/main/javascript/o3d-webgl/buffer.js:100-115 | lays the fields out and allocates that many zeroed elements, a whole number of them |
| `Buffers.Buffer.GetAtHelper` | scalajs/o3d/src/main/javascript/o3d-webgl/buffer.js:192-202 | the strided double loop reads the field's entries of those elements in order |
| `Buffers.Buffer.CreateField` | scalajs/o3d/src/main/javascript/o3d-webgl/buffer.js:129-160 | on an array of whole elements every earlier field keeps its offset and reads the same values, the new one comes last and reads zeros, and the array is one of whole elements again; an unallocated array is not touched |
| `Buffers.Buffer.RestoreFields` | scalajs/o3d/src/main/javascript/o3d-webgl/buffer.js:148-158 | restored columns read back as saved, the remaining ones are unchanged |
| `Buffers.Field.SetAt` | scalajs/o3d/src/main/javascript/o3d-webgl/field.js:86-99 | the in-place double loop replaces exactly the field's entries from the start element on |
| `Buffers.Field.GetAt` | scalajs/o3d/src/main/javascript/o3d-webgl/field.js:109-113 | returns the field's entries |
| `Buffers.WriteThenRead` | scalajs/o3d/src/main/javascript/o3d-webgl/field.js:86-113 | getAt after setAt returns the values |
| `Buffers.WriteKeepsOthers` | scalajs/o3d/src/main/javascript/o3d-webgl/field.js:86-99 | setAt changes nothing that a field with disjoint components reads, in any elements |
| `BufferNumbers.WriteNumber` | scalajs/o3d/src/main/javascript/o3d-webgl/field.js:86-99 | setAt puts component c of the i-th entry at (start + i) * total + offset + c |
| `BufferNumbers.WriteElsewhere` | scalajs/o3d/src/main/javascript/o3d-webgl/field.js:86-99 | and changes no number outside the field's entries in those elements |
| `BufferNumbers.ReadNumber` | scalajs/o3d/src/main/javascript/o3d-webgl/buffer.js:192-202 | getAt returns those numbers, element after element |
| `Buffers.SetColumn` | scalajs/o3d/src/main/javascript/o3d-webgl/field.js:86-113 | setting a whole column: it reads back, and every other column is unchanged |
| `Skins.AccumulatedImage` | scalajs/o3d/src/main/javascript/o3d-webgl/skin.js:465-490 | applying the accumulated matrix is the weighted sum of the images under the single bones |
| `Skins.ProductActs` | scalajs/o3d/src/main/javascript/o3d-webgl/transform.js:315-373 | the composed matrix acts as one matrix after the other |
| `Skins.Compose` | scalajs/o3d/src/main/javascript/o3d-webgl/transform.js:315-373 | in place, also when the target is one of the factors, the target becomes their product |
| `Skins.UpdateBones` | scalajs/o3d/src/main/javascript/o3d-webgl/skin.js:672-726 | a bone acts as inverse bind pose, then matrix, then inverse base; with mismatched sizes all bones are kept, and from the first missing matrix on the old ones are |
| `SkinSums.RowsAct` | scalajs/o3d/src/main/javascript/o3d-webgl/transform.js:640-662 | a matrix of four rows moves a vertex by adding up the rows, each times its coordinate |
| `Skins.Accumulate` | scalajs/o3d/src/main/javascript/o3d-webgl/skin.js:630-648 | the in-place accumulation over all influences of a vertex |
| `Skins.StreamInfo.Compute` | scalajs/o3d/src/main/javascript/o3d-webgl/skin.js:884-921 | transforms the next entry, a point with w = 1, other triples with w = 0, four-vectors as they are, and advances by the stride |
| `Skins.StreamInfo.Copy` | scalajs/o3d/src/main/javascript/o3d-webgl/skin.js:928-950 | replaces exactly the next entry of the target and advances by the stride |
| `Skins.DoSkinning` | scalajs/o3d/src/main/javascript/o3d-webgl/skin.js:623-665 | entry k of every output is the weighted sum of what was entry k of its input over the k-th non-empty influence list, for inputs and outputs interleaved in shared arrays, and in place when an output is its own input; no number outside the output entries changes |
| `SkinSums.SkinnedNumbers` | scalajs/o3d/src/main/javascript/o3d-webgl/skin.js:623-665 | what that means for the arrays: component c of the output in element k is the real sum, over the list, of weight times the moved vertex' coordinate, the vertex being a point with w = 1, another triple with w = 0, or a four-vector |
| `SkinSums.ImageIsTotal` | scalajs/o3d/src/main/javascript/o3d-webgl/skin.js:465-490 | each coordinate of the weighted image is the sum of weight times coordinate, with the matrix product written out |
| `SkinSums.EqualBones` | scalajs/o3d/src/main/javascript/o3d-webgl/skin.js:465-490 | on equal bones only the sum of the weights matters; if it is 1 the vertex goes where the bone takes it |
| `SkinSums.NoInfluence` | scalajs/o3d/src/main/javascript/o3d-webgl/skin.js:465-490 | an influence of weight 0 changes nothing |
| `Skins.ListsMatchVertices` | scalajs/o3d/src/main/javascript/o3d-webgl/skin.js:627-661 | every vertex gets its own influences exactly if no empty list comes before a non-empty one |
| `RenderStates.FromScratch` | scalajs/o3d/src/main/javascript/o3d-webgl/state.js:583-697 | setting every variable, from any GL settings, makes GL show what the variables describe; separate alpha blending is overwritten by the later calls |
| `GlMeanings.BlendFuncMeans` | scalajs/o3d/src/main/javascript/o3d-webgl/state.js:447-474 | the number by which GL multiplies for each of the library's blend functions is the one it is called after; an unknown one counts as 1 |
| `GlMeanings.BlendEquationMeans` | scalajs/o3d/src/main/javascript/o3d-webgl/state.js:484-501 | sum, difference, reverse difference, minimum and maximum; an unknown equation adds |
| `GlMeanings.ComparisonMeans` | scalajs/o3d/src/main/javascript/o3d-webgl/state.js:409-433 | the relation that each of the library's comparisons tests; an unknown one always passes |
| `GlMeanings.ShownMeans` | scalajs/o3d/src/main/javascript/o3d-webgl/state.js:583-697 | wherever GL shows what the variables describe, pixels blend, depth and stencil are tested, faces culled and polygons offset as the values of the variables say |
| `GlMeanings.DefaultsMean` | scalajs/o3d/src/main/javascript/o3d-webgl/state.js:47-119 | by default nothing is blended, nearer fragments win and are recorded, clockwise faces are culled |
| `RenderStates.UpdatedSynced` | scalajs/o3d/src/main/javascript/o3d-webgl/state.js:583-697 | the incremental setter keeps GL in agreement if and only if separate alpha blending is off, untouched, or overwritten by this very update |
| `RenderStates.DepthsFollow` | scalajs/o3d/src/main/javascript/o3d-webgl/state.js:654-678 | setting one of ZEnable and ZComparisonFunction (or of the stencil pair) looks the other one up, so the shown depth state stays right |
| `RenderStates.FillsFollow` | scalajs/o3d/src/main/javascript/o3d-webgl/state.js:680-696 | the same for the two polygon offsets |
| `Clients.Client.RelevantValues` | scalajs/o3d/src/main/javascript/o3d-webgl/state.js:551-574 | found exactly if one of the names is in the map; then every name gets its current value |
| `Clients.Client.SetVariables` | scalajs/o3d/src/main/javascript/o3d-webgl/state.js:583-697 | GL ends with the settings of the incremental update, nothing else changes |
| `Clients.Client.PushState` | scalajs/o3d/src/main/javascript/o3d-webgl/client.js:1158-1175 | both kinds of stacks and GL after a push |
| `Clients.Client.PopState` | scalajs/o3d/src/main/javascript/o3d-webgl/client.js:1181-1192 | both kinds of stacks and GL after a pop |
| `Clients.Client.ClearStateStack` | scalajs/o3d/src/main/javascript/o3d-webgl/client.js:1140-1149 | keeps the bottom of each stack, empties the map stack, leaves GL alone |
| `Clients.Client.GetState` | scalajs/o3d/src/main/javascript/o3d-webgl/client.js:1200-1204 | the top of the variable's stack, or its default |
| `Clients.Client.constructor` | scalajs/o3d/src/main/javascript/o3d-webgl/client.js:682-682 | pushing a state with the default of every variable that reaches GL onto empty stacks brings GL into agreement and leaves one value on each stack |
| `Clients.PushKeepsLayers` | scalajs/o3d/src/main/javascript/o3d-webgl/client.js:1158-1175 | after a push every variable's stack is still its base and the projection of the map stack |
| `Clients.PopKeepsLayers` | scalajs/o3d/src/main/javascript/o3d-webgl/client.js:1181-1192 | after a pop too |
| `Clients.PopUndoesPush` | scalajs/o3d/src/main/javascript/o3d-webgl/client.js:1158-1192 | a pop brings both kinds of stacks back |
| `Clients.RunAgrees` | scalajs/o3d/src/main/javascript/o3d-webgl/client.js:1140-1192 | after any run of pushes and matched pops without separate alpha blending the stacks are layered and GL shows what setting every variable from scratch shows |
| `GlMeanings.RunMeans` | scalajs/o3d/src/main/javascript/o3d-webgl/client.js:1140-1192 | after any such run, what is drawn is blended with the documented factors of the innermost maps' blend functions |
| `Clients.EnvIsInnermost` | scalajs/o3d/src/main/javascript/o3d-webgl/client.js:1200-1204 | the current value of a variable is that of the innermost map that defines it, else its base value |
| `Clients.MergeIsInnermost` | scalajs/o3d/src/main/javascript/o3d-webgl/client.js:1200-1204 | laying maps over each other gives every variable its innermost value |
| `Clients.PopRestoresView` | scalajs/o3d/src/main/javascript/o3d-webgl/client.js:1158-1192 | on a state without separate alpha blending, push and pop restore what GL shows if and only if the push did not make separate alpha blending show (or blending is off) |
| `Clients.PopRestoresAnyView` | scalajs/o3d/src/main/javascript/o3d-webgl/client.js:1158-1192 | on any state: if and only if GL already blended as the pop sets it, plainly in what the map sets plainly, else as separate blending was set last (or blending is off) |
| `Clients.RunKeepsRest` | scalajs/o3d/src/main/javascript/o3d-webgl/client.js:1158-1192 | over any run of pushes and pops, separate alpha blending included, everything but the blending stays in agreement |
| `Clients.SeparateSticks` | scalajs/o3d/src/main/javascript/o3d-webgl/state.js:601-624 | on a client just made, with alpha blending then turned on: a map that only turns separate alpha blending on is not undone by its pop |
| `Clients.ClearKeepsEnv` | scalajs/o3d/src/main/javascript/o3d-webgl/client.js:1140-1149 | clearing is harmless while only the default state is on the stacks |
| `Clients.ClearLeavesBase` | scalajs/o3d/src/main/javascript/o3d-webgl/client.js:1140-1149 | clearing takes any layered run back to the values it began with |
| `RenderGraphs.Renderer.RenderFrame` | scalajs/o3d/src/main/javascript/o3d-webgl/client.js:450-484 | a frame clears the stacks and renders the tree: what is on them, display size and surface set are as before, GL stays in agreement, and the drawings are those of the tree |
| `RenderGraphs.FramesRest` | scalajs/o3d/src/main/javascript/o3d-webgl/client.js:450-484 | from a client just made, over any number of frames of trees without separate alpha blending, only the default state stays on the stacks and GL in agreement |
| `RenderGraphs.Renderer.Render` | scalajs/o3d/src/main/javascript/o3d-webgl/render_node.js:191-203 | for every finite tree: stacks, display size and surface set are restored, what nodes outside the tree saved survives, the drawings are those of the tree in order, the framebuffers are bound as `Bind` prescribes, and without separate alpha blending each drawing is made with the GL view its variables describe |
| `RenderGraphs.Renderer.Before` | scalajs/o3d/src/main/javascript/o3d-webgl/state_set.js:57-61 | entering a node gives its children the frame of that kind of node; a draw pass draws its list first |
| `RenderGraphs.Renderer.After` | scalajs/o3d/src/main/javascript/o3d-webgl/render_surface_set.js:163-169 | leaving a node gives back the stacks, display size and surface set found on entry; a surface set binds the default framebuffer |
| `RenderGraphs.Renderer.RenderChildren` | scalajs/o3d/src/main/javascript/o3d-webgl/render_surface_set.js:148-169 | rendering the children of a node keeps the display size and surface set that it saved, until it is left |
| `RenderTargets.BindAppends` | scalajs/o3d/src/main/javascript/o3d-webgl/render_surface_set.js:80-141 | a subtree leaves the default framebuffer bound if there is a surface set in it, and otherwise what was bound |
| `RenderTargets.LandExactly` | scalajs/o3d/src/main/javascript/o3d-webgl/render_surface_set.js:80-169 | every drawing goes to the framebuffer of the innermost surface set around it if and only if nothing is drawn under a surface set after a nested one (and, for what is drawn before any, the right one was bound at the start); the others go to the default framebuffer |
| `RenderTargets.PassAfterNestedSurface` | scalajs/o3d/src/main/javascript/o3d-webgl/render_surface_set.js:163-169 | a draw pass after a nested surface set misses the outer one |
| `RenderGraphs.Renderer.RenderList` | scalajs/o3d/src/main/javascript/o3d-webgl/draw_list.js:123-167 | each element is drawn between push and pop of its material's state, and the list leaves everything as it was |
| `RenderGraphs.DrawsAreReached` | scalajs/o3d/src/main/javascript/o3d-webgl/render_node.js:191-203 | every drawing has the variables of the innermost of material state and ancestor StateSets, and the innermost surface set |
| `RenderGraphs.ReachedIsDrawn` | scalajs/o3d/src/main/javascript/o3d-webgl/render_node.js:191-203 | and every element below a node is drawn so |
| `RenderGraphs.SortByPriority` | scalajs/o3d/src/main/javascript/o3d-webgl/render_node.js:191-196 | the order of the visit is a permutation of the children: none lost, none repeated |
| `RenderGraphs.SortedByPriority` | scalajs/o3d/src/main/javascript/o3d-webgl/render_node.js:191-196 | and goes from low to high priority |
| `Performance.PerformanceMonitor.OnRender` | scalajs/o3d/src/main/javascript/o3djs/performance.js:176-200 | one frame: new mean, scales, sample count and cool-down, and which quality call is made |
| `Performance.PerformanceMonitor.Create` | scalajs/o3d/src/main/javascript/o3djs/performance.js:80-146 | nothing is made if the damping is below the minimum; otherwise 60 samples, damping 120 and twice the samples as delay stand in for missing options, and the frame-time targets are the inverses of the frame rates |
| `Performance.OptionsCount` | scalajs/o3d/src/main/javascript/o3djs/performance.js:117-136 | an option that is 0 or missing is replaced by its default, any other is taken |
| `Performance.ExactMean` | scalajs/o3d/src/main/javascript/o3djs/performance.js:176-188 | after k frames with minSamples <= k <= damping the mean is the exact average of all samples |
| `Performance.Smooths` | scalajs/o3d/src/main/javascript/o3djs/performance.js:176-188 | past the damping each sample counts for one part in damping: mean' * damping = mean * (damping - 1) + sample |
| `Performance.MeanIsBounded` | scalajs/o3d/src/main/javascript/o3djs/performance.js:176-188 | the mean stays between the least and greatest sample in every run if and only if damping > minSamples |
| `Performance.RunawayMean` | scalajs/o3d/src/main/javascript/o3djs/performance.js:176-188 | with damping = minSamples the mean is the sum of all samples over minSamples, however many there are |
| `Performance.WarmUp` | scalajs/o3d/src/main/javascript/o3djs/performance.js:177-186 | no adjustment in the first minSamples frames |
| `Performance.AdjustmentMeans` | scalajs/o3d/src/main/javascript/o3djs/performance.js:189-199 | quality rises exactly if the warm-up is over, none of the last delayCycles frames adjusted it, and the new mean is below the shorter target, and falls exactly if it is above the longer one |
| `Performance.TargetsAreRates` | scalajs/o3d/src/main/javascript/o3djs/performance.js:138-139 | a frame time below the shorter target is a rate above the highest wanted, one above the longer target a rate below the lowest |
| `Performance.CooledDown` | scalajs/o3d/src/main/javascript/o3djs/performance.js:189-199 | the counter of the cool-down is zero exactly if none of the last delayCycles frames adjusted the quality |
| `Performance.AdjustmentsApart` | scalajs/o3d/src/main/javascript/o3djs/performance.js:189-199 | more than delayCycles frames lie from one adjustment to the next |
| `Performance.FewAdjustments` | scalajs/o3d/src/main/javascript/o3djs/performance.js:189-199 | adjustments * (delayCycles + 1) <= frames past the warm-up + delayCycles |
| `Loaders.Barrier` | scalajs/o3d/src/main/javascript/o3djs/loader.js:56-239 | after any orderly interleaving every count is what is outstanding plus one if not finished, and every onFinished ran once if its own and all nested loads are done and finished, else never |
| `LoaderHistories.BarrierByRecord` | scalajs/o3d/src/main/javascript/o3djs/loader.js:56-239 | the same told by the events alone: `onFinished` of a loader ran once if it was finished, as many of its loads completed as were started, and all loaders nested in it likewise, and else never |
| `LoaderHistories.RunBooks` | scalajs/o3d/src/main/javascript/o3djs/loader.js:99-239 | what the loaders record after a run is what the events say: parents, loads under way, and who was finished |
| `Loaders.StepKeepsInv` | scalajs/o3d/src/main/javascript/o3djs/loader.js:99-239 | each start, completion, nesting and finish keeps that |
| `Loaders.CountDownSettles` | scalajs/o3d/src/main/javascript/o3djs/loader.js:211-228 | counting down settles the whole chain of parents |
| `Loaders.FiredIsDone` | scalajs/o3d/src/main/javascript/o3djs/loader.js:211-228 | a loader has fired exactly if everything below it is done |
| `Loaders.RestartFiresTwice` | scalajs/o3d/src/main/javascript/o3djs/loader.js:99-111 | starting and completing one more load fires a loader at most once if and only if it had not yet counted down to zero |
| `Loaders.CountDownFires` | scalajs/o3d/src/main/javascript/o3djs/loader.js:222-228 | a countdown never takes a firing back and fires each loader at most once |
| `Loaders.LoaderTree.CreateLoader` | scalajs/o3d/src/main/javascript/o3djs/loader.js:211-220 | a nested loader is counted by its parent; a free one is not |
| `Loaders.LoaderTree.Load` | scalajs/o3d/src/main/javascript/o3djs/loader.js:99-111 | one more outstanding load |
| `Loaders.LoaderTree.OnLoaded` | scalajs/o3d/src/main/javascript/o3djs/loader.js:99-111 | one load fewer, and a countdown |
| `Loaders.LoaderTree.FinishLoading` | scalajs/o3d/src/main/javascript/o3djs/loader.js:237-239 | finishing is the last countdown of a loader's own |
| `Loaders.LoaderTree.CountDownFrom` | scalajs/o3d/src/main/javascript/o3djs/loader.js:222-228 | counts down and calls back at zero |

## Left out

- WebGL calls, the canvas, DOM events, requests, image decoding and shader source: foreign effects. GL is a record of settings.
- Floating-point rounding, NaN, infinities and the range of 16-bit indices: numbers are exact, so the cases the code would
  answer with NaN are preconditions here (a ray that starts strictly inside a triangle, a box corner mapped to w = 0).
- `RayPrimitives.IntersectRay`: an index count that is not a multiple of three leaves an incomplete last triangle in a list;
  its coordinates compare false with everything in the code, so it never counts, and the model does not visit it. Index
  entries beyond the last point are excluded for the same reason.
- `Counters.Counter.Advance`: returns the queue of callbacks instead of running them; a callback that advances, seeks or
  edits its own counter is not modelled, nor is a count driven by a bound parameter.
- `CounterLaws.StepSizeIndependence`: leaves steps of zero to `CounterLaws.ZeroAdvance` unless the counter counts up, and
  CYCLE and OSCILLATE with start equal to end, where it fails, to `PointRanges`. Steps of opposite signs are not one step.
- `CounterManagers.CounterManager.AdvanceListed`: a counter that stops itself leaves its list after its advance returns,
  not during it; without callbacks nothing can tell. Callbacks that touch other counters are not modelled.
- `Buffers.Buffer.CreateField`: an allocated array must hold a whole number of elements of a positive size; for other
  lengths the code asks for a fractional or infinite number of elements. The byte size of a field, which only the upload uses, is
  not modelled.
- `Skins.DoSkinning`: no two outputs share a component, and an output shares one with its own input only; influences are
  pairs, not a flat list; stream set-up errors, which the code reports and then ignores, are preconditions.
- `Clients.Client.PopState`: popping an empty map stack, which fails in the code, is a precondition.
- `RenderTargets.LandExactly`: a framebuffer is known by the surface set that installed it; the textures attached to it,
  which the code detaches again, and two sets sharing one surface are not told apart.
- `RenderGraphs.Renderer.Render`: nodes are values and a tree is given; re-parenting, which accepts cycles, is not modelled.
  Draw lists come in the order in which they are drawn; filling and sorting them needs the transform graph. The sort of
  children is taken to be stable.
- `Loaders.LoaderTree.OnLoaded`: loaders are numbered entries of one list, so the callbacks' references to loader objects are indices;
  user callbacks that start more loads are separate events.
- `Performance.PerformanceMonitor.constructor`: options are natural numbers and frame rates positive.
- `Buffer.removeField`, `FunctionEval.updateOutputs`, the curve cache and deserialization: unfinished in the library.
- `Transform.inverse` and the rotations: closed formulas; the inverse of the base is a parameter of the bones.
- `RayIntersectionInfo` puts its position on the prototype, so results that were never assigned one share it; results are values here.
- Power-of-two tests, mip levels, box union, the FPS ring buffer and similar helpers: easy.
