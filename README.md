# GesturePiano hand tracking, modelled in Dafny

GesturePiano plays a virtual piano from a webcam. Each frame goes through four stages:

1. The hand extractor finds the two largest contours of a skin mask.
2. For each contour it turns the convexity defects into fingertip candidates, filters them, and orders the two hands left to right.
3. One hand tracker per hand collects a batch of N hands. It picks the batch's reference hand by a majority vote on finger counts and compares it with the previous batch's reference hand.
4. Fingertips that were bent become pressed points; unbent ones release the nearest pressed point. The gesture wrapper feeds one hand to each tracker, merges their pressed points (left first), and rescales them into the output window.

This project models that integer-coordinate core and proves its behaviour:

| file | module | contents |
|---|---|---|
| `geometry.dfy` | `Geometry` | Points and rectangles; squared distances in place of `sqrt`; C++ truncating division; subsequences |
| `hand.dfy` | `Hands` | The `Hand` value type and the extractor's constants |
| `hand_extractor.dfy` | `HandExtractor` | Contour choice, defect filtering, fingertip filtering, hand features and hand ordering |
| `finger_diff.dfy` | `FingerDiff` | What the tracker computes, as functions: the vote, the reference frame, the nearest click point, the press walk, the release walk, and `AnalyseHand` as a relation |
| `hand_tracker.dfy` | `HandTracking` | The `HandTracker` class. Each method is proved against the `FingerDiff` functions |
| `gesture_wrapper.dfy` | `Gestures` | Coordinate conversion and the `GestureWrapper` class (mode toggles and the per-frame update) |
| `scenarios.dfy` | `Scenarios` | Worked cases: the vote, one press and one release, the closed-fist double press, and the two `FindFingerTips` skips |

Distances are compared exactly, without `sqrt`. `FindEuclideanDistance(a, b) > t` becomes `SquaredDistance(a, b) > t * t` for `t >= 0`, and `< t` becomes `SquaredDistance(a, b) < t * t` for `t > 0`. Squares are defined as sums of odd numbers, so the walks over fingertips can be proved without products; `Geometry.SquareIsProduct` shows that this is the ordinary square.

The model follows the code where the code differs from its comments:

- `ComparePoints` sorts ascending by x (`<`), although its header says it returns `point_1.x > point_2.x`.
- `Find2LargestContours` answers with a pair of indices for a single contour (0, 0), and only an empty list gives (-1, -1), although its comment says two hands are needed.
- The closed-fist branch of `AnalyseHand` does not return. A fist after a counted hand therefore presses every previous fingertip twice.
- In `FindFingerTips`, the candidate that moves into an erased slot is never examined at that step.
- In `UnclickFingers`, a release against an empty click list does not hold the previous index back, so the two lists fall out of step.

## Model

| member | source | states |
|---|---|---|
| Geometry.SquareIsProduct | gesture_recognition/hand_extractor.cc:146 | The sum of the first n odd numbers is n * n, the `pow(d, 2)` of the distance formula |
| Geometry.SquaredDistance | gesture_recognition/hand_extractor.cc:145-147 | The squared Euclidean distance is a natural number, and it is 0 exactly when the points coincide |
| Geometry.SquaredDistanceIsEuclidean | gesture_recognition/hand_extractor.cc:145-147 | The squared distance is dx * dx + dy * dy, the radicand of `FindEuclideanDistance` |
| Geometry.DistanceTestsCompareSquares | gesture_recognition/hand_extractor.cc:122-124 | "distance > t" holds exactly when t < 0 or dx² + dy² > t², and "distance < t" exactly when t > 0 and dx² + dy² < t² |
| Geometry.Quot | gesture_recognition/gesture_wrapper.cc:86-89 | C++ integer division truncates toward zero: `a == q*b + r` with `|r| < |b|` and `r` of `a`'s sign; on non-negative operands it is Dafny's `/` |
| Hands.DefaultHand | include/gesturerecognition/hand_extractor.h:25-26 | The default hand has no fingertips and palm centre (-1, -1), i.e. ERROR_NUMBER in both coordinates, so it counts as default |
| Hands.HandFromFeatures | include/gesturerecognition/hand_extractor.h:27-36 | The pair constructor, like the two-argument one, stores the fingertip list and centre unchanged; `getNumberOfFingers` is the list's length, and the hand is default exactly when the centre's x is ERROR_NUMBER |
| HandExtractor.LargestPairIsUnique | include/gesturerecognition/hand_extractor.h:46-53 | The pair of indices the contour choice specifies is determined by the contours: no two different pairs satisfy it |
| HandExtractor.FirstLargestIsUnique | gesture_recognition/hand_extractor.cc:27-38 | Only one index is the first contour of strictly maximal area |
| HandExtractor.RunnerUpIsUnique | gesture_recognition/hand_extractor.cc:27-38 | Given the largest, only one index is the runner-up (the first best of the rest, or 0 when all the rest have zero area) |
| HandExtractor.Find2LargestContours | gesture_recognition/hand_extractor.cc:12-44 | (-1, -1) for no contours; (0, 1) for exactly two contours whatever their areas; otherwise both indices are valid and are the first strictly largest contour and the runner-up (ties keep the earlier index), ordered so the first's first point has x no greater than the second's; (0, 0) for one contour |
| HandExtractor.IsFingerDefect | gesture_recognition/hand_extractor.cc:174-177 | Defines the acceptance test: both edges from the far point longer than the finger length and the angle test passed |
| HandExtractor.FingerDefects | gesture_recognition/hand_extractor.cc:165-182 | The accepted defects are a subsequence of the defects (order kept), every one passes the test, and every defect that passes the test is accepted |
| HandExtractor.FingerDefectsKeepEveryCopy | gesture_recognition/hand_extractor.cc:165-182 | Exact filter: each defect occurs among the accepted ones as often as among all defects if it passes the test, and never if it fails |
| HandExtractor.DefectEndpoints | gesture_recognition/hand_extractor.cc:170-180 | Two points per accepted defect, each a point of the contour |
| HandExtractor.DefectEndpointsAt | gesture_recognition/hand_extractor.cc:170-179 | Positions 2k and 2k + 1 hold the k-th defect's start point and end point |
| HandExtractor.FingerDefectTips | gesture_recognition/hand_extractor.cc:160-184 | Defines `FindFingerDefects`' result: start then end point of each accepted defect, in order |
| HandExtractor.FingerDefectTipsShape | gesture_recognition/hand_extractor.cc:165-183 | The candidate list has even length, twice the number of accepted defects and at most twice the number of defects |
| HandExtractor.FindFingerDefects | gesture_recognition/hand_extractor.cc:160-184 | The push_back loop builds exactly the start/end pairs of the accepted defects, in order |
| HandExtractor.FindCenterOfRectangle | gesture_recognition/hand_extractor.cc:140-143 | The centre is (x + w/2, y + h/2) with truncating division: inside the box, on the lower middle pixel, and never the sentinel x for a box at non-negative x |
| HandExtractor.DropDuplicatesAfter | gesture_recognition/hand_extractor.cc:121-129 | The inner de-duplication pass keeps the candidates up to `i` unchanged and leaves a subsequence of its input |
| HandExtractor.FilterFrom | gesture_recognition/hand_extractor.cc:120-136 | The outer pass (de-duplicate, then drop a candidate below the lowest finger line) leaves a subsequence of its input |
| HandExtractor.LowestFingerY | gesture_recognition/hand_extractor.cc:116-118 | Defines the lowest finger line: the box centre's y plus a truncated tenth of the box height |
| HandExtractor.FingerGap | gesture_recognition/hand_extractor.cc:122-124 | Defines the duplicate distance: a truncated tenth of the box width |
| HandExtractor.FilteredFingerTips | include/gesturerecognition/hand_extractor.h:96-105 | The filtered fingertips are a subsequence of the candidates: order kept, nothing added, never longer |
| HandExtractor.DropCloseCandidates | gesture_recognition/hand_extractor.cc:121-129 | The inner erasing loop leaves exactly the de-duplication after candidate i, including the skipped slot after each erase |
| HandExtractor.FindFingerTips | gesture_recognition/hand_extractor.cc:113-138 | The in-place erasing loops compute exactly the filtered fingertips, including the skipped slot after each erase |
| HandExtractor.DropDuplicatesKeepsSeparated | gesture_recognition/hand_extractor.cc:121-129 | Candidates that are already pairwise far enough apart are not erased by the de-duplication pass |
| HandExtractor.FilterFromKeepsClean | gesture_recognition/hand_extractor.cc:120-136 | Well-separated candidates none of which lies below the lowest finger line pass the outer pass unchanged |
| HandExtractor.FilterKeepsSeparatedHighTips | gesture_recognition/hand_extractor.cc:117-136 | Candidates pairwise at least width/10 apart and none below centre.y + height/10 come out of `FindFingerTips` unchanged |
| HandExtractor.DropDuplicatesKeepsIsolated | gesture_recognition/hand_extractor.cc:121-129 | The inner pass never erases a candidate that is not too close to any other; it stays not too close to any other |
| HandExtractor.FilterFromKeepsIsolated | gesture_recognition/hand_extractor.cc:120-136 | The outer passes never erase a candidate that is not too close to any other and not below the lowest line |
| HandExtractor.KeptWithoutCause | gesture_recognition/hand_extractor.cc:113-138 | Candidates are erased only for cause: one not below the lowest finger line and not closer than the finger gap to any other candidate is in `FindFingerTips`' result |
| HandExtractor.IsAnalysed | gesture_recognition/hand_extractor.cc:101 | Defines the gate for computing defects: more than 3 contour points and an area above MIN_HAND_SIZE |
| HandExtractor.HandFeatures | gesture_recognition/hand_extractor.cc:78-111 | The palm centre is the centre of the hull's bounding box; every fingertip is a point of the contour; a contour of at most 3 points or area at most 1000 has no fingertips |
| HandExtractor.FindHandFeatures | gesture_recognition/hand_extractor.cc:78-111 | Returns the fingertips and centre of the contour's hand features, with defects computed only for a large enough contour |
| HandExtractor.ExtractHands | gesture_recognition/hand_extractor.cc:46-76 | Two default hands when OpenCV throws or there is no contour; otherwise the hands of the chosen pair of contours, the one with the smaller palm x first; one contour gives the same hand twice |
| FingerDiff.ComparePoints | gesture_recognition/hand_tracker.cc:11-13 | Defines the sort order: a comes before b exactly when a.x < b.x |
| FingerDiff.ComparePointsIsStrictWeakOrder | gesture_recognition/hand_tracker.cc:11-13 | Comparing by x is irreflexive and transitive, and incomparability is transitive: a valid ordering for `std::sort` |
| FingerDiff.NearestAmong | gesture_recognition/hand_tracker.cc:173-181 | The running-minimum scan over the first n points yields -1 exactly when n is 0, and otherwise an index below n |
| FingerDiff.NearestAmongIsFirstNearest | gesture_recognition/hand_tracker.cc:175-181 | The scan's index is at minimal distance among the first n points, and every earlier point is strictly farther |
| FingerDiff.NearestIndex | gesture_recognition/hand_tracker.cc:171-183 | -1 exactly for an empty list, otherwise a valid index |
| FingerDiff.NearestIndexIsFirstNearest | include/gesturerecognition/hand_tracker.h:113-122 | The index returned is that of a nearest point, and the first such |
| FingerDiff.RemoveNearest | gesture_recognition/hand_tracker.cc:62-66 | An empty click list stays empty; otherwise exactly one point leaves it and the rest keep their order |
| FingerDiff.RemoveNearestTakesNearest | gesture_recognition/hand_tracker.cc:74-79 | The point erased is one nearest to the fingertip, and only that one occurrence leaves the multiset |
| FingerDiff.Pressed | gesture_recognition/hand_tracker.cc:103-132 | Defines the press walk: past the end of the current list every previous fingertip is pressed; a mismatch beyond the tolerance presses the previous fingertip and holds the current index, stopping after d presses; a match advances both |
| FingerDiff.PressedComeFromPrevious | gesture_recognition/hand_tracker.cc:103-132 | `ClickFingers` appends only previous fingertips, in left-to-right order: a subsequence of the previous list |
| FingerDiff.PressedCountFrom | gesture_recognition/hand_tracker.cc:103-132 | The count invariant of the press walk: the points still to press are the remaining mismatches plus one per previous fingertip past the end of the current list |
| FingerDiff.PressedCount | gesture_recognition/hand_tracker.cc:97-133 | When the current hand shows d fewer fingertips, exactly d points are pressed |
| FingerDiff.PressedAgainstNoFingers | gesture_recognition/hand_tracker.cc:106-110 | Against an empty current list every previous fingertip is pressed, in order |
| FingerDiff.ReleaseWalk | gesture_recognition/hand_tracker.cc:56-94 | Defines the release walk for any erase step: past the end of the previous list each current fingertip erases; a mismatch erases, counts and holds the previous index only when the click list is non-empty, and stops once the count reaches d; a match advances both |
| FingerDiff.Released | gesture_recognition/hand_tracker.cc:49-95 | Defines `UnclickFingers`' result: the release walk from the start with the erase of the nearest click point |
| FingerDiff.ReleaseWalkOnlyErases | gesture_recognition/hand_tracker.cc:56-94 | The release walk only erases: its result is a subsequence of the click list |
| FingerDiff.ReleasedOnlyErases | gesture_recognition/hand_tracker.cc:49-95 | `UnclickFingers` never adds a click point and keeps the order of those it leaves |
| FingerDiff.ReleaseWalkFromNothing | gesture_recognition/hand_tracker.cc:64-66 | Nothing is ever erased from an empty click list |
| FingerDiff.ReleaseWalkCount | gesture_recognition/hand_tracker.cc:56-94 | The count invariant of the release walk: the erasures still to come are the remaining mismatches plus one per current fingertip past the end of the previous list, capped by the click points left |
| FingerDiff.ReleasedCount | gesture_recognition/hand_tracker.cc:49-95 | When the current hand shows d more fingertips, exactly min(d, number of click points) points are erased |
| FingerDiff.PointsAfterUpdate | gesture_recognition/hand_tracker.cc:28-47 | Defines `UpdatePoints`' result: no change for equal counts, the release walk for more current fingers, the old list followed by the press walk for fewer |
| FingerDiff.AfterFist | gesture_recognition/hand_tracker.cc:152-158 | Defines the closed-fist step: no current fingertips appends every previous fingertip, otherwise nothing changes |
| FingerDiff.Analysed | gesture_recognition/hand_tracker.cc:145-169 | Defines `AnalyseHand` as a relation: open palm clears and keeps both hands; differing counts after a found hand sort both hands by x and diff them after the fist step; otherwise only the fist step |
| FingerDiff.OpenPalmReleasesAll | gesture_recognition/hand_tracker.cc:146-151 | A reference hand with five or more fingertips clears every click point |
| FingerDiff.FewerFingersAppendPresses | gesture_recognition/hand_tracker.cc:28-47 | With fewer current fingertips the update keeps the click list as a prefix and appends exactly the difference, all of them previous fingertips |
| FingerDiff.RearrangementKeepsCount | gesture_recognition/hand_tracker.cc:162-165 | Sorting a hand's fingertips keeps their number and which points they are |
| FingerDiff.BendingPressesTheDifference | gesture_recognition/hand_tracker.cc:145-169 | Bending d fingers (below an open palm, after a found hand) appends exactly d points after what was there, all previous fingertips |
| FingerDiff.UnbendingReleasesTheDifference | gesture_recognition/hand_tracker.cc:145-169 | Unbending d fingers (below an open palm, after a found hand) only erases, exactly min(d, number of click points) of them |
| FingerDiff.ClosedFistPressesTwice | gesture_recognition/hand_tracker.cc:152-168 | A closed fist after a found hand with fingers presses the previous fingertips, then presses them again in ascending x order |
| FingerDiff.NoDiffWithoutCountChange | gesture_recognition/hand_tracker.cc:159-168 | With an unchanged finger count, or after a default hand when the current hand is not a fist, nothing changes |
| FingerDiff.FingerCount | gesture_recognition/hand_tracker.cc:187-191 | The tally of hands with n fingertips is at most the batch size |
| FingerDiff.FingerCountWitness | gesture_recognition/hand_tracker.cc:187-191 | A positive tally is witnessed by a hand of the batch with that count |
| FingerDiff.FingerCountPositive | gesture_recognition/hand_tracker.cc:187-191 | Every hand's own count has a positive tally |
| FingerDiff.FirstMostFrequent | gesture_recognition/hand_tracker.cc:192-193 | Among counts 0..upTo, the result has the largest tally, and every smaller count has a strictly smaller tally |
| FingerDiff.MostFrequentFingerNumber | gesture_recognition/hand_tracker.cc:185-194 | The result is in 0..5, its tally is maximal among 0..5, and ties go to the smallest count |
| FingerDiff.OverfullHandDoesNotVote | gesture_recognition/hand_tracker.cc:188-190 | Adding a hand with more than five fingertips does not change the vote |
| FingerDiff.LatestFrom | gesture_recognition/hand_tracker.cc:198-203 | The downward scan returns 0 or a matching index at or below i, and no index above it (down to 1) matches |
| FingerDiff.LatestReferenceFrame | gesture_recognition/hand_tracker.cc:196-204 | The result is a valid index of a non-empty batch, a positive result matches, and no later hand matches |
| FingerDiff.ReferenceIndex | gesture_recognition/hand_tracker.cc:18-20 | Defines the batch's reference index: the latest reference frame for the most frequent finger count |
| FingerDiff.ReferenceHasMostFrequentCount | include/gesturerecognition/hand_tracker.h:36-44 | If any hand of the batch has at most five fingertips, the reference hand shows the most frequent count and no later hand does |
| HandTracking.FindIndexOfClosestPoint | gesture_recognition/hand_tracker.cc:171-183 | The running-minimum loop returns the first nearest index, -1 exactly for an empty list |
| HandTracking.InsertByX | gesture_recognition/hand_tracker.cc:162-165 | Inserting a point adds exactly that point to the multiset |
| HandTracking.InsertByXKeepsSorted | gesture_recognition/hand_tracker.cc:162-165 | Inserting into a list sorted by x keeps it sorted |
| HandTracking.SortByX | gesture_recognition/hand_tracker.cc:162-165 | `std::sort` with `ComparePoints`: the result is ascending by x and a permutation of the input |
| HandTracking.HandTracker.constructor | gesture_recognition/hand_tracker.cc:7-9 | The batch size is fixed, both batch hands are default, and the click and batch lists are empty |
| HandTracking.HandTracker.Fed | gesture_recognition/hand_tracker.cc:15-26 | Defines the effect of feeding one hand: below N hands it is only appended; the N-th hand empties the batch, and the reference hand is analysed against the previous batch hand and becomes the new previous hand |
| HandTracking.HandTracker.FindClickPoints | gesture_recognition/hand_tracker.cc:15-26 | While the batch is not full, the hand is only appended and the click points are returned unchanged; the hand that fills it triggers the analysis of the batch's reference hand, which becomes the previous hand, and the batch is emptied; the batch never reaches N between calls |
| HandTracking.HandTracker.FindMostFrequentFingerNumber | gesture_recognition/hand_tracker.cc:185-194 | The tally-array loop returns the most frequent finger count in 0..5, the smallest on a tie |
| HandTracking.HandTracker.GetLatestReferenceFrame | gesture_recognition/hand_tracker.cc:196-204 | The downward loop returns the latest index at or after 1 whose hand has the count, else 0 |
| HandTracking.HandTracker.AnalyseHand | gesture_recognition/hand_tracker.cc:145-169 | Open palm: clear and stop. Otherwise a fist presses the previous fingertips, and when counts differ after a found hand, both hands are sorted by x in place and diffed |
| HandTracking.HandTracker.UpdatePoints | gesture_recognition/hand_tracker.cc:28-47 | The size difference comes from the batch hands; zero changes nothing, positive runs the release walk, negative the press walk for its absolute value |
| HandTracking.HandTracker.EraseClosestClickPoint | gesture_recognition/hand_tracker.cc:60-65 | Erasing at the index of the closest point removes the first nearest click point |
| HandTracking.HandTracker.UnclickStep | gesture_recognition/hand_tracker.cc:59-93 | One pass of the erase loop moves the release walk on by one current fingertip, or ends it at the `break` |
| HandTracking.HandTracker.UnclickFingers | gesture_recognition/hand_tracker.cc:49-95 | The two-index erase loop leaves exactly the release walk's result |
| HandTracking.HandTracker.ClickStep | gesture_recognition/hand_tracker.cc:106-131 | One pass of the push_back loop moves the press walk on by one previous fingertip, or ends it at the `break` |
| HandTracking.HandTracker.ClickFingers | gesture_recognition/hand_tracker.cc:97-133 | The two-index push_back loop appends exactly the press walk's points to the click list |
| Gestures.ConvertPoint | gesture_recognition/gesture_wrapper.cc:86-89 | Defines one converted point: (W*x/w, H/10 + H*y/h) with each division truncating |
| Gestures.ConvertCoordinates | gesture_recognition/gesture_wrapper.cc:81-92 | Same length and order; output i is (W*x/w, H/10 + H*y/h) of input i with truncating division |
| Gestures.ConvertedConcatenation | gesture_recognition/gesture_wrapper.cc:130-165 | Converting the merged list converts the left tracker's points, then the right tracker's |
| Gestures.ConvertPointBounds | gesture_recognition/gesture_wrapper.cc:86-89 | A point inside the camera image lands inside the window: 0 <= x' < W and H/10 <= y' < H/10 + H |
| Gestures.ConvertPointKeepsOrder | gesture_recognition/gesture_wrapper.cc:86-89 | Conversion keeps fingertips' left-to-right order |
| Gestures.GestureWrapper.constructor | gesture_recognition/gesture_wrapper.cc:9-28 | Two distinct fresh trackers of the configured batch size; recognition and both calibration flags start off |
| Gestures.GestureWrapper.ToggleGestureRecognitionMode | gesture_recognition/gesture_wrapper.cc:30-37 | Both calibration flags go off and recognition flips |
| Gestures.GestureWrapper.ToggleBackgroundCalibration | gesture_recognition/gesture_wrapper.cc:38-45 | Recognition goes off, background training flips, the HSV flag is untouched |
| Gestures.GestureWrapper.ToggleHSVCalibration | gesture_recognition/gesture_wrapper.cc:47-55 | Recognition goes off, HSV calibration flips, background training is untouched |
| Gestures.GestureWrapper.Update | gesture_recognition/gesture_wrapper.cc:93-171 | In recognition mode, each hand's fingertips are converted, each tracker is fed its own hand once, and the result is the converted left-then-right click points; otherwise the result is empty and the trackers are untouched |
| Scenarios.TieGoesToFewerFingers | gesture_recognition/hand_tracker.cc:185-204 | Worked case: a tie between 2 and 3 fingers goes to 2, and the reference falls back to index 0 |
| Scenarios.OverfullHandsDoNotVote | gesture_recognition/hand_tracker.cc:187-191 | Worked case: one one-finger hand outvotes two six-fingertip hands, which do not count, and is the reference |
| Scenarios.MiddleFingerPress | gesture_recognition/hand_tracker.cc:97-133 | Worked case: bending the middle of three fingers presses exactly its fingertip |
| Scenarios.MiddleFingerRelease | gesture_recognition/hand_tracker.cc:49-95 | Worked case: unbending it again releases the single click point |
| Scenarios.NearestOfEquidistantIsFirst | gesture_recognition/hand_tracker.cc:171-183 | Worked case: the strictly nearest point wins, and of two equally near points the first |
| Scenarios.ClosedFistAfterTwoFingers | gesture_recognition/hand_tracker.cc:152-168 | Worked case: a fist after two fingers presses both fingertips twice |
| Scenarios.ThirdCloseCandidateSurvives | gesture_recognition/hand_extractor.cc:120-129 | Worked case: after a close duplicate is erased, the next close candidate is skipped and survives |
| Scenarios.SecondLowCandidateSurvives | gesture_recognition/hand_extractor.cc:130-135 | Worked case: after a low candidate is erased, the next low candidate is skipped and survives |

## Left out

- The image pipeline is not part of this model. That covers the calibration's background subtraction, HSV thresholding and morphology, as well as `findContours`, `convexHull`, `boundingRect`, `contourArea` and `convexityDefects`. Their results are inputs here: the contours' points and areas, the hull's bounding box, and the defect index triples. Only the calibration's two flags are kept, as fields of the wrapper.
- `CalculateAngle` (floating-point `acos`) is the parameter `angleBelowMax`, standing for "the angle is below 95 degrees". `FindSlopeOfLine` uses `atan` and is never called, so it is not modelled.
- `FindEuclideanDistance` is replaced by exact squared-distance comparisons. The tracker's tolerance, a `double` of 20, becomes the integer 20.
- HandTracking.FindIndexOfClosestPoint: the initial minimum of `INT32_MAX` is not modelled. A point at distance `INT32_MAX` or more would never be chosen in the source, so the model matches only while distances stay below that.
- Integer overflow of C++ `int` is not modelled: coordinates and products are unbounded integers.
- HandTracking.SortByX: `std::sort` is not stable. The model's insertion sort is one admissible outcome, and `AnalyseHand`'s contract allows any sorted permutation.
- HandExtractor.ExtractHands: a `cv::Exception` thrown anywhere while a frame is processed is the input `None`. Contours are required to be non-empty, because the source reads each chosen contour's first point.
- Gestures.GestureWrapper.Update takes the extracted hand pair and the image size (`image.size[0]`, `image.size[1]`) as parameters. It requires both sizes to be non-zero, because the source divides by them. Video capture, the flip, the segmentation, the drawing of fingertips on the hull image, and `Draw` are left out.
- The window side effects of the toggles are not modelled: `destroyWindow` and the creation of HSV trackbars.
- Loading `ProgramSettings` from JSON, the piano engine (key geometry in floating point, audio playback, note files), and the Cinder application files are not part of this model.
