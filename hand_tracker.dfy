/**
 * The hand tracker: it collects the hands of a batch of frames, picks the
 * batch's reference hand by majority vote on finger counts, compares it with
 * the previous batch's reference hand, and keeps the list of points that
 * fingers are pressing. Each method is proved against the functions of
 * `FingerDiff`.
 */
module HandTracking {
  import opened Geometry
  import opened Hands
  import opened FingerDiff

  /** `FindIndexOfClosestPoint`: the first index of a nearest point, or -1 for an empty list. */
  method FindIndexOfClosestPoint(points: seq<Point>, p: Point) returns (index: int)
    ensures index == NearestIndex(points, p)
    ensures points == [] <==> index == ERROR_NUMBER
    ensures points != [] ==> 0 <= index < |points|
  {
    index := ERROR_NUMBER;
    var minimum: nat := 0;
    var i := 0;
    while i < |points|
      invariant 0 <= i <= |points|
      invariant index == NearestAmong(points, p, i)
      invariant index != ERROR_NUMBER ==> minimum == SquaredDistance(points[index], p)
    {
      var distance := SquaredDistance(points[i], p);
      if index == ERROR_NUMBER || distance < minimum {
        index := i;
        minimum := distance;
      }
      i := i + 1;
    }
  }

  /** Insert `p` into a list sorted by x, after the points whose x is not greater. */
  function InsertByX(sorted: seq<Point>, p: Point): (r: seq<Point>)
    ensures multiset(r) == multiset(sorted) + multiset{p}
    ensures |r| == |sorted| + 1
  {
    if sorted == [] then [p]
    else if ComparePoints(p, sorted[0]) then [p] + sorted
    else
      assert sorted == [sorted[0]] + sorted[1..];
      [sorted[0]] + InsertByX(sorted[1..], p)
  }

  /** Insertion keeps a list sorted by x. */
  lemma {:induction false} InsertByXKeepsSorted(sorted: seq<Point>, p: Point)
    requires SortedByX(sorted)
    ensures SortedByX(InsertByX(sorted, p))
    decreases |sorted|
  {
    if sorted != [] && !ComparePoints(p, sorted[0]) {
      var rest := InsertByX(sorted[1..], p);
      InsertByXKeepsSorted(sorted[1..], p);
      forall k | 0 <= k < |rest|
        ensures !ComparePoints(rest[k], sorted[0])
      {
        assert rest[k] in multiset(rest);
        if rest[k] != p {
          assert rest[k] in sorted[1..];
        }
      }
      var r := [sorted[0]] + rest;
      forall i, j | 0 <= i < j < |r|
        ensures !ComparePoints(r[j], r[i])
      {
        assert r[j] == rest[j - 1];
        if i > 0 {
          assert r[i] == rest[i - 1];
          assert !ComparePoints(rest[j - 1], rest[i - 1]);
        } else {
          assert !ComparePoints(rest[j - 1], sorted[0]);
        }
      }
    }
  }

  /**
   * `std::sort` with `ComparePoints`: some ascending rearrangement of the
   * points (the order among points of equal x is left open).
   */
  method SortByX(points: seq<Point>) returns (sorted: seq<Point>)
    ensures SortedByX(sorted)
    ensures multiset(sorted) == multiset(points)
    ensures |sorted| == |points|
  {
    sorted := [];
    var i := 0;
    while i < |points|
      invariant 0 <= i <= |points|
      invariant SortedByX(sorted)
      invariant multiset(sorted) == multiset(points[..i])
      invariant |sorted| == i
    {
      assert points[..i + 1] == points[..i] + [points[i]];
      InsertByXKeepsSorted(sorted, points[i]);
      sorted := InsertByX(sorted, points[i]);
      i := i + 1;
    }
    assert points[..i] == points;
  }

  class HandTracker {
    /** How many hands make a batch. */
    const numberOfFrames: nat
    var previousBatchHand: Hand
    var currentBatchHand: Hand
    var clickPoints: seq<Point>
    /** The hands of the batch collected so far. */
    var hands: seq<Hand>
    /** How far (in pixels) a fingertip may move between batches and still count as the same finger. */
    const MaxChangeInFingerPosition: int := 20

    /** The batch being collected is never complete: it is analysed and cleared as soon as it is. */
    ghost predicate Valid()
      reads this
    {
      numberOfFrames == 0 || |hands| < numberOfFrames
    }

    constructor(numberOfFrames: nat)
      ensures this.numberOfFrames == numberOfFrames
      ensures previousBatchHand == DefaultHand() && currentBatchHand == DefaultHand()
      ensures clickPoints == [] && hands == []
      ensures Valid()
    {
      this.numberOfFrames := numberOfFrames;
      previousBatchHand := DefaultHand();
      currentBatchHand := DefaultHand();
      clickPoints := [];
      hands := [];
    }

    /**
     * The tracker's state is what feeding `hand` makes of the state
     * (`hands0`, `previous0`, `current0`, `clicks0`): while the batch is not
     * full the hand is only appended; the hand that fills it triggers the
     * analysis of the batch's reference hand against the previous one, which
     * it then replaces, and a new batch starts.
     */
    ghost predicate Fed(hands0: seq<Hand>, previous0: Hand, current0: Hand, clicks0: seq<Point>, hand: Hand)
      reads this
    {
      if |hands0| + 1 != numberOfFrames then
        && hands == hands0 + [hand]
        && clickPoints == clicks0
        && previousBatchHand == previous0
        && currentBatchHand == current0
      else
        && hands == []
        && previousBatchHand == currentBatchHand
        && var batch := hands0 + [hand];
           exists sortedPrevious :: Analysed(previous0, batch[ReferenceIndex(batch)], clicks0,
                                             MaxChangeInFingerPosition, sortedPrevious, currentBatchHand, clickPoints)
    }

    /** `FindClickPoints`: feed one frame's hand to the tracker and return the pressed points. */
    method FindClickPoints(hand: Hand) returns (clicks: seq<Point>)
      requires Valid()
      modifies this
      ensures Valid()
      ensures Fed(old(hands), old(previousBatchHand), old(currentBatchHand), old(clickPoints), hand)
      ensures clicks == clickPoints
    {
      hands := hands + [hand];
      if |hands| == numberOfFrames {
        var frequentNumberOfFingers := FindMostFrequentFingerNumber(hands);
        var reference := GetLatestReferenceFrame(hands, frequentNumberOfFingers);
        currentBatchHand := hands[reference];
        AnalyseHand(MaxChangeInFingerPosition);
        ghost var sortedPrevious := previousBatchHand;
        assert Analysed(old(previousBatchHand), hands[ReferenceIndex(hands)], old(clickPoints), MaxChangeInFingerPosition,
                        sortedPrevious, currentBatchHand, clickPoints);
        previousBatchHand := currentBatchHand;
        hands := [];
      }
      clicks := clickPoints;
    }

    /** `FindMostFrequentFingerNumber`: tally counts 0 to 5, then take the first largest tally. */
    method FindMostFrequentFingerNumber(batch: seq<Hand>) returns (m: nat)
      ensures m == MostFrequentFingerNumber(batch)
      ensures m <= 5
    {
      var counts := new nat[6](_ => 0);
      var i := 0;
      while i < |batch|
        invariant 0 <= i <= |batch|
        invariant forall n :: 0 <= n < 6 ==> counts[n] == FingerCount(batch[..i], n)
      {
        assert batch[..i + 1][..i] == batch[..i];
        var fingers := batch[i].NumberOfFingers();
        if fingers <= 5 {
          counts[fingers] := counts[fingers] + 1;
        }
        i := i + 1;
      }
      assert batch[..i] == batch;
      m := 0;
      var n := 1;
      while n < 6
        invariant 1 <= n <= 6
        invariant m == FirstMostFrequent(batch, n - 1)
      {
        if counts[n] > counts[m] {
          m := n;
        }
        n := n + 1;
      }
    }

    /** `GetLatestReferenceFrame`: scan down from the last hand to index 1; 0 when none matches. */
    method GetLatestReferenceFrame(batch: seq<Hand>, frequentNumber: int) returns (r: nat)
      ensures r == LatestReferenceFrame(batch, frequentNumber)
    {
      var i := |batch| - 1;
      while i > 0
        invariant i <= |batch| - 1
        invariant LatestFrom(batch, frequentNumber, i) == LatestReferenceFrame(batch, frequentNumber)
      {
        if batch[i].NumberOfFingers() == frequentNumber {
          return i;
        }
        i := i - 1;
      }
      return 0;
    }

    /**
     * `AnalyseHand`: release everything for an open palm; press the previous
     * fingertips for a closed fist; and when the finger counts differ and a
     * previous hand was found, sort both hands' fingertips by x in place and
     * diff them.
     */
    method AnalyseHand(tolerance: int)
      modifies this
      ensures Analysed(old(previousBatchHand), old(currentBatchHand), old(clickPoints), tolerance,
                       previousBatchHand, currentBatchHand, clickPoints)
      ensures hands == old(hands)
    {
      if |currentBatchHand.fingerTips| >= 5 {
        clickPoints := [];
        return;
      }
      if |currentBatchHand.fingerTips| == 0 {
        clickPoints := clickPoints + previousBatchHand.fingerTips;
      }
      if |previousBatchHand.fingerTips| != |currentBatchHand.fingerTips| && previousBatchHand.centerOfPalm.x != ERROR_NUMBER {
        var sortedCurrent := SortByX(currentBatchHand.fingerTips);
        currentBatchHand := currentBatchHand.(fingerTips := sortedCurrent);
        var sortedPrevious := SortByX(previousBatchHand.fingerTips);
        previousBatchHand := previousBatchHand.(fingerTips := sortedPrevious);
        UpdatePoints(previousBatchHand.fingerTips, currentBatchHand.fingerTips, tolerance);
      }
    }

    /**
     * `UpdatePoints`: the size difference is taken from the two batch hands,
     * not from the lists passed in.
     */
    method UpdatePoints(previousFingerTips: seq<Point>, currentFingerTips: seq<Point>, tolerance: int)
      modifies this`clickPoints
      ensures clickPoints == PointsAfterUpdate(old(clickPoints), previousFingerTips, currentFingerTips, tolerance,
                                               currentBatchHand.NumberOfFingers() - previousBatchHand.NumberOfFingers())
    {
      var sizeDifference := currentBatchHand.NumberOfFingers() - previousBatchHand.NumberOfFingers();
      if sizeDifference == 0 {
        return;
      }
      if sizeDifference > 0 {
        UnclickFingers(previousFingerTips, currentFingerTips, tolerance, sizeDifference);
      } else {
        ClickFingers(previousFingerTips, currentFingerTips, tolerance, -sizeDifference);
      }
    }

    /** Erase the click point closest to `fingerTip` (`FindIndexOfClosestPoint`, then `erase`). */
    method EraseClosestClickPoint(fingerTip: Point)
      requires clickPoints != []
      modifies this`clickPoints
      ensures clickPoints == RemoveNearest(old(clickPoints), fingerTip)
    {
      var indexToRemove := FindIndexOfClosestPoint(clickPoints, fingerTip);
      clickPoints := clickPoints[..indexToRemove] + clickPoints[indexToRemove + 1..];
    }

    /**
     * One pass of the `UnclickFingers` loop, at current fingertip `currentIndex`:
     * the click list and counters it leaves, and whether the loop breaks there.
     */
    method UnclickStep(previousFingerTips: seq<Point>, currentFingerTips: seq<Point>, tolerance: int, sizeDifference: nat,
                       currentIndex: nat, previousIndex: nat, pointsUnclicked: nat)
      returns (nextPreviousIndex: nat, nextPointsUnclicked: nat, stop: bool)
      requires currentIndex < |currentFingerTips|
      modifies this`clickPoints
      ensures ReleaseWalk(RemoveNearest, old(clickPoints), previousFingerTips, currentFingerTips, tolerance, sizeDifference,
                          currentIndex, previousIndex, pointsUnclicked)
           == if stop then clickPoints
              else ReleaseWalk(RemoveNearest, clickPoints, previousFingerTips, currentFingerTips, tolerance, sizeDifference,
                               currentIndex + 1, nextPreviousIndex, nextPointsUnclicked)
    {
      ReleaseWalkStep(RemoveNearest, clickPoints, previousFingerTips, currentFingerTips, tolerance, sizeDifference,
                      currentIndex, previousIndex, pointsUnclicked);
      nextPreviousIndex, nextPointsUnclicked, stop := previousIndex + 1, pointsUnclicked, false;
      if previousIndex >= |previousFingerTips| {
        if clickPoints != [] {
          EraseClosestClickPoint(currentFingerTips[currentIndex]);
        }
      } else if FartherThan(currentFingerTips[currentIndex], previousFingerTips[previousIndex], tolerance) {
        if clickPoints != [] {
          EraseClosestClickPoint(currentFingerTips[currentIndex]);
          nextPointsUnclicked := pointsUnclicked + 1;
          nextPreviousIndex := previousIndex;
        }
        stop := nextPointsUnclicked == sizeDifference;
      }
    }

    /** `UnclickFingers`: the release walk, erasing the click point nearest to each released fingertip. */
    method UnclickFingers(previousFingerTips: seq<Point>, currentFingerTips: seq<Point>, tolerance: int, sizeDifference: nat)
      modifies this`clickPoints
      ensures clickPoints == Released(old(clickPoints), previousFingerTips, currentFingerTips, tolerance, sizeDifference)
    {
      ghost var total := Released(old(clickPoints), previousFingerTips, currentFingerTips, tolerance, sizeDifference);
      var previousIndex: nat := 0;
      var pointsUnclicked: nat := 0;
      var currentIndex := 0;
      while currentIndex < |currentFingerTips|
        invariant 0 <= currentIndex <= |currentFingerTips|
        invariant ReleaseWalk(RemoveNearest, clickPoints, previousFingerTips, currentFingerTips, tolerance, sizeDifference,
                              currentIndex, previousIndex, pointsUnclicked) == total
      {
        var stop;
        previousIndex, pointsUnclicked, stop := UnclickStep(previousFingerTips, currentFingerTips, tolerance, sizeDifference,
                                                            currentIndex, previousIndex, pointsUnclicked);
        if stop {
          break;
        }
        currentIndex := currentIndex + 1;
      }
    }

    /**
     * One pass of the `ClickFingers` loop, at previous fingertip `previousIndex`:
     * the click list and counters it leaves, and whether the loop breaks there.
     */
    method ClickStep(previousFingerTips: seq<Point>, currentFingerTips: seq<Point>, tolerance: int, sizeDifference: nat,
                     previousIndex: nat, currentIndex: nat, pointsClicked: nat)
      returns (nextCurrentIndex: nat, nextPointsClicked: nat, stop: bool)
      requires previousIndex < |previousFingerTips|
      modifies this`clickPoints
      ensures old(clickPoints) + Pressed(previousFingerTips, currentFingerTips, tolerance, sizeDifference,
                                         previousIndex, currentIndex, pointsClicked)
           == if stop then clickPoints
              else clickPoints + Pressed(previousFingerTips, currentFingerTips, tolerance, sizeDifference,
                                         previousIndex + 1, nextCurrentIndex, nextPointsClicked)
    {
      ghost var rest := Pressed(previousFingerTips, currentFingerTips, tolerance, sizeDifference, previousIndex, currentIndex, pointsClicked);
      nextCurrentIndex, nextPointsClicked, stop := currentIndex + 1, pointsClicked, false;
      if currentIndex >= |currentFingerTips| {
        clickPoints := clickPoints + [previousFingerTips[previousIndex]];
      } else if FartherThan(currentFingerTips[currentIndex], previousFingerTips[previousIndex], tolerance) {
        clickPoints := clickPoints + [previousFingerTips[previousIndex]];
        nextPointsClicked := pointsClicked + 1;
        nextCurrentIndex := currentIndex;
        stop := nextPointsClicked == sizeDifference;
      }
      if clickPoints != old(clickPoints) && !stop {
        ghost var next := Pressed(previousFingerTips, currentFingerTips, tolerance, sizeDifference,
                                  previousIndex + 1, nextCurrentIndex, nextPointsClicked);
        assert rest == [previousFingerTips[previousIndex]] + next;
        assert old(clickPoints) + rest == clickPoints + next;
      }
    }

    /** `ClickFingers`: the press walk, appending each pressed previous fingertip. */
    method ClickFingers(previousFingerTips: seq<Point>, currentFingerTips: seq<Point>, tolerance: int, sizeDifference: nat)
      modifies this`clickPoints
      ensures clickPoints == old(clickPoints) + Pressed(previousFingerTips, currentFingerTips, tolerance, sizeDifference, 0, 0, 0)
    {
      ghost var total := old(clickPoints) + Pressed(previousFingerTips, currentFingerTips, tolerance, sizeDifference, 0, 0, 0);
      var pointsClicked: nat := 0;
      var currentIndex: nat := 0;
      var previousIndex := 0;
      while previousIndex < |previousFingerTips|
        invariant 0 <= previousIndex <= |previousFingerTips|
        invariant clickPoints + Pressed(previousFingerTips, currentFingerTips, tolerance, sizeDifference,
                                        previousIndex, currentIndex, pointsClicked) == total
      {
        var stop;
        currentIndex, pointsClicked, stop := ClickStep(previousFingerTips, currentFingerTips, tolerance, sizeDifference,
                                                       previousIndex, currentIndex, pointsClicked);
        if stop {
          break;
        }
        previousIndex := previousIndex + 1;
      }
    }
  }
}
