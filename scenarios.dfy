/**
 * Small worked cases of the recogniser's behaviour, each proved on concrete
 * inputs: the batch vote, one press and one release, the closed-fist double
 * press, and the two candidates `FindFingerTips` leaves unexamined.
 */
module Scenarios {
  import opened Geometry
  import opened Hands
  import opened HandExtractor
  import opened FingerDiff

  function HandWith(tips: seq<Point>): Hand
  {
    Hand(tips, Point(50, 50))
  }

  /** A tie between 2 and 3 fingers goes to 2, and the scan, finding no 2 after index 0, falls back to index 0. */
  lemma TieGoesToFewerFingers()
    ensures var batch := [HandWith([Point(0, 0), Point(1, 0)]), HandWith([Point(0, 0), Point(1, 0), Point(2, 0)])];
            && MostFrequentFingerNumber(batch) == 2
            && ReferenceIndex(batch) == 0
  {
    var batch := [HandWith([Point(0, 0), Point(1, 0)]), HandWith([Point(0, 0), Point(1, 0), Point(2, 0)])];
    assert batch[..1] == [batch[0]];
    assert FingerCount(batch, 2) == 1 && FingerCount(batch, 3) == 1;
  }

  /** Hands with six fingertips do not vote: the one-finger hand wins alone and is the reference. */
  lemma OverfullHandsDoNotVote()
    ensures var six := HandWith([Point(0, 0), Point(1, 0), Point(2, 0), Point(3, 0), Point(4, 0), Point(5, 0)]);
            var batch := [HandWith([Point(9, 9)]), six, six];
            && MostFrequentFingerNumber(batch) == 1
            && ReferenceIndex(batch) == 0
  {
    var six := HandWith([Point(0, 0), Point(1, 0), Point(2, 0), Point(3, 0), Point(4, 0), Point(5, 0)]);
    var one := HandWith([Point(9, 9)]);
    var batch := [one, six, six];
    OverfullHandDoesNotVote([one, six], six);
    OverfullHandDoesNotVote([one], six);
    assert [one, six] + [six] == batch && [one] + [six] == [one, six];
    assert [one][..0] == [];
    assert FingerCount([one], 1) == 1 && FingerCount([one], 0) == 0;
  }

  /**
   * Bending the middle of three fingers, with the outer two held still,
   * presses exactly the middle fingertip.
   */
  lemma MiddleFingerPress(prev: seq<Point>, cur: seq<Point>, tolerance: int)
    requires |prev| == 3 && cur == [prev[0], prev[2]] && tolerance >= 0
    requires FartherThan(prev[2], prev[1], tolerance)
    ensures PointsAfterUpdate([], prev, cur, tolerance, -1) == [prev[1]]
  {
    NotFartherFromItself(prev[0], tolerance);
    assert Pressed(prev, cur, tolerance, 1, 0, 0, 0) == Pressed(prev, cur, tolerance, 1, 1, 1, 0);
  }

  /**
   * Unbending that finger again releases the one click point, whichever
   * point it is.
   */
  lemma MiddleFingerRelease(click: Point, prev: seq<Point>, cur: seq<Point>, tolerance: int)
    requires |cur| == 3 && prev == [cur[0], cur[2]] && tolerance >= 0
    requires FartherThan(cur[1], cur[2], tolerance)
    ensures PointsAfterUpdate([click], prev, cur, tolerance, 1) == []
  {
    NotFartherFromItself(cur[0], tolerance);
    assert RemoveNearest([click], cur[1]) == [];
    assert ReleaseWalk(RemoveNearest, [click], prev, cur, tolerance, 1, 0, 0, 0)
        == ReleaseWalk(RemoveNearest, [click], prev, cur, tolerance, 1, 1, 1, 0);
  }

  /** The nearest click point is erased, and of two equally near ones the first. */
  lemma NearestOfEquidistantIsFirst()
    ensures NearestIndex([Point(10, 0), Point(-10, 0), Point(3, 4)], Point(0, 0)) == 2
    ensures NearestIndex([Point(10, 0), Point(-10, 0)], Point(0, 0)) == 0
  {
    SquaredDistanceIsEuclidean(Point(10, 0), Point(0, 0));
    SquaredDistanceIsEuclidean(Point(-10, 0), Point(0, 0));
    SquaredDistanceIsEuclidean(Point(3, 4), Point(0, 0));
  }

  /**
   * A closed fist after two fingers presses both fingertips twice: once by the
   * fist step and once more by the press walk against no fingers.
   */
  lemma ClosedFistAfterTwoFingers()
    ensures var tips := [Point(0, 0), Point(100, 0)];
            PointsAfterUpdate(tips, tips, [], 20, -2) == tips + tips
  {
    var tips := [Point(0, 0), Point(100, 0)];
    PressedAgainstNoFingers(tips, 20, 2, 0, 0, 0);
    assert tips[0..] == tips;
  }

  /**
   * `FindFingerTips` erases a candidate too close to an earlier one, but the
   * candidate that moves into its slot is not compared: here the third point,
   * 2 pixels from the first, survives.
   */
  lemma ThirdCloseCandidateSurvives()
    ensures FilteredFingerTips([Point(0, 0), Point(1, 0), Point(2, 0)], Rect(0, 0, 100, 100)) == [Point(0, 0), Point(2, 0)]
  {
    var s := [Point(0, 0), Point(1, 0), Point(2, 0)];
    assert FingerGap(Rect(0, 0, 100, 100)) == 10;
    assert LowestFingerY(Rect(0, 0, 100, 100)) == 60;
    DistanceTestsCompareSquares(s[0], s[1], 10);
    var e := s[..1] + s[2..];
    assert e == [Point(0, 0), Point(2, 0)];
    assert DropDuplicatesAfter(s, 0, 1, 10) == DropDuplicatesAfter(e, 0, 2, 10) == e;
    assert FilterFrom(e, 1, 10, 60) == e by {
      assert DropDuplicatesAfter(e, 1, 2, 10) == e;
    }
  }

  /**
   * Likewise a candidate below the lowest finger line is erased, and the one
   * that moves into its slot is skipped: here the second low point survives.
   */
  lemma SecondLowCandidateSurvives()
    ensures FilteredFingerTips([Point(0, 70), Point(12, 75), Point(12, 55)], Rect(0, 0, 100, 100))
         == [Point(12, 75), Point(12, 55)]
  {
    var s := [Point(0, 70), Point(12, 75), Point(12, 55)];
    assert FingerGap(Rect(0, 0, 100, 100)) == 10;
    assert LowestFingerY(Rect(0, 0, 100, 100)) == 60;
    DistanceTestsCompareSquares(s[0], s[1], 10);
    DistanceTestsCompareSquares(s[0], s[2], 10);
    assert DropDuplicatesAfter(s, 0, 1, 10) == s;
    var e := s[..0] + s[1..];
    assert e == [Point(12, 75), Point(12, 55)];
    DistanceTestsCompareSquares(e[1], e[0], 10);
    assert FilterFrom(e, 1, 10, 60) == e by {
      assert DropDuplicatesAfter(e, 1, 2, 10) == e;
    }
  }
}
