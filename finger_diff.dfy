/**
 * What the hand tracker computes, as functions of its inputs: the majority
 * vote on finger counts over a batch, the choice of the batch's reference
 * hand, and the diff of two reference hands into presses (points appended to
 * the click list) and releases (click points erased).
 */
module FingerDiff {
  import opened Geometry
  import opened Hands

  // ---------------------------------------------------------------------------
  // Ordering fingertips

  /** `ComparePoints`: the "less than" of sorting fingertips left to right. */
  predicate ComparePoints(a: Point, b: Point)
  {
    a.x < b.x
  }

  /** `ComparePoints` is a strict weak ordering, as `std::sort` needs. */
  lemma ComparePointsIsStrictWeakOrder(a: Point, b: Point, c: Point)
    ensures !ComparePoints(a, a)
    ensures ComparePoints(a, b) && ComparePoints(b, c) ==> ComparePoints(a, c)
    ensures !ComparePoints(a, b) && !ComparePoints(b, a) && !ComparePoints(b, c) && !ComparePoints(c, b) ==>
              !ComparePoints(a, c) && !ComparePoints(c, a)
  {
  }

  /** Ascending by x; points of equal x may come in any order. */
  ghost predicate SortedByX(s: seq<Point>)
  {
    forall i, j :: 0 <= i < j < |s| ==> !ComparePoints(s[j], s[i])
  }

  /** `sorted` is `h` with its fingertips rearranged in ascending x order. */
  ghost predicate SortedRearrangement(sorted: Hand, h: Hand)
  {
    && sorted.centerOfPalm == h.centerOfPalm
    && SortedByX(sorted.fingerTips)
    && multiset(sorted.fingerTips) == multiset(h.fingerTips)
  }

  // ---------------------------------------------------------------------------
  // The click point nearest to a fingertip

  /**
   * The forward scan of `FindIndexOfClosestPoint` over the first `n` points:
   * -1 when there are none, otherwise the best index so far, which a later
   * point replaces only when it is strictly closer to `p`.
   */
  function NearestAmong(points: seq<Point>, p: Point, n: nat): (k: int)
    requires n <= |points|
    ensures n == 0 <==> k == ERROR_NUMBER
    ensures n > 0 ==> 0 <= k < n
    decreases n
  {
    if n == 0 then ERROR_NUMBER
    else
      var k := NearestAmong(points, p, n - 1);
      if k == ERROR_NUMBER || SquaredDistance(points[n - 1], p) < SquaredDistance(points[k], p) then n - 1 else k
  }

  /** The scan finds the first of the points nearest to `p`. */
  lemma {:induction false} NearestAmongIsFirstNearest(points: seq<Point>, p: Point, n: nat)
    requires 0 < n <= |points|
    ensures var k := NearestAmong(points, p, n);
            && (forall j :: 0 <= j < n ==> SquaredDistance(points[k], p) <= SquaredDistance(points[j], p))
            && (forall j :: 0 <= j < k ==> SquaredDistance(points[j], p) > SquaredDistance(points[k], p))
    decreases n
  {
    if n > 1 {
      NearestAmongIsFirstNearest(points, p, n - 1);
    }
  }

  /** `FindIndexOfClosestPoint`: -1 for an empty list, otherwise an index into it. */
  function NearestIndex(points: seq<Point>, p: Point): (k: int)
    ensures points == [] <==> k == ERROR_NUMBER
    ensures points != [] ==> 0 <= k < |points|
  {
    NearestAmong(points, p, |points|)
  }

  /** `FindIndexOfClosestPoint` returns the first index of a point nearest to `p`. */
  lemma NearestIndexIsFirstNearest(points: seq<Point>, p: Point)
    requires points != []
    ensures var k := NearestIndex(points, p);
            && (forall j :: 0 <= j < |points| ==> SquaredDistance(points[k], p) <= SquaredDistance(points[j], p))
            && (forall j :: 0 <= j < k ==> SquaredDistance(points[j], p) > SquaredDistance(points[k], p))
  {
    NearestAmongIsFirstNearest(points, p, |points|);
  }

  /**
   * Erase the click point nearest to `p`, if there is one: exactly that one
   * point leaves the list, and the others keep their order.
   */
  function RemoveNearest(clicks: seq<Point>, p: Point): (r: seq<Point>)
    ensures clicks == [] ==> r == []
    ensures clicks != [] ==> |r| == |clicks| - 1
    ensures IsSubsequence(r, clicks)
  {
    if clicks == [] then
      []
    else
      var k := NearestIndex(clicks, p);
      EraseIsSubsequence(clicks, k);
      clicks[..k] + clicks[k + 1..]
  }

  /** The point `RemoveNearest` erases is one nearest to `p`, and only that one occurrence goes. */
  lemma RemoveNearestTakesNearest(clicks: seq<Point>, p: Point)
    requires clicks != []
    ensures var k := NearestIndex(clicks, p);
            && multiset(RemoveNearest(clicks, p)) == multiset(clicks) - multiset{clicks[k]}
            && forall j :: 0 <= j < |clicks| ==> SquaredDistance(clicks[k], p) <= SquaredDistance(clicks[j], p)
  {
    var k := NearestIndex(clicks, p);
    assert clicks == clicks[..k] + [clicks[k]] + clicks[k + 1..];
    NearestIndexIsFirstNearest(clicks, p);
  }

  // ---------------------------------------------------------------------------
  // Presses: ClickFingers

  /**
   * The points `ClickFingers` appends, walking the previous (longer) list
   * from index `pi` with the current list at index `ci`, after `pressed`
   * mismatch presses. A previous fingertip with no current partner, or one
   * that moved more than `tolerance` from its partner, is pressed; after a
   * mismatch the current index stays put, and the walk stops once
   * `sizeDifference` mismatches have been pressed.
   */
  function Pressed(prev: seq<Point>, cur: seq<Point>, tolerance: int, sizeDifference: nat, pi: nat, ci: nat, pressed: nat): seq<Point>
    decreases |prev| - pi
  {
    if pi >= |prev| then []
    else if ci >= |cur| then
      [prev[pi]] + Pressed(prev, cur, tolerance, sizeDifference, pi + 1, ci + 1, pressed)
    else if FartherThan(cur[ci], prev[pi], tolerance) then
      [prev[pi]] + (if pressed + 1 == sizeDifference then []
                    else Pressed(prev, cur, tolerance, sizeDifference, pi + 1, ci, pressed + 1))
    else
      Pressed(prev, cur, tolerance, sizeDifference, pi + 1, ci + 1, pressed)
  }

  /** Presses are previous fingertips, in left-to-right order: a subsequence of the rest of the previous list. */
  lemma {:induction false} PressedComeFromPrevious(prev: seq<Point>, cur: seq<Point>, tolerance: int, sizeDifference: nat, pi: nat, ci: nat, pressed: nat)
    requires pi <= |prev|
    ensures IsSubsequence(Pressed(prev, cur, tolerance, sizeDifference, pi, ci, pressed), prev[pi..])
    decreases |prev| - pi
  {
    if pi < |prev| {
      assert prev[pi..] == [prev[pi]] + prev[pi + 1..];
      if ci >= |cur| {
        PressedComeFromPrevious(prev, cur, tolerance, sizeDifference, pi + 1, ci + 1, pressed);
        ConsSubsequence(prev[pi], Pressed(prev, cur, tolerance, sizeDifference, pi + 1, ci + 1, pressed), prev[pi + 1..]);
      } else if FartherThan(cur[ci], prev[pi], tolerance) {
        if pressed + 1 == sizeDifference {
          assert IsSubsequence([], prev[pi + 1..]);
          ConsSubsequence(prev[pi], [], prev[pi + 1..]);
        } else {
          PressedComeFromPrevious(prev, cur, tolerance, sizeDifference, pi + 1, ci, pressed + 1);
          ConsSubsequence(prev[pi], Pressed(prev, cur, tolerance, sizeDifference, pi + 1, ci, pressed + 1), prev[pi + 1..]);
        }
      } else {
        PressedComeFromPrevious(prev, cur, tolerance, sizeDifference, pi + 1, ci + 1, pressed);
        SkipSubsequence(prev[pi], Pressed(prev, cur, tolerance, sizeDifference, pi + 1, ci + 1, pressed), prev[pi + 1..]);
      }
    }
  }

  /**
   * The count invariant of the press walk: with `ci + pressed == pi`, what is
   * still to be pressed is one point per remaining previous fingertip once
   * the current list is used up, and the missing mismatches before that.
   */
  lemma {:induction false} PressedCountFrom(prev: seq<Point>, cur: seq<Point>, tolerance: int, pi: nat, ci: nat, pressed: nat)
    requires |prev| > |cur|
    requires ci + pressed == pi <= |prev|
    requires pressed < |prev| - |cur|
    ensures |Pressed(prev, cur, tolerance, |prev| - |cur|, pi, ci, pressed)|
            == |prev| - pressed - (if ci > |cur| then ci else |cur|)
    decreases |prev| - pi
  {
    var d := |prev| - |cur|;
    var r := Pressed(prev, cur, tolerance, d, pi, ci, pressed);
    if pi == |prev| {
      assert r == [];
    } else if ci >= |cur| {
      var rest := Pressed(prev, cur, tolerance, d, pi + 1, ci + 1, pressed);
      assert r == [prev[pi]] + rest;
      PressedCountFrom(prev, cur, tolerance, pi + 1, ci + 1, pressed);
    } else if FartherThan(cur[ci], prev[pi], tolerance) {
      if pressed + 1 == d {
        assert r == [prev[pi]];
      } else {
        var rest := Pressed(prev, cur, tolerance, d, pi + 1, ci, pressed + 1);
        assert r == [prev[pi]] + rest;
        PressedCountFrom(prev, cur, tolerance, pi + 1, ci, pressed + 1);
      }
    } else {
      assert r == Pressed(prev, cur, tolerance, d, pi + 1, ci + 1, pressed);
      PressedCountFrom(prev, cur, tolerance, pi + 1, ci + 1, pressed);
    }
  }

  /**
   * When a batch shows `d` fewer fingers than the last one, `ClickFingers`
   * presses exactly `d` points.
   */
  lemma PressedCount(prev: seq<Point>, cur: seq<Point>, tolerance: int)
    requires |prev| > |cur|
    ensures |Pressed(prev, cur, tolerance, |prev| - |cur|, 0, 0, 0)| == |prev| - |cur|
  {
    PressedCountFrom(prev, cur, tolerance, 0, 0, 0);
  }

  /** Against an empty current list every remaining previous fingertip is pressed. */
  lemma {:induction false} PressedAgainstNoFingers(prev: seq<Point>, tolerance: int, sizeDifference: nat, pi: nat, ci: nat, pressed: nat)
    requires pi <= |prev|
    ensures Pressed(prev, [], tolerance, sizeDifference, pi, ci, pressed) == prev[pi..]
    decreases |prev| - pi
  {
    if pi < |prev| {
      PressedAgainstNoFingers(prev, tolerance, sizeDifference, pi + 1, ci + 1, pressed);
      assert prev[pi..] == [prev[pi]] + prev[pi + 1..];
    }
  }

  // ---------------------------------------------------------------------------
  // Releases: UnclickFingers

  /**
   * What the release walk needs of the step that erases a click point for a
   * fingertip: nothing happens to an empty list, and otherwise exactly one
   * point leaves it and the others keep their order.
   */
  ghost predicate ErasesOne(erase: (seq<Point>, Point) -> seq<Point>)
  {
    forall clicks: seq<Point>, p: Point {:trigger erase(clicks, p)} ::
      && (clicks == [] ==> erase(clicks, p) == [])
      && (clicks != [] ==> |erase(clicks, p)| == |clicks| - 1)
      && IsSubsequence(erase(clicks, p), clicks)
  }

  /** Erasing the nearest click point is such a step. */
  lemma RemoveNearestErasesOne()
    ensures ErasesOne(RemoveNearest)
  {
  }

  /**
   * The release walk of `UnclickFingers` over the current (longer) list from
   * index `ci`, with the previous list at index `pi` and `released` mismatch
   * releases so far. A current fingertip with no previous partner, or one
   * that moved more than `tolerance` from its partner, has `erase` take a
   * click point for it; a mismatch release keeps the previous index put and
   * counts toward `sizeDifference`, after which the walk stops. Nothing is
   * erased from an empty list, and then the previous index moves on.
   */
  function ReleaseWalk(erase: (seq<Point>, Point) -> seq<Point>, clicks: seq<Point>, prev: seq<Point>, cur: seq<Point>,
                       tolerance: int, sizeDifference: nat, ci: nat, pi: nat, released: nat): seq<Point>
    decreases |cur| - ci
  {
    if ci >= |cur| then clicks
    else if pi >= |prev| then
      ReleaseWalk(erase, erase(clicks, cur[ci]), prev, cur, tolerance, sizeDifference, ci + 1, pi + 1, released)
    else if FartherThan(cur[ci], prev[pi], tolerance) then
      if clicks != [] then
        var rest := erase(clicks, cur[ci]);
        if released + 1 == sizeDifference then rest
        else ReleaseWalk(erase, rest, prev, cur, tolerance, sizeDifference, ci + 1, pi, released + 1)
      else if released == sizeDifference then clicks
      else ReleaseWalk(erase, clicks, prev, cur, tolerance, sizeDifference, ci + 1, pi + 1, released)
    else
      ReleaseWalk(erase, clicks, prev, cur, tolerance, sizeDifference, ci + 1, pi + 1, released)
  }

  /** One step of the release walk. */
  lemma ReleaseWalkStep(erase: (seq<Point>, Point) -> seq<Point>, clicks: seq<Point>, prev: seq<Point>, cur: seq<Point>,
                        tolerance: int, sizeDifference: nat, ci: nat, pi: nat, released: nat)
    requires ci < |cur|
    ensures pi >= |prev| ==>
              ReleaseWalk(erase, clicks, prev, cur, tolerance, sizeDifference, ci, pi, released)
              == ReleaseWalk(erase, erase(clicks, cur[ci]), prev, cur, tolerance, sizeDifference, ci + 1, pi + 1, released)
    ensures pi < |prev| && !FartherThan(cur[ci], prev[pi], tolerance) ==>
              ReleaseWalk(erase, clicks, prev, cur, tolerance, sizeDifference, ci, pi, released)
              == ReleaseWalk(erase, clicks, prev, cur, tolerance, sizeDifference, ci + 1, pi + 1, released)
    ensures pi < |prev| && FartherThan(cur[ci], prev[pi], tolerance) && clicks != [] ==>
              ReleaseWalk(erase, clicks, prev, cur, tolerance, sizeDifference, ci, pi, released)
              == if released + 1 == sizeDifference then erase(clicks, cur[ci])
                 else ReleaseWalk(erase, erase(clicks, cur[ci]), prev, cur, tolerance, sizeDifference, ci + 1, pi, released + 1)
    ensures pi < |prev| && FartherThan(cur[ci], prev[pi], tolerance) && clicks == [] ==>
              ReleaseWalk(erase, clicks, prev, cur, tolerance, sizeDifference, ci, pi, released)
              == if released == sizeDifference then clicks
                 else ReleaseWalk(erase, clicks, prev, cur, tolerance, sizeDifference, ci + 1, pi + 1, released)
  {
  }

  /** The click list `UnclickFingers` leaves: the release walk, erasing for each release the click point nearest to the fingertip. */
  function Released(clicks: seq<Point>, prev: seq<Point>, cur: seq<Point>, tolerance: int, sizeDifference: nat): seq<Point>
  {
    ReleaseWalk(RemoveNearest, clicks, prev, cur, tolerance, sizeDifference, 0, 0, 0)
  }

  lemma {:induction false} ReleaseWalkOnlyErases(erase: (seq<Point>, Point) -> seq<Point>, clicks: seq<Point>, prev: seq<Point>, cur: seq<Point>,
                                                 tolerance: int, sizeDifference: nat, ci: nat, pi: nat, released: nat)
    requires ErasesOne(erase)
    ensures IsSubsequence(ReleaseWalk(erase, clicks, prev, cur, tolerance, sizeDifference, ci, pi, released), clicks)
    decreases |cur| - ci
  {
    if ci >= |cur| {
      SubsequenceReflexive(clicks);
    } else if pi >= |prev| {
      var rest := erase(clicks, cur[ci]);
      ReleaseWalkOnlyErases(erase, rest, prev, cur, tolerance, sizeDifference, ci + 1, pi + 1, released);
      SubsequenceTransitive(ReleaseWalk(erase, rest, prev, cur, tolerance, sizeDifference, ci + 1, pi + 1, released), rest, clicks);
    } else if FartherThan(cur[ci], prev[pi], tolerance) {
      if clicks != [] {
        var rest := erase(clicks, cur[ci]);
        if released + 1 != sizeDifference {
          ReleaseWalkOnlyErases(erase, rest, prev, cur, tolerance, sizeDifference, ci + 1, pi, released + 1);
          SubsequenceTransitive(ReleaseWalk(erase, rest, prev, cur, tolerance, sizeDifference, ci + 1, pi, released + 1), rest, clicks);
        }
      } else if released == sizeDifference {
        SubsequenceReflexive(clicks);
      } else {
        ReleaseWalkOnlyErases(erase, clicks, prev, cur, tolerance, sizeDifference, ci + 1, pi + 1, released);
      }
    } else {
      ReleaseWalkOnlyErases(erase, clicks, prev, cur, tolerance, sizeDifference, ci + 1, pi + 1, released);
    }
  }

  /** Releases only erase: what `UnclickFingers` leaves is a subsequence of the click list. */
  lemma ReleasedOnlyErases(clicks: seq<Point>, prev: seq<Point>, cur: seq<Point>, tolerance: int, sizeDifference: nat)
    ensures IsSubsequence(Released(clicks, prev, cur, tolerance, sizeDifference), clicks)
  {
    RemoveNearestErasesOne();
    ReleaseWalkOnlyErases(RemoveNearest, clicks, prev, cur, tolerance, sizeDifference, 0, 0, 0);
  }

  /** Nothing is ever erased from an empty click list. */
  lemma {:induction false} ReleaseWalkFromNothing(erase: (seq<Point>, Point) -> seq<Point>, prev: seq<Point>, cur: seq<Point>,
                                                  tolerance: int, sizeDifference: nat, ci: nat, pi: nat, released: nat)
    requires ErasesOne(erase)
    ensures ReleaseWalk(erase, [], prev, cur, tolerance, sizeDifference, ci, pi, released) == []
    decreases |cur| - ci
  {
    if ci < |cur| {
      if pi >= |prev| {
        assert erase([], cur[ci]) == [];
        ReleaseWalkFromNothing(erase, prev, cur, tolerance, sizeDifference, ci + 1, pi + 1, released);
      } else if !FartherThan(cur[ci], prev[pi], tolerance) || released != sizeDifference {
        ReleaseWalkFromNothing(erase, prev, cur, tolerance, sizeDifference, ci + 1, pi + 1, released);
      }
    }
  }

  function Min(a: int, b: int): int
  {
    if a < b then a else b
  }

  /** Erasing one point uses up one unit of the erase budget. */
  lemma MinStep(a: int, n: int)
    requires a > 0 && n > 0
    ensures a - Min(a, n) == (a - 1) - Min(a - 1, n - 1)
  {
  }

  /**
   * The count invariant of the release walk: with `pi + released == ci`,
   * the releases still to come are one per remaining current fingertip once
   * the previous list is used up, and the missing mismatches before that,
   * but never more than there are click points.
   */
  lemma {:induction false} ReleaseWalkCount(erase: (seq<Point>, Point) -> seq<Point>, clicks: seq<Point>, prev: seq<Point>, cur: seq<Point>,
                                            tolerance: int, ci: nat, pi: nat, released: nat)
    requires ErasesOne(erase)
    requires |cur| > |prev|
    requires pi + released == ci <= |cur|
    requires released < |cur| - |prev|
    ensures |ReleaseWalk(erase, clicks, prev, cur, tolerance, |cur| - |prev|, ci, pi, released)|
            == |clicks| - Min(|clicks|, |cur| - released - (if pi > |prev| then pi else |prev|))
    decreases |cur| - ci
  {
    var d := |cur| - |prev|;
    if clicks == [] {
      ReleaseWalkFromNothing(erase, prev, cur, tolerance, d, ci, pi, released);
    } else if ci == |cur| {
    } else if pi >= |prev| {
      var rest := erase(clicks, cur[ci]);
      ReleaseWalkCount(erase, rest, prev, cur, tolerance, ci + 1, pi + 1, released);
      MinStep(|clicks|, |cur| - released - pi);
    } else if FartherThan(cur[ci], prev[pi], tolerance) {
      var rest := erase(clicks, cur[ci]);
      MinStep(|clicks|, d - released);
      if released + 1 < d {
        ReleaseWalkCount(erase, rest, prev, cur, tolerance, ci + 1, pi, released + 1);
      }
    } else {
      ReleaseWalkCount(erase, clicks, prev, cur, tolerance, ci + 1, pi + 1, released);
    }
  }

  /**
   * When a batch shows `d` more fingers than the last one, `UnclickFingers`
   * erases exactly `d` click points, or all of them if there are fewer.
   */
  lemma ReleasedCount(clicks: seq<Point>, prev: seq<Point>, cur: seq<Point>, tolerance: int)
    requires |cur| > |prev|
    ensures |Released(clicks, prev, cur, tolerance, |cur| - |prev|)| == |clicks| - Min(|clicks|, |cur| - |prev|)
  {
    RemoveNearestErasesOne();
    ReleaseWalkCount(RemoveNearest, clicks, prev, cur, tolerance, 0, 0, 0);
  }

  // ---------------------------------------------------------------------------
  // UpdatePoints and AnalyseHand

  /**
   * `UpdatePoints`: `sizeDifference` is the current batch hand's finger count
   * minus the previous one's; more fingers release, fewer fingers press, the
   * same number changes nothing.
   */
  function PointsAfterUpdate(clicks: seq<Point>, prev: seq<Point>, cur: seq<Point>, tolerance: int, sizeDifference: int): seq<Point>
  {
    if sizeDifference == 0 then clicks
    else if sizeDifference > 0 then Released(clicks, prev, cur, tolerance, sizeDifference)
    else clicks + Pressed(prev, cur, tolerance, -sizeDifference, 0, 0, 0)
  }

  /** The closed-fist step: a current hand with no fingertips presses every previous fingertip. */
  function AfterFist(prev: Hand, cur: Hand, clicks: seq<Point>): seq<Point>
  {
    if |cur.fingerTips| == 0 then clicks + prev.fingerTips else clicks
  }

  /**
   * `AnalyseHand`, as a relation between the previous and current batch hands
   * and click list before (`prev`, `cur`, `clicks`) and after (`prev'`,
   * `cur'`, `clicks'`). An open palm (5 or more fingertips) releases
   * everything and stops. Otherwise a closed fist presses the previous
   * fingertips, and then, when the finger counts differ and the previous hand
   * is not the default one, both fingertip lists are sorted by x (in an order
   * `std::sort` leaves open among equal x) and diffed.
   */
  ghost predicate Analysed(prev: Hand, cur: Hand, clicks: seq<Point>, tolerance: int, prev': Hand, cur': Hand, clicks': seq<Point>)
  {
    if |cur.fingerTips| >= 5 then
      prev' == prev && cur' == cur && clicks' == []
    else if |prev.fingerTips| != |cur.fingerTips| && !prev.IsDefault() then
      && SortedRearrangement(prev', prev)
      && SortedRearrangement(cur', cur)
      && clicks' == PointsAfterUpdate(AfterFist(prev, cur, clicks), prev'.fingerTips, cur'.fingerTips, tolerance,
                                      |cur.fingerTips| - |prev.fingerTips|)
    else
      prev' == prev && cur' == cur && clicks' == AfterFist(prev, cur, clicks)
  }

  /** An open palm releases every click point. */
  lemma OpenPalmReleasesAll(prev: Hand, cur: Hand, clicks: seq<Point>, tolerance: int, prev': Hand, cur': Hand, clicks': seq<Point>)
    requires Analysed(prev, cur, clicks, tolerance, prev', cur', clicks')
    requires cur.NumberOfFingers() >= 5
    ensures clicks' == []
  {
  }

  /**
   * `UpdatePoints` with fewer current than previous fingertips appends
   * exactly the difference, all of them previous fingertips.
   */
  lemma FewerFingersAppendPresses(clicks: seq<Point>, prev: seq<Point>, cur: seq<Point>, tolerance: int)
    requires |prev| > |cur|
    ensures var r := PointsAfterUpdate(clicks, prev, cur, tolerance, |cur| - |prev|);
            && |r| == |clicks| + |prev| - |cur|
            && r[..|clicks|] == clicks
            && forall p :: p in r[|clicks|..] ==> p in prev
  {
    var presses := Pressed(prev, cur, tolerance, |prev| - |cur|, 0, 0, 0);
    var r := PointsAfterUpdate(clicks, prev, cur, tolerance, |cur| - |prev|);
    assert r == clicks + presses;
    PressedCount(prev, cur, tolerance);
    PressedComeFromPrevious(prev, cur, tolerance, |prev| - |cur|, 0, 0, 0);
    assert prev[0..] == prev;
    SubsequenceNotLonger(presses, prev);
    assert r[|clicks|..] == presses;
  }

  /** A sorted rearrangement has the same number of fingertips. */
  lemma RearrangementKeepsCount(sorted: Hand, h: Hand)
    requires SortedRearrangement(sorted, h)
    ensures sorted.NumberOfFingers() == h.NumberOfFingers()
    ensures forall p :: p in sorted.fingerTips <==> p in h.fingerTips
  {
    assert |multiset(sorted.fingerTips)| == |multiset(h.fingerTips)|;
    forall p
      ensures p in sorted.fingerTips <==> p in h.fingerTips
    {
      assert p in sorted.fingerTips <==> p in multiset(sorted.fingerTips);
      assert p in h.fingerTips <==> p in multiset(h.fingerTips);
    }
  }

  /**
   * Bending `d` fingers presses exactly `d` points, all of them previous
   * fingertips, appended after what was there (and, for a closed fist, after
   * the previous fingertips it pressed first).
   */
  lemma BendingPressesTheDifference(prev: Hand, cur: Hand, clicks: seq<Point>, tolerance: int, prev': Hand, cur': Hand, clicks': seq<Point>)
    requires Analysed(prev, cur, clicks, tolerance, prev', cur', clicks')
    requires cur.NumberOfFingers() < prev.NumberOfFingers() && cur.NumberOfFingers() < 5 && !prev.IsDefault()
    ensures var before := AfterFist(prev, cur, clicks);
            && |clicks'| == |before| + prev.NumberOfFingers() - cur.NumberOfFingers()
            && clicks'[..|before|] == before
            && forall p :: p in clicks'[|before|..] ==> p in prev.fingerTips
  {
    RearrangementKeepsCount(prev', prev);
    RearrangementKeepsCount(cur', cur);
    FewerFingersAppendPresses(AfterFist(prev, cur, clicks), prev'.fingerTips, cur'.fingerTips, tolerance);
  }

  /**
   * Unbending `d` fingers erases exactly `d` click points (all of them, if
   * there are fewer) and adds none.
   */
  lemma UnbendingReleasesTheDifference(prev: Hand, cur: Hand, clicks: seq<Point>, tolerance: int, prev': Hand, cur': Hand, clicks': seq<Point>)
    requires Analysed(prev, cur, clicks, tolerance, prev', cur', clicks')
    requires prev.NumberOfFingers() < cur.NumberOfFingers() < 5 && !prev.IsDefault()
    ensures IsSubsequence(clicks', clicks)
    ensures |clicks'| == |clicks| - Min(|clicks|, cur.NumberOfFingers() - prev.NumberOfFingers())
  {
    var sp, sc := prev'.fingerTips, cur'.fingerTips;
    RearrangementKeepsCount(prev', prev);
    RearrangementKeepsCount(cur', cur);
    ReleasedCount(clicks, sp, sc, tolerance);
    ReleasedOnlyErases(clicks, sp, sc, tolerance, |sc| - |sp|);
  }

  /**
   * The closed-fist step does not end the analysis: after pressing every
   * previous fingertip it also runs the press walk against the empty current
   * list, which presses each of them a second time (in ascending x order).
   */
  lemma ClosedFistPressesTwice(prev: Hand, cur: Hand, clicks: seq<Point>, tolerance: int, prev': Hand, cur': Hand, clicks': seq<Point>)
    requires Analysed(prev, cur, clicks, tolerance, prev', cur', clicks')
    requires cur.NumberOfFingers() == 0 < prev.NumberOfFingers() && !prev.IsDefault()
    ensures clicks' == clicks + prev.fingerTips + prev'.fingerTips
    ensures multiset(prev'.fingerTips) == multiset(prev.fingerTips)
  {
    var sp := prev'.fingerTips;
    assert cur'.fingerTips == [] by {
      assert |multiset(cur'.fingerTips)| == 0;
    }
    PressedAgainstNoFingers(sp, tolerance, |prev.fingerTips|, 0, 0, 0);
    assert sp[0..] == sp;
  }

  /** Same finger count (below an open palm), or a default previous hand that is not followed by a fist: nothing changes. */
  lemma NoDiffWithoutCountChange(prev: Hand, cur: Hand, clicks: seq<Point>, tolerance: int, prev': Hand, cur': Hand, clicks': seq<Point>)
    requires Analysed(prev, cur, clicks, tolerance, prev', cur', clicks')
    requires cur.NumberOfFingers() < 5
    requires cur.NumberOfFingers() == prev.NumberOfFingers() || (prev.IsDefault() && cur.NumberOfFingers() > 0)
    ensures clicks' == clicks && prev' == prev && cur' == cur
  {
    if cur.NumberOfFingers() == 0 {
      assert prev.fingerTips == [];
      assert clicks + [] == clicks;
    }
  }

  // ---------------------------------------------------------------------------
  // Majority vote and reference frame

  /** How many hands of the batch show exactly `n` fingertips. */
  function FingerCount(batch: seq<Hand>, n: int): (c: nat)
    ensures c <= |batch|
    decreases |batch|
  {
    if batch == [] then 0
    else FingerCount(batch[..|batch| - 1], n) + (if batch[|batch| - 1].NumberOfFingers() == n then 1 else 0)
  }

  lemma {:induction false} FingerCountWitness(batch: seq<Hand>, n: int)
    requires FingerCount(batch, n) > 0
    ensures exists k :: 0 <= k < |batch| && batch[k].NumberOfFingers() == n
    decreases |batch|
  {
    var m := |batch| - 1;
    if batch[m].NumberOfFingers() != n {
      FingerCountWitness(batch[..m], n);
      var k :| 0 <= k < m && batch[..m][k].NumberOfFingers() == n;
      assert batch[k].NumberOfFingers() == n;
    }
  }

  lemma {:induction false} FingerCountPositive(batch: seq<Hand>, k: nat)
    requires k < |batch|
    ensures FingerCount(batch, batch[k].NumberOfFingers()) > 0
    decreases |batch|
  {
    var m := |batch| - 1;
    if k < m {
      FingerCountPositive(batch[..m], k);
    }
  }

  /** The first count among 0..upTo held by the most hands. */
  function FirstMostFrequent(batch: seq<Hand>, upTo: nat): (m: nat)
    requires upTo <= 5
    ensures m <= upTo
    ensures forall n :: 0 <= n <= upTo ==> FingerCount(batch, n) <= FingerCount(batch, m)
    ensures forall n :: 0 <= n < m ==> FingerCount(batch, n) < FingerCount(batch, m)
  {
    if upTo == 0 then 0
    else
      var m := FirstMostFrequent(batch, upTo - 1);
      if FingerCount(batch, upTo) > FingerCount(batch, m) then upTo else m
  }

  /**
   * `FindMostFrequentFingerNumber`: the finger count (0 to 5) held by the most
   * hands of the batch, the smallest such count on a tie; hands with more
   * than five fingertips do not vote.
   */
  function MostFrequentFingerNumber(batch: seq<Hand>): (m: nat)
    ensures m <= 5
    ensures forall n :: 0 <= n <= 5 ==> FingerCount(batch, n) <= FingerCount(batch, m)
    ensures forall n :: 0 <= n < m ==> FingerCount(batch, n) < FingerCount(batch, m)
  {
    FirstMostFrequent(batch, 5)
  }

  /** A hand with more than five fingertips does not change the vote. */
  lemma OverfullHandDoesNotVote(batch: seq<Hand>, h: Hand)
    requires h.NumberOfFingers() > 5
    ensures MostFrequentFingerNumber(batch + [h]) == MostFrequentFingerNumber(batch)
  {
    var b := batch + [h];
    assert b[..|b| - 1] == batch;
    assert forall n :: 0 <= n <= 5 ==> FingerCount(b, n) == FingerCount(batch, n);
  }

  /** The scan of `GetLatestReferenceFrame` from index `i` down to index 1. */
  function LatestFrom(batch: seq<Hand>, n: int, i: int): (r: nat)
    requires i < |batch|
    ensures r == 0 || (1 <= r <= i && batch[r].NumberOfFingers() == n)
    ensures forall j :: r < j <= i && 1 <= j ==> batch[j].NumberOfFingers() != n
    decreases i
  {
    if i <= 0 then 0
    else if batch[i].NumberOfFingers() == n then i
    else LatestFrom(batch, n, i - 1)
  }

  /**
   * `GetLatestReferenceFrame`: the last index at or after 1 whose hand shows
   * `n` fingertips, or 0 when there is none (also for an empty batch).
   */
  function LatestReferenceFrame(batch: seq<Hand>, n: int): (r: nat)
    ensures |batch| > 0 ==> r < |batch|
    ensures r > 0 ==> r < |batch| && batch[r].NumberOfFingers() == n
    ensures forall j :: r < j < |batch| ==> batch[j].NumberOfFingers() != n
  {
    LatestFrom(batch, n, |batch| - 1)
  }

  /** The index of the batch's reference hand. */
  function ReferenceIndex(batch: seq<Hand>): nat
  {
    LatestReferenceFrame(batch, MostFrequentFingerNumber(batch))
  }

  /**
   * If any hand of the batch has at most five fingertips, the reference hand
   * shows the most frequent count and is the latest hand that does.
   */
  lemma ReferenceHasMostFrequentCount(batch: seq<Hand>, k: nat)
    requires k < |batch| && batch[k].NumberOfFingers() <= 5
    ensures var r := ReferenceIndex(batch);
            && r < |batch|
            && batch[r].NumberOfFingers() == MostFrequentFingerNumber(batch)
            && forall j :: r < j < |batch| ==> batch[j].NumberOfFingers() != MostFrequentFingerNumber(batch)
  {
    var m := MostFrequentFingerNumber(batch);
    FingerCountPositive(batch, k);
    assert FingerCount(batch, m) > 0;
    FingerCountWitness(batch, m);
  }
}
