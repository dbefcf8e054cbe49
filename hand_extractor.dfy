/**
 * The hand extractor: choosing the two largest contours of a frame's mask,
 * turning each contour's convexity defects into fingertip candidates,
 * filtering those candidates, and ordering the two hands left to right.
 *
 * What OpenCV computes from the mask (the contours, their areas, the bounding
 * box of each convex hull, the convexity defects) is an input here, as is the
 * floating-point angle test at a defect's far point.
 */
module HandExtractor {
  import opened Geometry
  import opened Hands

  datatype Option<T> = None | Some(value: T)

  /**
   * A convexity defect (cv::Vec4i): the indices, into its contour, of the hull
   * edge's start and end points and of the contour point farthest from that
   * edge. The defect depth is never read and is left out.
   */
  datatype Defect = Defect(start: int, end: int, far: int)

  /**
   * One external contour with what OpenCV derives from it: the boundary
   * points, the enclosed area, the bounding rectangle of its convex hull, and
   * the convexity defects of the contour against that hull.
   */
  datatype ContourData = ContourData(points: seq<Point>, area: real, bounds: Rect, defects: seq<Defect>)

  /**
   * The angle test of `FindFingerDefects`: whether the angle at `far` between
   * `start` and `end`, computed in floating point by `CalculateAngle`, is
   * below `MAX_ANGLE_BETWEEN_FINGERS`.
   */
  type AngleTest = (Point, Point, Point) -> bool

  predicate DefectInContour(d: Defect, n: int)
  {
    0 <= d.start < n && 0 <= d.end < n && 0 <= d.far < n
  }

  predicate DefectsInContour(defects: seq<Defect>, n: int)
  {
    forall k :: 0 <= k < |defects| ==> DefectInContour(defects[k], n)
  }

  /**
   * What OpenCV guarantees of a contour: it has points, its (unoriented) area
   * is not negative, and its defects index into it.
   */
  predicate WellFormed(c: ContourData)
  {
    |c.points| > 0 && c.area >= 0.0 && DefectsInContour(c.defects, |c.points|)
  }

  predicate AllWellFormed(cs: seq<ContourData>)
  {
    forall i :: 0 <= i < |cs| ==> WellFormed(cs[i])
  }

  /** The x coordinate of a contour's first point, used to order the chosen two. */
  function FirstPointX(c: ContourData): int
    requires |c.points| > 0
  {
    c.points[0].x
  }

  // ---------------------------------------------------------------------------
  // Find2LargestContours

  /** `i` is the first contour of largest area. */
  ghost predicate IsFirstLargest(cs: seq<ContourData>, i: int)
  {
    && 0 <= i < |cs|
    && (forall j :: 0 <= j < |cs| ==> cs[j].area <= cs[i].area)
    && (forall j :: 0 <= j < i ==> cs[j].area < cs[i].area)
  }

  /**
   * `k` is the runner-up once `i` is taken: the first of the largest among the
   * other contours, except that a runner-up of zero area is contour 0, so
   * that `k` and `i` coincide only when `i` is 0 and every other area is 0.
   */
  ghost predicate IsRunnerUp(cs: seq<ContourData>, i: int, k: int)
  {
    && 0 <= k < |cs|
    && (k == i ==> i == 0 && forall j :: 0 < j < |cs| ==> cs[j].area == 0.0)
    && (k != i ==>
          && (cs[k].area > 0.0 || k == 0)
          && (forall j :: 0 <= j < |cs| && j != i ==> cs[j].area <= cs[k].area)
          && (forall j :: 0 <= j < k && j != i ==> cs[j].area < cs[k].area))
  }

  /**
   * The pair `Find2LargestContours` returns for a non-empty list: (0, 1) for
   * exactly two contours; otherwise the largest and the runner-up, swapped
   * when the largest's first point is not strictly left of the runner-up's.
   */
  ghost predicate IsLargestPair(cs: seq<ContourData>, first: int, second: int)
    requires forall i :: 0 <= i < |cs| ==> |cs[i].points| > 0
  {
    if |cs| == 2 then first == 0 && second == 1
    else
      || (IsFirstLargest(cs, first) && IsRunnerUp(cs, first, second)
          && FirstPointX(cs[first]) < FirstPointX(cs[second]))
      || (IsFirstLargest(cs, second) && IsRunnerUp(cs, second, first)
          && FirstPointX(cs[second]) >= FirstPointX(cs[first]))
  }

  /** The choice is determined by the contours: no two different pairs qualify. */
  lemma LargestPairIsUnique(cs: seq<ContourData>, a: int, b: int, c: int, d: int)
    requires forall i :: 0 <= i < |cs| ==> |cs[i].points| > 0 && cs[i].area >= 0.0
    requires IsLargestPair(cs, a, b) && IsLargestPair(cs, c, d)
    ensures a == c && b == d
  {
    if |cs| != 2 {
      var i1 := if IsFirstLargest(cs, a) && IsRunnerUp(cs, a, b) && FirstPointX(cs[a]) < FirstPointX(cs[b]) then a else b;
      var i2 := if IsFirstLargest(cs, c) && IsRunnerUp(cs, c, d) && FirstPointX(cs[c]) < FirstPointX(cs[d]) then c else d;
      FirstLargestIsUnique(cs, i1, i2);
      var k1 := if i1 == a then b else a;
      var k2 := if i2 == c then d else c;
      RunnerUpIsUnique(cs, i1, k1, k2);
    }
  }

  lemma FirstLargestIsUnique(cs: seq<ContourData>, i: int, j: int)
    requires IsFirstLargest(cs, i) && IsFirstLargest(cs, j)
    ensures i == j
  {
    assert cs[i].area <= cs[j].area && cs[j].area <= cs[i].area;
  }

  lemma RunnerUpIsUnique(cs: seq<ContourData>, i: int, k: int, l: int)
    requires forall j :: 0 <= j < |cs| ==> cs[j].area >= 0.0
    requires IsRunnerUp(cs, i, k) && IsRunnerUp(cs, i, l)
    ensures k == l
  {
  }

  /**
   * The indices of the two largest-area contours, the left one (by first
   * point) first; (-1, -1) when there is none; (0, 1) for exactly two
   * contours, whatever their areas; (0, 0) for a single contour.
   */
  method Find2LargestContours(contours: seq<ContourData>) returns (first: int, second: int)
    requires forall i :: 0 <= i < |contours| ==> |contours[i].points| > 0 && contours[i].area >= 0.0
    ensures |contours| == 0 ==> first == ERROR_NUMBER && second == ERROR_NUMBER
    ensures |contours| > 0 ==> 0 <= first < |contours| && 0 <= second < |contours|
    ensures |contours| > 0 ==> IsLargestPair(contours, first, second)
    ensures |contours| > 0 && |contours| != 2 ==>
              FirstPointX(contours[first]) <= FirstPointX(contours[second])
    ensures |contours| == 1 ==> first == 0 && second == 0
  {
    if |contours| < 1 {
      return ERROR_NUMBER, ERROR_NUMBER;
    }
    if |contours| == 2 {
      return 0, 1;
    }
    var max1Index, max2Index := 0, 0;
    var max1Area, max2Area := 0.0, 0.0;
    for i := 0 to |contours|
      invariant 0 <= max1Index < |contours| && 0 <= max2Index < |contours|
      invariant 0.0 <= max2Area <= max1Area
      invariant forall j :: 0 <= j < i ==> contours[j].area <= max1Area
      invariant max1Area == 0.0 ==> max1Index == 0
      invariant max1Area > 0.0 ==>
                  && max1Index < i && contours[max1Index].area == max1Area
                  && forall j :: 0 <= j < max1Index ==> contours[j].area < max1Area
      invariant forall j :: 0 <= j < i && j != max1Index ==> contours[j].area <= max2Area
      invariant max2Area == 0.0 ==> max2Index == 0
      invariant max2Area > 0.0 ==>
                  && max2Index < i && max2Index != max1Index
                  && contours[max2Index].area == max2Area
                  && forall j :: 0 <= j < max2Index && j != max1Index ==> contours[j].area < max2Area
    {
      var area := contours[i].area;
      if area > max1Area {
        max2Index, max2Area := max1Index, max1Area;
        max1Index, max1Area := i, area;
      } else if area > max2Area {
        max2Index, max2Area := i, area;
      }
    }
    assert IsFirstLargest(contours, max1Index);
    assert IsRunnerUp(contours, max1Index, max2Index);
    if FirstPointX(contours[max1Index]) >= FirstPointX(contours[max2Index]) {
      max1Index, max2Index := max2Index, max1Index;
    }
    return max1Index, max2Index;
  }

  // ---------------------------------------------------------------------------
  // FindFingerDefects

  /**
   * A defect that separates two fingers: both edges from its far point are
   * longer than `fingerLength`, and the angle at the far point passes the
   * angle test.
   */
  predicate IsFingerDefect(d: Defect, fingerLength: int, contour: seq<Point>, angleBelowMax: AngleTest)
  {
    && DefectInContour(d, |contour|)
    && var start, far, end := contour[d.start], contour[d.far], contour[d.end];
    && FartherThan(start, far, fingerLength)
    && FartherThan(far, end, fingerLength)
    && angleBelowMax(start, far, end)
  }

  /** The finger defects among `defects`, in their original order. */
  function FingerDefects(defects: seq<Defect>, fingerLength: int, contour: seq<Point>, angleBelowMax: AngleTest): (accepted: seq<Defect>)
    requires DefectsInContour(defects, |contour|)
    ensures IsSubsequence(accepted, defects)
    ensures forall k :: 0 <= k < |accepted| ==> IsFingerDefect(accepted[k], fingerLength, contour, angleBelowMax)
    ensures DefectsInContour(accepted, |contour|)
    ensures forall d :: d in defects && IsFingerDefect(d, fingerLength, contour, angleBelowMax) ==> d in accepted
    decreases |defects|
  {
    if defects == [] then []
    else
      var rest := FingerDefects(defects[1..], fingerLength, contour, angleBelowMax);
      assert defects == [defects[0]] + defects[1..];
      if IsFingerDefect(defects[0], fingerLength, contour, angleBelowMax) then
        ConsSubsequence(defects[0], rest, defects[1..]);
        [defects[0]] + rest
      else
        SkipSubsequence(defects[0], rest, defects[1..]);
        rest
  }

  /** Each defect's start point followed by its end point. */
  function DefectEndpoints(defects: seq<Defect>, contour: seq<Point>): (tips: seq<Point>)
    requires DefectsInContour(defects, |contour|)
    ensures |tips| == 2 * |defects|
    ensures forall p :: p in tips ==> p in contour
    decreases |defects|
  {
    if defects == [] then []
    else [contour[defects[0].start], contour[defects[0].end]] + DefectEndpoints(defects[1..], contour)
  }

  /** The `k`-th defect contributes the candidates at 2k (its start) and 2k + 1 (its end). */
  lemma {:induction false} DefectEndpointsAt(defects: seq<Defect>, contour: seq<Point>, k: nat)
    requires DefectsInContour(defects, |contour|) && k < |defects|
    ensures DefectEndpoints(defects, contour)[2 * k] == contour[defects[k].start]
    ensures DefectEndpoints(defects, contour)[2 * k + 1] == contour[defects[k].end]
    decreases k
  {
    if k > 0 {
      DefectEndpointsAt(defects[1..], contour, k - 1);
      assert defects[1..][k - 1] == defects[k];
    }
  }

  /**
   * The fingertip candidates of a hand: for every finger defect, in order, its
   * start point then its end point.
   */
  function FingerDefectTips(defects: seq<Defect>, fingerLength: int, contour: seq<Point>, angleBelowMax: AngleTest): (tips: seq<Point>)
    requires DefectsInContour(defects, |contour|)
  {
    DefectEndpoints(FingerDefects(defects, fingerLength, contour, angleBelowMax), contour)
  }

  /**
   * `FingerDefects` is exactly the filter of the defects by `IsFingerDefect`:
   * every copy of a passing defect is kept, and no copy of a failing one.
   */
  lemma {:induction false} FingerDefectsKeepEveryCopy(defects: seq<Defect>, fingerLength: int, contour: seq<Point>,
                                                      angleBelowMax: AngleTest, d: Defect)
    requires DefectsInContour(defects, |contour|)
    ensures multiset(FingerDefects(defects, fingerLength, contour, angleBelowMax))[d]
         == if IsFingerDefect(d, fingerLength, contour, angleBelowMax) then multiset(defects)[d] else 0
    decreases |defects|
  {
    if defects != [] {
      assert defects == [defects[0]] + defects[1..];
      FingerDefectsKeepEveryCopy(defects[1..], fingerLength, contour, angleBelowMax, d);
    }
  }

  /**
   * Candidates come in start/end pairs of accepted defects, so there are an
   * even number of them and at most two per convexity defect; which point sits
   * where is `DefectEndpointsAt`.
   */
  lemma FingerDefectTipsShape(defects: seq<Defect>, fingerLength: int, contour: seq<Point>, angleBelowMax: AngleTest)
    requires DefectsInContour(defects, |contour|)
    ensures var accepted := FingerDefects(defects, fingerLength, contour, angleBelowMax);
            var tips := FingerDefectTips(defects, fingerLength, contour, angleBelowMax);
            && |tips| == 2 * |accepted| <= 2 * |defects|
            && |tips| % 2 == 0
  {
    SubsequenceNotLonger(FingerDefects(defects, fingerLength, contour, angleBelowMax), defects);
  }

  method FindFingerDefects(convexityDefects: seq<Defect>, fingerLength: int, contour: seq<Point>, angleBelowMax: AngleTest)
    returns (fingerTips: seq<Point>)
    requires DefectsInContour(convexityDefects, |contour|)
    ensures fingerTips == FingerDefectTips(convexityDefects, fingerLength, contour, angleBelowMax)
  {
    fingerTips := [];
    var i := 0;
    while i < |convexityDefects|
      invariant 0 <= i <= |convexityDefects|
      invariant fingerTips + FingerDefectTips(convexityDefects[i..], fingerLength, contour, angleBelowMax)
                == FingerDefectTips(convexityDefects, fingerLength, contour, angleBelowMax)
    {
      var d := convexityDefects[i];
      var startPoint, farPoint, endPoint := contour[d.start], contour[d.far], contour[d.end];
      assert convexityDefects[i..][1..] == convexityDefects[i + 1..];
      if FartherThan(startPoint, farPoint, fingerLength) && FartherThan(farPoint, endPoint, fingerLength)
         && angleBelowMax(startPoint, farPoint, endPoint)
      {
        fingerTips := fingerTips + [startPoint, endPoint];
      }
      i := i + 1;
    }
    assert convexityDefects[i..] == [];
  }

  // ---------------------------------------------------------------------------
  // FindCenterOfRectangle

  /**
   * The centre of a rectangle, halving with C++ integer division: for a box
   * of non-negative size it lies inside the box, on the lower middle pixel.
   */
  function FindCenterOfRectangle(r: Rect): (c: Point)
    ensures r.width >= 0 ==> r.x <= c.x <= r.x + r.width && 2 * (c.x - r.x) <= r.width <= 2 * (c.x - r.x) + 1
    ensures r.height >= 0 ==> r.y <= c.y <= r.y + r.height && 2 * (c.y - r.y) <= r.height <= 2 * (c.y - r.y) + 1
    ensures r.x >= 0 && r.width >= 0 ==> c.x != ERROR_NUMBER
  {
    Point(r.x + Quot(r.width, 2), r.y + Quot(r.height, 2))
  }

  // ---------------------------------------------------------------------------
  // FindFingerTips

  /**
   * The inner loop of `FindFingerTips` from index `j` on: every later
   * candidate closer than `gap` to candidate `i` is erased, and the candidate
   * that moves into an erased slot is skipped.
   */
  function DropDuplicatesAfter(s: seq<Point>, i: nat, j: int, gap: int): (r: seq<Point>)
    requires i < |s| && i < j
    ensures i < |r| <= |s|
    ensures r[..i + 1] == s[..i + 1]
    ensures IsSubsequence(r, s)
    decreases |s| - j
  {
    if j >= |s| then
      SubsequenceReflexive(s);
      s
    else if CloserThan(s[i], s[j], gap) then
      var e := s[..j] + s[j + 1..];
      var r := DropDuplicatesAfter(e, i, j + 1, gap);
      EraseIsSubsequence(s, j);
      SubsequenceTransitive(r, e, s);
      assert e[..i + 1] == s[..i + 1];
      r
    else
      DropDuplicatesAfter(s, i, j + 1, gap)
  }

  /**
   * The outer loop of `FindFingerTips` from index `i` on: de-duplicate after
   * candidate `i`, then erase candidate `i` if it lies below `lowest` (image
   * y grows downward); the candidate that moves into its slot is skipped.
   */
  function FilterFrom(s: seq<Point>, i: nat, gap: int, lowest: int): (r: seq<Point>)
    ensures IsSubsequence(r, s)
    decreases |s| - i
  {
    if i >= |s| then
      SubsequenceReflexive(s);
      s
    else
      var d := DropDuplicatesAfter(s, i, i + 1, gap);
      var e := if d[i].y > lowest then d[..i] + d[i + 1..] else d;
      var r := FilterFrom(e, i + 1, gap, lowest);
      assert IsSubsequence(e, s) by {
        if d[i].y > lowest {
          EraseIsSubsequence(d, i);
          SubsequenceTransitive(e, d, s);
        }
      }
      SubsequenceTransitive(r, e, s);
      r
  }

  /** The lowest y a fingertip may have: a tenth of the box height below its centre. */
  function LowestFingerY(bounds: Rect): int
  {
    FindCenterOfRectangle(bounds).y + Quot(bounds.height, LOWEST_FINGER_RATIO)
  }

  /** The smallest distance between two different fingertips: a tenth of the box width. */
  function FingerGap(bounds: Rect): int
  {
    Quot(bounds.width, LOWEST_FINGER_RATIO)
  }

  /**
   * The filtered fingertips: a subsequence of the candidates (order kept,
   * nothing added), never longer than them.
   */
  function FilteredFingerTips(candidates: seq<Point>, bounds: Rect): (tips: seq<Point>)
    ensures IsSubsequence(tips, candidates)
    ensures |tips| <= |candidates|
    ensures forall p :: p in tips ==> p in candidates
  {
    var r := FilterFrom(candidates, 0, FingerGap(bounds), LowestFingerY(bounds));
    SubsequenceNotLonger(r, candidates);
    r
  }

  /** The inner loop of `FindFingerTips`: erase the later candidates too close to candidate `i`. */
  method DropCloseCandidates(fingerTips: seq<Point>, i: nat, gap: int) returns (kept: seq<Point>)
    requires i < |fingerTips|
    ensures kept == DropDuplicatesAfter(fingerTips, i, i + 1, gap)
  {
    kept := fingerTips;
    var j := i + 1;
    while j < |kept|
      invariant i < j && i < |kept| <= |fingerTips|
      invariant DropDuplicatesAfter(kept, i, j, gap) == DropDuplicatesAfter(fingerTips, i, i + 1, gap)
      decreases |kept| - j
    {
      if CloserThan(kept[i], kept[j], gap) {
        kept := kept[..j] + kept[j + 1..];
      }
      j := j + 1;
    }
  }

  method FindFingerTips(fingerTips: seq<Point>, boundingRectangle: Rect) returns (filtered: seq<Point>)
    ensures filtered == FilteredFingerTips(fingerTips, boundingRectangle)
  {
    filtered := fingerTips;
    var center := FindCenterOfRectangle(boundingRectangle);
    var lowest := center.y + Quot(boundingRectangle.height, LOWEST_FINGER_RATIO);
    var gap := Quot(boundingRectangle.width, LOWEST_FINGER_RATIO);
    var i := 0;
    while i < |filtered|
      invariant FilterFrom(filtered, i, gap, lowest) == FilterFrom(fingerTips, 0, gap, lowest)
      decreases |filtered| - i
    {
      filtered := DropCloseCandidates(filtered, i, gap);
      if filtered[i].y > lowest {
        filtered := filtered[..i] + filtered[i + 1..];
      }
      i := i + 1;
    }
  }

  /** No candidate is too close to another. */
  ghost predicate WellSeparated(s: seq<Point>, gap: int)
  {
    forall a, b :: 0 <= a < b < |s| ==> !CloserThan(s[a], s[b], gap)
  }

  /** Every candidate is at or above `lowest`. */
  ghost predicate HighEnough(s: seq<Point>, lowest: int)
  {
    forall a :: 0 <= a < |s| ==> s[a].y <= lowest
  }

  lemma {:induction false} DropDuplicatesKeepsSeparated(s: seq<Point>, i: nat, j: int, gap: int)
    requires i < |s| && i < j
    requires WellSeparated(s, gap)
    ensures DropDuplicatesAfter(s, i, j, gap) == s
    decreases |s| - j
  {
    if j < |s| {
      DropDuplicatesKeepsSeparated(s, i, j + 1, gap);
    }
  }

  lemma {:induction false} FilterFromKeepsClean(s: seq<Point>, i: nat, gap: int, lowest: int)
    requires WellSeparated(s, gap) && HighEnough(s, lowest)
    ensures FilterFrom(s, i, gap, lowest) == s
    decreases |s| - i
  {
    if i < |s| {
      DropDuplicatesKeepsSeparated(s, i, i + 1, gap);
      FilterFromKeepsClean(s, i + 1, gap, lowest);
    }
  }

  /**
   * Candidates that are pairwise at least a tenth of the box width apart and
   * none of which lies below the lowest finger line pass the filter unchanged.
   */
  lemma FilterKeepsSeparatedHighTips(candidates: seq<Point>, bounds: Rect)
    requires WellSeparated(candidates, FingerGap(bounds))
    requires HighEnough(candidates, LowestFingerY(bounds))
    ensures FilteredFingerTips(candidates, bounds) == candidates
  {
    FilterFromKeepsClean(candidates, 0, FingerGap(bounds), LowestFingerY(bounds));
  }

  /** Candidate `k` is not closer than `gap` to any other candidate. */
  ghost predicate IsolatedAt(s: seq<Point>, k: nat, gap: int)
  {
    && k < |s|
    && forall m {:trigger CloserThan(s[m], s[k], gap)} :: 0 <= m < |s| && m != k ==> !CloserThan(s[m], s[k], gap)
  }

  /** Erasing a candidate other than `k` leaves candidate `k` isolated, at its shifted index. */
  lemma EraseKeepsIsolated(s: seq<Point>, k: nat, j: nat, gap: int)
    requires IsolatedAt(s, k, gap) && j < |s| && j != k
    ensures var e, shifted := s[..j] + s[j + 1..], if k < j then k else k - 1;
            IsolatedAt(e, shifted, gap) && e[shifted] == s[k]
  {
    var e, shifted := s[..j] + s[j + 1..], if k < j then k else k - 1;
    assert e[shifted] == s[k];
    forall m | 0 <= m < |e| && m != shifted
      ensures !CloserThan(e[m], e[shifted], gap)
    {
      var original := if m < j then m else m + 1;
      assert e[m] == s[original] && original != k;
    }
  }

  /** An isolated candidate is not too close to any other one. */
  lemma IsolatedIsNotClose(s: seq<Point>, k: nat, m: nat, gap: int)
    requires IsolatedAt(s, k, gap) && m < |s| && m != k
    ensures !CloserThan(s[m], s[k], gap)
  {
  }

  /** The inner pass never erases an isolated candidate; `kept` is its index afterwards. */
  lemma {:induction false} DropDuplicatesKeepsIsolated(s: seq<Point>, i: nat, j: int, gap: int, k: nat) returns (kept: nat)
    requires i < |s| && i < j && IsolatedAt(s, k, gap)
    ensures var r := DropDuplicatesAfter(s, i, j, gap);
            IsolatedAt(r, kept, gap) && r[kept] == s[k]
    decreases |s| - j
  {
    if j >= |s| {
      kept := k;
    } else if j == k || !CloserThan(s[i], s[j], gap) {
      if j == k {
        IsolatedIsNotClose(s, k, i, gap);
      }
      assert DropDuplicatesAfter(s, i, j, gap) == DropDuplicatesAfter(s, i, j + 1, gap);
      kept := DropDuplicatesKeepsIsolated(s, i, j + 1, gap, k);
    } else {
      var e := s[..j] + s[j + 1..];
      assert DropDuplicatesAfter(s, i, j, gap) == DropDuplicatesAfter(e, i, j + 1, gap);
      EraseKeepsIsolated(s, k, j, gap);
      kept := DropDuplicatesKeepsIsolated(e, i, j + 1, gap, if k < j then k else k - 1);
    }
  }

  /** The outer passes never erase an isolated candidate at or above `lowest`. */
  lemma {:induction false} FilterFromKeepsIsolated(s: seq<Point>, i: nat, gap: int, lowest: int, k: nat)
    requires IsolatedAt(s, k, gap) && s[k].y <= lowest
    ensures s[k] in FilterFrom(s, i, gap, lowest)
    decreases |s| - i
  {
    if i < |s| {
      var d := DropDuplicatesAfter(s, i, i + 1, gap);
      var kept := DropDuplicatesKeepsIsolated(s, i, i + 1, gap, k);
      if d[i].y > lowest {
        EraseKeepsIsolated(d, kept, i, gap);
        FilterFromKeepsIsolated(d[..i] + d[i + 1..], i + 1, gap, lowest, if kept < i then kept else kept - 1);
      } else {
        FilterFromKeepsIsolated(d, i + 1, gap, lowest, kept);
      }
    }
  }

  /**
   * `FindFingerTips` erases a candidate only for cause: one at or above the
   * lowest finger line and not closer than the finger gap to any other
   * candidate is kept.
   */
  lemma KeptWithoutCause(s: seq<Point>, bounds: Rect, k: nat)
    requires k < |s| && s[k].y <= LowestFingerY(bounds)
    requires forall m :: 0 <= m < |s| && m != k ==> !CloserThan(s[m], s[k], FingerGap(bounds))
    ensures s[k] in FilteredFingerTips(s, bounds)
  {
    FilterFromKeepsIsolated(s, 0, FingerGap(bounds), LowestFingerY(bounds), k);
  }

  // ---------------------------------------------------------------------------
  // FindHandFeatures and ExtractHands

  /** Defects are computed only for a contour of more than 3 points and more than `MIN_HAND_SIZE` area. */
  predicate IsAnalysed(c: ContourData)
  {
    |c.points| > 3 && c.area > MIN_HAND_SIZE as real
  }

  function AnalysedDefects(c: ContourData): seq<Defect>
  {
    if IsAnalysed(c) then c.defects else []
  }

  /**
   * The hand one contour yields: the filtered fingertip candidates of its
   * finger defects, and the centre of its hull's bounding box. Fingertips are
   * points of the contour, and a contour too small to analyse has none.
   */
  function HandFeatures(c: ContourData, angleBelowMax: AngleTest): (h: Hand)
    requires WellFormed(c)
    ensures h.centerOfPalm == FindCenterOfRectangle(c.bounds)
    ensures forall p :: p in h.fingerTips ==> p in c.points
    ensures !IsAnalysed(c) ==> h.fingerTips == []
  {
    var candidates := FingerDefectTips(AnalysedDefects(c), Quot(c.bounds.height, LOWEST_FINGER_RATIO), c.points, angleBelowMax);
    Hand(FilteredFingerTips(candidates, c.bounds), FindCenterOfRectangle(c.bounds))
  }

  method FindHandFeatures(contour: ContourData, angleBelowMax: AngleTest) returns (fingerTips: seq<Point>, center: Point)
    requires WellFormed(contour)
    ensures Hand(fingerTips, center) == HandFeatures(contour, angleBelowMax)
  {
    var boundingRectangle := contour.bounds;
    center := FindCenterOfRectangle(boundingRectangle);
    var convexityDefects := [];
    if |contour.points| > 3 && contour.area > MIN_HAND_SIZE as real {
      convexityDefects := contour.defects;
    }
    var unfiltered := FindFingerDefects(convexityDefects, Quot(boundingRectangle.height, LOWEST_FINGER_RATIO), contour.points, angleBelowMax);
    fingerTips := FindFingerTips(unfiltered, boundingRectangle);
  }

  /** The two hands of contours `first` and `second`, the one with the smaller palm x first. */
  ghost predicate HandsOfContours(cs: seq<ContourData>, first: int, second: int, angleBelowMax: AngleTest, hand1: Hand, hand2: Hand)
    requires AllWellFormed(cs)
  {
    && 0 <= first < |cs| && 0 <= second < |cs|
    && var a := HandFeatures(cs[first], angleBelowMax);
       var b := HandFeatures(cs[second], angleBelowMax);
       if a.centerOfPalm.x > b.centerOfPalm.x then hand1 == b && hand2 == a else hand1 == a && hand2 == b
  }

  /**
   * The two hands of a frame, left (smaller palm x) first. `frame` is None
   * when an OpenCV call threw while the frame was processed; that, and a
   * frame without contours, gives two default hands. A single contour gives
   * the same hand twice.
   */
  method ExtractHands(frame: Option<seq<ContourData>>, angleBelowMax: AngleTest) returns (hand1: Hand, hand2: Hand)
    requires frame.Some? ==> AllWellFormed(frame.value)
    ensures frame.None? || frame.value == [] ==> hand1 == DefaultHand() && hand2 == DefaultHand()
    ensures frame.Some? && frame.value != [] ==> hand1.centerOfPalm.x <= hand2.centerOfPalm.x
    ensures frame.Some? && frame.value != [] ==>
              exists first, second ::
                && IsLargestPair(frame.value, first, second)
                && HandsOfContours(frame.value, first, second, angleBelowMax, hand1, hand2)
    ensures frame.Some? && |frame.value| == 1 ==>
              hand1 == hand2 == HandFeatures(frame.value[0], angleBelowMax)
  {
    if frame.None? {
      return DefaultHand(), DefaultHand();
    }
    var contours := frame.value;
    var first, second := Find2LargestContours(contours);
    if first == ERROR_NUMBER {
      return DefaultHand(), DefaultHand();
    }
    var tips1, center1 := FindHandFeatures(contours[first], angleBelowMax);
    var tips2, center2 := FindHandFeatures(contours[second], angleBelowMax);
    var h1, h2 := HandFromFeatures((tips1, center1)), HandFromFeatures((tips2, center2));
    if h1.centerOfPalm.x > h2.centerOfPalm.x {
      hand1, hand2 := h2, h1;
    } else {
      hand1, hand2 := h1, h2;
    }
    assert HandsOfContours(contours, first, second, angleBelowMax, hand1, hand2);
  }
}
