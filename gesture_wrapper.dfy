/**
 * The glue that ties the recogniser together: the three mode toggles, the
 * rescaling of camera coordinates into the output window, and the per-frame
 * update that feeds one hand to each tracker and merges their pressed points.
 */
module Gestures {
  import opened Geometry
  import opened Hands
  import opened HandTracking

  /**
   * One point of `ConvertCoordinates`: x is scaled by the window width over
   * the image width, y by the window height over the image height and then
   * shifted down by a tenth of the window height; every division truncates.
   */
  function ConvertPoint(p: Point, inputHeight: int, inputWidth: int, windowHeight: int, windowWidth: int): Point
    requires inputHeight != 0 && inputWidth != 0
  {
    Point(Quot(windowWidth * p.x, inputWidth),
          Quot(windowHeight, 10) + Quot(windowHeight * p.y, inputHeight))
  }

  /** `converted` is `points` converted one by one, in the same order. */
  ghost predicate ConvertedFrom(converted: seq<Point>, points: seq<Point>, inputHeight: int, inputWidth: int, windowHeight: int, windowWidth: int)
    requires inputHeight != 0 && inputWidth != 0
  {
    && |converted| == |points|
    && forall i :: 0 <= i < |points| ==> converted[i] == ConvertPoint(points[i], inputHeight, inputWidth, windowHeight, windowWidth)
  }

  /** `ConvertCoordinates`: a fresh list with each point converted, in order. */
  method ConvertCoordinates(points: seq<Point>, inputHeight: int, inputWidth: int, windowHeight: int, windowWidth: int)
    returns (converted: seq<Point>)
    requires inputHeight != 0 && inputWidth != 0
    ensures ConvertedFrom(converted, points, inputHeight, inputWidth, windowHeight, windowWidth)
  {
    converted := [];
    var i := 0;
    while i < |points|
      invariant 0 <= i <= |points|
      invariant ConvertedFrom(converted, points[..i], inputHeight, inputWidth, windowHeight, windowWidth)
    {
      converted := converted + [ConvertPoint(points[i], inputHeight, inputWidth, windowHeight, windowWidth)];
      i := i + 1;
    }
    assert points[..i] == points;
  }

  /** Converting a concatenation converts each part. */
  lemma ConvertedConcatenation(a: seq<Point>, b: seq<Point>, ca: seq<Point>, cb: seq<Point>,
                               inputHeight: int, inputWidth: int, windowHeight: int, windowWidth: int)
    requires inputHeight != 0 && inputWidth != 0
    requires ConvertedFrom(ca, a, inputHeight, inputWidth, windowHeight, windowWidth)
    requires ConvertedFrom(cb, b, inputHeight, inputWidth, windowHeight, windowWidth)
    ensures ConvertedFrom(ca + cb, a + b, inputHeight, inputWidth, windowHeight, windowWidth)
  {
    forall i | 0 <= i < |a + b|
      ensures (ca + cb)[i] == ConvertPoint((a + b)[i], inputHeight, inputWidth, windowHeight, windowWidth)
    {
      if i >= |a| {
        assert (ca + cb)[i] == cb[i - |a|];
      }
    }
  }

  /** For 0 <= a < n * d with d > 0, the quotient a / d lies in [0, n). */
  lemma ScaledQuotientBounds(a: int, n: int, d: int)
    requires 0 <= a < n * d && d > 0
    ensures 0 <= a / d < n
  {
  }

  /** 0 <= x < w gives 0 <= W * x < W * w when W > 0. */
  lemma ScaleBounds(x: int, w: int, scale: int)
    requires 0 <= x < w && scale > 0
    ensures 0 <= scale * x < w * scale
  {
  }

  /**
   * A point inside the camera image lands inside the output window: x in
   * [0, W), and y in [H/10, H/10 + H).
   */
  lemma ConvertPointBounds(p: Point, inputHeight: int, inputWidth: int, windowHeight: int, windowWidth: int)
    requires inputHeight > 0 && inputWidth > 0 && windowHeight > 0 && windowWidth > 0
    requires 0 <= p.x < inputWidth && 0 <= p.y < inputHeight
    ensures var c := ConvertPoint(p, inputHeight, inputWidth, windowHeight, windowWidth);
            && 0 <= c.x < windowWidth
            && windowHeight / 10 <= c.y < windowHeight / 10 + windowHeight
  {
    ScaleBounds(p.x, inputWidth, windowWidth);
    ScaledQuotientBounds(windowWidth * p.x, windowWidth, inputWidth);
    ScaleBounds(p.y, inputHeight, windowHeight);
    ScaledQuotientBounds(windowHeight * p.y, windowHeight, inputHeight);
  }

  /** Truncating division by a positive number is monotone on non-negative numbers. */
  lemma QuotientMonotone(a: int, b: int, d: int)
    requires 0 <= a <= b && d > 0
    ensures a / d <= b / d
  {
    var q := b / d;
    assert (q + 1) * d == q * d + d;
    assert a < (q + 1) * d;
    ScaledQuotientBounds(a, q + 1, d);
  }

  /** Conversion keeps fingertips' left-to-right order inside the image. */
  lemma ConvertPointKeepsOrder(p: Point, q: Point, inputHeight: int, inputWidth: int, windowHeight: int, windowWidth: int)
    requires inputHeight > 0 && inputWidth > 0 && windowWidth >= 0
    requires 0 <= p.x <= q.x
    ensures ConvertPoint(p, inputHeight, inputWidth, windowHeight, windowWidth).x
         <= ConvertPoint(q, inputHeight, inputWidth, windowHeight, windowWidth).x
  {
    assert windowWidth * p.x <= windowWidth * q.x;
    QuotientMonotone(windowWidth * p.x, windowWidth * q.x, inputWidth);
  }

  class GestureWrapper {
    /** Whether gestures are recognised. */
    var recognitionMode: bool
    /** The calibration's background-training flag. */
    var backgroundTraining: bool
    /** The calibration's HSV-calibration flag. */
    var hsvCalibrating: bool
    const leftHandTracker: HandTracker
    const rightHandTracker: HandTracker
    /** The output window's size. */
    const outputHeight: int
    const outputWidth: int
    var leftFingerTips: seq<Point>
    var rightFingerTips: seq<Point>
    var mergedClickPoints: seq<Point>

    /**
     * The two trackers are separate objects in a valid state, and the
     * toggles never leave recognition on together with a calibration mode.
     */
    ghost predicate Valid()
      reads this, leftHandTracker, rightHandTracker
    {
      && leftHandTracker != rightHandTracker
      && leftHandTracker.Valid()
      && rightHandTracker.Valid()
      && (recognitionMode ==> !backgroundTraining && !hsvCalibrating)
    }

    constructor(framesToTrack: nat, outputHeight: int, outputWidth: int)
      ensures Valid()
      ensures fresh(leftHandTracker) && fresh(rightHandTracker)
      ensures leftHandTracker.numberOfFrames == framesToTrack && rightHandTracker.numberOfFrames == framesToTrack
      ensures leftHandTracker.clickPoints == [] && rightHandTracker.clickPoints == []
      ensures !recognitionMode && !backgroundTraining && !hsvCalibrating
      ensures this.outputHeight == outputHeight && this.outputWidth == outputWidth
      ensures leftFingerTips == [] && rightFingerTips == [] && mergedClickPoints == []
    {
      leftHandTracker := new HandTracker(framesToTrack);
      rightHandTracker := new HandTracker(framesToTrack);
      this.outputHeight := outputHeight;
      this.outputWidth := outputWidth;
      recognitionMode := false;
      backgroundTraining := false;
      hsvCalibrating := false;
      leftFingerTips := [];
      rightFingerTips := [];
      mergedClickPoints := [];
    }

    /** `ToggleGestureRecognitionMode`: both calibrations off, recognition flipped. */
    method ToggleGestureRecognitionMode()
      requires Valid()
      modifies this`recognitionMode, this`backgroundTraining, this`hsvCalibrating
      ensures Valid()
      ensures !backgroundTraining && !hsvCalibrating
      ensures recognitionMode == !old(recognitionMode)
    {
      backgroundTraining := false;
      hsvCalibrating := false;
      recognitionMode := !recognitionMode;
    }

    /** `ToggleBackgroundCalibration`: recognition off, background training flipped, HSV untouched. */
    method ToggleBackgroundCalibration()
      requires Valid()
      modifies this`recognitionMode, this`backgroundTraining
      ensures Valid()
      ensures !recognitionMode
      ensures backgroundTraining == !old(backgroundTraining)
    {
      recognitionMode := false;
      backgroundTraining := !backgroundTraining;
    }

    /** `ToggleHSVCalibration`: recognition off, HSV calibration flipped, background training untouched. */
    method ToggleHSVCalibration()
      requires Valid()
      modifies this`recognitionMode, this`hsvCalibrating
      ensures Valid()
      ensures !recognitionMode
      ensures hsvCalibrating == !old(hsvCalibrating)
    {
      recognitionMode := false;
      hsvCalibrating := !hsvCalibrating;
    }

    /**
     * The recognition part of `Update`, given the frame's two extracted hands
     * and the image size: outside recognition mode the merged list is
     * cleared; in it, each hand's fingertips are converted for display, each
     * tracker is fed its hand once, and the left tracker's pressed points
     * followed by the right tracker's are converted and returned.
     */
    method Update(hand1: Hand, hand2: Hand, imageHeight: int, imageWidth: int) returns (result: seq<Point>)
      requires Valid()
      requires imageHeight != 0 && imageWidth != 0
      modifies this, leftHandTracker, rightHandTracker
      ensures Valid()
      ensures result == mergedClickPoints
      ensures recognitionMode == old(recognitionMode)
      ensures backgroundTraining == old(backgroundTraining) && hsvCalibrating == old(hsvCalibrating)
      ensures !old(recognitionMode) ==>
                && result == []
                && unchanged(leftHandTracker) && unchanged(rightHandTracker)
                && leftFingerTips == old(leftFingerTips) && rightFingerTips == old(rightFingerTips)
      ensures old(recognitionMode) ==>
                && ConvertedFrom(leftFingerTips, hand1.fingerTips, imageHeight, imageWidth, outputHeight, outputWidth)
                && ConvertedFrom(rightFingerTips, hand2.fingerTips, imageHeight, imageWidth, outputHeight, outputWidth)
                && leftHandTracker.Fed(old(leftHandTracker.hands), old(leftHandTracker.previousBatchHand),
                                       old(leftHandTracker.currentBatchHand), old(leftHandTracker.clickPoints), hand1)
                && rightHandTracker.Fed(old(rightHandTracker.hands), old(rightHandTracker.previousBatchHand),
                                        old(rightHandTracker.currentBatchHand), old(rightHandTracker.clickPoints), hand2)
                && ConvertedFrom(result, leftHandTracker.clickPoints + rightHandTracker.clickPoints,
                                 imageHeight, imageWidth, outputHeight, outputWidth)
    {
      if recognitionMode {
        leftFingerTips := ConvertCoordinates(hand1.fingerTips, imageHeight, imageWidth, outputHeight, outputWidth);
        rightFingerTips := ConvertCoordinates(hand2.fingerTips, imageHeight, imageWidth, outputHeight, outputWidth);
        mergedClickPoints := leftHandTracker.FindClickPoints(hand1);
        var rightClickPoints := rightHandTracker.FindClickPoints(hand2);
        mergedClickPoints := mergedClickPoints + rightClickPoints;
        mergedClickPoints := ConvertCoordinates(mergedClickPoints, imageHeight, imageWidth, outputHeight, outputWidth);
        return mergedClickPoints;
      }
      mergedClickPoints := [];
      return mergedClickPoints;
    }
  }
}
