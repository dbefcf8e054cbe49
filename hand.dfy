/**
 * The `Hand` value of the gesture recogniser and the extractor's constants:
 * a hand is the ordered list of its fingertip coordinates and the centre of
 * its palm; the default hand has no fingertips and the sentinel centre
 * (-1, -1).
 */
module Hands {
  import opened Geometry

  /** The sentinel the recogniser uses for "nothing found". */
  const ERROR_NUMBER: int := -1

  /** Largest angle (degrees) at a defect's far point between two fingers. */
  const MAX_ANGLE_BETWEEN_FINGERS: int := 95
  /** Shortest finger, and closest two fingertips, as a fraction of the hand's box. */
  const LOWEST_FINGER_RATIO: int := 10
  /** Smallest contour area that is analysed as a hand. */
  const MIN_HAND_SIZE: int := 1000

  datatype Hand = Hand(fingerTips: seq<Point>, centerOfPalm: Point) {

    /** `getNumberOfFingers`: the number of fingertips found. */
    function NumberOfFingers(): nat {
      |fingerTips|
    }

    /**
     * The test the tracker uses to tell a hand that was found from the
     * default one: its palm centre's x is not the sentinel.
     */
    predicate IsDefault() {
      centerOfPalm.x == ERROR_NUMBER
    }
  }

  /** The default-constructed hand: no fingertips, palm centre (-1, -1). */
  function DefaultHand(): (h: Hand)
    ensures h.NumberOfFingers() == 0 && h.fingerTips == []
    ensures h.centerOfPalm.x == ERROR_NUMBER && h.centerOfPalm.y == ERROR_NUMBER
    ensures h.IsDefault()
  {
    Hand([], Point(-1, -1))
  }

  /**
   * The constructor from a (fingertips, centre) pair, as `FindHandFeatures`
   * returns it: both parts are stored unchanged.
   */
  function HandFromFeatures(features: (seq<Point>, Point)): (h: Hand)
    ensures h.fingerTips == features.0 && h.centerOfPalm == features.1
    ensures h.NumberOfFingers() == |features.0|
    ensures h.IsDefault() <==> features.1.x == ERROR_NUMBER
  {
    Hand(features.0, features.1)
  }
}
