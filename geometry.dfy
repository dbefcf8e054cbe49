/**
 * Integer pixel geometry shared by the extractor and the tracker: points,
 * rectangles, C++ truncating division, and the Euclidean-distance tests the
 * source performs with `sqrt`, restated exactly on squared integer distances.
 */
module Geometry {

  /** A pixel coordinate (cv::Point): x grows to the right, y grows downward. */
  datatype Point = Point(x: int, y: int)

  /** An axis-aligned rectangle (cv::Rect): top-left corner, width and height. */
  datatype Rect = Rect(x: int, y: int, width: int, height: int)

  function Abs(n: int): (a: nat)
    ensures a == n || a == -n
  {
    if n < 0 then -n else n
  }

  /**
   * `n * n` for a natural `n`, as the sum of the first `n` odd numbers.
   * Keeping the product out of the definition keeps the proofs about the
   * fingertip walks, which only branch on distance comparisons, free of
   * nonlinear arithmetic; `SquareIsProduct` shows the two agree.
   */
  function Square(n: nat): nat
  {
    if n == 0 then 0 else Square(n - 1) + 2 * n - 1
  }

  lemma {:induction false} SquareIsProduct(n: nat)
    ensures Square(n) == n * n
  {
    if n > 0 {
      SquareIsProduct(n - 1);
    }
  }

  /** The square of the Euclidean distance between two points. */
  function SquaredDistance(a: Point, b: Point): (d: nat)
    ensures d == 0 <==> a == b
  {
    Square(Abs(a.x - b.x)) + Square(Abs(a.y - b.y))
  }

  /** `SquaredDistance` is dx * dx + dy * dy. */
  lemma SquaredDistanceIsEuclidean(a: Point, b: Point)
    ensures SquaredDistance(a, b) == (a.x - b.x) * (a.x - b.x) + (a.y - b.y) * (a.y - b.y)
  {
    var dx, dy := Abs(a.x - b.x), Abs(a.y - b.y);
    SquareIsProduct(dx);
    SquareIsProduct(dy);
    assert dx * dx == (a.x - b.x) * (a.x - b.x);
    assert dy * dy == (a.y - b.y) * (a.y - b.y);
  }

  /**
   * `FindEuclideanDistance(a, b) > threshold`, for an integer threshold: a square
   * root is never negative, so a negative threshold is always exceeded, and
   * otherwise the comparison is the same on squares.
   */
  predicate FartherThan(a: Point, b: Point, threshold: int)
  {
    threshold < 0 || SquaredDistance(a, b) > Square(threshold)
  }

  /**
   * `FindEuclideanDistance(a, b) < threshold`, for an integer threshold: never
   * true when the threshold is zero or negative.
   */
  predicate CloserThan(a: Point, b: Point, threshold: int)
  {
    threshold > 0 && SquaredDistance(a, b) < Square(threshold)
  }

  /** Both tests compare the squared distance with the threshold times itself. */
  lemma DistanceTestsCompareSquares(a: Point, b: Point, threshold: int)
    ensures FartherThan(a, b, threshold) <==>
              threshold < 0 || (a.x - b.x) * (a.x - b.x) + (a.y - b.y) * (a.y - b.y) > threshold * threshold
    ensures CloserThan(a, b, threshold) <==>
              threshold > 0 && (a.x - b.x) * (a.x - b.x) + (a.y - b.y) * (a.y - b.y) < threshold * threshold
  {
    SquaredDistanceIsEuclidean(a, b);
    if threshold >= 0 {
      SquareIsProduct(threshold);
    }
  }

  /** A point is never farther than any non-negative threshold from itself. */
  lemma NotFartherFromItself(a: Point, threshold: int)
    ensures FartherThan(a, a, threshold) <==> threshold < 0
  {
  }

  /**
   * C++ integer division `a / b`, which truncates toward zero (Dafny's own `/`
   * is Euclidean and differs on negative operands).
   */
  function Quot(a: int, b: int): (q: int)
    requires b != 0
    ensures a >= 0 ==> 0 <= a - q * b < (if b > 0 then b else -b)
    ensures a < 0 ==> -(if b > 0 then b else -b) < a - q * b <= 0
    ensures a >= 0 && b > 0 ==> q == a / b
  {
    var n := if a >= 0 then a else -a;
    var d := if b > 0 then b else -b;
    if (a >= 0) == (b > 0) then
      assert (n / d) * b == (if b > 0 then (n / d) * d else -((n / d) * d));
      n / d
    else
      assert -(n / d) * b == (if b > 0 then -((n / d) * d) else (n / d) * d);
      -(n / d)
  }

  // ---------------------------------------------------------------------------
  // Subsequences: what the source's erase loops leave behind.

  /** `sub` is obtained from `s` by deleting elements, keeping the order. */
  ghost predicate IsSubsequence<T>(sub: seq<T>, s: seq<T>)
    decreases |s|
  {
    if sub == [] then true
    else if s == [] then false
    else (sub[0] == s[0] && IsSubsequence(sub[1..], s[1..])) || IsSubsequence(sub, s[1..])
  }

  lemma {:induction false} SubsequenceNotLonger<T>(sub: seq<T>, s: seq<T>)
    requires IsSubsequence(sub, s)
    ensures |sub| <= |s|
    ensures forall v :: v in sub ==> v in s
    decreases |s|
  {
    if sub != [] {
      if sub[0] == s[0] && IsSubsequence(sub[1..], s[1..]) {
        SubsequenceNotLonger(sub[1..], s[1..]);
        assert forall v :: v in sub ==> v == sub[0] || v in sub[1..];
      } else {
        SubsequenceNotLonger(sub, s[1..]);
      }
    }
  }

  lemma {:induction false} SubsequenceReflexive<T>(s: seq<T>)
    ensures IsSubsequence(s, s)
    decreases |s|
  {
    if s != [] {
      SubsequenceReflexive(s[1..]);
    }
  }

  lemma {:induction false} SubsequenceTransitive<T>(a: seq<T>, b: seq<T>, c: seq<T>)
    requires IsSubsequence(a, b) && IsSubsequence(b, c)
    ensures IsSubsequence(a, c)
    decreases |c|
  {
    if a == [] {
    } else if b[0] == c[0] && IsSubsequence(b[1..], c[1..]) {
      if a[0] == b[0] && IsSubsequence(a[1..], b[1..]) {
        SubsequenceTransitive(a[1..], b[1..], c[1..]);
      } else {
        SubsequenceTransitive(a, b[1..], c[1..]);
      }
    } else {
      SubsequenceTransitive(a, b, c[1..]);
    }
  }

  /** Erasing one element (`vector::erase`) leaves a subsequence. */
  lemma {:induction false} EraseIsSubsequence<T>(s: seq<T>, k: nat)
    requires k < |s|
    ensures IsSubsequence(s[..k] + s[k + 1..], s)
    decreases k
  {
    if k == 0 {
      assert s[..k] + s[k + 1..] == s[1..];
      SubsequenceReflexive(s[1..]);
    } else {
      var e := s[..k] + s[k + 1..];
      EraseIsSubsequence(s[1..], k - 1);
      assert e[0] == s[0];
      assert e[1..] == s[1..][..k - 1] + s[1..][k..];
    }
  }

  /** Keeping every element of `s[n..]` but nothing before: a suffix is a subsequence. */
  lemma {:induction false} SuffixIsSubsequence<T>(s: seq<T>, n: nat)
    requires n <= |s|
    ensures IsSubsequence(s[n..], s)
    decreases n
  {
    if n == 0 {
      assert s[0..] == s;
      SubsequenceReflexive(s);
    } else {
      SuffixIsSubsequence(s[1..], n - 1);
      assert s[1..][n - 1..] == s[n..];
      if s[n..] != [] {
        assert IsSubsequence(s[n..], s[1..]);
      }
    }
  }

  /** Prepending the same element to both sides keeps a subsequence. */
  lemma ConsSubsequence<T>(v: T, sub: seq<T>, s: seq<T>)
    requires IsSubsequence(sub, s)
    ensures IsSubsequence([v] + sub, [v] + s)
  {
    assert ([v] + sub)[1..] == sub;
    assert ([v] + s)[1..] == s;
  }

  /** Skipping the head of `s` keeps a subsequence. */
  lemma SkipSubsequence<T>(v: T, sub: seq<T>, s: seq<T>)
    requires IsSubsequence(sub, s)
    ensures IsSubsequence(sub, [v] + s)
  {
    assert ([v] + s)[1..] == s;
  }
}
