/**
 * approximateNGon (contourProcessing.cpp): search increasing tolerances
 * start, start + step, start + 2 * step, ... below `end` for a polygonal
 * approximation with exactly n vertices. Per tolerance there is a three-way
 * decision: fewer than n vertices aborts with false, exactly n succeeds and
 * replaces the caller's points, more than n tries the next tolerance.
 *
 * cv::approxPolyDP is a parameter: any function from a point sequence and a
 * tolerance to a point sequence. `points` is a by-reference parameter in the
 * source; here the method takes its value and returns its new value.
 */
module PolygonApproximation {
  import opened ContourTypes

  newtype int32 = x: int | -0x8000_0000 <= x < 0x8000_0000

  /**
   * `aprox.size() < n` and `aprox.size() == n` compare a size_t with an int:
   * n is converted to the 64-bit unsigned type first, so a negative n becomes
   * 2^64 + n.
   */
  function AsSize(n: int32): (m: nat)
    ensures n >= 0 ==> m == n as int
    ensures n < 0 ==> m == n as int + 0x1_0000_0000_0000_0000 && m >= 0x8000_0000_0000_0000
  {
    if n >= 0 then n as nat else n as int + 0x1_0000_0000_0000_0000
  }

  /** The tolerance of the k-th iteration: `epsilon` starts at `start` and grows by `step`. */
  function Tol(start: real, step: real, k: nat): real
  {
    if k == 0 then start else Tol(start, step, k - 1) + step
  }

  /** The k-th tolerance is start + k * step. */
  lemma {:induction false} TolClosedForm(start: real, step: real, k: nat)
    ensures Tol(start, step, k) == start + k as real * step
  {
    if k > 0 {
      TolClosedForm(start, step, k - 1);
    }
  }

  /** With a positive step the tolerances strictly increase. */
  lemma {:induction false} TolIncreasing(start: real, step: real, j: nat, k: nat)
    requires step > 0.0 && j < k
    ensures Tol(start, step, j) < Tol(start, step, k)
    decreases k
  {
    if j < k - 1 {
      TolIncreasing(start, step, j, k - 1);
    }
  }

  lemma DivStep(a: real, step: real)
    requires step > 0.0
    ensures (a - step) / step == a / step - 1.0
  {
    assert step / step == 1.0;
    assert (a - step) / step == a / step - step / step;
  }

  /** A bound on the number of iterations still to run from the k-th. */
  function Remaining(start: real, end: real, step: real, k: nat): int
    requires step > 0.0
  {
    ((end - Tol(start, step, k)) / step).Floor
  }

  /** How the search ends, and at which iteration it decides. */
  datatype Outcome =
    | Found(points: seq<Point2>, at: nat)  // approximation `at` has exactly n vertices
    | Undershot(at: nat)                   // approximation `at` has fewer than n vertices
    | Exhausted(at: nat)                   // tolerance `at` is not below `end`: it is not tried

  /** The search from iteration k on, as the loop runs it. */
  function Search(points: seq<Point2>, n: int32, start: real, end: real, step: real,
                  approxPolyDP: (seq<Point2>, real) -> seq<Point2>, k: nat): (o: Outcome)
    requires step > 0.0
    decreases Remaining(start, end, step, k)
  {
    var epsilon := Tol(start, step, k);
    if epsilon >= end then Exhausted(k)
    else
      var aprox := approxPolyDP(points, epsilon);
      if |aprox| < AsSize(n) then Undershot(k)
      else if |aprox| == AsSize(n) then Found(aprox, k)
      else
        DivStep(end - epsilon, step);
        Search(points, n, start, end, step, approxPolyDP, k + 1)
  }

  /**
   * The search decides at iteration `at`: every earlier tolerance is below
   * `end` and gives more than n vertices, and the decision at `at` is the
   * three-way one (or the end of the range).
   */
  lemma {:induction false} SearchOutcome(points: seq<Point2>, n: int32, start: real, end: real, step: real,
                                         approxPolyDP: (seq<Point2>, real) -> seq<Point2>, k0: nat)
    requires step > 0.0
    ensures var o := Search(points, n, start, end, step, approxPolyDP, k0);
      var t := Tol(start, step, o.at);
      && k0 <= o.at
      && (forall j :: k0 <= j < o.at ==>
            Tol(start, step, j) < end && |approxPolyDP(points, Tol(start, step, j))| > AsSize(n))
      && (o.Exhausted? <==> end <= t)
      && (o.Undershot? <==> t < end && |approxPolyDP(points, t)| < AsSize(n))
      && (o.Found? <==> t < end && |approxPolyDP(points, t)| == AsSize(n))
      && (o.Found? ==> o.points == approxPolyDP(points, t))
    decreases Remaining(start, end, step, k0)
  {
    var epsilon := Tol(start, step, k0);
    if epsilon < end {
      var aprox := approxPolyDP(points, epsilon);
      if |aprox| > AsSize(n) {
        DivStep(end - epsilon, step);
        SearchOutcome(points, n, start, end, step, approxPolyDP, k0 + 1);
      }
    }
  }

  /**
   * Only the tolerances up to the deciding one are ever given to
   * approxPolyDP: two approximations that agree there give the same outcome,
   * whatever they do at larger tolerances.
   */
  lemma {:induction false} SearchTriesNoLaterTolerance(points: seq<Point2>, n: int32, start: real, end: real, step: real,
                                                       approx1: (seq<Point2>, real) -> seq<Point2>,
                                                       approx2: (seq<Point2>, real) -> seq<Point2>, k0: nat)
    requires step > 0.0
    requires forall j :: k0 <= j <= Search(points, n, start, end, step, approx1, k0).at && Tol(start, step, j) < end ==>
               approx1(points, Tol(start, step, j)) == approx2(points, Tol(start, step, j))
    ensures Search(points, n, start, end, step, approx2, k0) == Search(points, n, start, end, step, approx1, k0)
    decreases Remaining(start, end, step, k0)
  {
    var epsilon := Tol(start, step, k0);
    if epsilon < end {
      SearchOutcome(points, n, start, end, step, approx1, k0);
      var aprox := approx1(points, epsilon);
      assert approx2(points, epsilon) == aprox;
      if |aprox| > AsSize(n) {
        DivStep(end - epsilon, step);
        assert Search(points, n, start, end, step, approx1, k0) == Search(points, n, start, end, step, approx1, k0 + 1);
        SearchTriesNoLaterTolerance(points, n, start, end, step, approx1, approx2, k0 + 1);
      }
    }
  }

  /**
   * A negative n converts to a count of at least 2^63: with approximations
   * that have fewer vertices than that, the search aborts at the first
   * tolerance whenever the range is not empty, and never succeeds.
   */
  lemma NegativeCountAbortsAtFirstTolerance(points: seq<Point2>, n: int32, start: real, end: real, step: real,
                                            approxPolyDP: (seq<Point2>, real) -> seq<Point2>)
    requires step > 0.0 && n < 0
    requires forall e: real :: |approxPolyDP(points, e)| < 0x8000_0000_0000_0000
    ensures start < end ==> Search(points, n, start, end, step, approxPolyDP, 0) == Undershot(0)
    ensures !Search(points, n, start, end, step, approxPolyDP, 0).Found?
  {
    assert Tol(start, step, 0) == start;
  }

  /**
   * approximateNGon. On success the returned points are the approximation at
   * the first tolerance with exactly n vertices; on every failure they are
   * the input points, unchanged.
   */
  method ApproximateNGon(points: seq<Point2>, n: int32, start: real, end: real, step: real,
                         approxPolyDP: (seq<Point2>, real) -> seq<Point2>)
    returns (found: bool, result: seq<Point2>)
    requires step > 0.0
    ensures var o := Search(points, n, start, end, step, approxPolyDP, 0);
      found == o.Found? && result == (if o.Found? then o.points else points)
    ensures found ==> |result| == AsSize(n)
    ensures !found ==> result == points
    ensures end <= start ==> !found
  {
    ghost var k: nat := 0;
    var epsilon := start;
    while epsilon < end
      invariant epsilon == Tol(start, step, k)
      invariant Search(points, n, start, end, step, approxPolyDP, 0) == Search(points, n, start, end, step, approxPolyDP, k)
      decreases Remaining(start, end, step, k)
    {
      var aprox := approxPolyDP(points, epsilon);
      if |aprox| < AsSize(n) {
        return false, points;
      }
      if |aprox| == AsSize(n) {
        return true, aprox;
      }
      DivStep(end - epsilon, step);
      epsilon := epsilon + step;
      k := k + 1;
    }
    return false, points;
  }
}
