/**
 * findTargets and findCircles (contourProcessing.cpp): per-contour filters
 * that keep the input order and emit at most one entry per contour.
 * cv::contourArea, cv::matchShapes and cv::minEnclosingCircle are parameters.
 */
module Classification {
  import opened Wrappers
  import opened Seqs
  import opened ContourTypes

  /** The state of findTargets' inner loop: the chosen target and the score to beat. */
  datatype Choice = Choice(target: Target, score: real)

  /**
   * findTargets' inner loop over `targets`: start from the value-initialised
   * target and `minMatch`, and take a target whenever its score is strictly
   * below the best so far.
   */
  function Select(contour: Contour, targets: seq<Target>, minMatch: real,
                  matchShapes: (Contour, seq<Point2>) -> real): Choice
    decreases |targets|
  {
    if targets == [] then Choice(NoTarget, minMatch)
    else
      var best := Select(contour, targets[..|targets| - 1], minMatch, matchShapes);
      var target := targets[|targets| - 1];
      var matchValue := matchShapes(contour, target.shape);
      if matchValue < best.score then Choice(target, matchValue) else best
  }

  /**
   * The inner loop picks the earliest target of minimal score when that score
   * is strictly below minMatch, and keeps the value-initialised target and
   * minMatch when no score is.
   */
  lemma {:induction false} SelectIsEarliestMinimum(contour: Contour, targets: seq<Target>, minMatch: real,
                                                   matchShapes: (Contour, seq<Point2>) -> real)
    ensures var ch := Select(contour, targets, minMatch, matchShapes);
      && ch.score <= minMatch
      && (forall j :: 0 <= j < |targets| ==> ch.score <= matchShapes(contour, targets[j].shape))
      && (ch.score == minMatch <==> forall j :: 0 <= j < |targets| ==> matchShapes(contour, targets[j].shape) >= minMatch)
      && (ch.score == minMatch ==> ch.target == NoTarget)
      && (ch.score < minMatch ==>
            exists k :: 0 <= k < |targets| && ch.target == targets[k]
              && ch.score == matchShapes(contour, targets[k].shape)
              && forall j :: 0 <= j < k ==> matchShapes(contour, targets[j].shape) > ch.score)
    decreases |targets|
  {
    if targets != [] {
      var init := targets[..|targets| - 1];
      var last := |targets| - 1;
      SelectIsEarliestMinimum(contour, init, minMatch, matchShapes);
      assert forall j :: 0 <= j < |init| ==> init[j] == targets[j];
      var best := Select(contour, init, minMatch, matchShapes);
      var v := matchShapes(contour, targets[last].shape);
      if v < best.score {
        assert Select(contour, targets, minMatch, matchShapes) == Choice(targets[last], v);
      } else {
        assert Select(contour, targets, minMatch, matchShapes) == best;
        if best.score < minMatch {
          var k :| 0 <= k < |init| && best.target == init[k]
            && best.score == matchShapes(contour, init[k].shape)
            && forall j :: 0 <= j < k ==> matchShapes(contour, init[j].shape) > best.score;
          assert best.target == targets[k];
        }
      }
    }
  }

  /**
   * What findTargets emits for one contour: nothing when its area is below
   * minArea, otherwise the chosen target with its score, provided the chosen
   * target's shape is not empty.
   */
  function TargetEntry(contour: Contour, targets: seq<Target>, minArea: real, minMatch: real,
                       contourArea: Contour -> real, matchShapes: (Contour, seq<Point2>) -> real): Option<TargetMatch>
  {
    if contourArea(contour) < minArea then None
    else
      var best := Select(contour, targets, minMatch, matchShapes);
      if best.target.shape != [] then Some(TargetMatch(ToPoint2s(contour), best.target, best.score))
      else None
  }

  function TargetEntryOf(targets: seq<Target>, minArea: real, minMatch: real,
                         contourArea: Contour -> real, matchShapes: (Contour, seq<Point2>) -> real)
    : Contour -> Option<TargetMatch>
  {
    contour => TargetEntry(contour, targets, minArea, minMatch, contourArea, matchShapes)
  }

  /**
   * A contour yields a match exactly when its area is at least minArea and
   * the earliest target of minimal score scores strictly below minMatch and
   * has a non-empty shape; the match records the converted contour, that
   * target and its score.
   */
  lemma TargetEntrySpec(contour: Contour, targets: seq<Target>, minArea: real, minMatch: real,
                        contourArea: Contour -> real, matchShapes: (Contour, seq<Point2>) -> real, k: nat)
    ensures contourArea(contour) < minArea ==>
      TargetEntry(contour, targets, minArea, minMatch, contourArea, matchShapes) == None
    ensures var e := TargetEntry(contour, targets, minArea, minMatch, contourArea, matchShapes);
      e.Some? ==>
        && contourArea(contour) >= minArea
        && e.value.shape == ToPoint2s(contour)
        && e.value.target.shape != []
        && e.value.score < minMatch
        && (forall j :: 0 <= j < |targets| ==> e.value.score <= matchShapes(contour, targets[j].shape))
        && exists i :: 0 <= i < |targets| && e.value.target == targets[i]
             && e.value.score == matchShapes(contour, targets[i].shape)
             && forall j :: 0 <= j < i ==> matchShapes(contour, targets[j].shape) > e.value.score
    ensures
      && contourArea(contour) >= minArea
      && k < |targets|
      && targets[k].shape != []
      && matchShapes(contour, targets[k].shape) < minMatch
      && (forall j :: 0 <= j < k ==> matchShapes(contour, targets[j].shape) > matchShapes(contour, targets[k].shape))
      && (forall j :: k <= j < |targets| ==> matchShapes(contour, targets[j].shape) >= matchShapes(contour, targets[k].shape))
      ==> TargetEntry(contour, targets, minArea, minMatch, contourArea, matchShapes)
            == Some(TargetMatch(ToPoint2s(contour), targets[k], matchShapes(contour, targets[k].shape)))
  {
    SelectIsEarliestMinimum(contour, targets, minMatch, matchShapes);
    var ch := Select(contour, targets, minMatch, matchShapes);
    if contourArea(contour) >= minArea && k < |targets| && targets[k].shape != []
       && matchShapes(contour, targets[k].shape) < minMatch
       && (forall j :: 0 <= j < k ==> matchShapes(contour, targets[j].shape) > matchShapes(contour, targets[k].shape))
       && (forall j :: k <= j < |targets| ==> matchShapes(contour, targets[j].shape) >= matchShapes(contour, targets[k].shape))
    {
      assert ch.score <= matchShapes(contour, targets[k].shape) < minMatch;
      var i :| 0 <= i < |targets| && ch.target == targets[i]
        && ch.score == matchShapes(contour, targets[i].shape)
        && forall j :: 0 <= j < i ==> matchShapes(contour, targets[j].shape) > ch.score;
      if i < k {
        assert false;
      } else if k < i {
        assert false;
      }
    }
  }

  /** A score equal to minMatch is not good enough: with no score strictly below it, nothing is emitted. */
  lemma TargetThresholdIsStrict(contour: Contour, targets: seq<Target>, minArea: real, minMatch: real,
                                contourArea: Contour -> real, matchShapes: (Contour, seq<Point2>) -> real)
    requires forall j :: 0 <= j < |targets| ==> matchShapes(contour, targets[j].shape) >= minMatch
    ensures TargetEntry(contour, targets, minArea, minMatch, contourArea, matchShapes) == None
  {
    SelectIsEarliestMinimum(contour, targets, minMatch, matchShapes);
  }

  /**
   * The output of findTargets, contour by contour: one match per kept
   * contour, in strictly increasing input position; each comes from a
   * contour of area at least minArea, carries its converted points, and
   * records a library target whose score is minimal over the library and
   * strictly below minMatch. A contour whose entry is a match is kept.
   */
  lemma FindTargetsSpec(contours: seq<Contour>, targets: seq<Target>, minArea: real, minMatch: real,
                        contourArea: Contour -> real, matchShapes: (Contour, seq<Point2>) -> real)
    ensures var f := TargetEntryOf(targets, minArea, minMatch, contourArea, matchShapes);
      var ms, ks := FilterMap(contours, f), Kept(contours, f);
      && |ks| == |ms|
      && (forall j, j' :: 0 <= j < j' < |ks| ==> ks[j] < ks[j'])
      && (forall j :: 0 <= j < |ms| ==>
            && ks[j] < |contours|
            && contourArea(contours[ks[j]]) >= minArea
            && ms[j].shape == ToPoint2s(contours[ks[j]])
            && ms[j].target in targets && ms[j].target.shape != []
            && ms[j].score == matchShapes(contours[ks[j]], ms[j].target.shape) < minMatch
            && forall t :: t in targets ==> ms[j].score <= matchShapes(contours[ks[j]], t.shape))
      && (forall i :: 0 <= i < |contours| && f(contours[i]).Some? ==> i in ks)
  {
    var f := TargetEntryOf(targets, minArea, minMatch, contourArea, matchShapes);
    FilterMapOrder(contours, f);
    var ms, ks := FilterMap(contours, f), Kept(contours, f);
    forall j | 0 <= j < |ms|
      ensures && contourArea(contours[ks[j]]) >= minArea
              && ms[j].shape == ToPoint2s(contours[ks[j]])
              && ms[j].target in targets && ms[j].target.shape != []
              && ms[j].score == matchShapes(contours[ks[j]], ms[j].target.shape) < minMatch
              && forall t :: t in targets ==> ms[j].score <= matchShapes(contours[ks[j]], t.shape)
    {
      var c := contours[ks[j]];
      TargetEntrySpec(c, targets, minArea, minMatch, contourArea, matchShapes, 0);
      assert f(c) == Some(ms[j]);
    }
  }

  /**
   * findTargets: for each contour in order, skip it when its area is below
   * minArea, otherwise score it against every target and emit the best one.
   */
  method FindTargets(contours: seq<Contour>, targets: seq<Target>, minArea: real, minMatch: real,
                     contourArea: Contour -> real, matchShapes: (Contour, seq<Point2>) -> real)
    returns (matches: seq<TargetMatch>)
    ensures matches == FilterMap(contours, TargetEntryOf(targets, minArea, minMatch, contourArea, matchShapes))
  {
    ghost var entry := TargetEntryOf(targets, minArea, minMatch, contourArea, matchShapes);
    matches := [];
    for i := 0 to |contours|
      invariant matches == FilterMap(contours[..i], entry)
    {
      assert contours[..i + 1][..i] == contours[..i];
      var contour := contours[i];
      var area := contourArea(contour);
      if area < minArea {
        continue;
      }
      var matchingTarget := NoTarget;
      var bestMatch := minMatch;
      for j := 0 to |targets|
        invariant Choice(matchingTarget, bestMatch) == Select(contour, targets[..j], minMatch, matchShapes)
      {
        assert targets[..j + 1][..j] == targets[..j];
        var matchValue := matchShapes(contour, targets[j].shape);
        if matchValue < bestMatch {
          matchingTarget := targets[j];
          bestMatch := matchValue;
        }
      }
      assert targets[..|targets|] == targets;
      if matchingTarget.shape != [] {
        matches := matches + [TargetMatch(ToPoint2s(contour), matchingTarget, bestMatch)];
      }
    }
    assert contours[..|contours|] == contours;
  }

  /**
   * What findCircles emits for one contour: nothing when its area is below
   * minArea; otherwise its enclosing circle and the fill ratio
   * area / circle area, when that ratio is strictly above minMatch. A zero
   * circle area makes the source's division 0/0 (NaN, never above
   * minMatch); the model rejects that case.
   */
  function CircleEntry(contour: Contour, minArea: real, minMatch: real,
                       contourArea: Contour -> real, minEnclosingCircle: Contour -> Circle): Option<CircleMatch>
  {
    var area := contourArea(contour);
    if area < minArea then None
    else
      var circle := minEnclosingCircle(contour);
      if CircleArea(circle) == 0.0 then None
      else
        var matchValue := area / CircleArea(circle);
        if matchValue > minMatch then Some(CircleMatch(contour, circle, matchValue)) else None
  }

  function CircleEntryOf(minArea: real, minMatch: real,
                         contourArea: Contour -> real, minEnclosingCircle: Contour -> Circle)
    : Contour -> Option<CircleMatch>
  {
    contour => CircleEntry(contour, minArea, minMatch, contourArea, minEnclosingCircle)
  }

  /** The acceptance test of findCircles, stated on its own: large enough and strictly more than minMatch filled. */
  predicate IsCircular(contour: Contour, minArea: real, minMatch: real,
                       contourArea: Contour -> real, minEnclosingCircle: Contour -> Circle)
  {
    var circle := minEnclosingCircle(contour);
    && contourArea(contour) >= minArea
    && CircleArea(circle) != 0.0
    && contourArea(contour) / CircleArea(circle) > minMatch
  }

  /**
   * A contour is accepted exactly when it is circular; the entry stores the
   * contour, its enclosing circle and the fill ratio.
   */
  lemma CircleEntrySpec(contour: Contour, minArea: real, minMatch: real,
                        contourArea: Contour -> real, minEnclosingCircle: Contour -> Circle)
    ensures var e := CircleEntry(contour, minArea, minMatch, contourArea, minEnclosingCircle);
      var circle := minEnclosingCircle(contour);
      && (e.Some? <==> IsCircular(contour, minArea, minMatch, contourArea, minEnclosingCircle))
      && (e.Some? ==> e.value == CircleMatch(contour, circle, contourArea(contour) / CircleArea(circle)))
  {
  }

  /**
   * The output of findCircles, contour by contour: the matches come from
   * circular contours only, in strictly increasing input position, one per
   * contour, and every circular contour contributes its match.
   */
  lemma FindCirclesSpec(contours: seq<Contour>, minArea: real, minMatch: real,
                        contourArea: Contour -> real, minEnclosingCircle: Contour -> Circle)
    ensures var f := CircleEntryOf(minArea, minMatch, contourArea, minEnclosingCircle);
      var ms, ks := FilterMap(contours, f), Kept(contours, f);
      && |ks| == |ms|
      && (forall j, j' :: 0 <= j < j' < |ks| ==> ks[j] < ks[j'])
      && (forall j :: 0 <= j < |ms| ==>
            && ks[j] < |contours|
            && IsCircular(contours[ks[j]], minArea, minMatch, contourArea, minEnclosingCircle)
            && ms[j].contour == contours[ks[j]]
            && ms[j].circle == minEnclosingCircle(contours[ks[j]])
            && ms[j].score == contourArea(contours[ks[j]]) / CircleArea(ms[j].circle))
      && (forall i :: 0 <= i < |contours| && IsCircular(contours[i], minArea, minMatch, contourArea, minEnclosingCircle) ==> i in ks)
  {
    var f := CircleEntryOf(minArea, minMatch, contourArea, minEnclosingCircle);
    FilterMapOrder(contours, f);
    forall c | c in contours
      ensures f(c).Some? <==> IsCircular(c, minArea, minMatch, contourArea, minEnclosingCircle)
      ensures f(c).Some? ==> f(c).value == CircleMatch(c, minEnclosingCircle(c), contourArea(c) / CircleArea(minEnclosingCircle(c)))
    {
      CircleEntrySpec(c, minArea, minMatch, contourArea, minEnclosingCircle);
    }
  }

  /** findCircles: for each contour in order, keep it when it is large enough and circular enough. */
  method FindCircles(contours: seq<Contour>, minArea: real, minMatch: real,
                     contourArea: Contour -> real, minEnclosingCircle: Contour -> Circle)
    returns (matches: seq<CircleMatch>)
    ensures matches == FilterMap(contours, CircleEntryOf(minArea, minMatch, contourArea, minEnclosingCircle))
  {
    ghost var entry := CircleEntryOf(minArea, minMatch, contourArea, minEnclosingCircle);
    matches := [];
    for i := 0 to |contours|
      invariant matches == FilterMap(contours[..i], entry)
    {
      assert contours[..i + 1][..i] == contours[..i];
      var contour := contours[i];
      var area := contourArea(contour);
      if area < minArea {
        continue;
      }
      var circle := minEnclosingCircle(contour);
      if CircleArea(circle) == 0.0 {
        continue;
      }
      var matchValue := area / CircleArea(circle);
      if matchValue > minMatch {
        matches := matches + [CircleMatch(contour, circle, matchValue)];
      }
    }
    assert contours[..|contours|] == contours;
  }
}
