/**
 * estimateTargetPose and estimateBallPose (contourProcessing.cpp): one
 * cv::solvePnP call and one pose per input match, in input order. solvePnP
 * is a parameter: any function from model points, image points and the
 * camera to a rotation and a translation vector.
 *
 * The source declares a pose with `rv::TargetPose position;` /
 * `rv::BallPose position;` and assigns only `rvec` and `tvec`, so the pose's
 * match (and, for balls, its ball) keeps its default-constructed value.
 * `Field.Unset` stands for such a never-assigned member.
 */
module PoseEstimation {
  import opened Wrappers
  import opened ContourTypes

  /** A rotation (Rodrigues vector) or translation, as solvePnP writes it. */
  datatype Vec3 = Vec3(x: real, y: real, z: real)

  /** What solvePnP writes to its rvec and tvec arguments. */
  datatype PnpSolution = PnpSolution(rvec: Vec3, tvec: Vec3)

  /** The camera's intrinsic matrix (row-major 3x3) and distortion coefficients. */
  datatype Camera = Camera(matrix: seq<real>, distortion: seq<real>)

  /** A struct member that was either assigned a value or left default-constructed. */
  datatype Field<T> = Unset | Set(value: T)

  datatype TargetPose = TargetPose(targetMatch: Field<TargetMatch>, tvec: Vec3, rvec: Vec3)

  datatype BallPose = BallPose(circleMatch: Field<CircleMatch>, ball: Field<Ball>, tvec: Vec3, rvec: Vec3)

  type Solver = (seq<Point3>, seq<Point2>, Camera) -> PnpSolution

  /** The model/image correspondence solvePnP gets for a target match. */
  function TargetSolution(m: TargetMatch, camera: Camera, solvePnP: Solver): PnpSolution {
    solvePnP(Lift(m.target.shape), m.shape, camera)
  }

  /** The model/image correspondence solvePnP gets for a circle match. */
  function BallSolution(m: CircleMatch, ball: Ball, camera: Camera, solvePnP: Solver): PnpSolution {
    solvePnP(BallPoints(ball), CirclePoints(m.circle), camera)
  }

  /**
   * The fill ratio that the ball-detection loop publishes as "match" for a
   * pose (`positions[i].circleMatch.match`); None when that member was never
   * assigned.
   */
  function PublishedMatch(p: BallPose): Option<real> {
    match p.circleMatch
    case Unset => None
    case Set(m) => Some(m.score)
  }

  /** estimateTargetPose: one pose per match, in order, from that match's correspondence. */
  method EstimateTargetPose(matches: seq<TargetMatch>, camera: Camera, solvePnP: Solver)
    returns (positions: seq<TargetPose>)
    ensures |positions| == |matches|
    ensures forall i :: 0 <= i < |matches| ==>
      var s := TargetSolution(matches[i], camera, solvePnP);
      positions[i] == TargetPose(Unset, s.tvec, s.rvec)
  {
    positions := [];
    for i := 0 to |matches|
      invariant |positions| == i
      invariant forall j :: 0 <= j < i ==>
        var s := TargetSolution(matches[j], camera, solvePnP);
        positions[j] == TargetPose(Unset, s.tvec, s.rvec)
    {
      var s := solvePnP(Lift(matches[i].target.shape), matches[i].shape, camera);
      positions := positions + [TargetPose(Unset, s.tvec, s.rvec)];
    }
  }

  /**
   * estimateBallPose as written: one pose per circle, in order, solved from
   * the ball's five points and the circle's five points; the pose's
   * circleMatch and ball are never assigned, so nothing meaningful is
   * published as its match.
   */
  method EstimateBallPose(circles: seq<CircleMatch>, ball: Ball, camera: Camera, solvePnP: Solver)
    returns (positions: seq<BallPose>)
    ensures |positions| == |circles|
    ensures forall i :: 0 <= i < |circles| ==>
      var s := BallSolution(circles[i], ball, camera, solvePnP);
      positions[i] == BallPose(Unset, Unset, s.tvec, s.rvec)
    ensures forall i :: 0 <= i < |circles| ==> PublishedMatch(positions[i]) == None
  {
    positions := [];
    for i := 0 to |circles|
      invariant |positions| == i
      invariant forall j :: 0 <= j < i ==>
        var s := BallSolution(circles[j], ball, camera, solvePnP);
        positions[j] == BallPose(Unset, Unset, s.tvec, s.rvec)
    {
      var s := solvePnP(BallPoints(ball), CirclePoints(circles[i].circle), camera);
      positions := positions + [BallPose(Unset, Unset, s.tvec, s.rvec)];
    }
  }

  /**
   * estimateBallPose as the ball-detection loop needs it: each pose also
   * records the circle match and the ball it was solved from, so the
   * published match is the circle's fill ratio.
   */
  method EstimateBallPoseRecorded(circles: seq<CircleMatch>, ball: Ball, camera: Camera, solvePnP: Solver)
    returns (positions: seq<BallPose>)
    ensures |positions| == |circles|
    ensures forall i :: 0 <= i < |circles| ==>
      var s := BallSolution(circles[i], ball, camera, solvePnP);
      positions[i] == BallPose(Set(circles[i]), Set(ball), s.tvec, s.rvec)
    ensures forall i :: 0 <= i < |circles| ==> PublishedMatch(positions[i]) == Some(circles[i].score)
  {
    positions := [];
    for i := 0 to |circles|
      invariant |positions| == i
      invariant forall j :: 0 <= j < i ==>
        var s := BallSolution(circles[j], ball, camera, solvePnP);
        positions[j] == BallPose(Set(circles[j]), Set(ball), s.tvec, s.rvec)
    {
      var s := solvePnP(BallPoints(ball), CirclePoints(circles[i].circle), camera);
      positions := positions + [BallPose(Set(circles[i]), Set(ball), s.tvec, s.rvec)];
    }
  }
}
