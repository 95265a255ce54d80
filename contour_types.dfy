/**
 * The value types of the contour pipeline (the structs of
 * contourProcessing.hpp) and the single-expression members defined on them
 * in contourProcessing.cpp: Circle::area, Circle::points and Ball::points.
 * Coordinates, radii and scores are reals: float and double rounding is not
 * modelled.
 */
module ContourTypes {

  /** The M_PI constant, as written in the C headers. */
  const Pi: real := 3.14159265358979323846

  /** A pixel position (cv::Point): integer coordinates. */
  datatype PixelPoint = PixelPoint(x: int, y: int)

  /** A contour as the front end extracts it (std::vector<cv::Point>). */
  type Contour = seq<PixelPoint>

  /** A 2D point in image or model space (cv::Point2f). */
  datatype Point2 = Point2(x: real, y: real)

  /** A 3D point (cv::Point3f). */
  datatype Point3 = Point3(x: real, y: real, z: real)

  /** A reference shape of the target library. */
  datatype Target = Target(name: string, shape: seq<Point2>)

  /** A contour matched against a library target, with its shape distance. */
  datatype TargetMatch = TargetMatch(shape: seq<Point2>, target: Target, score: real)

  /** A sphere of known size and model-space center. */
  datatype Ball = Ball(radius: real, center: Point3)

  /** A circle in the image, as fitted to a contour. */
  datatype Circle = Circle(radius: real, center: Point2)

  /** A contour accepted as circular, its enclosing circle and its fill ratio. */
  datatype CircleMatch = CircleMatch(contour: Contour, circle: Circle, score: real)

  /** The value-initialised Target: empty name and empty shape. */
  const NoTarget: Target := Target("", [])

  function Square(r: real): real { r * r }

  function SquaredDistance2(p: Point2, q: Point2): real {
    Square(p.x - q.x) + Square(p.y - q.y)
  }

  function SquaredDistance3(p: Point3, q: Point3): real {
    Square(p.x - q.x) + Square(p.y - q.y) + Square(p.z - q.z)
  }

  /** The product c of two positive reals a and b is positive. */
  lemma PositiveProduct(a: real, b: real, c: real)
    requires a > 0.0 && b > 0.0 && c == a * b
    ensures c > 0.0
  {
  }

  /** The square s of a non-zero real r is positive. */
  lemma SquarePositive(r: real, s: real)
    requires r != 0.0 && s == r * r
    ensures s > 0.0
  {
    if r > 0.0 {
      PositiveProduct(r, r, s);
    } else {
      PositiveProduct(-r, -r, s);
    }
  }

  /** r * r * pi is never negative, and is zero exactly when r is. */
  lemma DiscAreaSign(r: real)
    ensures r * r * Pi >= 0.0
    ensures r * r * Pi == 0.0 <==> r == 0.0
  {
    if r != 0.0 {
      var s := r * r;
      SquarePositive(r, s);
      assert Pi > 0.0;
      PositiveProduct(s, Pi, r * r * Pi);
    }
  }

  /**
   * Circle::area: the area of the disc the circle bounds, radius * radius * pi.
   * It is zero exactly for a zero radius, which is the case in which
   * findCircles' fill ratio divides by zero.
   */
  function CircleArea(c: Circle): (a: real)
    ensures a >= 0.0
    ensures a == 0.0 <==> c.radius == 0.0
  {
    DiscAreaSign(c.radius);
    c.radius * c.radius * Pi
  }

  /**
   * Circle::points: the center, then the points one radius away along +x,
   * +y, -x and -y.
   */
  function CirclePoints(c: Circle): (ps: seq<Point2>)
    ensures |ps| == 5 && ps[0] == c.center
    ensures forall i :: 1 <= i < 5 ==> SquaredDistance2(ps[i], c.center) == Square(c.radius)
    ensures ps[1].y == ps[3].y == c.center.y && ps[2].x == ps[4].x == c.center.x
    ensures ps[1].x - c.center.x == c.radius == ps[2].y - c.center.y
    ensures ps[3].x - c.center.x == -c.radius == ps[4].y - c.center.y
  {
    var o := c.center;
    [ o,
      Point2(c.radius + o.x, 0.0 + o.y),
      Point2(0.0 + o.x, c.radius + o.y),
      Point2(-c.radius + o.x, 0.0 + o.y),
      Point2(0.0 + o.x, -c.radius + o.y) ]
  }

  /**
   * Ball::points: the center, then the points one radius away along +x, +y,
   * -x and -y, all in the plane z = center.z.
   */
  function BallPoints(b: Ball): (ps: seq<Point3>)
    ensures |ps| == 5 && ps[0] == b.center
    ensures forall i :: 0 <= i < 5 ==> ps[i].z == b.center.z
    ensures forall i :: 1 <= i < 5 ==> SquaredDistance3(ps[i], b.center) == Square(b.radius)
    ensures ps[1].x - b.center.x == b.radius == ps[2].y - b.center.y
    ensures ps[3].x - b.center.x == -b.radius == ps[4].y - b.center.y
  {
    var o := b.center;
    [ o,
      Point3(b.radius + o.x, 0.0 + o.y, 0.0 + o.z),
      Point3(0.0 + o.x, b.radius + o.y, 0.0 + o.z),
      Point3(-b.radius + o.x, 0.0 + o.y, 0.0 + o.z),
      Point3(0.0 + o.x, -b.radius + o.y, 0.0 + o.z) ]
  }

  function DropZ(p: Point3): Point2 { Point2(p.x, p.y) }

  /**
   * The ball and circle correspondences line up point for point: for equal
   * radii and equal center x/y, the i-th ball point seen from above is the
   * i-th circle point.
   */
  lemma BallPointsOverCirclePoints(b: Ball, c: Circle)
    requires b.radius == c.radius && b.center.x == c.center.x && b.center.y == c.center.y
    ensures forall i :: 0 <= i < 5 ==> DropZ(BallPoints(b)[i]) == CirclePoints(c)[i]
  {
  }

  /** convertToPoints<float>: each pixel point as a real 2D point, in order. */
  function ToPoint2s(c: Contour): (ps: seq<Point2>)
    ensures |ps| == |c|
    ensures forall i :: 0 <= i < |c| ==> ps[i].x == c[i].x as real && ps[i].y == c[i].y as real
  {
    seq(|c|, i requires 0 <= i < |c| => Point2(c[i].x as real, c[i].y as real))
  }

  /** convertToPoints3<float>: each 2D point lifted to the plane z = 0, in order. */
  function Lift(ps: seq<Point2>): (qs: seq<Point3>)
    ensures |qs| == |ps|
    ensures forall i :: 0 <= i < |ps| ==> qs[i].z == 0.0 && DropZ(qs[i]) == ps[i]
  {
    seq(|ps|, i requires 0 <= i < |ps| => Point3(ps[i].x, ps[i].y, 0.0))
  }
}
