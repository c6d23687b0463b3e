/**
  Geometry helpers of the ray simulator (raysim/geometry.py): point distance,
  the directional step, the three-distance segment test, strict box containment
  and the three angle normalisers.
 */
module RaysimGeometry {
  import opened PyNumbers
  import opened RealFacts

  /** numpy's `np.pi`, the float nearest to pi. */
  const Pi: real := 3.141592653589793

  datatype Point = Point(x: real, y: real)

  /** A playground `(xmin, ymin, xmax, ymax)`. */
  datatype Box = Box(xmin: real, ymin: real, xmax: real, ymax: real)

  /**
    The floating-point library the source calls (`np.cos`, `np.sin`, `np.sqrt`),
    passed in: its functions are not computed by the model.
   */
  datatype MathLib = MathLib(cos: real -> real, sin: real -> real, sqrt: real -> real)

  /** What the model assumes of `sqrt` where it matters: it is the non-negative square root. */
  ghost predicate SqrtLaws(m: MathLib) {
    && m.sqrt(0.0) == 0.0
    && forall v :: 0.0 <= v ==> 0.0 <= m.sqrt(v) && m.sqrt(v) * m.sqrt(v) == v
  }

  /** What the model assumes of `cos` and `sin` where it matters: cos^2 + sin^2 = 1. */
  ghost predicate TrigLaws(m: MathLib) {
    forall t :: m.cos(t) * m.cos(t) + m.sin(t) * m.sin(t) == 1.0
  }

  /** The squared Euclidean distance, the quantity under the square root of `distance`. */
  function SqDist(a: Point, b: Point): (d: real)
    ensures 0.0 <= d
    ensures a == b ==> d == 0.0
  {
    SumOfSquares(a.x - b.x, a.y - b.y);
    (a.x - b.x) * (a.x - b.x) + (a.y - b.y) * (a.y - b.y)
  }

  /** `distance(a, b)` for two points. */
  function Distance(m: MathLib, a: Point, b: Point): real {
    m.sqrt(SqDist(a, b))
  }

  /** `distance(a, b)` with `b` an array of points: numpy broadcasts `a` over the rows of `b`. */
  function DistanceToEach(m: MathLib, a: Point, bs: seq<Point>): (ds: seq<real>)
    ensures |ds| == |bs|
    ensures forall k :: 0 <= k < |bs| ==> ds[k] == Distance(m, a, bs[k])
  {
    seq(|bs|, k requires 0 <= k < |bs| => Distance(m, a, bs[k]))
  }

  /** Distance is non-negative, zero between equal points, and symmetric. */
  lemma DistanceIsMetricLike(m: MathLib, a: Point, b: Point)
    requires SqrtLaws(m)
    ensures 0.0 <= Distance(m, a, b)
    ensures a == b ==> Distance(m, a, b) == 0.0
    ensures Distance(m, a, b) == Distance(m, b, a)
  {
    assert SqDist(b, a) == SqDist(a, b);
  }

  /** Below the tolerance t in distance is below t * t in squared distance. */
  lemma DistanceBelowIffSquared(m: MathLib, a: Point, b: Point, t: real)
    requires SqrtLaws(m) && 0.0 < t
    ensures Distance(m, a, b) < t <==> SqDist(a, b) < t * t
  {
    var d := SqDist(a, b);
    var s := m.sqrt(d);
    assert 0.0 <= s && s * s == d;
    SquareMonotone(s, t);
  }

  /** `new_pos(dir, pos, dx)`: one step of length dx along the direction dir. */
  function NewPos(m: MathLib, dir: real, pos: Point, dx: real): Point {
    Point(pos.x + m.cos(dir) * dx, pos.y + m.sin(dir) * dx)
  }

  /** A step of zero length stays put, and a step back by -dx undoes a step by dx. */
  lemma NewPosInverse(m: MathLib, dir: real, pos: Point, dx: real)
    ensures NewPos(m, dir, pos, 0.0) == pos
    ensures NewPos(m, dir, NewPos(m, dir, pos, dx), -dx) == pos
  {
    assert m.cos(dir) * -dx == -(m.cos(dir) * dx);
    assert m.sin(dir) * -dx == -(m.sin(dir) * dx);
  }

  /** With cos^2 + sin^2 = 1 a step covers exactly dx^2 in squared distance. */
  lemma NewPosStepLength(m: MathLib, dir: real, pos: Point, dx: real)
    requires TrigLaws(m)
    ensures SqDist(pos, NewPos(m, dir, pos, dx)) == dx * dx
  {
    var c, s := m.cos(dir), m.sin(dir);
    assert c * c + s * s == 1.0;
    calc {
      SqDist(pos, NewPos(m, dir, pos, dx));
      (c * dx) * (c * dx) + (s * dx) * (s * dx);
      { assert (c * dx) * (c * dx) == (c * c) * (dx * dx);
        assert (s * dx) * (s * dx) == (s * s) * (dx * dx); }
      (c * c + s * s) * (dx * dx);
    }
  }

  /** `is_on_segment(pt, p1, p2, tolerance)`: the detour through pt is shorter than the tolerance. */
  function IsOnSegment(m: MathLib, pt: Point, p1: Point, p2: Point, tolerance: real): bool {
    Distance(m, pt, p1) + Distance(m, pt, p2) - Distance(m, p1, p2) < tolerance
  }

  /** Both ends of a segment are on it, for every positive tolerance. */
  lemma EndpointsAreOnSegment(m: MathLib, p1: Point, p2: Point, tolerance: real)
    requires SqrtLaws(m) && 0.0 < tolerance
    ensures IsOnSegment(m, p1, p1, p2, tolerance)
    ensures IsOnSegment(m, p2, p1, p2, tolerance)
  {
    DistanceIsMetricLike(m, p1, p1);
    DistanceIsMetricLike(m, p2, p2);
    DistanceIsMetricLike(m, p1, p2);
  }

  /** `is_in(pos, box)`: strictly inside the open box. */
  predicate IsIn(pos: Point, box: Box) {
    box.xmin < pos.x < box.xmax && box.ymin < pos.y < box.ymax
  }

  /** A point on any edge of the box is outside; so is every point of a degenerate box. */
  lemma EdgesAreOutside(pos: Point, box: Box)
    requires pos.x == box.xmin || pos.x == box.xmax || pos.y == box.ymin || pos.y == box.ymax
             || box.xmax <= box.xmin || box.ymax <= box.ymin
    ensures !IsIn(pos, box)
  {}

  /** `normalize_angle_0_2pi`: `angle % (2 * pi)`. */
  function NormalizeAngle0To2Pi(angle: real): (r: real)
    ensures 0.0 <= r < 2.0 * Pi
    ensures Congruent(angle, r, 2.0 * Pi)
  {
    PyMod(angle, 2.0 * Pi)
  }

  /** `normalize_angle_negpi_pi`: `(angle + pi) % (2 * pi) - pi`. */
  function NormalizeAngleNegPiPi(angle: real): (r: real)
    ensures -Pi <= r < Pi
    ensures Congruent(angle, r, 2.0 * Pi)
  {
    var m := PyMod(angle + Pi, 2.0 * Pi);
    assert angle - (m - Pi) == angle + Pi - m;
    m - Pi
  }

  /** `normalize_angle_negpi2_pi2`: `(angle + pi / 2) % pi - pi / 2`, congruent modulo pi only. */
  function NormalizeAngleNegPi2Pi2(angle: real): (r: real)
    ensures -Pi / 2.0 <= r < Pi / 2.0
    ensures Congruent(angle, r, Pi)
  {
    var m := PyMod(angle + Pi / 2.0, Pi);
    assert angle - (m - Pi / 2.0) == angle + Pi / 2.0 - m;
    m - Pi / 2.0
  }

  /** Each normaliser leaves an already normalised angle unchanged. */
  lemma NormalizersIdempotent(angle: real)
    ensures NormalizeAngle0To2Pi(NormalizeAngle0To2Pi(angle)) == NormalizeAngle0To2Pi(angle)
    ensures NormalizeAngleNegPiPi(NormalizeAngleNegPiPi(angle)) == NormalizeAngleNegPiPi(angle)
    ensures NormalizeAngleNegPi2Pi2(NormalizeAngleNegPi2Pi2(angle)) == NormalizeAngleNegPi2Pi2(angle)
  {
    PyModIdempotent(angle, 2.0 * Pi);
    PyModIdempotent(angle + Pi, 2.0 * Pi);
    PyModIdempotent(angle + Pi / 2.0, Pi);
  }
}
