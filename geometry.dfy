/**
  The older geometry helpers at the top of the repository (geometry.py).
  Their `new_pos` and `is_in` are those of raysim/geometry.py, modelled in
  RaysimGeometry; their `distance` differs: it sums along axis 1, which a
  pair of single points does not have.
 */
module Geometry {
  import opened Wrappers
  import opened RaysimGeometry

  /** The second argument of `distance`: one point (a 1-D array) or rows of points (a 2-D array). */
  datatype Operand = Single(p: Point) | Rows(rows: seq<Point>)

  /**
    `distance(a, b)`: the square root of the sum of squared differences along
    axis 1. Against rows it gives one distance per row; against a single
    point the squared differences form a 1-D array, and numpy raises
    AxisError.
   */
  function RowDistance(m: MathLib, a: Point, b: Operand): (r: Result<seq<real>, PyError>)
    ensures r.Failure? <==> b.Single?
    ensures r.Failure? ==> r.error == AxisError
    ensures r.Success? ==> |r.value| == |b.rows|
  {
    match b
    case Single(_) => Failure(AxisError)
    case Rows(rows) => Success(DistanceToEach(m, a, rows))
  }

  /**
    Against rows, `distance` gives the distance to each row, as
    raysim/geometry.py's does: non-negative, and zero at a row equal to a.
   */
  lemma RowDistanceFacts(m: MathLib, a: Point, rows: seq<Point>)
    requires SqrtLaws(m)
    ensures RowDistance(m, a, Rows(rows)) == Success(DistanceToEach(m, a, rows))
    ensures forall k :: 0 <= k < |rows| ==> 0.0 <= RowDistance(m, a, Rows(rows)).value[k]
    ensures forall k :: 0 <= k < |rows| && rows[k] == a ==> RowDistance(m, a, Rows(rows)).value[k] == 0.0
  {
    forall k | 0 <= k < |rows|
      ensures 0.0 <= Distance(m, a, rows[k])
      ensures rows[k] == a ==> Distance(m, a, rows[k]) == 0.0
    {
      DistanceIsMetricLike(m, a, rows[k]);
    }
  }

  /**
    `is_on_segment(pt, p1, p2, tolerance)` as written: its first call,
    `distance(pt, p1)`, passes two single points and raises; past it the
    function would compute raysim/geometry.py's test.
   */
  function IsOnSegmentAsWritten(m: MathLib, pt: Point, p1: Point, p2: Point, tolerance: real): (r: Result<bool, PyError>)
    ensures r == Failure(AxisError)
  {
    match RowDistance(m, pt, Single(p1))
    case Failure(e) => Failure(e)
    case Success(_) => Success(IsOnSegment(m, pt, p1, p2, tolerance))
  }

  /**
    As written, `is_on_segment` raises AxisError for every input; in
    particular an endpoint, which raysim/geometry.py's test accepts for every
    positive tolerance, is never reported on the segment.
   */
  lemma IsOnSegmentAlwaysRaises(m: MathLib, p1: Point, p2: Point, tolerance: real)
    requires SqrtLaws(m) && 0.0 < tolerance
    ensures forall pt :: IsOnSegmentAsWritten(m, pt, p1, p2, tolerance) == Failure(AxisError)
    ensures IsOnSegment(m, p1, p1, p2, tolerance) && IsOnSegmentAsWritten(m, p1, p1, p2, tolerance) != Success(true)
  {
    EndpointsAreOnSegment(m, p1, p2, tolerance);
  }
}
