/**
  The single-file prototype of the simulator (trajectories.py): its own
  `distance`, summing along axis 1 as geometry.py's does, and hit tests that
  compare the smallest distance, not its square, with the tolerance. Its
  `new_pos` and `is_in` are those of raysim/geometry.py, and its Photon is
  the class of src/photons.py.
 */
module Trajectories {
  import opened Wrappers
  import opened RaysimGeometry
  import Geometry
  import RaysimPhoton

  /**
    `np.min(distance(photon.pos, hitbox)) < .05` for one system: `np.min`
    of the distances of an empty hitbox raises ValueError.
   */
  function Reaches(m: MathLib, pos: Point, hitbox: seq<Point>): (r: Result<bool, PyError>)
    ensures r.Failure? <==> |hitbox| == 0
    ensures r.Failure? ==> r.error == ValueError
  {
    match Geometry.RowDistance(m, pos, Geometry.Rows(hitbox))
    case Failure(e) => Failure(e)
    case Success(ds) =>
      if |ds| == 0 then Failure(ValueError) else Success(RaysimPhoton.SeqMin(ds) < RaysimPhoton.Tolerance)
  }

  /** The test on distances agrees with raysim's test on squared distances. */
  lemma ReachesAgrees(m: MathLib, pos: Point, hitbox: seq<Point>)
    requires SqrtLaws(m)
    ensures Reaches(m, pos, hitbox) == RaysimPhoton.Reaches(pos, hitbox)
  {
    if |hitbox| > 0 {
      RaysimPhoton.ReachesIsMinDistanceTest(m, pos, hitbox);
    }
  }

  /** The scan of `touched_sys`, from index i onwards. */
  function TouchedFrom(m: MathLib, pos: Point, hitboxes: seq<seq<Point>>, i: nat): (r: Result<Option<nat>, PyError>)
    requires i <= |hitboxes|
    decreases |hitboxes| - i
    ensures r.Success? && r.value.Some? ==> i <= r.value.value < |hitboxes|
  {
    if i == |hitboxes| then Success(None)
    else match Reaches(m, pos, hitboxes[i])
      case Failure(e) => Failure(e)
      case Success(true) => Success(Some(i))
      case Success(false) => TouchedFrom(m, pos, hitboxes, i + 1)
  }

  /** The scan of `has_reached_sys`, from index i onwards. */
  function HasReachedFrom(m: MathLib, pos: Point, hitboxes: seq<seq<Point>>, i: nat): Result<bool, PyError>
    requires i <= |hitboxes|
    decreases |hitboxes| - i
  {
    if i == |hitboxes| then Success(false)
    else match Reaches(m, pos, hitboxes[i])
      case Failure(e) => Failure(e)
      case Success(true) => Success(true)
      case Success(false) => HasReachedFrom(m, pos, hitboxes, i + 1)
  }

  lemma {:induction false} ScansAgreeFrom(m: MathLib, pos: Point, hitboxes: seq<seq<Point>>, i: nat)
    requires SqrtLaws(m) && i <= |hitboxes|
    decreases |hitboxes| - i
    ensures TouchedFrom(m, pos, hitboxes, i) == RaysimPhoton.TouchedFrom(pos, hitboxes, i)
    ensures HasReachedFrom(m, pos, hitboxes, i) == RaysimPhoton.HasReachedFrom(pos, hitboxes, i)
  {
    if i < |hitboxes| {
      ReachesAgrees(m, pos, hitboxes[i]);
      ScansAgreeFrom(m, pos, hitboxes, i + 1);
    }
  }

  /** `touched_sys(photon, systems)`: the index of the first system reached, or None. */
  function TouchedSys(m: MathLib, pos: Point, hitboxes: seq<seq<Point>>): Result<Option<nat>, PyError> {
    TouchedFrom(m, pos, hitboxes, 0)
  }

  /** `has_reached_sys(photon, systems)`: some system, scanned in list order, is reached. */
  function HasReachedSys(m: MathLib, pos: Point, hitboxes: seq<seq<Point>>): Result<bool, PyError> {
    HasReachedFrom(m, pos, hitboxes, 0)
  }

  /**
    The prototype's scans are raysim's: `touched_sys` returns the first
    system in list order within the tolerance, having missed all earlier
    ones, and `has_reached_sys` is true exactly when it returns one; both
    raise ValueError at the same empty hitbox.
   */
  lemma ScansAgree(m: MathLib, pos: Point, hitboxes: seq<seq<Point>>)
    requires SqrtLaws(m)
    ensures TouchedSys(m, pos, hitboxes) == RaysimPhoton.TouchedSys(pos, hitboxes)
    ensures HasReachedSys(m, pos, hitboxes) == RaysimPhoton.HasReachedSys(pos, hitboxes)
    ensures var r := TouchedSys(m, pos, hitboxes);
      && (r.Success? && r.value.Some? ==>
            RaysimPhoton.Hit(pos, hitboxes[r.value.value]) && RaysimPhoton.MissedBefore(pos, hitboxes, 0, r.value.value))
      && (r == Success(None) ==> RaysimPhoton.MissedBefore(pos, hitboxes, 0, |hitboxes|))
    ensures HasReachedSys(m, pos, hitboxes).Success? <==> TouchedSys(m, pos, hitboxes).Success?
    ensures HasReachedSys(m, pos, hitboxes).Success? ==>
      HasReachedSys(m, pos, hitboxes).value == TouchedSys(m, pos, hitboxes).value.Some?
  {
    ScansAgreeFrom(m, pos, hitboxes, 0);
    RaysimPhoton.TouchedSysFirstHit(pos, hitboxes);
    RaysimPhoton.HasReachedIffTouched(pos, hitboxes);
  }
}
