/**
  The photon of the ray simulator (raysim/photon.py): the first-in-list
  hit tests against the systems' hitboxes, and the Photon object with its
  append-only position history.
 */
module RaysimPhoton {
  import opened Wrappers
  import opened RaysimGeometry
  import opened RaysimColor

  /** The contact tolerance of the hit tests, in distance. */
  const Tolerance: real := 0.05

  /** The contact tolerance squared: the hit tests compare squared distances against it. */
  const ContactSq: real := 0.0025

  /** The smallest squared distance from pos to a point of a non-empty hitbox. */
  function MinSqDist(pos: Point, hitbox: seq<Point>): real
    requires |hitbox| > 0
  {
    if |hitbox| == 1 then SqDist(pos, hitbox[0])
    else
      var rest := MinSqDist(pos, hitbox[1..]);
      if SqDist(pos, hitbox[0]) <= rest then SqDist(pos, hitbox[0]) else rest
  }

  /** The minimum is the squared distance to some point of the hitbox, and no point is closer. */
  lemma {:induction false} MinSqDistIsMin(pos: Point, hitbox: seq<Point>)
    requires |hitbox| > 0
    ensures exists k :: 0 <= k < |hitbox| && MinSqDist(pos, hitbox) == SqDist(pos, hitbox[k])
    ensures forall k :: 0 <= k < |hitbox| ==> MinSqDist(pos, hitbox) <= SqDist(pos, hitbox[k])
  {
    if |hitbox| > 1 {
      MinSqDistIsMin(pos, hitbox[1..]);
      assert forall k :: 1 <= k < |hitbox| ==> hitbox[k] == hitbox[1..][k - 1];
      var j :| 0 <= j < |hitbox[1..]| && MinSqDist(pos, hitbox[1..]) == SqDist(pos, hitbox[1..][j]);
      if SqDist(pos, hitbox[0]) > MinSqDist(pos, hitbox[1..]) {
        assert MinSqDist(pos, hitbox) == SqDist(pos, hitbox[j + 1]);
      } else {
        assert MinSqDist(pos, hitbox) == SqDist(pos, hitbox[0]);
      }
    } else {
      assert MinSqDist(pos, hitbox) == SqDist(pos, hitbox[0]);
    }
  }

  /** The smallest value of a non-empty sequence: numpy's `np.min`. */
  function SeqMin(s: seq<real>): (r: real)
    requires |s| > 0
    ensures r in s
    ensures forall k :: 0 <= k < |s| ==> r <= s[k]
  {
    if |s| == 1 then s[0]
    else
      var rest := SeqMin(s[1..]);
      assert forall k :: 1 <= k < |s| ==> s[k] == s[1..][k - 1];
      if s[0] <= rest then s[0] else rest
  }

  /**
    `np.min(geo.distance(pos, hitbox)) < .05` for one system, on squared
    distances; `np.min` of an empty hitbox raises ValueError.
   */
  function Reaches(pos: Point, hitbox: seq<Point>): (r: Result<bool, PyError>)
    ensures r.Failure? <==> |hitbox| == 0
    ensures r.Failure? ==> r.error == ValueError
  {
    if |hitbox| == 0 then Failure(ValueError)
    else Success(MinSqDist(pos, hitbox) < ContactSq)
  }

  /** A system is reached exactly when some point of its hitbox is within the tolerance. */
  lemma ReachesIffHit(pos: Point, hitbox: seq<Point>)
    ensures Reaches(pos, hitbox) == Success(true) <==> Hit(pos, hitbox)
    ensures Reaches(pos, hitbox) == Success(false) <==> Miss(pos, hitbox)
  {
    if |hitbox| > 0 {
      MinSqDistIsMin(pos, hitbox);
    }
  }

  /** Some point of the hitbox is strictly within the tolerance of pos. */
  predicate Hit(pos: Point, hitbox: seq<Point>) {
    exists k :: 0 <= k < |hitbox| && SqDist(pos, hitbox[k]) < ContactSq
  }

  /** The hitbox is not empty and all its points are at least the tolerance away from pos. */
  predicate Miss(pos: Point, hitbox: seq<Point>) {
    |hitbox| > 0 && forall k :: 0 <= k < |hitbox| ==> ContactSq <= SqDist(pos, hitbox[k])
  }

  /**
    The test on squared distances is the source's test on distances: the
    smallest distance to the hitbox is below 0.05 exactly when the smallest
    squared distance is below 0.0025.
   */
  lemma {:induction false} ReachesIsMinDistanceTest(m: MathLib, pos: Point, hitbox: seq<Point>)
    requires SqrtLaws(m) && |hitbox| > 0
    ensures SeqMin(DistanceToEach(m, pos, hitbox)) < Tolerance <==> MinSqDist(pos, hitbox) < ContactSq
  {
    var ds := DistanceToEach(m, pos, hitbox);
    MinSqDistIsMin(pos, hitbox);
    var k :| 0 <= k < |ds| && ds[k] == SeqMin(ds);
    var j :| 0 <= j < |hitbox| && MinSqDist(pos, hitbox) == SqDist(pos, hitbox[j]);
    MinTestsAgree(m, pos, hitbox[k], hitbox[j], SeqMin(ds), ds[j], MinSqDist(pos, hitbox), SqDist(pos, hitbox[k]));
  }

  /** The two minima are attained at points k and j; comparing them with the tolerance agrees. */
  lemma MinTestsAgree(m: MathLib, pos: Point, pk: Point, pj: Point, dmin: real, dj: real, sqmin: real, sqk: real)
    requires SqrtLaws(m)
    requires dmin == Distance(m, pos, pk) && dmin <= dj && dj == Distance(m, pos, pj)
    requires sqmin == SqDist(pos, pj) && sqmin <= sqk && sqk == SqDist(pos, pk)
    ensures dmin < Tolerance <==> sqmin < ContactSq
  {
    assert Tolerance * Tolerance == ContactSq;
    DistanceBelowIffSquared(m, pos, pk, Tolerance);
    DistanceBelowIffSquared(m, pos, pj, Tolerance);
  }

  /** No system at an index below i is reached, and none of their hitboxes is empty. */
  predicate MissedBefore(pos: Point, hitboxes: seq<seq<Point>>, lo: nat, hi: nat)
    requires lo <= hi <= |hitboxes|
  {
    forall j :: lo <= j < hi ==> Miss(pos, hitboxes[j])
  }

  /** The scan of `touched_sys`, from index i onwards. */
  function TouchedFrom(pos: Point, hitboxes: seq<seq<Point>>, i: nat): (r: Result<Option<nat>, PyError>)
    requires i <= |hitboxes|
    decreases |hitboxes| - i
    ensures r.Success? && r.value.Some? ==> i <= r.value.value < |hitboxes|
  {
    if i == |hitboxes| then Success(None)
    else match Reaches(pos, hitboxes[i])
      case Failure(e) => Failure(e)
      case Success(true) => Success(Some(i))
      case Success(false) => TouchedFrom(pos, hitboxes, i + 1)
  }

  /**
    From index i, the scan finds the first system that is reached, after
    missing every system before it; it finds none when every system from i
    on is missed; it raises ValueError at the first empty hitbox, all systems
    before that one missed.
   */
  lemma {:induction false} TouchedFromFirstHit(pos: Point, hitboxes: seq<seq<Point>>, i: nat)
    requires i <= |hitboxes|
    decreases |hitboxes| - i
    ensures var r := TouchedFrom(pos, hitboxes, i);
      && (r.Success? && r.value.Some? ==>
            Hit(pos, hitboxes[r.value.value]) && MissedBefore(pos, hitboxes, i, r.value.value))
      && (r == Success(None) ==> MissedBefore(pos, hitboxes, i, |hitboxes|))
      && (r.Failure? ==> (r.error == ValueError &&
            exists k :: i <= k < |hitboxes| && |hitboxes[k]| == 0 && MissedBefore(pos, hitboxes, i, k)))
  {
    if i < |hitboxes| {
      ReachesIffHit(pos, hitboxes[i]);
      if Reaches(pos, hitboxes[i]) == Success(false) {
        TouchedFromFirstHit(pos, hitboxes, i + 1);
        var r := TouchedFrom(pos, hitboxes, i + 1);
        if r.Failure? {
          var k :| i + 1 <= k < |hitboxes| && |hitboxes[k]| == 0 && MissedBefore(pos, hitboxes, i + 1, k);
          assert MissedBefore(pos, hitboxes, i, k);
        }
      }
    }
  }

  /**
    `touched_sys(photon, systems)`: the index of the first system, in list
    order, that has a hitbox point within the tolerance of pos, or None.
   */
  function TouchedSys(pos: Point, hitboxes: seq<seq<Point>>): (r: Result<Option<nat>, PyError>)
    ensures r.Success? && r.value.Some? ==> r.value.value < |hitboxes|
  {
    TouchedFrom(pos, hitboxes, 0)
  }

  /**
    `touched_sys` returns the first system in list order that is reached,
    having missed all earlier ones; None when every system is missed; and
    raises ValueError at the first empty hitbox.
   */
  lemma TouchedSysFirstHit(pos: Point, hitboxes: seq<seq<Point>>)
    ensures var r := TouchedSys(pos, hitboxes);
      && (r.Success? && r.value.Some? ==>
            Hit(pos, hitboxes[r.value.value]) && MissedBefore(pos, hitboxes, 0, r.value.value))
      && (r == Success(None) ==> MissedBefore(pos, hitboxes, 0, |hitboxes|))
      && (r.Failure? ==> (r.error == ValueError &&
            exists k :: 0 <= k < |hitboxes| && |hitboxes[k]| == 0 && MissedBefore(pos, hitboxes, 0, k)))
  {
    TouchedFromFirstHit(pos, hitboxes, 0);
  }

  /** The scan of `has_reached_sys`, from index i onwards. */
  function HasReachedFrom(pos: Point, hitboxes: seq<seq<Point>>, i: nat): Result<bool, PyError>
    requires i <= |hitboxes|
    decreases |hitboxes| - i
  {
    if i == |hitboxes| then Success(false)
    else match Reaches(pos, hitboxes[i])
      case Failure(e) => Failure(e)
      case Success(true) => Success(true)
      case Success(false) => HasReachedFrom(pos, hitboxes, i + 1)
  }

  /** `has_reached_sys(photon, systems)`: some system, scanned in list order, is within the tolerance. */
  function HasReachedSys(pos: Point, hitboxes: seq<seq<Point>>): Result<bool, PyError> {
    HasReachedFrom(pos, hitboxes, 0)
  }

  /** Every system has a non-empty hitbox, so neither scan can raise. */
  predicate AllNonEmpty(hitboxes: seq<seq<Point>>) {
    forall j :: 0 <= j < |hitboxes| ==> |hitboxes[j]| > 0
  }

  lemma {:induction false} ScansAgreeFrom(pos: Point, hitboxes: seq<seq<Point>>, i: nat)
    requires i <= |hitboxes|
    decreases |hitboxes| - i
    ensures HasReachedFrom(pos, hitboxes, i).Success? <==> TouchedFrom(pos, hitboxes, i).Success?
    ensures HasReachedFrom(pos, hitboxes, i).Success? ==>
      HasReachedFrom(pos, hitboxes, i).value == TouchedFrom(pos, hitboxes, i).value.Some?
    ensures (forall j :: i <= j < |hitboxes| ==> |hitboxes[j]| > 0) ==> TouchedFrom(pos, hitboxes, i).Success?
  {
    if i < |hitboxes| && Reaches(pos, hitboxes[i]) == Success(false) {
      ScansAgreeFrom(pos, hitboxes, i + 1);
    }
  }

  /**
    The two scans agree: `has_reached_sys` raises exactly when `touched_sys`
    does, and otherwise is true exactly when `touched_sys` finds a system;
    when no hitbox is empty neither raises.
   */
  lemma HasReachedIffTouched(pos: Point, hitboxes: seq<seq<Point>>)
    ensures HasReachedSys(pos, hitboxes).Success? <==> TouchedSys(pos, hitboxes).Success?
    ensures HasReachedSys(pos, hitboxes).Success? ==>
      HasReachedSys(pos, hitboxes).value == TouchedSys(pos, hitboxes).value.Some?
    ensures AllNonEmpty(hitboxes) ==> TouchedSys(pos, hitboxes).Success?
  {
    ScansAgreeFrom(pos, hitboxes, 0);
  }

  /** `has_reached_sys` is true exactly when some system has a hitbox point within the tolerance. */
  lemma HasReachedIffSomeHit(pos: Point, hitboxes: seq<seq<Point>>)
    requires AllNonEmpty(hitboxes)
    ensures HasReachedSys(pos, hitboxes).Success?
    ensures HasReachedSys(pos, hitboxes).value <==> exists k :: 0 <= k < |hitboxes| && Hit(pos, hitboxes[k])
  {
    HasReachedIffTouched(pos, hitboxes);
    TouchedSysFirstHit(pos, hitboxes);
    var r := TouchedSys(pos, hitboxes);
    if r.value.None? {
      forall k | 0 <= k < |hitboxes| ensures !Hit(pos, hitboxes[k]) {
        assert Miss(pos, hitboxes[k]);
      }
    }
  }

  /** Every field of a photon, as a value. */
  datatype RayState = RayState(
    pos: Point,
    dir: real,
    dx: real,
    positions: seq<Point>,
    directions: seq<real>,
    virtualSource: Point,
    n: real,
    intensity: real,
    stopped: bool,
    touching: Option<nat>,
    wavelength: real,
    color: Rgb)

  /** The history is never empty and ends at the current position. */
  predicate HistoryEndsAtPos(s: RayState) {
    |s.positions| > 0 && s.positions[|s.positions| - 1] == s.pos
  }

  /**
    `Photon.move` on a value: one step of length dx along dir, appended to the
    history; nothing else changes.
   */
  function Moved(m: MathLib, s: RayState): (r: RayState)
    ensures r.pos == NewPos(m, s.dir, s.pos, s.dx)
    ensures |r.positions| == |s.positions| + 1 && r.positions[..|s.positions|] == s.positions
    ensures HistoryEndsAtPos(r)
    ensures r.(pos := s.pos, positions := s.positions) == s
  {
    var p := NewPos(m, s.dir, s.pos, s.dx);
    s.(pos := p, positions := s.positions + [p])
  }

  /** A photon of raysim/photon.py; `touching` is the index of the system in contact. */
  class Photon {
    var pos: Point
    var dir: real
    var dx: real
    var positions: seq<Point>
    var directions: seq<real>
    var virtualSource: Point
    var n: real
    var intensity: real
    var stopped: bool
    var touching: Option<nat>
    var wavelength: real
    var color: Rgb

    function State(): RayState
      reads this
    {
      RayState(pos, dir, dx, positions, directions, virtualSource, n, intensity, stopped, touching, wavelength, color)
    }

    /** `Photon.__init__`: a one-point history, not stopped, the virtual source defaulting to pos. */
    constructor(pos: Point, dir: real, dx: real, n: real, intensity: real, touching: Option<nat>,
                wavelength: real, virtualSource: Option<Point>)
      ensures this.pos == pos && this.dir == dir && this.dx == dx
      ensures positions == [pos] && directions == [dir]
      ensures this.virtualSource == (if virtualSource.None? then pos else virtualSource.value)
      ensures this.n == n && this.intensity == intensity && !stopped && this.touching == touching
      ensures this.wavelength == wavelength && color == WavelengthToColor(wavelength)
      ensures HistoryEndsAtPos(State())
    {
      this.pos := pos;
      this.dir := dir;
      this.dx := dx;
      positions := [pos];
      directions := [dir];
      this.virtualSource := if virtualSource.None? then pos else virtualSource.value;
      this.n := n;
      this.intensity := intensity;
      stopped := false;
      this.touching := touching;
      this.wavelength := wavelength;
      color := WavelengthToColor(wavelength);
    }

    /** A photon whose every field is given: what `copy.deepcopy` produces. */
    constructor FromState(s: RayState)
      ensures State() == s
    {
      pos, dir, dx, positions, directions := s.pos, s.dir, s.dx, s.positions, s.directions;
      virtualSource, n, intensity, stopped := s.virtualSource, s.n, s.intensity, s.stopped;
      touching, wavelength, color := s.touching, s.wavelength, s.color;
    }

    /** `copy.deepcopy(photon)`: a new object with the same state. */
    method Copy() returns (c: Photon)
      ensures fresh(c) && c.State() == State()
    {
      c := new Photon.FromState(State());
    }

    /** `Photon.move`: step along dir and append the new position to the history. */
    method Move(m: MathLib)
      modifies this
      ensures State() == Moved(m, old(State()))
      ensures HistoryEndsAtPos(State())
    {
      pos := NewPos(m, dir, pos, dx);
      positions := positions + [pos];
    }
  }
}
