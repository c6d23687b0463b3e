/**
  The photon of the first version of the simulator (src/photons.py; the
  photon of trajectories.py is the same class). It has no intensity or
  colour, and starts with no contact. Its hit tests are textually those of
  raysim/photon.py and are modelled once, in RaysimPhoton.
 */
module SrcPhotons {
  import opened Wrappers
  import opened RaysimGeometry

  /** Every field of a photon, as a value. */
  datatype LegacyRay = LegacyRay(
    pos: Point,
    dir: real,
    dx: real,
    positions: seq<Point>,
    directions: seq<real>,
    n: real,
    stopped: bool,
    touching: Option<nat>)

  /** The history is never empty and ends at the current position. */
  predicate EndsAtPos(s: LegacyRay) {
    |s.positions| > 0 && s.positions[|s.positions| - 1] == s.pos
  }

  /** `move` on a value: one step of length dx along dir, appended to the history. */
  function Stepped(m: MathLib, s: LegacyRay): (r: LegacyRay)
    ensures r.pos == NewPos(m, s.dir, s.pos, s.dx)
    ensures |r.positions| == |s.positions| + 1 && r.positions[..|s.positions|] == s.positions
    ensures EndsAtPos(r)
    ensures r.(pos := s.pos, positions := s.positions) == s
  {
    var p := NewPos(m, s.dir, s.pos, s.dx);
    s.(pos := p, positions := s.positions + [p])
  }

  /** k moves in a row. */
  function Steps(m: MathLib, s: LegacyRay, k: nat): LegacyRay {
    if k == 0 then s else Stepped(m, Steps(m, s, k - 1))
  }

  /**
    The history is append-only: k moves add exactly k entries after the
    old ones, and from a state whose history ends at pos (a fresh photon's
    does) it still ends at pos.
   */
  lemma {:induction false} StepsAppendOnly(m: MathLib, s: LegacyRay, k: nat)
    ensures |Steps(m, s, k).positions| == |s.positions| + k
    ensures Steps(m, s, k).positions[..|s.positions|] == s.positions
    ensures EndsAtPos(s) ==> EndsAtPos(Steps(m, s, k))
  {
    if k > 0 {
      StepsAppendOnly(m, s, k - 1);
      var t := Steps(m, s, k - 1);
      assert Steps(m, s, k).positions[..|t.positions|] == t.positions;
      assert t.positions[..|s.positions|] == s.positions;
    }
  }

  /** A photon of src/photons.py and trajectories.py; `touching` is the index of the system in contact. */
  class Photon {
    var pos: Point
    var dir: real
    var dx: real
    var positions: seq<Point>
    var directions: seq<real>
    var n: real
    var stopped: bool
    var touching: Option<nat>

    function State(): LegacyRay
      reads this
    {
      LegacyRay(pos, dir, dx, positions, directions, n, stopped, touching)
    }

    /** `Photon.__init__`: a one-point history, not stopped, no contact. */
    constructor(pos: Point, dir: real, dx: real, n: real)
      ensures State() == LegacyRay(pos, dir, dx, [pos], [dir], n, false, None)
      ensures EndsAtPos(State())
    {
      this.pos := pos;
      this.dir := dir;
      this.dx := dx;
      positions := [pos];
      directions := [dir];
      this.n := n;
      stopped := false;
      touching := None;
    }

    /** `Photon.move`: step along dir and append the new position to the history. */
    method Move(m: MathLib)
      modifies this
      ensures State() == Stepped(m, old(State()))
      ensures EndsAtPos(State())
    {
      pos := NewPos(m, dir, pos, dx);
      positions := positions + [pos];
    }
  }
}
