/**
  The systems of the first version of the simulator (src/systems.py): a
  mirror that always reflects and a screen that stops the photon. Their
  hitboxes are those of raysim/systems.py.
 */
module SrcSystems {
  import opened Wrappers
  import opened RaysimGeometry
  import RaysimSystems
  import opened SrcPhotons

  /** A `Miror` or a `Screen`, with the hitbox its constructor computed. */
  datatype LegacySystem =
    | Miror(pos: Point, height: real, rot: real, hitbox: seq<Point>)
    | Screen(pos: Point, height: real, rot: real, hitbox: seq<Point>)
  {
    /**
      `touched(photon)`: the mirror turns the photon's direction and
      changes nothing else; the screen stops the photon and changes nothing
      else. Neither creates photons.
     */
    method Touched(p: Photon)
      modifies p
      ensures Miror? ==> p.State() == old(p.State()).(dir := Turn(rot, old(p.dir)))
      ensures Screen? ==> p.State() == old(p.State()).(stopped := true)
    {
      match this
      case Miror(_, _, _, _) => p.dir := Turn(rot, p.dir);
      case Screen(_, _, _, _) => p.stopped := true;
    }
  }

  /**
    `Miror.__init__`: the hitbox is raysim/systems.py's, `int(height/0.05)`
    evenly spaced points between the segment's ends; numpy refuses a
    negative count.
   */
  function NewMiror(m: MathLib, pos: Point, height: real, rot: real): (r: Result<LegacySystem, PyError>)
    ensures r.Success? <==> -RaysimSystems.HitboxSpacing < height
    ensures r.Failure? ==> r.error == ValueError
    ensures r.Success? ==> r.value == Miror(pos, height, rot, r.value.hitbox)
    ensures r.Success? ==> r.value.hitbox == RaysimSystems.Hitbox(m, pos, height, rot).value
  {
    RaysimSystems.HitboxShape(m, pos, height, rot);
    match RaysimSystems.Hitbox(m, pos, height, rot)
    case Failure(e) => Failure(e)
    case Success(h) => Success(Miror(pos, height, rot, h))
  }

  /** `Screen.__init__`: the same hitbox as the mirror's. */
  function NewScreen(m: MathLib, pos: Point, height: real, rot: real): (r: Result<LegacySystem, PyError>)
    ensures r.Success? <==> -RaysimSystems.HitboxSpacing < height
    ensures r.Failure? ==> r.error == ValueError
    ensures r.Success? ==> r.value == Screen(pos, height, rot, r.value.hitbox)
    ensures r.Success? ==> r.value.hitbox == RaysimSystems.Hitbox(m, pos, height, rot).value
  {
    RaysimSystems.HitboxShape(m, pos, height, rot);
    match RaysimSystems.Hitbox(m, pos, height, rot)
    case Failure(e) => Failure(e)
    case Success(h) => Success(Screen(pos, height, rot, h))
  }

  /**
    The mirror's rule `pi + dir + 2 * (rot - dir)`: it is the full
    reflection `pi + 2 * rot - dir` of raysim/systems.py.
   */
  function Turn(rot: real, dir: real): (d: real)
    ensures d == RaysimSystems.Reflect(rot, dir)
  {
    Pi + dir + 2.0 * (rot - dir)
  }

  /** Turning twice about the same mirror restores the direction. */
  lemma TurnInvolution(rot: real, dir: real)
    ensures Turn(rot, Turn(rot, dir)) == dir
  {
    RaysimSystems.ReflectInvolution(rot, dir);
  }
}
