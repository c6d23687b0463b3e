/**
  The optical systems of the ray simulator (raysim/systems.py): a Mirror that
  reflects a photon or splits it into a transmitted and a reflected ray, and
  a Screen that absorbs it. Each system carries a hitbox of evenly spaced
  points along its segment.
 */
module RaysimSystems {
  import opened Wrappers
  import opened PyNumbers
  import opened RaysimGeometry
  import opened RaysimPhoton

  /** The spacing the hitbox sample count is derived from: `int(height / .05)` points. */
  const HitboxSpacing: real := 0.05

  /**
    `np.linspace(a, b, num)` on two points: num points, the first at a, the
    last at b when num >= 2, evenly spaced in between; a negative count raises.
   */
  function Linspace(a: Point, b: Point, num: int): (r: Result<seq<Point>, PyError>)
    ensures r.Failure? <==> num < 0
    ensures r.Failure? ==> r.error == ValueError
    ensures r.Success? ==> |r.value| == num
    ensures r.Success? && 1 <= num ==> r.value[0] == a
    ensures r.Success? && 2 <= num ==> r.value[num - 1] == b
  {
    if num < 0 then Failure(ValueError)
    else Success(seq(num, k requires 0 <= k < num => LinPoint(a, b, num, k)))
  }

  /** Consecutive samples of `np.linspace` are one step (b - a) / (num - 1) apart. */
  lemma LinspaceEvenlySpaced(a: Point, b: Point, num: int)
    requires 2 <= num
    ensures forall k :: 0 <= k < num - 1 ==>
      && Linspace(a, b, num).value[k + 1].x - Linspace(a, b, num).value[k].x == (b.x - a.x) / (num - 1) as real
      && Linspace(a, b, num).value[k + 1].y - Linspace(a, b, num).value[k].y == (b.y - a.y) / (num - 1) as real
  {
    var pts := Linspace(a, b, num).value;
    forall k | 0 <= k < num - 1
      ensures pts[k + 1].x - pts[k].x == (b.x - a.x) / (num - 1) as real
      ensures pts[k + 1].y - pts[k].y == (b.y - a.y) / (num - 1) as real
    {
      LinStep(a.x, b.x, num, k);
      LinStep(a.y, b.y, num, k);
    }
  }

  /** numpy's sample k of num: start + k * step, with the last sample set to the stop exactly. */
  function LinPoint(a: Point, b: Point, num: int, k: int): Point
    requires 0 <= k < num
  {
    if num == 1 then a
    else if k == num - 1 then b
    else Point(a.x + k as real * ((b.x - a.x) / (num - 1) as real),
               a.y + k as real * ((b.y - a.y) / (num - 1) as real))
  }

  lemma LinStep(a: real, b: real, num: int, k: int)
    requires 2 <= num && 0 <= k < num - 1
    ensures var step := (b - a) / (num - 1) as real;
      (if k + 1 == num - 1 then b else a + (k + 1) as real * step) - (a + k as real * step) == step
  {
    var step := (b - a) / (num - 1) as real;
    assert (num - 1) as real * step == b - a;
  }

  /** The sample count `int(height / .05)`. */
  function HitboxCount(height: real): int {
    Trunc(height / HitboxSpacing)
  }

  /** The hitbox has at least one point exactly when the height is at least 0.05, and can be built exactly when it exceeds -0.05. */
  lemma HitboxCountSign(height: real)
    ensures 1 <= HitboxCount(height) <==> HitboxSpacing <= height
    ensures 0 <= HitboxCount(height) <==> -HitboxSpacing < height
  {
    var q := height / HitboxSpacing;
    assert height == q * HitboxSpacing;
  }

  /** The two ends of a system's segment, rotated by rot about its centre pos. */
  function SegmentStart(m: MathLib, pos: Point, height: real, rot: real): Point {
    Point(pos.x - m.sin(rot) * height / 2.0, pos.y + m.cos(rot) * height / 2.0)
  }

  function SegmentEnd(m: MathLib, pos: Point, height: real, rot: real): Point {
    Point(pos.x + m.sin(rot) * height / 2.0, pos.y - m.cos(rot) * height / 2.0)
  }

  /** The hitbox `__init__` builds for both kinds of system. */
  function Hitbox(m: MathLib, pos: Point, height: real, rot: real): Result<seq<Point>, PyError> {
    Linspace(SegmentStart(m, pos, height, rot), SegmentEnd(m, pos, height, rot), HitboxCount(height))
  }

  /**
    A hitbox holds `int(height / .05)` points from the start to the end of the
    segment, both included once there are two points, and is empty exactly
    when the height is below 0.05.
   */
  lemma HitboxShape(m: MathLib, pos: Point, height: real, rot: real)
    ensures Hitbox(m, pos, height, rot).Success? <==> -HitboxSpacing < height
    ensures Hitbox(m, pos, height, rot).Success? ==>
      var h := Hitbox(m, pos, height, rot).value;
      && |h| == HitboxCount(height)
      && (|h| > 0 <==> HitboxSpacing <= height)
      && (|h| >= 1 ==> h[0] == SegmentStart(m, pos, height, rot))
      && (|h| >= 2 ==> h[|h| - 1] == SegmentEnd(m, pos, height, rot))
  {
    HitboxCountSign(height);
  }

  /** A Mirror (with its reflection coefficient) or a Screen, together with its hitbox. */
  datatype System =
    | Mirror(pos: Point, height: real, rot: real, reflexion: real, hitbox: seq<Point>)
    | Screen(pos: Point, height: real, rot: real, hitbox: seq<Point>)
  {
    /**
      `touched(photon, rays)`: the photon's new state and the rays appended
      to `rays` are those of `Interact`.
     */
    method Touched(p: Photon, rays: seq<Photon>) returns (rays': seq<Photon>)
      modifies p
      ensures p.State() == Interact(this, old(p.State())).ray
      ensures |rays'| == |rays| + |Interact(this, old(p.State())).spawned|
      ensures rays'[..|rays|] == rays
      ensures forall k :: |rays| <= k < |rays'| ==>
        fresh(rays'[k]) && rays'[k].State() == Interact(this, old(p.State())).spawned[k - |rays|]
      ensures forall a, b :: |rays| <= a < b < |rays'| ==> rays'[a] != rays'[b]
    {
      match this
      case Mirror(_, _, rot, r, _) =>
        if r != 1.0 {
          var through := SpawnChild(p, p.intensity * (1.0 - r), p.dir);
          var reflected := SpawnChild(p, p.intensity * r, Reflect(rot, p.dir));
          rays' := rays + [through, reflected];
          p.stopped := true;
          assert through.State() == Interact(this, old(p.State())).spawned[0];
          assert reflected.State() == Interact(this, old(p.State())).spawned[1];
        } else {
          p.dir := Reflect(rot, p.dir);
          p.intensity := p.intensity * r;
          rays' := rays;
        }
      case Screen(_, _, _, _) =>
        p.stopped := true;
        rays' := rays;
    }
  }

  /**
    A deep copy of p restarted at p's position with a one-point history, the
    given intensity and direction: one ray of a split.
   */
  method SpawnChild(p: Photon, intensity: real, dir: real) returns (c: Photon)
    ensures fresh(c)
    ensures c.State() == p.State().(positions := [p.pos], intensity := intensity, dir := dir)
  {
    c := p.Copy();
    c.positions := [p.pos];
    c.intensity := intensity;
    c.dir := dir;
  }

  /**
    `Mirror.__init__`: a mirror at pos with the given height, rotation and
    reflection coefficient. It can be built exactly when the height exceeds
    -0.05 (numpy refuses a negative sample count); its hitbox holds
    `int(height / .05)` points running from the segment's start to its end.
   */
  function NewMirror(m: MathLib, pos: Point, height: real, rot: real, reflexion: real): (r: Result<System, PyError>)
    ensures r.Success? <==> -HitboxSpacing < height
    ensures r.Failure? ==> r.error == ValueError
    ensures r.Success? ==>
      && r.value == Mirror(pos, height, rot, reflexion, r.value.hitbox)
      && |r.value.hitbox| == HitboxCount(height)
      && (|r.value.hitbox| >= 1 ==> r.value.hitbox[0] == SegmentStart(m, pos, height, rot))
      && (|r.value.hitbox| >= 2 ==> r.value.hitbox[|r.value.hitbox| - 1] == SegmentEnd(m, pos, height, rot))
    ensures r.Success? ==> r.value.hitbox == Hitbox(m, pos, height, rot).value
  {
    HitboxShape(m, pos, height, rot);
    match Hitbox(m, pos, height, rot)
    case Failure(e) => Failure(e)
    case Success(h) => Success(Mirror(pos, height, rot, reflexion, h))
  }

  /**
    `Screen.__init__`: a screen at pos with the given height and rotation,
    built under the same condition and with the same hitbox as a mirror's.
   */
  function NewScreen(m: MathLib, pos: Point, height: real, rot: real): (r: Result<System, PyError>)
    ensures r.Success? <==> -HitboxSpacing < height
    ensures r.Failure? ==> r.error == ValueError
    ensures r.Success? ==>
      && r.value == Screen(pos, height, rot, r.value.hitbox)
      && |r.value.hitbox| == HitboxCount(height)
      && (|r.value.hitbox| >= 1 ==> r.value.hitbox[0] == SegmentStart(m, pos, height, rot))
      && (|r.value.hitbox| >= 2 ==> r.value.hitbox[|r.value.hitbox| - 1] == SegmentEnd(m, pos, height, rot))
    ensures r.Success? ==> r.value.hitbox == Hitbox(m, pos, height, rot).value
  {
    HitboxShape(m, pos, height, rot);
    match Hitbox(m, pos, height, rot)
    case Failure(e) => Failure(e)
    case Success(h) => Success(Screen(pos, height, rot, h))
  }

  /**
    The law of reflection on a mirror rotated by rot: dir becomes
    pi + 2 rot - dir, so the mirror's normal, at rot + pi/2, bisects the
    incoming and the outgoing direction.
   */
  function Reflect(rot: real, dir: real): (d: real)
    ensures (d + dir) / 2.0 == rot + Pi / 2.0
  {
    Pi + 2.0 * rot - dir
  }

  /** Reflecting twice on the same mirror restores the direction. */
  lemma ReflectInvolution(rot: real, dir: real)
    ensures Reflect(rot, Reflect(rot, dir)) == dir
  {}

  /** What an interaction does: the photon's new state and the rays it appends. */
  datatype Effect = Effect(ray: RayState, spawned: seq<RayState>)

  /**
    `touched` on values. The photon never moves and keeps its contact; the
    rays appended start at the photon's position with a one-point history and
    copy everything else, contact included.
   */
  function Interact(sys: System, s: RayState): (e: Effect)
    ensures e.ray.pos == s.pos && e.ray.positions == s.positions
    ensures e.ray.touching == s.touching && e.ray.dx == s.dx
    ensures s.stopped ==> e.ray.stopped
    ensures |e.spawned| == 0 || |e.spawned| == 2
    ensures forall c :: c in e.spawned ==>
      c.pos == s.pos && c.positions == [s.pos] && c.touching == s.touching
      && c.stopped == s.stopped && c.dx == s.dx
  {
    match sys
    case Mirror(_, _, rot, r, _) =>
      if r != 1.0 then
        var through := s.(positions := [s.pos], intensity := s.intensity * (1.0 - r));
        var reflected := s.(positions := [s.pos], intensity := s.intensity * r, dir := Reflect(rot, s.dir));
        Effect(s.(stopped := true), [through, reflected])
      else
        Effect(s.(dir := Reflect(rot, s.dir), intensity := s.intensity * r), [])
    case Screen(_, _, _, _) =>
      Effect(s.(stopped := true), [])
  }

  /**
    A mirror with reflexion 1 turns the photon to pi + 2 rot - dir and leaves
    its intensity and stopped flag alone; nothing is appended.
   */
  lemma MirrorReflects(sys: System, s: RayState)
    requires sys.Mirror? && sys.reflexion == 1.0
    ensures Interact(sys, s).ray == s.(dir := Pi + 2.0 * sys.rot - s.dir)
    ensures Interact(sys, s).spawned == []
  {}

  /**
    A mirror with reflexion r != 1 stops the photon and appends two rays
    that start where it is: first the transmitted one, same direction and
    intensity (1 - r) I, then the reflected one, direction pi + 2 rot - dir
    and intensity r I.
   */
  lemma MirrorSplits(sys: System, s: RayState)
    requires sys.Mirror? && sys.reflexion != 1.0
    ensures Interact(sys, s).ray == s.(stopped := true)
    ensures |Interact(sys, s).spawned| == 2
    ensures Interact(sys, s).spawned[0] == s.(positions := [s.pos], intensity := (1.0 - sys.reflexion) * s.intensity)
    ensures Interact(sys, s).spawned[1] ==
      s.(positions := [s.pos], intensity := sys.reflexion * s.intensity, dir := Pi + 2.0 * sys.rot - s.dir)
  {}

  /** The two rays of a split carry the parent's intensity between them. */
  lemma SplitConservesIntensity(sys: System, s: RayState)
    requires sys.Mirror? && sys.reflexion != 1.0
    ensures Interact(sys, s).spawned[0].intensity + Interact(sys, s).spawned[1].intensity == s.intensity
  {
    var r := sys.reflexion;
    assert s.intensity * (1.0 - r) + s.intensity * r == s.intensity;
  }

  /** A screen stops the photon, changes nothing else and appends nothing. */
  lemma ScreenAbsorbs(sys: System, s: RayState)
    requires sys.Screen?
    ensures Interact(sys, s) == Effect(s.(stopped := true), [])
  {}
}
