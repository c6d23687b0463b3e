/**
  The simulation driver of raysim (raysim/simulation.py, `simulate`): the
  initial rays are copied, then the list of rays is walked in order while it
  grows. Each ray is stepped tick by tick until it stops or its history
  reaches the iteration cap; a tick moves the ray, acquires a contact with the
  first system in range when it has none (calling that system's `touched`),
  releases the contact once no system is in range, and stops the ray when it
  leaves the playground. The walk breaks once the list holds more than the
  ray cap.

  The pure functions `Tick`, `Walk` and `Run` say what one tick, one ray's
  inner loop and the outer loop compute; the methods `Step` and `Simulate`
  do it on Photon objects and are proved to agree with them.
 */
module RaysimSimulation {
  import opened Wrappers
  import opened RaysimGeometry
  import opened RaysimPhoton
  import opened RaysimSystems

  function Max(a: int, b: int): int {
    if a < b then b else a
  }

  /** The hitboxes of the systems, in list order. */
  function Hitboxes(systems: seq<System>): (hbs: seq<seq<Point>>)
    ensures |hbs| == |systems|
    ensures forall k :: 0 <= k < |systems| ==> hbs[k] == systems[k].hitbox
  {
    seq(|systems|, k requires 0 <= k < |systems| => systems[k].hitbox)
  }

  /** No system has an empty hitbox, so the hit tests never raise. */
  predicate WellFormed(systems: seq<System>) {
    AllNonEmpty(Hitboxes(systems))
  }

  /** Some system has a hitbox point within the tolerance of pos. */
  predicate InRange(pos: Point, systems: seq<System>) {
    exists k :: 0 <= k < |systems| && Hit(pos, systems[k].hitbox)
  }

  /** System k is within the tolerance of pos and no system before it is. */
  predicate FirstInRange(pos: Point, systems: seq<System>, k: nat) {
    && k < |systems|
    && Hit(pos, systems[k].hitbox)
    && forall j :: 0 <= j < k ==> Miss(pos, systems[j].hitbox)
  }

  /** The parameters of one run of `simulate`. */
  datatype Config = Config(
    m: MathLib,
    systems: seq<System>,
    playground: Box,
    dx: real,
    maxIterations: int,
    maxRays: int)

  /** A ray whose inner loop is over: it is stopped or its history reached the cap. */
  predicate Finished(s: RayState, maxIterations: int) {
    s.stopped || maxIterations <= |s.positions|
  }

  /**
    One tick of the inner loop of `simulate`, on values: move, then acquire
    or release the contact, then stop the ray if it left the playground.
   */
  function Tick(c: Config, s: RayState): (e: Effect)
    requires WellFormed(c.systems)
    ensures e.ray.positions == s.positions + [e.ray.pos]
  {
    var s1 := Moved(c.m, s);
    var e := Contact(c.systems, s1);
    if !IsIn(e.ray.pos, c.playground) then Effect(e.ray.(stopped := true), e.spawned) else e
  }

  /**
    The contact part of a tick, once the ray has moved: acquire the first
    system in range when the ray has no contact, release the contact when no
    system is in range. Both scans succeed on well-formed systems (see
    `HasReachedIffTouched`); the other results cannot occur there.
   */
  function Contact(systems: seq<System>, s: RayState): (e: Effect)
    ensures e.ray.pos == s.pos && e.ray.positions == s.positions
  {
    var hbs := Hitboxes(systems);
    match HasReachedSys(s.pos, hbs)
    case Success(true) =>
      if s.touching.None? then
        match TouchedSys(s.pos, hbs)
        case Success(Some(k)) => Interact(systems[k], s.(touching := Some(k)))
        case _ => Effect(s, [])
      else Effect(s, [])
    case Success(false) =>
      if s.touching.Some? then Effect(s.(touching := None), []) else Effect(s, [])
    case Failure(_) => Effect(s, [])
  }

  /**
    A tick moves the ray one step along its direction and appends exactly
    that point; it keeps the step size, never restarts a stopped ray and
    leaves the ray stopped when it is outside the playground. The rays it
    spawns start with a one-point history and a contact.
   */
  lemma TickFacts(c: Config, s: RayState)
    requires WellFormed(c.systems)
    ensures var e := Tick(c, s);
      && e.ray.pos == NewPos(c.m, s.dir, s.pos, s.dx)
      && e.ray.positions == s.positions + [e.ray.pos]
      && e.ray.dx == s.dx
      && (s.stopped ==> e.ray.stopped)
      && (!IsIn(e.ray.pos, c.playground) ==> e.ray.stopped)
      && (forall r :: r in e.spawned ==>
            |r.positions| == 1 && r.touching.Some? && r.stopped == s.stopped && r.dx == s.dx)
  {}

  /**
    The contact rules of a tick: afterwards the ray has a contact exactly when
    some system is in range; a contact is acquired only by a ray without one,
    and it is then the first system in range, in list order; a ray that
    already has a contact spawns nothing and keeps its direction and
    intensity, and keeps that contact while some system stays in range.
   */
  lemma TickContact(c: Config, s: RayState)
    requires WellFormed(c.systems)
    ensures var e := Tick(c, s);
      && (e.ray.touching.None? <==> !InRange(e.ray.pos, c.systems))
      && (s.touching.None? && e.ray.touching.Some? ==> FirstInRange(e.ray.pos, c.systems, e.ray.touching.value))
      && (s.touching.Some? ==>
            && e.spawned == []
            && e.ray == Moved(c.m, s).(touching := e.ray.touching, stopped := s.stopped || !IsIn(e.ray.pos, c.playground)))
      && (s.touching.Some? && e.ray.touching.Some? ==> e.ray.touching == s.touching)
  {
    ContactRules(c.systems, Moved(c.m, s));
  }

  /** The contact rules of `TickContact`, for the ray once it has moved. */
  lemma ContactRules(systems: seq<System>, s: RayState)
    requires WellFormed(systems)
    ensures var e := Contact(systems, s);
      && (e.ray.touching.None? <==> !InRange(s.pos, systems))
      && (s.touching.None? && e.ray.touching.Some? ==> FirstInRange(s.pos, systems, e.ray.touching.value))
      && (s.touching.Some? ==> e.spawned == [] && e.ray == s.(touching := e.ray.touching))
      && (s.touching.Some? && e.ray.touching.Some? ==> e.ray.touching == s.touching)
  {
    var hbs := Hitboxes(systems);
    HasReachedIffTouched(s.pos, hbs);
    HasReachedIffSomeHit(s.pos, hbs);
    TouchedSysFirstHit(s.pos, hbs);
  }

  /**
    The inner loop of `simulate` for one ray, on values: tick until the ray
    is stopped or its history holds maxIterations points. The result is the
    ray's final state and the rays it appended, in order.
   */
  function Walk(c: Config, s: RayState): (e: Effect)
    requires WellFormed(c.systems)
    decreases c.maxIterations - |s.positions|, 1
  {
    if s.stopped || c.maxIterations <= |s.positions| then Effect(s, [])
    else WalkOn(c, s)
  }

  /** One pass of the inner loop's body: a tick, then the rest of the walk. */
  function WalkOn(c: Config, s: RayState): (e: Effect)
    requires WellFormed(c.systems) && |s.positions| < c.maxIterations
    decreases c.maxIterations - |s.positions|, 0
  {
    var t := Tick(c, s);
    var w := Walk(c, t.ray);
    Effect(w.ray, t.spawned + w.spawned)
  }

  /**
    When its inner loop ends a ray is stopped or has at least maxIterations
    points, but never more than max(maxIterations, its starting length); its
    earlier history is kept, it still ends at the current position, its step
    size is unchanged, and every ray it spawned starts with a one-point
    history, not stopped, and with a contact.
   */
  lemma {:induction false} WalkFacts(c: Config, s: RayState)
    requires WellFormed(c.systems)
    decreases c.maxIterations - |s.positions|
    ensures var e := Walk(c, s);
      && Finished(e.ray, c.maxIterations)
      && |e.ray.positions| <= Max(c.maxIterations, |s.positions|)
      && s.positions <= e.ray.positions
      && (e.ray == s || HistoryEndsAtPos(e.ray))
      && e.ray.dx == s.dx
      && (forall r :: r in e.spawned ==> |r.positions| == 1 && r.touching.Some? && !r.stopped && r.dx == s.dx)
  {
    if !(s.stopped || c.maxIterations <= |s.positions|) {
      assert Walk(c, s) == WalkOn(c, s);
      var t := Tick(c, s);
      TickFacts(c, s);
      WalkFacts(c, t.ray);
    }
  }

  /** The rays after the outer loop, and how many of them it visited. */
  datatype Outcome = Outcome(rays: seq<RayState>, visited: nat)

  /** The list after visiting ray i: ray i replaced by its final state, its spawn appended. */
  function Visit(c: Config, rays: seq<RayState>, i: nat): (next: seq<RayState>)
    requires WellFormed(c.systems) && i < |rays|
    ensures |next| >= |rays| && next[..i] == rays[..i] && next[i + 1..|rays|] == rays[i + 1..]
  {
    var e := Walk(c, rays[i].(dx := c.dx));
    rays[i := e.ray] + e.spawned
  }

  /**
    The outer loop of `simulate` from index i, on values: visit ray i, then
    break once more than maxRays rays are listed, or go on with ray i + 1.
   */
  function Run(c: Config, rays: seq<RayState>, i: nat): (o: Outcome)
    requires WellFormed(c.systems) && i <= |rays|
    decreases c.maxRays - i
    ensures |rays| <= |o.rays| && i <= o.visited <= |o.rays|
    ensures o.visited < |o.rays| ==> c.maxRays < |o.rays|
  {
    if i == |rays| then Outcome(rays, i)
    else
      var next := Visit(c, rays, i);
      if c.maxRays < |next| then Outcome(next, i + 1)
      else Run(c, next, i + 1)
  }

  /**
    Visiting ray i changes only ray i, which keeps its earlier history and
    ends finished, with the run's step size and no more than
    max(maxIterations, its starting length) points; every appended ray has a
    one-point history.
   */
  lemma VisitFacts(c: Config, rays: seq<RayState>, i: nat)
    requires WellFormed(c.systems) && i < |rays|
    ensures var next := Visit(c, rays, i);
      && (forall k :: 0 <= k < |rays| && k != i ==> next[k] == rays[k])
      && rays[i].positions <= next[i].positions
      && Finished(next[i], c.maxIterations)
      && next[i].dx == c.dx
      && |next[i].positions| <= Max(c.maxIterations, |rays[i].positions|)
      && (forall k :: |rays| <= k < |next| ==> |next[k].positions| == 1)
  {
    var e := Walk(c, rays[i].(dx := c.dx));
    WalkFacts(c, rays[i].(dx := c.dx));
    var next := Visit(c, rays, i);
    forall k | |rays| <= k < |next| ensures |next[k].positions| == 1 {
      assert next[k] == e.spawned[k - |rays|];
    }
  }

  /**
    The list only grows at its end and rays are only changed when visited:
    rays before i and rays not visited keep their state, and every ray's
    history keeps its earlier points.
   */
  lemma {:induction false} RunKeepsUnvisited(c: Config, rays: seq<RayState>, i: nat)
    requires WellFormed(c.systems) && i <= |rays|
    decreases c.maxRays - i
    ensures var o := Run(c, rays, i);
      && o.rays[..i] == rays[..i]
      && (forall k :: o.visited <= k < |rays| ==> o.rays[k] == rays[k])
      && (forall k :: 0 <= k < |rays| ==> rays[k].positions <= o.rays[k].positions)
      && (forall k :: |rays| <= k < |o.rays| && o.visited <= k ==> |o.rays[k].positions| == 1)
  {
    if i < |rays| {
      var next := Visit(c, rays, i);
      VisitFacts(c, rays, i);
      if |next| <= c.maxRays {
        RunKeepsUnvisited(c, next, i + 1);
        var o := Run(c, next, i + 1);
        assert o.rays[..i] == o.rays[..i + 1][..i];
        forall k | |rays| <= k < |o.rays| && o.visited <= k
          ensures |o.rays[k].positions| == 1
        {
          if k < |next| {
            assert o.rays[k] == next[k];
          }
        }
      }
    }
  }

  /**
    Every visited ray is finished: stopped or at the iteration cap, with the
    run's step size, and with no more than max(maxIterations, its starting
    length) points.
   */
  lemma {:induction false} RunFinishesVisited(c: Config, rays: seq<RayState>, i: nat)
    requires WellFormed(c.systems) && i <= |rays|
    decreases c.maxRays - i
    ensures var o := Run(c, rays, i);
      forall k :: i <= k < o.visited ==>
        && Finished(o.rays[k], c.maxIterations)
        && o.rays[k].dx == c.dx
        && |o.rays[k].positions| <= Max(c.maxIterations, if k < |rays| then |rays[k].positions| else 1)
  {
    if i < |rays| {
      var next := Visit(c, rays, i);
      VisitFacts(c, rays, i);
      if |next| <= c.maxRays {
        RunFinishesVisited(c, next, i + 1);
        RunKeepsUnvisited(c, next, i + 1);
        var o := Run(c, next, i + 1);
        assert o.rays[i] == o.rays[..i + 1][i] == next[i];
      }
    }
  }

  /**
    At most max(1, maxRays) rays are stepped: the walk goes on past a ray
    only while the list holds at most maxRays rays.
   */
  lemma {:induction false} RunVisitsAtMost(c: Config, rays: seq<RayState>, i: nat)
    requires WellFormed(c.systems) && i <= |rays|
    requires i == 0 || |rays| <= c.maxRays
    decreases c.maxRays - i
    ensures Run(c, rays, i).visited <= Max(1, c.maxRays)
  {
    if i < |rays| {
      var next := Visit(c, rays, i);
      if |next| <= c.maxRays {
        RunVisitsAtMost(c, next, i + 1);
      }
    }
  }

  /** The states of a list of photons. */
  function States(ps: seq<Photon>): (ss: seq<RayState>)
    reads ps
    ensures |ss| == |ps| && forall k :: 0 <= k < |ps| ==> ss[k] == ps[k].State()
  {
    seq(|ps|, k requires 0 <= k < |ps| reads ps => ps[k].State())
  }

  /** No photon object occurs twice in the list. */
  predicate Distinct(ps: seq<Photon>) {
    forall a, b :: 0 <= a < b < |ps| ==> ps[a] != ps[b]
  }

  /**
    One tick on a Photon object: `move`, the contact test against the
    systems, `touched` on the first system in range, the playground test.
   */
  method Step(c: Config, p: Photon, rays: seq<Photon>) returns (rays': seq<Photon>)
    requires WellFormed(c.systems)
    modifies p
    ensures p.State() == Tick(c, old(p.State())).ray
    ensures |rays'| == |rays| + |Tick(c, old(p.State())).spawned|
    ensures rays'[..|rays|] == rays
    ensures forall k :: |rays| <= k < |rays'| ==>
      fresh(rays'[k]) && rays'[k].State() == Tick(c, old(p.State())).spawned[k - |rays|]
    ensures forall a, b :: |rays| <= a < b < |rays'| ==> rays'[a] != rays'[b]
  {
    p.Move(c.m);
    var hbs := Hitboxes(c.systems);
    HasReachedIffTouched(p.pos, hbs);
    rays' := rays;
    if HasReachedSys(p.pos, hbs).value && p.touching.None? {
      var k := TouchedSys(p.pos, hbs).value.value;
      p.touching := Some(k);
      rays' := c.systems[k].Touched(p, rays);
    } else if !HasReachedSys(p.pos, hbs).value && p.touching.Some? {
      p.touching := None;
    }
    if !IsIn(p.pos, c.playground) {
      p.stopped := true;
    }
  }

  /**
    One more tick of an unfinished ray: what is left of its walk is that
    tick's spawn followed by the walk from the ticked state.
   */
  lemma WalkUnroll(c: Config, s: RayState)
    requires WellFormed(c.systems) && !Finished(s, c.maxIterations)
    ensures var t := Tick(c, s);
      && Walk(c, s).ray == Walk(c, t.ray).ray
      && Walk(c, s).spawned == t.spawned + Walk(c, t.ray).spawned
  {
    var t := Tick(c, s);
    var w := Walk(c, t.ray);
    assert Walk(c, s) == WalkOn(c, s) == Effect(w.ray, t.spawned + w.spawned);
  }

  /**
    The walk from start resumes at s: it ends where the walk from s ends, and
    its spawn is `spawned` followed by the spawn of the walk from s.
   */
  predicate WalkResumes(c: Config, start: RayState, s: RayState, spawned: seq<RayState>)
    requires WellFormed(c.systems)
  {
    Walk(c, start) == Effect(Walk(c, s).ray, spawned + Walk(c, s).spawned)
  }

  /** Resuming is transitive, the spawns concatenated in order. */
  lemma WalkResumesTrans(c: Config, a: RayState, b: RayState, d: RayState, x: seq<RayState>, y: seq<RayState>)
    requires WellFormed(c.systems) && WalkResumes(c, a, b, x) && WalkResumes(c, b, d, y)
    ensures WalkResumes(c, a, d, x + y)
  {
    assert x + (y + Walk(c, d).spawned) == (x + y) + Walk(c, d).spawned;
  }

  /**
    The body of the inner loop on an unfinished photon, seen from its walk:
    after `Step` the old walk resumes at the new state, the rays just
    appended being the first of its spawn.
   */
  method WalkStep(c: Config, p: Photon, rays: seq<Photon>) returns (rays': seq<Photon>, ghost born: seq<RayState>)
    requires WellFormed(c.systems) && !Finished(p.State(), c.maxIterations)
    modifies p
    ensures |p.positions| == |old(p.positions)| + 1
    ensures WalkResumes(c, old(p.State()), p.State(), born)
    ensures |rays'| == |rays| + |born| && rays'[..|rays|] == rays
    ensures forall k :: |rays| <= k < |rays'| ==> fresh(rays'[k]) && rays'[k].State() == born[k - |rays|]
    ensures forall a, b :: |rays| <= a < b < |rays'| ==> rays'[a] != rays'[b]
  {
    ghost var before := p.State();
    WalkUnroll(c, before);
    born := Tick(c, before).spawned;
    rays' := Step(c, p, rays);
  }

  /**
    The inner loop of `simulate` on one Photon object: step it until it is
    stopped or its history holds maxIterations points, appending to rays the
    new photons its interactions create.
   */
  method WalkRay(c: Config, p: Photon, rays: seq<Photon>) returns (rays': seq<Photon>)
    requires WellFormed(c.systems)
    modifies p
    ensures p.State() == Walk(c, old(p.State())).ray
    ensures |rays'| == |rays| + |Walk(c, old(p.State())).spawned|
    ensures rays'[..|rays|] == rays
    ensures forall k :: |rays| <= k < |rays'| ==>
      fresh(rays'[k]) && rays'[k].State() == Walk(c, old(p.State())).spawned[k - |rays|]
    ensures forall a, b :: |rays| <= a < b < |rays'| ==> rays'[a] != rays'[b]
  {
    ghost var start := p.State();
    ghost var spawned: seq<RayState> := [];
    rays' := rays;
    while !p.stopped && |p.positions| < c.maxIterations
      invariant |rays'| == |rays| + |spawned| && rays'[..|rays|] == rays
      invariant forall k :: |rays| <= k < |rays'| ==> fresh(rays'[k])
      invariant forall k :: |rays| <= k < |rays'| ==> rays'[k].State() == spawned[k - |rays|]
      invariant forall a, b :: |rays| <= a < b < |rays'| ==> rays'[a] != rays'[b]
      invariant WalkResumes(c, start, p.State(), spawned)
      decreases c.maxIterations - |p.positions|
    {
      ghost var earlier := rays';
      ghost var before := p.State();
      ghost var born;
      rays', born := WalkStep(c, p, rays');
      WalkResumesTrans(c, start, before, p.State(), spawned, born);
      assert forall k :: |rays| <= k < |earlier| ==> rays'[k] == earlier[k] && rays'[k] != p;
      spawned := spawned + born;
    }
    assert Walk(c, p.State()) == Effect(p.State(), []);
  }

  /** `copy.deepcopy(initial_rays)`: a new photon object per ray, with the same state. */
  method CopyAll(ps: seq<Photon>) returns (copies: seq<Photon>)
    ensures |copies| == |ps|
    ensures forall k :: 0 <= k < |ps| ==> fresh(copies[k]) && copies[k].State() == ps[k].State()
    ensures Distinct(copies)
  {
    copies := [];
    while |copies| < |ps|
      invariant |copies| <= |ps|
      invariant forall k :: 0 <= k < |copies| ==> fresh(copies[k]) && copies[k].State() == ps[k].State()
      invariant Distinct(copies)
    {
      var r := ps[|copies|].Copy();
      copies := copies + [r];
    }
  }

  /** The outer loop from the start has the outcome it has from ray i of `rays`. */
  predicate RunResumes(c: Config, init: seq<RayState>, rays: seq<RayState>, i: nat)
    requires WellFormed(c.systems) && i <= |rays|
  {
    Run(c, init, 0) == Run(c, rays, i)
  }

  /**
    A run that resumes at an unvisited ray i resumes at ray i + 1 of the
    visited list, unless the visit took the list past the ray cap, where the
    run ends.
   */
  lemma RunOnce(c: Config, init: seq<RayState>, rays: seq<RayState>, i: nat)
    requires WellFormed(c.systems) && i < |rays| && RunResumes(c, init, rays, i)
    ensures var next := Visit(c, rays, i);
      if c.maxRays < |next| then Run(c, init, 0) == Outcome(next, i + 1) else RunResumes(c, init, next, i + 1)
  {}

  /**
    One pass of the outer loop of `simulate` on ray i: set its step size,
    walk it, and append the rays it spawned; the states of the list are then
    those `Visit` computes.
   */
  method VisitRay(c: Config, rays: seq<Photon>, i: nat, ghost model: seq<RayState>) returns (rays': seq<Photon>)
    requires WellFormed(c.systems) && i < |rays| && Distinct(rays)
    requires |model| == |rays| && forall k :: 0 <= k < |rays| ==> rays[k].State() == model[k]
    modifies rays[i]
    ensures var next := Visit(c, model, i);
      |rays'| == |next| && forall k :: 0 <= k < |rays'| ==> rays'[k].State() == next[k]
    ensures rays'[..|rays|] == rays
    ensures forall k :: |rays| <= k < |rays'| ==> fresh(rays'[k])
    ensures Distinct(rays')
  {
    var p := rays[i];
    p.dx := c.dx;
    assert p.State() == model[i].(dx := c.dx);
    rays' := WalkRay(c, p, rays);
    ghost var e := Walk(c, model[i].(dx := c.dx));
    ghost var next := Visit(c, model, i);
    assert next == model[i := e.ray] + e.spawned;
    forall k | 0 <= k < |rays'| ensures rays'[k].State() == next[k] {
      if k < |rays| && k != i {
        assert rays'[k] == rays[k] != p;
      }
    }
    forall a, b | 0 <= a < b < |rays'| ensures rays'[a] != rays'[b] {
      if a < |rays| && |rays| <= b {
        assert fresh(rays'[b]) && rays'[a] == rays[a];
      }
    }
  }

  /** Whether the system's class defines `reset`: neither Mirror nor Screen does. */
  predicate DefinesReset(s: System) {
    match s
    case Mirror(_, _, _, _, _) => false
    case Screen(_, _, _, _) => false
  }

  /**
    `for sys in systems: sys.reset()` as the code stands. The loop gets
    through only when every system's class defines `reset`, and raises
    AttributeError otherwise; with Mirror and Screen only the empty list of
    systems gets through.
   */
  function ResetAsWritten(systems: seq<System>): (r: Result<(), PyError>)
    ensures r.Success? <==> |systems| == 0
    ensures r.Failure? ==> r.error == AttributeError
  {
    assert |systems| == 0 || !DefinesReset(systems[0]);
    if forall k :: 0 <= k < |systems| ==> DefinesReset(systems[k]) then Success(())
    else Failure(AttributeError)
  }

  /**
    `simulate(initial_rays, systems, playground, dx, max_iterations, max_rays)`:
    the returned rays are new objects whose states are those `Run` computes
    from the states of the initial rays, which are left unchanged.
   */
  method Simulate(c: Config, initialRays: seq<Photon>) returns (rays: seq<Photon>)
    requires WellFormed(c.systems)
    ensures var o := Run(c, old(States(initialRays)), 0);
      |rays| == |o.rays| && forall k :: 0 <= k < |rays| ==> rays[k].State() == o.rays[k]
    ensures forall k :: 0 <= k < |rays| ==> fresh(rays[k])
    ensures Distinct(rays)
    ensures unchanged(initialRays)
  {
    ghost var init := States(initialRays);
    rays := CopyAll(initialRays);
    // `sys.reset()` on every system is taken as the no-op it is meant to be: Mirror and Screen hold
    // no measurements to clear (`ResetAsWritten` is the loop as the code stands).
    ghost var model := init;
    var i := 0;
    while i < |rays|
      invariant i <= |rays| == |model|
      invariant forall k :: 0 <= k < |rays| ==> fresh(rays[k]) && rays[k].State() == model[k]
      invariant Distinct(rays)
      invariant RunResumes(c, init, model, i)
      decreases c.maxRays - i
    {
      RunOnce(c, init, model, i);
      rays := VisitRay(c, rays, i, model);
      model := Visit(c, model, i);
      i := i + 1;
      if |rays| > c.maxRays {
        break;
      }
    }
  }
}
