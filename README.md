# pyraysim ray-stepping core, in Dafny

pyraysim traces light rays across a 2-D scene of mirrors and screens. Each
ray is a photon. A photon steps a fixed distance along its direction and
keeps its positions in an append-only history. A system is hit when the
photon comes within 0.05 of one of its hitbox points. A mirror reflects the
photon or splits it in two; a screen stops it.

`simulate` (raysim/simulation.py) copies the initial photons. It then walks
the growing photon list in order, stepping each photon tick by tick until the
photon stops or its history reaches the iteration cap. A tick does four
things in turn:

1. it moves the photon;
2. if the photon has no contact, it acquires one with the first system in
   range, in list order, and calls that system's `touched`;
3. if no system is in range, it releases the contact;
4. if the photon is outside the playground, it stops it.

The outer walk breaks once the list holds more rays than the ray cap.

The model covers the following source:

- raysim/simulation.py, raysim/systems.py and raysim/photon.py: the engine,
  its systems and its photon;
- raysim/geometry.py and raysim/color.py: the geometry and colour helpers;
- raysim/photons.py: the older spectral photon, with its colour table and
  spectrum normalisation;
- src/systems.py, src/photons.py, trajectories.py and geometry.py: the legacy
  copies of the same logic.

The modules are:

- `Wrappers`: `Option`, `Result`, and the Python exceptions raised on the
  modelled paths.
- `RealFacts` and `PyNumbers`: small arithmetic facts, Python's `int()`
  truncation and Python's float `%`.
- `RaysimGeometry`: `distance`, `new_pos`, `is_on_segment`, `is_in` and the
  three angle normalisers (raysim/geometry.py).
- `RaysimColor`: `wavelength_to_color`, `rgb_to_matplotlib` and
  `rbg_to_hex` (raysim/color.py).
- `RaysimPhoton`: the hit tests, the photon state and the `Photon` class
  (raysim/photon.py).
- `RaysimSystems`: hitboxes and the `touched` rules of `Mirror` and
  `Screen` (raysim/systems.py).
- `RaysimSimulation`: `simulate`. It has these parts:
  - `Tick`, `Walk` and `Run` are pure functions of photon states;
  - `Step`, `WalkRay` and `Simulate` are the imperative loops over `Photon`
    objects, proved to compute them.
- `RaysimPhotons`: the older photon of raysim/photons.py.
- `Geometry`: geometry.py at the top of the repository.
- `SrcPhotons` and `SrcSystems`: src/photons.py and src/systems.py.
- `Trajectories`: trajectories.py.

How the source's numbers and objects are represented:

- Floats are `real`.
- `np.cos`, `np.sin` and `np.sqrt` are function values in a `MathLib`
  parameter. Only the laws a proof needs are assumed about them, and only
  where it needs them: `SqrtLaws` and `TrigLaws`.
- The contact test compares squared distances with 0.0025.
  `RaysimPhoton.ReachesIsMinDistanceTest` proves that this agrees with the
  source's `np.min(distance) < .05`.
- A photon's `touching` is the index of the system in contact.

Each legacy function that is the same as a raysim one is modelled once, by
the shared member:

- The hit tests of raysim/photons.py:5-43 and src/photons.py:5-43 are the
  same text as raysim/photon.py:6-44. They are `RaysimPhoton.TouchedSys` and
  `RaysimPhoton.HasReachedSys`, with the lemmas about them.
- `rgb_to_matplotlib` of raysim/photons.py:70-71 is
  `RaysimColor.RgbToMatplotlib`.
- `new_pos` of geometry.py:20-36 and trajectories.py:3-19 is
  `RaysimGeometry.NewPos`.
- `is_in` of geometry.py:75-89 and trajectories.py:77-91 is
  `RaysimGeometry.IsIn`.
- `distance` of trajectories.py:21-35 is `Geometry.RowDistance`.
- The `Photon` of trajectories.py:94-144 is `SrcPhotons.Photon`. It differs
  from src/photons.py only in calling its own `new_pos`.

Two facts about the code that the model keeps:

- A photon's inner loop runs while its history is shorter than
  `max_iterations` (raysim/simulation.py:57). So a ray stepped to the end
  has exactly `max_iterations` points in its history.
- A mirror splits the photon whenever `reflexion != 1`
  (raysim/systems.py:63). With `reflexion > 1` the transmitted child gets
  a negative intensity. The intensities still sum to the parent's.

`simulate` calls `reset()` on every system (raysim/simulation.py:51-52).
Neither Mirror nor Screen in raysim/systems.py defines `reset`, so with
those classes the call raises AttributeError. This is logged under
Findings. Every script that calls `simulate` needs more than these classes
give: michelson.py:52 and 77 and examples/michelson.py:26 (Mirrors built
at michelson.py:32-34 and examples/michelson.py:19-21), and
examples/laser.py:52 (Mirrors and a Screen built at lines 32-36) all reach
`reset`; michelson.py:76 also calls `move` on a Mirror; and
examples/color_filter.py:52 passes `Filter`s (lines 29-32). raysim/systems.py
defines none of `reset`, `move` and `Filter`, so these scripts were
evidently written against another version of it. The model takes
`reset` as a no-op in `Simulate` and states the call as written in
`ResetAsWritten`.

## Model

| member | source | states |
|---|---|---|
| RaysimSimulation.TickFacts | raysim/simulation.py:58-65 | A tick appends exactly the new position `pos + dx·(cos dir, sin dir)` to the history. It keeps dx and never restarts a stopped ray. A ray outside the playground ends the tick stopped, whatever the interaction did. Spawned rays start with a one-point history and a contact. |
| RaysimSimulation.Contact | raysim/simulation.py:59-63 | The contact step never changes the position or the history. |
| RaysimSimulation.ContactRules | raysim/simulation.py:59-63 | After the contact step the ray has a contact exactly when some system is in range. A contact is acquired only by a ray with none, and it is then the first system in range in list order. A ray that already has a contact spawns nothing, and nothing in it changes except the contact, which it keeps while some system stays in range. |
| RaysimSimulation.TickContact | raysim/simulation.py:58-63 | The contact rules hold for a whole tick, at the position the ray moved to. A ray that already has a contact spawns nothing, and it is the moved ray with only its contact updated and `stopped` set when it leaves the playground. |
| RaysimSimulation.WalkFacts | raysim/simulation.py:57-65 | When the inner loop ends, the ray is stopped or has at least `max_iterations` points. It never has more than max(`max_iterations`, its starting length). Its earlier history is kept and dx is unchanged. Every ray it spawned starts not stopped, with one point and a contact. |
| RaysimSimulation.WalkUnroll | raysim/simulation.py:57-65 | The walk of an unfinished ray is one tick followed by the walk from the ticked state. The tick's spawn comes first. |
| RaysimSimulation.Visit | raysim/simulation.py:55-65 | Processing ray i changes only entry i of the list and appends the rays it spawned at the end. |
| RaysimSimulation.VisitFacts | raysim/simulation.py:55-58 | After processing, ray i has dx set to the run's dx and is finished. It keeps its earlier history and has at most max(`max_iterations`, its starting length) points. The other rays are unchanged, and the appended rays have one-point histories. |
| RaysimSimulation.Run | raysim/simulation.py:55-67 | The list only grows. When the outer loop stops early, the list holds more than `max_rays` rays. |
| RaysimSimulation.RunKeepsUnvisited | raysim/simulation.py:55-67 | The result starts with the initial rays in their order. Initial rays that were not visited keep their state. Children appended during the run and not visited before the loop stops have a one-point history. Every ray's earlier history is kept. |
| RaysimSimulation.RunFinishesVisited | raysim/simulation.py:56-58 | Every visited ray, children included, ends stopped or at the iteration cap, with the run's dx, and never beyond max(`max_iterations`, its starting length). |
| RaysimSimulation.RunVisitsAtMost | raysim/simulation.py:66-67 | At most max(1, `max_rays`) rays are stepped. |
| RaysimSimulation.RunOnce | raysim/simulation.py:55-67 | One pass of the outer loop either ends the run, when the list now exceeds `max_rays`, or resumes it at the next ray. |
| RaysimSimulation.Step | raysim/simulation.py:58-65 | One tick on a Photon object leaves the photon in the state `Tick` gives. It appends fresh, distinct photons with the spawned states after the existing list. |
| RaysimSimulation.WalkStep | raysim/simulation.py:57-65 | A tick of an unfinished photon grows its history by one, and the rest of its walk continues from the new state. |
| RaysimSimulation.WalkRay | raysim/simulation.py:57-65 | The inner loop leaves the photon in the state `Walk` gives. It appends fresh photons whose states are the walk's spawn, in order. |
| RaysimSimulation.CopyAll | raysim/simulation.py:44 | `copy.deepcopy(initial_rays)` returns one new, distinct photon per initial ray, with the same state. |
| RaysimSimulation.VisitRay | raysim/simulation.py:55-65 | Processing ray i on objects gives exactly the states `Visit` computes. The list stays free of duplicate objects. |
| RaysimSimulation.ResetAsWritten | raysim/simulation.py:51-52 | The reset loop as written gets through exactly when the list of systems is empty. Otherwise it raises AttributeError, because neither Mirror nor Screen defines `reset`. |
| RaysimSimulation.Simulate | raysim/simulation.py:44-88 | With `reset` taken as a no-op, the returned photons are new objects whose states are those `Run` computes from the initial states. The caller's photons are left unchanged. |
| RaysimSystems.Linspace | raysim/systems.py:49-52 | `np.linspace` gives num points, the first at the start and the last at the end when num >= 2. A negative num raises ValueError. |
| RaysimSystems.LinspaceEvenlySpaced | raysim/systems.py:49-52 | Consecutive linspace points are evenly spaced by (end − start)/(num − 1). |
| RaysimSystems.HitboxCountSign | raysim/systems.py:52 | `int(height/0.05)` is at least 1 exactly when height >= 0.05. It is non-negative exactly when height > −0.05. |
| RaysimSystems.HitboxShape | raysim/systems.py:49-52 | The hitbox has `int(height/0.05)` points. It runs from (x − sin(rot)·h/2, y + cos(rot)·h/2) to (x + sin(rot)·h/2, y − cos(rot)·h/2), both ends included. |
| RaysimSystems.NewMirror | raysim/systems.py:29-52 | A Mirror can be built exactly when its height exceeds −0.05; otherwise numpy raises ValueError. It keeps its position, height, rotation and reflexion. Its hitbox has `int(height / 0.05)` points, from the segment's start to its end. |
| RaysimSystems.NewScreen | raysim/systems.py:103-124 | A Screen can be built exactly when its height exceeds −0.05; otherwise numpy raises ValueError. It keeps its position, height and rotation. Its hitbox has `int(height / 0.05)` points, from the segment's start to its end. |
| RaysimSystems.Reflect | raysim/systems.py:77 | The law of reflection: the mirror's normal, at rot + π/2, bisects the incoming and the outgoing direction. |
| RaysimSystems.ReflectInvolution | raysim/systems.py:77 | Reflecting twice about the same mirror restores the direction. |
| RaysimSystems.Interact | raysim/systems.py:54-78 | An interaction never moves the ray, never changes its history, contact or dx, and never restarts a stopped ray. It spawns zero or two rays, each with a one-point history at the ray's position. |
| RaysimSystems.MirrorReflects | raysim/systems.py:76-78 | With `reflexion == 1` only the direction changes, to π + 2·rot − dir. The intensity is unchanged and nothing is spawned. |
| RaysimSystems.MirrorSplits | raysim/systems.py:63-75 | With `reflexion != 1` the ray is stopped and two children are appended in order. The first keeps the direction, with intensity (1 − r)·I. The second has direction π + 2·rot − dir and intensity r·I. Both start at [pos], not stopped, and keep the contact. |
| RaysimSystems.SplitConservesIntensity | raysim/systems.py:66-71 | The children's intensities sum to the parent's. |
| RaysimSystems.ScreenAbsorbs | raysim/systems.py:126-135 | A screen stops the ray, changes nothing else and spawns nothing. |
| RaysimSystems.System.Touched | raysim/systems.py:54-78 | `touched` on Photon objects leaves the photon in the state `Interact` gives. It appends fresh, distinct photons with the spawned states after the existing list. |
| RaysimSystems.SpawnChild | raysim/systems.py:64-66 | A deep copy gets a new object whose history is reset to [pos], with the given intensity and direction. |
| RaysimPhoton.MinSqDistIsMin | raysim/photon.py:21 | The minimum squared distance is attained at some hitbox point, and no point is closer. |
| RaysimPhoton.SeqMin | raysim/photon.py:21 | `np.min` returns an element of the sequence that is at most every element. |
| RaysimPhoton.Reaches | raysim/photon.py:21 | The per-system test raises ValueError exactly when the hitbox is empty. |
| RaysimPhoton.ReachesIffHit | raysim/photon.py:20-24 | A system is reached exactly when some hitbox point is strictly within 0.05. It is missed exactly when the hitbox is non-empty and every point is at least 0.05 away. |
| RaysimPhoton.ReachesIsMinDistanceTest | raysim/photon.py:21 | `np.min(distance) < 0.05` holds exactly when the minimum squared distance is below 0.0025. |
| RaysimPhoton.TouchedFrom | raysim/photon.py:40-44 | A system found by the scan from index i has an index between i and the list length. |
| RaysimPhoton.TouchedFromFirstHit | raysim/photon.py:40-44 | From index i, the scan returns the first system reached, after missing all earlier ones. It returns None when every system is missed. It raises ValueError at the first empty hitbox, all earlier systems missed. |
| RaysimPhoton.TouchedSys | raysim/photon.py:26-44 | `touched_sys` returns the index of a listed system, or None. |
| RaysimPhoton.TouchedSysFirstHit | raysim/photon.py:40-44 | `touched_sys` returns the first system in list order within tolerance, or None when all are missed. It raises at the first empty hitbox. |
| RaysimPhoton.HasReachedIffTouched | raysim/photon.py:20-44 | `has_reached_sys` raises exactly when `touched_sys` does; otherwise it is true exactly when `touched_sys` finds a system. Neither raises when no hitbox is empty. |
| RaysimPhoton.HasReachedIffSomeHit | raysim/photon.py:20-24 | With non-empty hitboxes, `has_reached_sys` is true exactly when some system has a point within 0.05. |
| RaysimPhoton.Moved | raysim/photon.py:108-112 | `move` steps to `new_pos` and appends exactly that point. The earlier history and every other field are unchanged, and the history ends at pos. |
| RaysimPhoton.Photon.constructor | raysim/photon.py:74-106 | A fresh photon has positions == [pos], directions == [dir], is not stopped, and has virtual_source == pos when none is given. Its colour is `wavelength_to_color(wavelength)`. |
| RaysimPhoton.Photon.Copy | raysim/systems.py:64 | `copy.deepcopy(photon)` gives a new object with the same state. |
| RaysimPhoton.Photon.Move | raysim/photon.py:108-112 | `move` on the object gives the `Moved` state, and the history still ends at pos. |
| RaysimGeometry.SqDist | raysim/geometry.py:18 | The squared distance is non-negative and zero between equal points. |
| RaysimGeometry.DistanceToEach | raysim/geometry.py:18 | `distance` against rows gives one distance per row. |
| RaysimGeometry.DistanceIsMetricLike | raysim/geometry.py:18 | `distance` is non-negative, zero for equal points, and symmetric. |
| RaysimGeometry.DistanceBelowIffSquared | raysim/geometry.py:18 | A distance is below t exactly when the squared distance is below t². |
| RaysimGeometry.NewPosInverse | raysim/geometry.py:36 | `new_pos` with dx = 0 returns pos, and a step of −dx undoes a step of dx. |
| RaysimGeometry.NewPosStepLength | raysim/geometry.py:36 | With cos² + sin² = 1, a step covers exactly dx² in squared distance. |
| RaysimGeometry.EndpointsAreOnSegment | raysim/geometry.py:73-75 | Both endpoints satisfy `is_on_segment` for every positive tolerance. |
| RaysimGeometry.EdgesAreOutside | raysim/geometry.py:91 | `is_in` is strict: a point on any edge, or any point of a degenerate box, is outside. |
| RaysimGeometry.NormalizeAngleNegPiPi | raysim/geometry.py:106 | The result lies in [−π, π) and differs from the input by an integer multiple of 2π. |
| RaysimGeometry.NormalizeAngle0To2Pi | raysim/geometry.py:120 | The result lies in [0, 2π) and is congruent to the input modulo 2π. |
| RaysimGeometry.NormalizeAngleNegPi2Pi2 | raysim/geometry.py:134 | The result lies in [−π/2, π/2) and is congruent to the input modulo π, not 2π. |
| RaysimGeometry.NormalizersIdempotent | raysim/geometry.py:94-134 | Each normaliser leaves its own result unchanged. |
| RaysimColor.Hue | raysim/color.py:15-29 | Every hue channel is in [0, 1], and wavelengths outside [380, 781) are black. |
| RaysimColor.Brightness | raysim/color.py:31-38 | The factor is in [0, 1]. It is exactly 1 on [420, 701) and 0 outside [380, 781). |
| RaysimColor.Channel | raysim/color.py:39 | `int(255·x·factor)` is a byte: 255 at full hue and brightness, 0 when either is 0. |
| RaysimColor.WavelengthToColor | raysim/color.py:1-40 | Every channel is an integer in [0, 255]. Wavelengths below 380 or from 781 on give (0, 0, 0). |
| RaysimColor.DeepRedBand | raysim/color.py:26-34 | Every wavelength in [645, 701) gives exactly (255, 0, 0). |
| RaysimColor.FullBrightnessBands | raysim/color.py:16-34 | Blue is 255 on [420, 490), green on [490, 580), and red on [580, 701). |
| RaysimColor.RgbToMatplotlib | raysim/color.py:55 | Each channel is divided by 255, so byte channels map into [0, 1]. |
| RaysimColor.Format02x | raysim/color.py:73 | `'%02x'` gives at least two characters, and exactly two lowercase hex digits for a byte. |
| RaysimColor.Format02xRoundTrip | raysim/color.py:73 | Reading a byte's two emitted digits back in base 16 gives the byte. |
| RaysimColor.HexCodeShape | raysim/color.py:72-75 | For byte channels the code has length 7, or 9 with an alpha in [0, 1]. Every character after '#' is a hex digit, and each pair reads back as its channel. |
| RaysimPhotons.TableKeys | raysim/photons.py:46-64 | The table has 16 entries from 380 to 622, with strictly ascending keys, so `min(colors)` is the first key and iteration visits the keys in order. |
| RaysimPhotons.TableHexCodes | raysim/photons.py:47-62 | Every entry's hex code is `rbg_to_hex` of its colour. |
| RaysimPhotons.FloorIndex | raysim/photons.py:64-68 | The chosen entry is the first one, or has a key at most the wavelength. It is the last one, or the next key exceeds the wavelength. |
| RaysimPhotons.FloorIndexIsFloor | raysim/photons.py:64-68 | In an ascending table the chosen entry has the largest key at most the wavelength. Below the first key it is the first entry; from the last key on, the last entry. |
| RaysimPhotons.FloorIndexUnique | raysim/photons.py:64-68 | Only one index meets the floor conditions. |
| RaysimPhotons.FloorLookup | raysim/photons.py:64-68 | The loop that tracks the last key passed returns the floor entry, which is a table entry. |
| RaysimPhotons.WavelengthToColor | raysim/photons.py:45-68 | `wavelength_to_color` returns the floor entry of the colour table, which is always one of its 16 entries. |
| RaysimPhotons.ColorOfBands | raysim/photons.py:46-68 | Below 380 the colour is the 380 entry's and from 622 on the 622 entry's. In between, no key at most the wavelength exceeds the chosen key. |
| RaysimPhotons.Average | raysim/photons.py:132-133 | `np.average` raises ZeroDivisionError exactly when the weights sum to zero. Otherwise the mean times the weight sum is the weighted sum of the keys. |
| RaysimPhotons.Normalised | raysim/photons.py:136-138 | The keys are kept in order, and each new weight times the sum is the old weight. |
| RaysimPhotons.NormalisedSumsToOne | raysim/photons.py:135-138 | Dividing the weights by their nonzero sum makes them sum to 1. |
| RaysimPhotons.AverageWithin | raysim/photons.py:132-133 | With non-negative weights of positive sum, the weighted mean lies between any bounds of the keys. |
| RaysimPhotons.Prepare | raysim/photons.py:129-138 | Spectrum preparation fails only with ZeroDivisionError. |
| RaysimPhotons.PrepareDefault | raysim/photons.py:129-138 | With no dict, construction fails exactly when the intensity is 0. Otherwise the wavelength is kept and the spectrum becomes {wavelength: 1}. |
| RaysimPhotons.PrepareGiven | raysim/photons.py:131-138 | With a dict, construction fails exactly when its weights sum to 0. Otherwise the keys are kept, the weights sum to 1, and the wavelength is the weighted mean of the keys, between the smallest and largest key for non-negative weights. |
| RaysimPhotons.Photon.constructor | raysim/photons.py:116-124 | The fields `__init__` sets: a one-point history and a one-entry direction list, not stopped. |
| RaysimPhotons.Photon.Create | raysim/photons.py:100-140 | `Photon(...)` raises exactly when the spectrum preparation does. Otherwise it gives a new photon with history [pos], not stopped, the prepared spectrum, and the floor entry's colour of its wavelength. |
| RaysimPhotons.Photon.Move | raysim/photons.py:142-146 | `move` appends exactly the new position and changes nothing else; the history ends at pos. |
| Geometry.RowDistance | geometry.py:18 | `distance` gives one value per row, and raises AxisError exactly when its second argument is a single point. |
| Geometry.RowDistanceFacts | geometry.py:18 | Against rows, `distance` is raysim's per-row distance: non-negative, and zero where the row equals a. |
| Geometry.IsOnSegmentAsWritten | geometry.py:73 | `is_on_segment` raises AxisError for every input. |
| Geometry.IsOnSegmentAlwaysRaises | geometry.py:73 | As written, `is_on_segment` raises AxisError on every input, so even an endpoint is never reported on the segment. |
| SrcPhotons.Stepped | src/photons.py:92-96 | `move` steps to `new_pos` and appends exactly that point. The earlier history is kept and the history ends at pos. |
| SrcPhotons.StepsAppendOnly | src/photons.py:92-96 | k moves add exactly k entries after the old ones. A history that ends at pos still does. |
| SrcPhotons.Photon.constructor | src/photons.py:83-90 | A fresh photon has positions == [pos], directions == [dir], is not stopped, and has no contact. |
| SrcPhotons.Photon.Move | src/photons.py:92-96 | `move` on the object gives the `Stepped` state, and the history ends at pos. |
| SrcSystems.Turn | src/systems.py:52 | π + dir + 2·(rot − dir) is raysim's full reflection π + 2·rot − dir. |
| SrcSystems.TurnInvolution | src/systems.py:52 | Turning twice about the same mirror restores the direction. |
| SrcSystems.LegacySystem.Touched | src/systems.py:43-103 | `Miror.touched` (lines 43-52) changes only the direction. `Screen.touched` (lines 94-103) only sets stopped. Neither creates photons. |
| SrcSystems.NewMiror | src/systems.py:22-41 | A Miror can be built exactly when its height exceeds −0.05; otherwise ValueError. It stores its position, height and rotation, and its hitbox is raysim's: `int(height/0.05)` evenly spaced points between the segment ends. |
| SrcSystems.NewScreen | src/systems.py:73-92 | The same condition and error as the mirror's. It stores its position, height and rotation, and has the same hitbox. |
| Trajectories.Reaches | trajectories.py:52 | The per-system test raises ValueError exactly when the hitbox is empty. |
| Trajectories.ReachesAgrees | trajectories.py:52 | The test on distances gives the same result as raysim's test on squared distances. |
| Trajectories.TouchedFrom | trajectories.py:71-75 | A system found by the scan from index i has an index between i and the list length. |
| Trajectories.ScansAgreeFrom | trajectories.py:51-75 | From any index, both scans equal raysim's. |
| Trajectories.ScansAgree | trajectories.py:37-75 | `touched_sys` returns the first system in list order within tolerance, or None, and `has_reached_sys` is true exactly when it finds one. Both equal raysim's scans. |

## Left out

- Printing, timing and the `print_measures` ledger walk in `simulate` (raysim/simulation.py:42, 46-48, 69-86): console output and wall-clock time.
- `display` and all matplotlib plotting: rendering only.
- Filter, Spectrometer and their measurement ledgers, which `reset` clears, are not part of this model: no modelled file defines them.
- Floating point: reals replace floats, and rounding is not modelled. For example, Python's `%` can return exactly 2π on floats, which the normalisers' half-open ranges do not allow for.
- `np.cos`, `np.sin`, `np.sqrt`: taken as parameters, constrained only by the laws stated where a proof uses them.
- `copy.deepcopy` aliasing: copies are new objects with equal states. `Simulate` takes the initial photons as a list of objects whose states are read, and needs no distinctness of them. Sharing through deepcopy's memo is not modelled.
- Colour name strings, `color` fields of systems, and the carried but unused fields `n`, `directions`, `virtual_source`: they are kept as plain fields where the photon has them.
- `polygon_mesh` (raysim/geometry.py:38-53, geometry.py:38-53): a meshgrid wrapper with no logic.
- src/geometry.py is not part of this model. src/photons.py imports its `distance` and `new_pos`, which are taken to be those of geometry.py.
- raysim/source.py, the demo scripts and `__main__.py`: scene wiring, sliders and plots.
- Dict key uniqueness of the spectrum: the spectrum is a sequence of (wavelength, weight) lines. No property proved depends on the keys being distinct.
- NaN wavelengths: every comparison with NaN is false, so the source's colour lookup returns the 622 entry. Reals have no NaN.
- RaysimGeometry.SqDist: states non-negativity and zero for equal points, but not that distinct points are at positive distance.
- RaysimSimulation.Contact: its own contract states only that the position and history are untouched. The contact rules are proved in `ContactRules`.
- RaysimSimulation.Simulate: requires every system to have a non-empty hitbox (`WellFormed`), as do `Tick`, `Walk`, `Run`, `Step`, `WalkRay` and `VisitRay`. A Mirror or Screen with a height in (−0.05, 0.05) gets an empty hitbox. With one in the scene, the source raises ValueError from `np.min` (raysim/photon.py:21, 41) at the first tick that tests that system. Such scenes are excluded rather than carried as a `Failure` through the run. The hit tests themselves (`TouchedSys`, `HasReachedSys`) do return that ValueError.
- RaysimColor.RbgToHex: its own contract states only the layout of the string. Its length and the values its digit pairs read back as, for byte channels, are proved in `HexCodeShape`.
- RaysimSimulation.Visit: its own contract states only the shape of the list. The state of the processed ray is proved in `VisitFacts`.

## Findings

| source | as written | input that shows it | evidently intended | confidence | as-written member | corrected member |
|---|---|---|---|---|---|---|
| raysim/simulation.py:51-52 | `simulate` calls `sys.reset()` on every system, but neither Mirror nor Screen in raysim/systems.py defines `reset`. | any call with a Mirror or a Screen in `systems`: with raysim/systems.py as it stands, AttributeError before any ray moves. | Its callers (michelson.py:52, 76-77, examples/michelson.py:26, examples/laser.py:52, examples/color_filter.py:52) expect systems that define `reset`, and some also `move` or a `Filter` class. With the systems modelled here, `reset` taken as a no-op and the run going on. | not executed | RaysimSimulation.ResetAsWritten | RaysimSimulation.Simulate |
| geometry.py:73 | `is_on_segment` passes two single points to `distance`. That `distance` sums along axis 1 (geometry.py:18), which a 1-D difference does not have, so numpy raises AxisError. | pt = p1 = (0, 0), p2 = (1, 0), tolerance 0.1: the first `distance` call raises instead of returning True. | Point-to-point distances, as raysim/geometry.py:18 computes with axis −1, so that both endpoints lie on the segment for every positive tolerance. | not executed | Geometry.IsOnSegmentAlwaysRaises | RaysimGeometry.EndpointsAreOnSegment |
