# Verlet ball-pit solver, modelled in Dafny

This project models the core of a position-Verlet particle solver written for Unity.
A `Solver` owns an array of `VerletObject` balls. Every frame it splits the elapsed time
into `_subSteps` equal slices. In each slice it runs four phases in a fixed order:

1. gravity is added to every ball's acceleration;
2. every ball is clamped inside a spherical container;
3. every overlapping pair `i < j` is pushed apart, equally and oppositely;
4. every ball takes one Verlet step, and its acceleration is reset.

Files:

- `vector3.dfy` (module `Vectors`): Unity's `Vector3` over exact reals. `magnitude` and
  `normalized` hide a square root and belong to the engine. They are passed in as a
  `VectorLib` value and are never given a definition.
- `verlet_object.dfy` (module `Particles`): the `VerletObject` state (radius, current and
  previous position, accumulated acceleration). Its mutators return the updated record.
  Lemmas cover integration over several steps.
- `pipeline.dfy` (module `Pipeline`): each phase as a function on the ordered sequence of
  balls. Also the visiting order of collision pairs, and the lemmas about phases, sub-steps
  and the time slices of a frame.
- `solver.dfy` (module `Solving`): the `Solver` class. Its methods update the array in
  place with the loops of the original. Each method is proved to compute the matching
  `Pipeline` function. A ghost field `phases` records the phase calls in order. The inner
  loop of `SolveCollisions` is written as its own method, `SolveCollisionsRow`; it reads and
  writes the array in the same order as the original nested loop.

## Model

| member | source | states |
|---|---|---|
| `Particles.VerletObject.Start` | Assets/_Scripts/VerletObject.cs:11-14 | both positions become the spawn position, so the initial implied velocity is zero; radius and acceleration are untouched |
| `Particles.VerletObject.SetRadius` | Assets/_Scripts/VerletObject.cs:21-25 | only the radius changes |
| `Particles.VerletObject.SetPositionCurrent` | Assets/_Scripts/VerletObject.cs:27 | only the current position changes; previous position, acceleration and radius are kept |
| `Particles.VerletObject.UpdatePosition` | Assets/_Scripts/VerletObject.cs:29-38 | previous := old current; current := old current + old velocity + ½·dt²·old acceleration; the implied velocity grows by exactly ½·dt²·a; acceleration becomes zero; radius kept |
| `Particles.VerletObject.Accelerate` | Assets/_Scripts/VerletObject.cs:40-43 | acceleration := acceleration + a; positions and radius unchanged |
| `Particles.Integrate` | Assets/_Scripts/VerletObject.cs:29-38 | `n` successive steps of one slice; they keep the radius, and one or more leave zero acceleration (closed forms in `AtRestStaysPut` and `InertialDrift`) |
| `Particles.AccelerateAccumulates` | Assets/_Scripts/VerletObject.cs:40-43 | two successive calls equal one call with the sum, in either order |
| `Particles.AtRestIsFixedPoint` | Assets/_Scripts/VerletObject.cs:29-38 | with zero acceleration and current == previous, one step leaves the ball exactly as it was |
| `Particles.AtRestStaysPut` | Assets/_Scripts/VerletObject.cs:29-38 | a ball at rest is unchanged by any number of steps |
| `Particles.PureInertia` | Assets/_Scripts/VerletObject.cs:29-38 | with zero acceleration, a step moves the ball by its implied velocity and keeps that velocity |
| `Particles.InertialDrift` | Assets/_Scripts/VerletObject.cs:29-38 | with zero acceleration, n steps move the ball by n times its velocity; velocity, zero acceleration and radius are kept |
| `Pipeline.GravityPhase` | Assets/_Scripts/Solver.cs:74-80 | each ball's acceleration grows by gravity exactly once; positions and radius unchanged; length unchanged |
| `Pipeline.Constrain` | Assets/_Scripts/Solver.cs:86-94 | a ball within `R − r` of the centre is returned unchanged; any other ball gets current position `centre + normalized(offset)·(R − r)`; previous position, acceleration and radius are never changed |
| `Pipeline.ConstraintPhase` | Assets/_Scripts/Solver.cs:82-95 | the length is kept and every ball is replaced by its own clamp, independently of the others (`Constrain` gives the clamp) |
| `Pipeline.OversizedBallIsAlwaysClamped` | Assets/_Scripts/Solver.cs:89-93 | if magnitudes are non-negative, a ball with a radius larger than the container is always clamped, and moves to `centre − (r − R)·normalized(offset)`, on the side of the centre opposite to `normalized(offset)` |
| `Pipeline.ConstraintPhaseMovesOnlyPositions` | Assets/_Scripts/Solver.cs:82-95 | the constraint phase keeps the length, order, radii, previous positions and accelerations |
| `Pipeline.PairsFrom` | Assets/_Scripts/Solver.cs:99-105 | the pairs the nested loop visits from row `i`, column `j` on: the rest of row `i`, then every later row (facts in `PairsFromBounds`, `PairsFromSorted`, `PairsFromComplete`, `PairsFromLength`) |
| `Pipeline.PairOrder` | Assets/_Scripts/Solver.cs:99-105 | the order the whole nested loop visits pairs in, `PairsFrom(0, 1, n)` (facts in `VisitsEveryPairOnce`, `PairCount`) |
| `Pipeline.PairsFromBounds` | Assets/_Scripts/Solver.cs:99-105 | every pair the nested loop visits from row `i`, column `j` on names two distinct balls `first < second < n`, and lies at or after `(i, j)` |
| `Pipeline.PairsFromSorted` | Assets/_Scripts/Solver.cs:99-105 | the pairs visited from any row and column on come in strictly increasing lexicographic order |
| `Pipeline.PairsFromComplete` | Assets/_Scripts/Solver.cs:99-105 | every pair `f < m < n` at or after `(i, j)` is visited from `(i, j)` on |
| `Pipeline.PairsFromLength` | Assets/_Scripts/Solver.cs:99-105 | from `(i, j)` on the loop visits `n − j` more pairs of row `i`, then every pair of the `n − i − 1` later balls |
| `Pipeline.PairCount` | Assets/_Scripts/Solver.cs:99-105 | the nested loop over `n` balls (`PairOrder`) tests exactly `n·(n − 1)/2` pairs |
| `Pipeline.TriangleClosedForm` | Assets/_Scripts/Solver.cs:99-105 | the row-by-row count of pairs of `m` balls equals `m·(m − 1)/2` |
| `Pipeline.VisitsEveryPairOnce` | Assets/_Scripts/Solver.cs:99-105 | the pair order of the nested loop names only pairs `i < j < n`, contains every such pair, visits them in strictly increasing lexicographic order, and contains none twice |
| `Pipeline.ResolvePair` | Assets/_Scripts/Solver.cs:105-113 | one iteration of the inner loop; keeps the length (its effect is stated by `ResolvePairEffect`) |
| `Pipeline.ApplyPairs` | Assets/_Scripts/Solver.cs:97-116 | the given pairs resolved one after the other, in order; keeps the length (invariants: `ApplyPairsConservesSum`, `ApplyPairsMovesOnlyPositions`) |
| `Pipeline.CollisionPhase` | Assets/_Scripts/Solver.cs:97-116 | every pair of the loop's order resolved once, in that order; keeps the length (order: `VisitsEveryPairOnce`; loop: `SweepIsCollisionPhase`; invariants: `CollisionPhaseConservesSum`, `CollisionPhaseMovesOnlyPositions`) |
| `Pipeline.Sweep` | Assets/_Scripts/Solver.cs:99-115 | the rest of the nested loop from row `i`, column `j`; keeps the length (related to `CollisionPhase` by `SweepIsCollisionPhase`) |
| `Pipeline.Row` | Assets/_Scripts/Solver.cs:103-114 | the inner loop over columns `j .. n−1` of row `i`; keeps the length (related to `Sweep` by `SweepByRows`) |
| `Pipeline.SweepByRows` | Assets/_Scripts/Solver.cs:99-115 | finishing the nested loop from `(i, j)` equals running the inner loop of row `i` to its end, then the loop from row `i + 1` |
| `Pipeline.SweepResolvesPairsFrom` | Assets/_Scripts/Solver.cs:99-115 | finishing the nested loop from any row and column resolves the remaining pairs of the visiting order, in order, after those already resolved |
| `Pipeline.SweepIsCollisionPhase` | Assets/_Scripts/Solver.cs:97-116 | running the nested loop to its end resolves exactly the pairs of that order, one after the other |
| `Pipeline.ResolvePairEffect` | Assets/_Scripts/Solver.cs:105-113 | a pair farther apart than the sum of radii is unchanged; otherwise ball i moves by `½·(rᵢ + rⱼ − d)·normalized(axis)` and ball j by the opposite; the sum of the two positions is kept; no other ball and no other field changes |
| `Pipeline.ResolvePairConservesSum` | Assets/_Scripts/Solver.cs:110-113 | resolving one pair keeps the sum of all current positions |
| `Pipeline.ApplyPairsConservesSum` | Assets/_Scripts/Solver.cs:97-116 | resolving any sequence of pairs keeps the sum of all current positions |
| `Pipeline.CollisionPhaseConservesSum` | Assets/_Scripts/Solver.cs:97-116 | the collision phase keeps the plain sum, hence the unweighted mean, of all current positions; radii play no part |
| `Pipeline.ApplyPairsMovesOnlyPositions` | Assets/_Scripts/Solver.cs:97-116 | resolving pairs keeps the length, order, radii, previous positions and accelerations |
| `Pipeline.CollisionPhaseMovesOnlyPositions` | Assets/_Scripts/Solver.cs:97-116 | the collision phase changes current positions only |
| `Pipeline.SingleBallNeverCollides` | Assets/_Scripts/Solver.cs:99-103 | with at most one ball there is no pair, and the collision phase is the identity |
| `Pipeline.TwoBallsMeetOnce` | Assets/_Scripts/Solver.cs:99-105 | with two balls the collision phase resolves exactly the pair (0, 1), once |
| `Pipeline.CollisionScenario` | Assets/_Scripts/Solver.cs:106-113 | two unit balls at x = 0 and x = 1.5 end at x = −0.25 and x = 1.75 when the library reports distance 1.5 and direction (−1, 0, 0) |
| `Pipeline.IntegrationPhase` | Assets/_Scripts/Solver.cs:66-72 | the length is kept and every ball takes its own Verlet step of `deltaTime` |
| `Pipeline.SubStep` | Assets/_Scripts/Solver.cs:59-62 | gravity, constraint, collisions, integration, composed in that order; keeps the length (invariants: `SubStepResets`, `PreviousIsPreIntegrationPosition`) |
| `Pipeline.SubSteps` | Assets/_Scripts/Solver.cs:57-63 | `n` sub-steps one after the other; keeps the length (invariants: `SubStepsKeepBalls`) |
| `Pipeline.Frame` | Assets/_Scripts/Solver.cs:54-64 | `_subSteps` sub-steps of `deltaTime / _subSteps` each; keeps the length (invariants: `FrameResets`; time: `SlicesCoverFrame`) |
| `Pipeline.SubStepResets` | Assets/_Scripts/Solver.cs:59-62 | after a sub-step every acceleration is zero and the length, order and every radius are unchanged |
| `Pipeline.SubStepsKeepBalls` | Assets/_Scripts/Solver.cs:57-63 | any number of sub-steps keeps every ball and radius; one or more leave no acceleration |
| `Pipeline.FrameResets` | Assets/_Scripts/Solver.cs:54-64 | a whole frame keeps every ball and radius and leaves zero acceleration |
| `Pipeline.GravityStartsFromZero` | Assets/_Scripts/Solver.cs:59-62 | acceleration never carries over: gravity in the next sub-step leaves every acceleration equal to gravity |
| `Pipeline.PreviousIsPreIntegrationPosition` | Assets/_Scripts/Solver.cs:59-62 | after a sub-step each previous position is the current position the collision phase produced |
| `Pipeline.ScheduleOrder` | Assets/_Scripts/Solver.cs:57-63 | n iterations make 4·n calls: gravity, constraint, collisions, integration, repeating in that order |
| `Pipeline.ScheduleTime` | Assets/_Scripts/Solver.cs:57-62 | n iterations with slice dt advance simulated time by n·dt |
| `Pipeline.SlicesCoverFrame` | Assets/_Scripts/Solver.cs:56-57 | the `_subSteps` slices of `deltaTime / _subSteps` add up to `deltaTime` |
| `Solving.Solver.constructor` | Assets/_Scripts/Solver.cs:8-18 | the solver holds the given array and settings; at least one sub-step and positive radii |
| `Solving.Solver.WithDefaults` | Assets/_Scripts/Solver.cs:10-18 | gravity (0, −10, 0), container radius 2, eight sub-steps |
| `Solving.Solver.UpdateSolver` | Assets/_Scripts/Solver.cs:54-64 | the array becomes `Frame` of the old array; the calls made are exactly `_subSteps` repetitions of the four phases with slice `deltaTime / _subSteps`; the invariant is kept |
| `Solving.Solver.RunSubStep` | Assets/_Scripts/Solver.cs:59-62 | one loop iteration: the array becomes `SubStep` of the old array, and the four calls are recorded in order |
| `Solving.Solver.UpdatePositions` | Assets/_Scripts/Solver.cs:66-72 | every ball takes one Verlet step in place |
| `Solving.Solver.ApplyGravity` | Assets/_Scripts/Solver.cs:74-80 | every ball is accelerated once by gravity, in place |
| `Solving.Solver.ApplyConstraint` | Assets/_Scripts/Solver.cs:82-95 | every ball is clamped in place about the centre `container + (0, R, 0)` |
| `Solving.Solver.SolveCollisions` | Assets/_Scripts/Solver.cs:97-116 | the nested `i < j` loop leaves the array equal to the collision phase of the old array |
| `Solving.Solver.SolveCollisionsRow` | Assets/_Scripts/Solver.cs:101-114 | one pass of the inner loop over `j = i+1 .. n-1` leaves the array equal to `Row` of the old array for row `i` |

## Left out

- The spawning coroutine `Solver.Start` (Solver.cs:28-47) is not modelled: it instantiates engine objects, draws random radii and directions, and rebuilds the array one frame at a time. The model steps whatever array the solver holds. It does not decide whether spawning interleaves with stepping.
- `Update` and `Time.deltaTime` are not modelled: the frame time is a parameter of `UpdateSolver`. `LateUpdate`'s write to `transform.position` and `SetRadius`'s write to `transform.localScale` are presentation, and are not modelled either.
- `OnDrawGizmosSelected` is debug drawing only.
- The settings are frozen at construction. `_gravity`, `_containerRadius` and `_subSteps` are serialized fields that the editor can change between frames; the model holds them as constants of the `Solver`. `_container` is a `Transform` whose position is re-read on every `ApplyConstraint` call, so the container can move between frames; the model holds one fixed position. A missing (null) container, which makes `ApplyConstraint` throw after `ApplyGravity` has already added gravity, is not modelled either.
- Single-precision rounding is not modelled: all arithmetic is over exact reals.
- `magnitude` and `normalized` are library functions with a hidden square root. They are parameters. The model claims no fact about them in general. Two lemmas assume facts as preconditions: `OversizedBallIsAlwaysClamped` assumes that `magnitude` is non-negative, and `CollisionScenario` assumes the two values `magnitude((−1.5, 0, 0)) = 1.5` and `normalized((−1.5, 0, 0)) = (−1, 0, 0)`. In particular it claims no fallback direction for the zero vector.
- Pipeline.Constrain: does not claim that a clamped ball ends exactly `R − r` from the centre, because that needs `normalized` to return a unit vector.
- Pipeline.ResolvePairEffect: does not claim that an overlapping pair ends exactly `rᵢ + rⱼ` apart, for the same reason.
- `VerletObject` is a reference type in the source. The model stores each ball's state by value in the solver's array. The source's balls are distinct objects, each in one slot, so this changes no result. Reference identity and aliasing are therefore not modelled.
- The `[Min]` editor attributes become preconditions: `_subSteps ≥ 1` and a positive radius for every ball, held in `Solver.Valid()`. `_objectAmount` and `_verletObjectRadius` only matter to spawning and drawing. The `[Min(1f)]` bound on `_containerRadius` is dropped: the model accepts any container radius, including one smaller than a ball's radius, where `R − r` is negative and the clamp puts the ball behind the centre (`OversizedBallIsAlwaysClamped`).
