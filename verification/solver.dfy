/**
 * The Solver component: owns the array of balls and advances it frame by
 * frame. Each phase method updates the array in place and is proved to
 * compute the corresponding function of module Pipeline.
 */
module Solving {
  import opened Vectors
  import opened Particles
  import opened Pipeline

  class Solver {
    /** The balls, in the stable order that collision pairs are enumerated in. */
    var objects: array<VerletObject>
    const gravity: Vector3
    /** Position of the container transform; the sphere's centre is one radius above it. */
    const container: Vector3
    const containerRadius: real
    const subSteps: int
    /** The phase calls made so far, oldest first. */
    ghost var phases: seq<Phase>

    /** At least one sub-step per frame, and every ball has a positive radius. */
    ghost predicate Valid()
      reads this, objects
    {
      subSteps >= 1 && forall k :: 0 <= k < objects.Length ==> objects[k].radius > 0.0
    }

    /** The configuration as one value. */
    function Settings(): Config
      reads this
    {
      Config(gravity, container, containerRadius, subSteps)
    }

    constructor (objects: array<VerletObject>, gravity: Vector3, container: Vector3,
                 containerRadius: real, subSteps: int)
      requires subSteps >= 1
      requires forall k :: 0 <= k < objects.Length ==> objects[k].radius > 0.0
      ensures Valid()
      ensures this.objects == objects && this.gravity == gravity && this.container == container
      ensures this.containerRadius == containerRadius && this.subSteps == subSteps
      ensures phases == []
    {
      this.objects := objects;
      this.gravity := gravity;
      this.container := container;
      this.containerRadius := containerRadius;
      this.subSteps := subSteps;
      phases := [];
    }

    /** The serialized defaults: gravity (0, -10, 0), a container of radius 2, eight sub-steps. */
    constructor WithDefaults(objects: array<VerletObject>, container: Vector3)
      requires forall k :: 0 <= k < objects.Length ==> objects[k].radius > 0.0
      ensures Valid()
      ensures this.objects == objects && this.container == container
      ensures gravity == Vector3(0.0, -10.0, 0.0) && containerRadius == 2.0 && subSteps == 8
      ensures phases == []
    {
      this.objects := objects;
      this.gravity := Vector3(0.0, -10.0, 0.0);
      this.container := container;
      this.containerRadius := 2.0;
      this.subSteps := 8;
      phases := [];
    }

    /** One frame: `subSteps` iterations of the four phases, each with an equal time slice. */
    method UpdateSolver(deltaTime: real, lib: VectorLib)
      requires Valid()
      modifies this`phases, objects
      ensures Valid()
      ensures objects[..] == Frame(old(objects[..]), Settings(), lib, deltaTime)
      ensures phases == old(phases) + Schedule(subSteps, deltaTime / subSteps as real)
    {
      var subDeltaTime := deltaTime / subSteps as real;
      for i := 0 to subSteps
        invariant objects[..] == SubSteps(old(objects[..]), Settings(), lib, subDeltaTime, i)
        invariant phases == old(phases) + Schedule(i, subDeltaTime)
      {
        RunSubStep(subDeltaTime, lib);
        ScheduleStep(old(phases), i, subDeltaTime);
      }
      FrameResets(old(objects[..]), Settings(), lib, deltaTime);
    }

    /** The body of UpdateSolver's loop: the four phases in their fixed order. */
    method RunSubStep(subDeltaTime: real, lib: VectorLib)
      modifies this`phases, objects
      ensures objects[..] == SubStep(old(objects[..]), Settings(), lib, subDeltaTime)
      ensures phases == old(phases) + SubStepCalls(subDeltaTime)
    {
      ghost var traced := phases;
      ApplyGravity();
      ApplyConstraint(lib);
      SolveCollisions(lib);
      UpdatePositions(subDeltaTime);
      AppendSubStepCalls(traced, subDeltaTime);
    }

    /** Every ball takes one Verlet step. */
    method UpdatePositions(deltaTime: real)
      modifies this`phases, objects
      ensures objects[..] == IntegrationPhase(old(objects[..]), deltaTime)
      ensures phases == old(phases) + [IntegrationStep(deltaTime)]
    {
      for k := 0 to objects.Length
        invariant phases == old(phases)
        invariant forall m :: 0 <= m < k ==> objects[m] == old(objects[m]).UpdatePosition(deltaTime)
        invariant forall m :: k <= m < objects.Length ==> objects[m] == old(objects[m])
      {
        objects[k] := objects[k].UpdatePosition(deltaTime);
      }
      phases := phases + [IntegrationStep(deltaTime)];
    }

    /** Every ball is accelerated once by gravity. */
    method ApplyGravity()
      modifies this`phases, objects
      ensures objects[..] == GravityPhase(old(objects[..]), gravity)
      ensures phases == old(phases) + [GravityStep]
    {
      for k := 0 to objects.Length
        invariant phases == old(phases)
        invariant forall m :: 0 <= m < k ==> objects[m] == old(objects[m]).Accelerate(gravity)
        invariant forall m :: k <= m < objects.Length ==> objects[m] == old(objects[m])
      {
        objects[k] := objects[k].Accelerate(gravity);
      }
      phases := phases + [GravityStep];
    }

    /** Every ball that pokes out of the container sphere is pulled back onto its wall. */
    method ApplyConstraint(lib: VectorLib)
      modifies this`phases, objects
      ensures objects[..]
           == ConstraintPhase(old(objects[..]), ContainerCentre(container, containerRadius), containerRadius, lib)
      ensures phases == old(phases) + [ConstraintStep]
    {
      var position := Add(container, Up(containerRadius));
      for k := 0 to objects.Length
        invariant phases == old(phases)
        invariant forall m :: 0 <= m < k ==> objects[m] == Constrain(old(objects[m]), position, containerRadius, lib)
        invariant forall m :: k <= m < objects.Length ==> objects[m] == old(objects[m])
      {
        var obj := objects[k];
        var toObj := Sub(obj.positionCurrent, position);
        var distance := lib.magnitude(toObj);
        if distance <= containerRadius - obj.radius {
          continue;
        }
        var direction := lib.normalized(toObj);
        objects[k] := obj.SetPositionCurrent(Add(position, Scale(containerRadius - obj.radius, direction)));
      }
      phases := phases + [ConstraintStep];
    }

    /** Every overlapping pair i < j is pushed apart, equally and oppositely, in loop order. */
    method SolveCollisions(lib: VectorLib)
      modifies this`phases, objects
      ensures objects[..] == CollisionPhase(old(objects[..]), lib)
      ensures phases == old(phases) + [CollisionStep]
    {
      var count := objects.Length;
      ghost var start := objects[..];
      for i := 0 to count
        invariant phases == old(phases)
        invariant Sweep(objects[..], i, i + 1, lib) == Sweep(start, 0, 1, lib)
      {
        ghost var before := objects[..];
        SolveCollisionsRow(i, lib);
        SweepByRows(before, i, i + 1, lib);
      }
      SweepIsCollisionPhase(start, lib);
      phases := phases + [CollisionStep];
    }

    /** The inner loop of SolveCollisions: ball `i` against every later ball, in order. */
    method SolveCollisionsRow(i: int, lib: VectorLib)
      requires 0 <= i < objects.Length
      modifies objects
      ensures objects[..] == Row(old(objects[..]), i, i + 1, lib)
    {
      var count := objects.Length;
      var obj1 := objects[i];
      for j := i + 1 to count
        invariant obj1 == objects[i]
        invariant Row(objects[..], i, j, lib) == Row(old(objects[..]), i, i + 1, lib)
      {
        ghost var current := objects[..];
        RowStep(current, i, j, lib);
        var obj2 := objects[j];
        var collisionAxis := Sub(obj1.positionCurrent, obj2.positionCurrent);
        var distance := lib.magnitude(collisionAxis);
        if distance > obj1.radius + obj2.radius {
          assert ResolvePair(current, i, j, lib) == current;
          continue;
        }
        var direction := lib.normalized(collisionAxis);
        var delta := obj1.radius + obj2.radius - distance;
        ResolvePairOverlap(current, i, j, lib);
        obj1 := obj1.SetPositionCurrent(Add(obj1.positionCurrent, Scale(0.5 * delta, direction)));
        objects[i] := obj1;
        objects[j] := obj2.SetPositionCurrent(Sub(obj2.positionCurrent, Scale(0.5 * delta, direction)));
        assert objects[..] == ResolvePair(current, i, j, lib);
      }
      assert Row(objects[..], i, count, lib) == objects[..];
    }
  }
}
