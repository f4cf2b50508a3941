/**
 * One simulated ball: the kinematic state of a VerletObject. Velocity is
 * never stored; it is implied by the current and previous positions.
 * Each mutator of the source returns the updated record here.
 */
module Particles {
  import opened Vectors

  datatype VerletObject = VerletObject(
    radius: real,
    positionCurrent: Vector3,
    positionPrevious: Vector3,
    acceleration: Vector3)
  {
    /** The velocity implied by the last two positions. */
    function Velocity(): Vector3 {
      Sub(positionCurrent, positionPrevious)
    }

    /** Start: both positions are taken from the spawn transform. */
    function Start(transformPosition: Vector3): (o: VerletObject)
      ensures o.positionCurrent == transformPosition && o.positionPrevious == transformPosition
      ensures o.Velocity() == Zero
      ensures o.radius == radius && o.acceleration == acceleration
    {
      this.(positionCurrent := transformPosition, positionPrevious := transformPosition)
    }

    /** SetRadius: the only writer of the radius. */
    function SetRadius(value: real): (o: VerletObject)
      ensures o.radius == value
      ensures o.positionCurrent == positionCurrent && o.positionPrevious == positionPrevious
      ensures o.acceleration == acceleration
    {
      this.(radius := value)
    }

    /** SetPositionCurrent: moves the ball without touching its history. */
    function SetPositionCurrent(value: Vector3): (o: VerletObject)
      ensures o.positionCurrent == value
      ensures o.positionPrevious == positionPrevious && o.acceleration == acceleration
      ensures o.radius == radius
    {
      this.(positionCurrent := value)
    }

    /**
     * UpdatePosition: one position-Verlet step. The old current position
     * becomes the previous one, the implied velocity grows by ½·dt²·a, and
     * the accumulated acceleration is consumed.
     */
    function UpdatePosition(deltaTime: real): (o: VerletObject)
      ensures o.positionPrevious == positionCurrent
      ensures o.positionCurrent
           == Add(Add(positionCurrent, Velocity()), Scale(0.5 * deltaTime * deltaTime, acceleration))
      ensures o.Velocity() == Add(Velocity(), Scale(0.5 * deltaTime * deltaTime, acceleration))
      ensures o.acceleration == Zero
      ensures o.radius == radius
    {
      var velocity := Sub(positionCurrent, positionPrevious);
      var shifted := this.(positionPrevious := positionCurrent);
      var moved := shifted.SetPositionCurrent(
        Add(Add(shifted.positionCurrent, velocity), Scale(0.5 * deltaTime * deltaTime, acceleration)));
      moved.(acceleration := Zero)
    }

    /** Accelerate: `Acceleration += a`. */
    function Accelerate(a: Vector3): (o: VerletObject)
      ensures o.acceleration == Add(acceleration, a)
      ensures o.positionCurrent == positionCurrent && o.positionPrevious == positionPrevious
      ensures o.radius == radius
    {
      this.(acceleration := Add(acceleration, a))
    }
  }

  /** A ball with zero acceleration and zero implied velocity. */
  predicate AtRest(o: VerletObject) {
    o.acceleration == Zero && o.positionCurrent == o.positionPrevious
  }

  /** `n` successive calls of UpdatePosition with the same time slice. */
  function Integrate(o: VerletObject, deltaTime: real, n: nat): (r: VerletObject)
    ensures r.radius == o.radius
    ensures n > 0 ==> r.acceleration == Zero
  {
    if n == 0 then o else Integrate(o, deltaTime, n - 1).UpdatePosition(deltaTime)
  }

  /** Successive Accelerate calls accumulate into one sum. */
  lemma AccelerateAccumulates(o: VerletObject, a: Vector3, b: Vector3)
    ensures o.Accelerate(a).Accelerate(b) == o.Accelerate(Add(a, b))
    ensures o.Accelerate(a).Accelerate(b) == o.Accelerate(b).Accelerate(a)
  {
  }

  /** A ball at rest is a fixed point of UpdatePosition. */
  lemma AtRestIsFixedPoint(o: VerletObject, deltaTime: real)
    requires AtRest(o)
    ensures o.UpdatePosition(deltaTime) == o
  {
  }

  /** A ball at rest stays where it is under any number of integration steps. */
  lemma {:induction false} AtRestStaysPut(o: VerletObject, deltaTime: real, n: nat)
    requires AtRest(o)
    ensures Integrate(o, deltaTime, n) == o
  {
    if n > 0 {
      AtRestStaysPut(o, deltaTime, n - 1);
      AtRestIsFixedPoint(o, deltaTime);
    }
  }

  /**
   * Without acceleration, integration is pure inertia: the ball moves on by
   * its implied velocity, and that velocity is kept.
   */
  lemma PureInertia(o: VerletObject, deltaTime: real)
    requires o.acceleration == Zero
    ensures o.UpdatePosition(deltaTime).positionCurrent == Add(o.positionCurrent, o.Velocity())
    ensures o.UpdatePosition(deltaTime).Velocity() == o.Velocity()
  {
  }

  /**
   * Without acceleration, `n` integration steps move the ball by `n` times
   * its implied velocity.
   */
  lemma {:induction false} InertialDrift(o: VerletObject, deltaTime: real, n: nat)
    requires o.acceleration == Zero
    ensures Integrate(o, deltaTime, n).positionCurrent
         == Add(o.positionCurrent, Scale(n as real, o.Velocity()))
    ensures Integrate(o, deltaTime, n).Velocity() == o.Velocity()
    ensures Integrate(o, deltaTime, n).acceleration == Zero
    ensures Integrate(o, deltaTime, n).radius == o.radius
  {
    if n > 0 {
      var before := Integrate(o, deltaTime, n - 1);
      InertialDrift(o, deltaTime, n - 1);
      PureInertia(before, deltaTime);
      ScaleStep(o.positionCurrent, (n - 1) as real, o.Velocity());
    }
  }
}
