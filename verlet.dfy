/**
 * The particle of the ball engine: a position-Verlet integrator that keeps
 * its velocity implicitly as the previous position, with a sleep state
 * machine that freezes a particle once it has been slow for long enough.
 */
module BallVerlet {
  import opened Particles

  const Zero: Vec2 := Vec2(0.0, 0.0)

  function Add(a: Vec2, b: Vec2): Vec2 { Vec2(a.x + b.x, a.y + b.y) }

  function Sub(a: Vec2, b: Vec2): Vec2 { Vec2(a.x - b.x, a.y - b.y) }

  function Scale(a: Vec2, k: real): Vec2 { Vec2(a.x * k, a.y * k) }

  /**
   * `get_velocity`: zero on the first frame (`last_dt == 0`), otherwise the
   * last displacement divided by the last time step.
   */
  function VelocityOf(position: Vec2, lastPosition: Vec2, lastDt: real): (v: Vec2)
    ensures lastDt == 0.0 ==> v == Zero
    ensures lastDt != 0.0 ==> Scale(v, lastDt) == Sub(position, lastPosition)
  {
    if lastDt == 0.0 then Zero
    else Vec2((position.x - lastPosition.x) / lastDt, (position.y - lastPosition.y) / lastDt)
  }

  /**
   * `v.length() < threshold` without the square root: a length is never
   * negative, so it is below the threshold exactly when the threshold is
   * positive and the squared length is below its square.
   */
  predicate SlowerThan(v: Vec2, threshold: real) {
    threshold > 0.0 && v.x * v.x + v.y * v.y < threshold * threshold
  }

  /** `position + acceleration * dt * dt + (position - last_position)`: one Verlet step. */
  function Step(position: Vec2, lastPosition: Vec2, acceleration: Vec2, dt: real): Vec2 {
    Add(Add(position, Scale(Scale(acceleration, dt), dt)), Sub(position, lastPosition))
  }

  /**
   * Setting the previous position to `position - velocity * dt` makes the
   * velocity read back as `velocity` as long as the last step was `dt`.
   */
  lemma SetVelocityReadsBack(position: Vec2, velocity: Vec2, dt: real)
    requires dt != 0.0
    ensures VelocityOf(position, Sub(position, Scale(velocity, dt)), dt) == velocity
  {
    var v := VelocityOf(position, Sub(position, Scale(velocity, dt)), dt);
    assert v.x * dt == velocity.x * dt && v.y * dt == velocity.y * dt;
    CancelFactor(v.x, velocity.x, dt);
    CancelFactor(v.y, velocity.y, dt);
  }

  lemma CancelFactor(a: real, b: real, k: real)
    requires k != 0.0 && a * k == b * k
    ensures a == b
  {
    assert (a - b) * k == 0.0;
  }

  /**
   * Moving the previous position back by `velocity * dt` adds `velocity`
   * to the velocity read back, as long as the last step was `dt`.
   */
  lemma AddVelocityReadsBack(position: Vec2, lastPosition: Vec2, velocity: Vec2, dt: real)
    requires dt != 0.0
    ensures VelocityOf(position, Sub(lastPosition, Scale(velocity, dt)), dt) == Add(VelocityOf(position, lastPosition, dt), velocity)
  {
    var v0 := VelocityOf(position, lastPosition, dt);
    var v1 := VelocityOf(position, Sub(lastPosition, Scale(velocity, dt)), dt);
    var w := Add(v0, velocity);
    assert w.x * dt == v0.x * dt + velocity.x * dt && w.y * dt == v0.y * dt + velocity.y * dt;
    CancelFactor(v1.x, w.x, dt);
    CancelFactor(v1.y, w.y, dt);
  }

  /**
   * A Verlet step of length `dt` after a step of the same length adds
   * `acceleration * dt` to the velocity read back.
   */
  lemma StepVelocity(position: Vec2, lastPosition: Vec2, acceleration: Vec2, dt: real)
    requires dt != 0.0
    ensures VelocityOf(Step(position, lastPosition, acceleration, dt), position, dt) ==
      Add(VelocityOf(position, lastPosition, dt), Scale(acceleration, dt))
  {
    var v0 := VelocityOf(position, lastPosition, dt);
    var v1 := VelocityOf(Step(position, lastPosition, acceleration, dt), position, dt);
    var w := Add(v0, Scale(acceleration, dt));
    assert w.x * dt == v0.x * dt + acceleration.x * dt * dt;
    assert w.y * dt == v0.y * dt + acceleration.y * dt * dt;
    CancelFactor(v1.x, w.x, dt);
    CancelFactor(v1.y, w.y, dt);
  }

  /** `get_interpolated_position`: from the previous position at `alpha == 0` to the current one at `alpha == 1`. */
  function Interpolated(position: Vec2, lastPosition: Vec2, alpha: real): (p: Vec2)
    ensures alpha == 0.0 ==> p == lastPosition
    ensures alpha == 1.0 ==> p == position
  {
    Add(lastPosition, Scale(Sub(position, lastPosition), alpha))
  }

  class Verlet {
    var id: nat
    var position: Vec2
    var lastPosition: Vec2
    var acceleration: Vec2
    var lastAcceleration: Vec2
    var radius: real
    var density: real
    var lastDt: real
    var color: Color
    var isSleeping: bool
    var sleepTimer: real

    /** `Verlet::new`: at rest, radius 9, density 1, awake. The random colour is passed in. */
    constructor (position: Vec2, color: Color)
      ensures this.position == position && lastPosition == position
      ensures acceleration == Zero && lastAcceleration == Zero
      ensures radius == 9.0 && density == 1.0 && lastDt == 0.0 && this.color == color && id == 0
      ensures !isSleeping && sleepTimer == 0.0
      ensures Velocity() == Zero
    {
      id := 0;
      this.position := position;
      lastPosition := position;
      acceleration := Zero;
      lastAcceleration := Zero;
      radius := 9.0;
      density := 1.0;
      lastDt := 0.0;
      this.color := color;
      isSleeping := false;
      sleepTimer := 0.0;
    }

    /** `Verlet::new_with_radius`. */
    constructor WithRadius(position: Vec2, radius: real, color: Color)
      ensures this.position == position && lastPosition == position
      ensures acceleration == Zero && lastAcceleration == Zero
      ensures this.radius == radius && density == 1.0 && lastDt == 0.0 && this.color == color && id == 0
      ensures !isSleeping && sleepTimer == 0.0
      ensures Velocity() == Zero
    {
      id := 0;
      this.position := position;
      lastPosition := position;
      acceleration := Zero;
      lastAcceleration := Zero;
      this.radius := radius;
      density := 1.0;
      lastDt := 0.0;
      this.color := color;
      isSleeping := false;
      sleepTimer := 0.0;
    }

    /** `Verlet::new_with_velocity`: the previous position and step are set so that the velocity reads back. */
    constructor WithVelocity(position: Vec2, velocity: Vec2, dt: real, color: Color)
      ensures this.position == position && lastPosition == Sub(position, Scale(velocity, dt))
      ensures acceleration == Zero && lastAcceleration == Zero
      ensures radius == 9.0 && density == 1.0 && lastDt == dt && this.color == color && id == 0
      ensures !isSleeping && sleepTimer == 0.0
      ensures dt != 0.0 ==> Velocity() == velocity
    {
      id := 0;
      this.position := position;
      lastPosition := Sub(position, Scale(velocity, dt));
      acceleration := Zero;
      lastAcceleration := Zero;
      radius := 9.0;
      density := 1.0;
      lastDt := dt;
      this.color := color;
      isSleeping := false;
      sleepTimer := 0.0;
      if dt != 0.0 {
        SetVelocityReadsBack(position, velocity, dt);
      }
    }

    function Velocity(): Vec2
      reads this
    {
      VelocityOf(position, lastPosition, lastDt)
    }

    function InterpolatedPosition(alpha: real): Vec2
      reads this
    {
      Interpolated(position, lastPosition, alpha)
    }

    /** `add_acceleration`: forces of this substep accumulate. */
    method AddAcceleration(a: Vec2)
      modifies this
      ensures acceleration == Add(old(acceleration), a)
      ensures position == old(position) && lastPosition == old(lastPosition) && lastAcceleration == old(lastAcceleration)
      ensures lastDt == old(lastDt) && isSleeping == old(isSleeping) && sleepTimer == old(sleepTimer)
      ensures radius == old(radius) && density == old(density) && color == old(color) && id == old(id)
    {
      acceleration := Add(acceleration, a);
    }

    /** `set_color`. */
    method SetColor(c: Color)
      modifies this
      ensures color == c
      ensures position == old(position) && lastPosition == old(lastPosition) && acceleration == old(acceleration)
      ensures lastAcceleration == old(lastAcceleration) && lastDt == old(lastDt)
      ensures isSleeping == old(isSleeping) && sleepTimer == old(sleepTimer)
      ensures radius == old(radius) && density == old(density) && id == old(id)
    {
      color := c;
    }

    /** `set_velocity`: only the previous position moves. */
    method SetVelocity(velocity: Vec2, dt: real)
      modifies this
      ensures lastPosition == Sub(position, Scale(velocity, dt))
      ensures position == old(position) && acceleration == old(acceleration) && lastAcceleration == old(lastAcceleration)
      ensures lastDt == old(lastDt) && isSleeping == old(isSleeping) && sleepTimer == old(sleepTimer)
      ensures radius == old(radius) && density == old(density) && color == old(color) && id == old(id)
      ensures dt != 0.0 && dt == lastDt ==> Velocity() == velocity
    {
      lastPosition := Sub(position, Scale(velocity, dt));
      if dt != 0.0 && dt == lastDt {
        SetVelocityReadsBack(position, velocity, dt);
      }
    }

    /** `add_velocity`: only the previous position moves. */
    method AddVelocity(velocity: Vec2, dt: real)
      modifies this
      ensures lastPosition == Sub(old(lastPosition), Scale(velocity, dt))
      ensures position == old(position) && acceleration == old(acceleration) && lastAcceleration == old(lastAcceleration)
      ensures lastDt == old(lastDt) && isSleeping == old(isSleeping) && sleepTimer == old(sleepTimer)
      ensures radius == old(radius) && density == old(density) && color == old(color) && id == old(id)
      ensures dt != 0.0 && dt == lastDt ==> Velocity() == Add(old(Velocity()), velocity)
    {
      if dt != 0.0 && dt == lastDt {
        AddVelocityReadsBack(position, lastPosition, velocity, dt);
      }
      lastPosition := Sub(lastPosition, Scale(velocity, dt));
    }

    /** `wake_up`. */
    method WakeUp()
      modifies this
      ensures !isSleeping && sleepTimer == 0.0
      ensures position == old(position) && lastPosition == old(lastPosition) && acceleration == old(acceleration)
      ensures lastAcceleration == old(lastAcceleration) && lastDt == old(lastDt)
      ensures radius == old(radius) && density == old(density) && color == old(color) && id == old(id)
    {
      isSleeping := false;
      sleepTimer := 0.0;
    }

    /**
     * `try_sleep`: a sleeping particle is left alone; an awake one that is
     * slower than the threshold accumulates `dt` on its timer and falls
     * asleep once the timer reaches `time_threshold`; a fast one has its
     * timer reset. The flag is never cleared here.
     */
    method TrySleep(velocityThreshold: real, timeThreshold: real, dt: real)
      modifies this
      ensures old(isSleeping) ==> isSleeping && sleepTimer == old(sleepTimer)
      ensures !old(isSleeping) && SlowerThan(old(Velocity()), velocityThreshold) ==>
        sleepTimer == old(sleepTimer) + dt && (isSleeping <==> sleepTimer >= timeThreshold)
      ensures !old(isSleeping) && !SlowerThan(old(Velocity()), velocityThreshold) ==> sleepTimer == 0.0 && !isSleeping
      ensures position == old(position) && lastPosition == old(lastPosition) && acceleration == old(acceleration)
      ensures lastAcceleration == old(lastAcceleration) && lastDt == old(lastDt)
      ensures radius == old(radius) && density == old(density) && color == old(color) && id == old(id)
    {
      if isSleeping {
        return;
      }
      var velocity := Velocity();
      if SlowerThan(velocity, velocityThreshold) {
        sleepTimer := sleepTimer + dt;
        if sleepTimer >= timeThreshold {
          isSleeping := true;
        }
      } else {
        sleepTimer := 0.0;
      }
    }

    /**
     * `update_position`: a sleeping particle stays where it is; an awake
     * one takes a Verlet step. Either way the acceleration of this substep
     * is kept as `last_acceleration`, the step as `last_dt`, and the
     * acceleration is cleared.
     */
    method UpdatePosition(dt: real)
      modifies this
      ensures old(isSleeping) ==> position == old(position) && lastPosition == old(lastPosition)
      ensures !old(isSleeping) ==>
        lastPosition == old(position) && position == Step(old(position), old(lastPosition), old(acceleration), dt)
      ensures !old(isSleeping) && dt != 0.0 && old(lastDt) == dt ==>
        Velocity() == Add(old(Velocity()), Scale(old(acceleration), dt))
      ensures lastAcceleration == old(acceleration) && lastDt == dt && acceleration == Zero
      ensures isSleeping == old(isSleeping) && sleepTimer == old(sleepTimer)
      ensures radius == old(radius) && density == old(density) && color == old(color) && id == old(id)
    {
      if isSleeping {
        lastAcceleration := acceleration;
        lastDt := dt;
        acceleration := Zero;
        return;
      }
      if dt != 0.0 && lastDt == dt {
        StepVelocity(position, lastPosition, acceleration, dt);
      }
      var displacement := Sub(position, lastPosition);
      lastPosition := position;
      position := Add(position, Scale(Scale(acceleration, dt), dt));
      position := Add(position, displacement);
      lastAcceleration := acceleration;
      lastDt := dt;
      acceleration := Zero;
    }
  }
}
