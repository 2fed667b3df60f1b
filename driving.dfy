/** The speed state machine, steering and per-tick speed step of a Car
    (assets/car.js), stated as pure functions over a snapshot of the car's
    mutable fields.  Speeds and rotations are exact reals. */
module Driving {

  // The tuning constants a Car assigns in its constructor.
  const ACCELERATION := 1.08   // multiplicative gain of one accelerate call
  const BREAK_POWER := 0.05    // linear step of braking
  const INITIAL_SPEED := 0.5   // half-width of the dead zone, and the speed a standing car jumps to
  const MAX_SPEED := 12.0      // forward guard of accelerate; divisor of the steering step
  const MAX_BACK_SPEED := 2.0  // reverse guard of decelerate
  const SPEED_DECAY := 0.96    // friction factor of every tick without a bounce
  const ROTATION_STEP := 8.0   // degrees turned by one steering call at MAX_SPEED

  /** The first speed the forward ramp cannot reach: it may overshoot
      MAX_SPEED once, by less than the factor ACCELERATION. */
  const FORWARD_CEILING := MAX_SPEED * ACCELERATION

  /** The same for the reverse ramp and MAX_BACK_SPEED. */
  const REVERSE_FLOOR := -MAX_BACK_SPEED * ACCELERATION

  function Abs(x: real): real { if x < 0.0 then -x else x }

  /** The mutable motion fields of a Car. */
  datatype CarState = CarState(speed: real, rotation: real, steeringLeft: bool, steeringRight: bool)

  /** A displacement in screen coordinates. */
  datatype Vector2 = Vector2(x: real, y: real)

  // ---------------------------------------------------------------------
  // The dead zone

  /** isMoving: the speed lies outside the open band (-INITIAL_SPEED, INITIAL_SPEED). */
  function Moving(speed: real): (r: bool)
    ensures r <==> Abs(speed) >= INITIAL_SPEED
    ensures r ==> speed != 0.0
  {
    !(speed > -INITIAL_SPEED && speed < INITIAL_SPEED)
  }

  /** isReturning: the speed is at or beyond the reverse edge of the dead zone,
      that is, the car moves backwards. */
  function Returning(speed: real): (r: bool)
    ensures r <==> Moving(speed) && speed < 0.0
  {
    !(speed > -INITIAL_SPEED)
  }

  // ---------------------------------------------------------------------
  // Throttle

  /** accelerate: braking out of reverse, a jump out of standstill, or a
      multiplicative ramp, all guarded by speed < MAX_SPEED.  It never lowers
      the speed, and leaves it unchanged exactly when the guard fails. */
  function Accelerated(speed: real): (r: real)
    ensures r >= speed
    ensures r == speed <==> speed >= MAX_SPEED
  {
    if speed < MAX_SPEED then
      if speed < 0.0 then speed + BREAK_POWER
      else if speed == 0.0 then INITIAL_SPEED
      else speed * ACCELERATION
    else speed
  }

  /** decelerate: linear braking going forward, a jump into reverse out of
      standstill, or a multiplicative reverse ramp guarded by
      |speed| < MAX_BACK_SPEED.  It never raises the speed, leaves it
      unchanged exactly when the reverse guard fails, and never takes a
      reversing or standing car out of reverse. */
  function Decelerated(speed: real): (r: real)
    ensures r <= speed
    ensures r == speed <==> speed <= -MAX_BACK_SPEED
    ensures speed <= 0.0 ==> r < 0.0
  {
    if speed > 0.0 then speed - BREAK_POWER
    else if speed == 0.0 then -INITIAL_SPEED
    else if Abs(speed) < MAX_BACK_SPEED then speed * ACCELERATION
    else speed
  }

  /** From standstill one accelerate call moves the car forward and one
      decelerate call moves it backwards. */
  lemma ThrottleLeavesStandstill()
    ensures Moving(Accelerated(0.0)) && !Returning(Accelerated(0.0))
    ensures Returning(Decelerated(0.0))
  {
  }

  /** The forward overshoot happens at most once: below FORWARD_CEILING the
      speed stays below it, and once at or past MAX_SPEED it is a fixed point. */
  lemma AccelerateOvershootsOnce(speed: real)
    ensures speed < FORWARD_CEILING ==> Accelerated(speed) < FORWARD_CEILING
    ensures Accelerated(speed) >= MAX_SPEED ==> Accelerated(Accelerated(speed)) == Accelerated(speed)
  {
  }

  /** The speed after holding the accelerate key for n calls. */
  function AccelerateTimes(speed: real, n: nat): real
    decreases n
  {
    if n == 0 then speed else AccelerateTimes(Accelerated(speed), n - 1)
  }

  /** However long accelerate is held, the speed never falls and, starting
      below FORWARD_CEILING, never reaches it. */
  lemma {:induction false} HeldThrottleStaysBelowCeiling(speed: real, n: nat)
    requires speed < FORWARD_CEILING
    ensures speed <= AccelerateTimes(speed, n) < FORWARD_CEILING
    decreases n
  {
    if n > 0 {
      AccelerateOvershootsOnce(speed);
      HeldThrottleStaysBelowCeiling(Accelerated(speed), n - 1);
    }
  }

  /** Holding accelerate from standstill: 0, then INITIAL_SPEED, then the ramp. */
  lemma RampFromStandstill()
    ensures AccelerateTimes(0.0, 1) == 0.5
    ensures AccelerateTimes(0.0, 2) == 0.54
  {
  }

  /** A car at 11.5 overshoots MAX_SPEED to 12.42 and then stays there. */
  lemma OvershootExample()
    ensures Accelerated(11.5) == 12.42 > MAX_SPEED
    ensures AccelerateTimes(11.5, 3) == 12.42
  {
  }

  /** The reverse ramp overshoots MAX_BACK_SPEED at most once: from above
      REVERSE_FLOOR decelerate stays above it. */
  lemma DecelerateOvershootsOnce(speed: real)
    requires REVERSE_FLOOR < speed
    ensures REVERSE_FLOOR < Decelerated(speed)
  {
  }

  /** The speed after holding the decelerate key for n calls. */
  function DecelerateTimes(speed: real, n: nat): real
    decreases n
  {
    if n == 0 then speed else DecelerateTimes(Decelerated(speed), n - 1)
  }

  /** However long decelerate is held, the speed never rises and, starting
      above REVERSE_FLOOR, never reaches it. */
  lemma {:induction false} HeldBrakeStaysAboveFloor(speed: real, n: nat)
    requires REVERSE_FLOOR < speed
    ensures REVERSE_FLOOR < DecelerateTimes(speed, n) <= speed
    decreases n
  {
    if n > 0 {
      DecelerateOvershootsOnce(speed);
      HeldBrakeStaysAboveFloor(Decelerated(speed), n - 1);
    }
  }

  /** No throttle call lets |speed| reach FORWARD_CEILING. */
  lemma ThrottleKeepsSpeedBound(speed: real)
    requires Abs(speed) < FORWARD_CEILING
    ensures Abs(Accelerated(speed)) < FORWARD_CEILING
    ensures Abs(Decelerated(speed)) < FORWARD_CEILING
  {
  }

  // ---------------------------------------------------------------------
  // Steering

  /** The heading change a steering call applies: ROTATION_STEP scaled by
      speed / MAX_SPEED, and nothing while the car is in the dead zone. */
  function Turn(speed: real): real {
    if Moving(speed) then ROTATION_STEP * (speed / MAX_SPEED) else 0.0
  }

  /** steerLeft: always sets its flag; lowers the rotation only when moving. */
  function SteerLeft(c: CarState): (r: CarState)
    ensures r.steeringLeft && r.steeringRight == c.steeringRight && r.speed == c.speed
    ensures r.rotation == c.rotation - Turn(c.speed)
  {
    if Moving(c.speed) then
      c.(steeringLeft := true, rotation := c.rotation - ROTATION_STEP * (c.speed / MAX_SPEED))
    else
      c.(steeringLeft := true)
  }

  /** steerRight: the mirror image of steerLeft. */
  function SteerRight(c: CarState): (r: CarState)
    ensures r.steeringRight && r.steeringLeft == c.steeringLeft && r.speed == c.speed
    ensures r.rotation == c.rotation + Turn(c.speed)
  {
    if Moving(c.speed) then
      c.(steeringRight := true, rotation := c.rotation + ROTATION_STEP * (c.speed / MAX_SPEED))
    else
      c.(steeringRight := true)
  }

  /** What a steering turn is: none in the dead zone; going forward a
      positive amount (left lowers the rotation, right raises it); in reverse
      a negative one (the directions swap); and at most ROTATION_STEP in
      magnitude unless |speed| exceeds MAX_SPEED. */
  lemma TurnProperties(speed: real)
    ensures !Moving(speed) ==> Turn(speed) == 0.0
    ensures Moving(speed) && speed > 0.0 ==> Turn(speed) > 0.0
    ensures Moving(speed) && speed < 0.0 ==> Turn(speed) < 0.0
    ensures Abs(speed) <= MAX_SPEED ==> Abs(Turn(speed)) <= ROTATION_STEP
  {
  }

  /** Left and right turn by exact negatives of one another, so one of each,
      in either order, restores the heading. */
  lemma SteeringCancels(c: CarState)
    ensures SteerRight(SteerLeft(c)).rotation == c.rotation
    ensures SteerLeft(SteerRight(c)).rotation == c.rotation
  {
  }

  /** The heading example: rotation 0, speed 10, MAX_SPEED 12, ROTATION_STEP 8. */
  lemma SteerExample()
    ensures SteerLeft(CarState(10.0, 0.0, false, false)).rotation == -20.0 / 3.0
    ensures SteerLeft(CarState(0.4, 0.0, false, false)).rotation == 0.0
  {
  }

  // ---------------------------------------------------------------------
  // Input

  /** A key counts as pressed when the key table maps it to true; a key the
      table does not hold reads as not pressed. */
  function Pressed(keys: map<string, bool>, key: string): bool {
    key in keys && keys[key]
  }

  /** control: steering left, then right, then accelerate, then decelerate. */
  function Control(c: CarState, keys: map<string, bool>,
                   leftKey: string, rightKey: string, accelerateKey: string, decelerateKey: string): CarState
  {
    var afterLeft := if Pressed(keys, leftKey) then SteerLeft(c) else c.(steeringLeft := false);
    var afterRight := if Pressed(keys, rightKey) then SteerRight(afterLeft) else afterLeft.(steeringRight := false);
    var afterAccelerate :=
      if Pressed(keys, accelerateKey) then afterRight.(speed := Accelerated(afterRight.speed)) else afterRight;
    if Pressed(keys, decelerateKey) then afterAccelerate.(speed := Decelerated(afterAccelerate.speed))
    else afterAccelerate
  }

  /** What one control call does: each flag ends equal to its key, steering
      turns by the speed from before the throttle acts (both steering keys
      cancel), and the accelerate key acts before the decelerate key. */
  lemma ControlEffect(c: CarState, keys: map<string, bool>,
                      leftKey: string, rightKey: string, accelerateKey: string, decelerateKey: string)
    ensures var r := Control(c, keys, leftKey, rightKey, accelerateKey, decelerateKey);
      && r.steeringLeft == Pressed(keys, leftKey)
      && r.steeringRight == Pressed(keys, rightKey)
      && r.rotation == c.rotation - (if Pressed(keys, leftKey) then Turn(c.speed) else 0.0)
                                  + (if Pressed(keys, rightKey) then Turn(c.speed) else 0.0)
      && (Pressed(keys, leftKey) && Pressed(keys, rightKey) ==> r.rotation == c.rotation)
      && r.speed == (match (Pressed(keys, accelerateKey), Pressed(keys, decelerateKey))
                     case (false, false) => c.speed
                     case (true, false) => Accelerated(c.speed)
                     case (false, true) => Decelerated(c.speed)
                     case (true, true) => Decelerated(Accelerated(c.speed)))
  {
  }

  /** The order of the throttle calls matters: from standstill,
      accelerate-then-decelerate (the order control uses) ends moving slowly
      forward, and the other order ends moving slowly backwards. */
  lemma ThrottleOrderMatters()
    ensures Decelerated(Accelerated(0.0)) == INITIAL_SPEED - BREAK_POWER
    ensures Accelerated(Decelerated(0.0)) == -(INITIAL_SPEED - BREAK_POWER)
  {
  }

  // ---------------------------------------------------------------------
  // The speed step of one tick

  /** update's speed step: a bounce negates, the dead zone snaps to 0, and
      otherwise friction decays the speed. */
  function Ticked(speed: real, bumped: bool): real {
    if bumped then -speed
    else if !Moving(speed) then 0.0
    else speed * SPEED_DECAY
  }

  /** A bounce flips the sign and keeps |speed| with no decay; without one the
      car stops exactly when it was in the dead zone, and otherwise keeps its
      direction while strictly slowing down. */
  lemma TickSpeedStep(speed: real, bumped: bool)
    ensures bumped ==> Ticked(speed, bumped) == -speed && Abs(Ticked(speed, bumped)) == Abs(speed)
    ensures !bumped ==> (Ticked(speed, bumped) == 0.0 <==> !Moving(speed))
    ensures !bumped && Moving(speed) && speed > 0.0 ==> 0.0 < Ticked(speed, bumped) < speed
    ensures !bumped && Moving(speed) && speed < 0.0 ==> speed < Ticked(speed, bumped) < 0.0
    ensures Abs(Ticked(speed, bumped)) <= Abs(speed)
  {
  }

  /** The speed after n ticks with neither collisions nor throttle. */
  function Coast(speed: real, n: nat): real
    decreases n
  {
    if n == 0 then speed else Coast(Ticked(speed, false), n - 1)
  }

  /** Coasting never speeds the car up and never turns it around. */
  lemma {:induction false} CoastingSettles(speed: real, n: nat)
    ensures Abs(Coast(speed, n)) <= Abs(speed)
    ensures speed >= 0.0 ==> Coast(speed, n) >= 0.0
    ensures speed <= 0.0 ==> Coast(speed, n) <= 0.0
    decreases n
  {
    if n > 0 {
      TickSpeedStep(speed, false);
      CoastingSettles(Ticked(speed, false), n - 1);
    }
  }

  /** Once in the dead zone, a coasting car is at exactly 0 after one tick and
      stays there. */
  lemma {:induction false} DeadZoneSettles(speed: real, n: nat)
    requires !Moving(speed)
    requires n > 0
    ensures Coast(speed, n) == 0.0
    decreases n
  {
    if n > 1 {
      DeadZoneSettles(0.0, n - 1);
    }
  }

  /** The bounce example: speed 5 against an obstacle gives exactly -5. */
  lemma BounceExample()
    ensures Ticked(5.0, true) == -5.0
    ensures Ticked(5.0, false) == 4.8
  {
  }

  /** No tick lets |speed| reach FORWARD_CEILING. */
  lemma TickKeepsSpeedBound(speed: real, bumped: bool)
    requires Abs(speed) < FORWARD_CEILING
    ensures Abs(Ticked(speed, bumped)) < FORWARD_CEILING
  {
    TickSpeedStep(speed, bumped);
  }
}
