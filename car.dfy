/** The Car class of assets/car.js: a player's vehicle that holds its motion
    state in fields and updates them in place, once per key poll (control)
    and once per tick (update). */
module CarModel {

  import opened Driving
  import opened World
  import opened Collisions

  /** _getAxis: the displacement of one tick, the heading's unit vector scaled
      by the speed.  `direction(rotation)` stands for
      (sin(rotation degrees), -cos(rotation degrees)); nothing about the
      trigonometry is modelled, only the scaling by speed. */
  function Axis(rotation: real, speed: real, direction: real -> Vector2): (r: Vector2)
    ensures speed == 0.0 ==> r == Vector2(0.0, 0.0)
  {
    Vector2(direction(rotation).x * speed, direction(rotation).y * speed)
  }

  /** Scaling by the speed, for any heading: negating the speed (as a bounce
      does) negates the displacement. */
  lemma AxisReversesWithSpeed(rotation: real, speed: real, direction: real -> Vector2)
    ensures Axis(rotation, -speed, direction) == Vector2(-Axis(rotation, speed, direction).x,
                                                          -Axis(rotation, speed, direction).y)
  {
  }

  class Car {
    /** The shared scene registry and the owning player, fixed at construction. */
    const objects: Registry
    const player: Player

    var x: real
    var y: real
    var rotation: real
    var speed: real
    var steeringLeft: bool
    var steeringRight: bool

    /** The invariant every operation keeps: |speed| stays below the forward
        ceiling, MAX_SPEED overshot by at most one ACCELERATION factor. */
    ghost predicate Valid()
      reads this
    {
      Abs(speed) < FORWARD_CEILING
    }

    /** The motion fields as a value. */
    function State(): CarState
      reads this
    {
      CarState(speed, rotation, steeringLeft, steeringRight)
    }

    /** A car starts at rest at (x, y), facing rotation 0, with neither
        steering flag set. */
    constructor(x: real, y: real, objects: Registry, player: Player)
      ensures Valid()
      ensures this.x == x && this.y == y && this.objects == objects && this.player == player
      ensures State() == CarState(0.0, 0.0, false, false)
    {
      this.x := x;
      this.y := y;
      this.objects := objects;
      this.player := player;
      this.rotation := 0.0;
      this.speed := 0.0;
      this.steeringLeft := false;
      this.steeringRight := false;
    }

    /** isMoving: |speed| at or beyond INITIAL_SPEED. */
    function IsMoving(): (r: bool)
      reads this
      ensures r <==> speed <= -INITIAL_SPEED || INITIAL_SPEED <= speed
    {
      Moving(speed)
    }

    /** isReturning: moving backwards, at or beyond -INITIAL_SPEED. */
    function IsReturning(): (r: bool)
      reads this
      ensures r <==> speed <= -INITIAL_SPEED
      ensures r ==> IsMoving()
    {
      Returning(speed)
    }

    method SteerLeft()
      modifies this
      ensures State() == Driving.SteerLeft(old(State()))
      ensures x == old(x) && y == old(y)
      ensures old(Valid()) ==> Valid()
    {
      steeringLeft := true;
      if IsMoving() {
        rotation := rotation - ROTATION_STEP * (speed / MAX_SPEED);
      }
    }

    method StopSteerLeft()
      modifies this
      ensures State() == old(State()).(steeringLeft := false)
      ensures x == old(x) && y == old(y)
      ensures old(Valid()) ==> Valid()
    {
      steeringLeft := false;
    }

    method SteerRight()
      modifies this
      ensures State() == Driving.SteerRight(old(State()))
      ensures x == old(x) && y == old(y)
      ensures old(Valid()) ==> Valid()
    {
      steeringRight := true;
      if IsMoving() {
        rotation := rotation + ROTATION_STEP * (speed / MAX_SPEED);
      }
    }

    method StopSteerRight()
      modifies this
      ensures State() == old(State()).(steeringRight := false)
      ensures x == old(x) && y == old(y)
      ensures old(Valid()) ==> Valid()
    {
      steeringRight := false;
    }

    method Accelerate()
      modifies this
      ensures State() == old(State()).(speed := Accelerated(old(speed)))
      ensures x == old(x) && y == old(y)
      ensures old(Valid()) ==> Valid()
    {
      if Valid() { ThrottleKeepsSpeedBound(speed); }
      if speed < MAX_SPEED {
        if speed < 0.0 {
          speed := speed + BREAK_POWER;
        } else if speed == 0.0 {
          speed := INITIAL_SPEED;
        } else {
          speed := speed * ACCELERATION;
        }
      }
    }

    method Decelerate()
      modifies this
      ensures State() == old(State()).(speed := Decelerated(old(speed)))
      ensures x == old(x) && y == old(y)
      ensures old(Valid()) ==> Valid()
    {
      if Valid() { ThrottleKeepsSpeedBound(speed); }
      if speed > 0.0 {
        speed := speed - BREAK_POWER;
      } else if speed == 0.0 {
        speed := -INITIAL_SPEED;
      } else if Abs(speed) < MAX_BACK_SPEED {
        speed := speed * ACCELERATION;
      }
    }

    /** control: read the four keys of this player from the key table and
        apply steering, then throttle. */
    method Control(pressedKeys: map<string, bool>,
                   leftKey: string, rightKey: string, accelerateKey: string, decelerateKey: string)
      modifies this
      ensures State() == Driving.Control(old(State()), pressedKeys, leftKey, rightKey, accelerateKey, decelerateKey)
      ensures x == old(x) && y == old(y)
      ensures old(Valid()) ==> Valid()
    {
      if Pressed(pressedKeys, leftKey) {
        SteerLeft();
      } else {
        StopSteerLeft();
      }
      if Pressed(pressedKeys, rightKey) {
        SteerRight();
      } else {
        StopSteerRight();
      }
      if Pressed(pressedKeys, accelerateKey) {
        Accelerate();
      }
      if Pressed(pressedKeys, decelerateKey) {
        Decelerate();
      }
    }

    /** update: one tick.  Bounce off an obstacle or let friction act, collect
        every touched coin, then move along the heading by the new speed.
        `touching` is the set of registry objects whose rectangles overlap
        the car's. */
    method Update(touching: set<Thing>, direction: real -> Vector2)
      modifies this, objects, player
      ensures speed == Ticked(old(speed), Bumped(old(objects.items), touching))
      ensures rotation == old(rotation) && steeringLeft == old(steeringLeft) && steeringRight == old(steeringRight)
      ensures objects.items == Remaining(old(objects.items), touching)
      ensures player.score == old(player.score) + |CollidingCoins(old(objects.items), touching)|
      ensures x == old(x) + Axis(rotation, speed, direction).x
      ensures y == old(y) + Axis(rotation, speed, direction).y
      ensures old(Valid()) ==> Valid()
    {
      if Valid() { TickKeepsSpeedBound(speed, Bumped(objects.items, touching)); }
      if Bumped(objects.items, touching) {
        speed := -speed;
      } else if !IsMoving() {
        speed := 0.0;
      } else {
        speed := speed * SPEED_DECAY;
      }

      CollectCoins(touching);

      var axis := Axis(rotation, speed, direction);
      x := x + axis.x;
      y := y + axis.y;
    }

    /** The coin loop of update: each touched coin is removed from the shared
        registry with removeItemByValue and scores the player one point. */
    method CollectCoins(touching: set<Thing>)
      modifies objects, player
      ensures objects.items == Remaining(old(objects.items), touching)
      ensures player.score == old(player.score) + |CollidingCoins(old(objects.items), touching)|
    {
      ghost var start := objects.items;
      var coins := CollidingCoins(objects.items, touching);
      var i := 0;
      while i < |coins|
        invariant 0 <= i <= |coins|
        invariant player.score == old(player.score) + i
        invariant Remaining(objects.items, touching) == Remaining(start, touching)
        invariant multiset(CollidingCoins(objects.items, touching)) == multiset(coins[i..])
      {
        CollectStep(start, objects.items, touching, i);
        RemoveItemByValue(objects, coins[i]);
        player.IncrementScore();
        i := i + 1;
      }
      CollectDone(objects.items, touching);
    }
  }
}
