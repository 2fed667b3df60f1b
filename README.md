# Car motion and collision response, in Dafny

This project models the `Car` class of `assets/car.js` in the need-for-switch driving game. A car is a player's vehicle. Its signed `speed` is driven by a small state machine:

- a dead zone of ±0.5 around standstill;
- a jump out of standstill;
- linear braking;
- multiplicative ramps up to a forward and a reverse guard.

Steering changes `rotation` by a speed-scaled step. `control` maps the boolean key table onto steering and throttle. Each tick, `update` does three things in order:

1. It bounces the car off an obstacle or applies friction.
2. It collects every coin the car touches: the coin is removed from the shared objects registry and the player scores a point for it.
3. It moves the car along its heading.

The model has four modules:

- **Driving** (`driving.dfy`): the tuning constants, `isMoving` and `isReturning`, and the throttle, steering, control and tick speed step. All are pure functions over the speed or a `CarState` snapshot, with their properties proved as lemmas.
- **World** (`world.dfy`):
  - the scene objects (`Thing`), reduced to the three class tests `update` makes;
  - the shared `Registry` array;
  - the `Player` score;
  - `removeItemByValue` as remove-first-occurrence by object identity.
- **Collisions** (`collisions.dfy`): the obstacle and coin filters of `update`, and the lemmas about what coin collection leaves behind.
- **CarModel** (`car.dfy`): the `Car` class itself. Its fields are updated in place by methods whose postconditions tie the new state to the Driving and Collisions functions. The `Valid()` invariant (|speed| < 12 · 1.08) is preserved by every method.

Speeds and rotations are exact reals. The tuning is fixed at the values the constructor assigns (1.08, 0.05, 0.5, 12, 2, 0.96, 8), so every fact below is proved for those constants.

Two consequences of the code are worth stating outright:

- **The speed cap.** |speed| is not bounded by max(maxSpeed, maxBackSpeed), and holding accelerate does pass 12. The guard at `car.js:56` is checked before the multiply, so 11.5 becomes 12.42 (`Driving.OvershootExample`). The bound that holds is |speed| < 12 · 1.08 = 12.96.
- **Coins as obstacles.** The obstacle filter at `car.js:103` excludes only `Car` instances. A coin that is also a `ColliderObject` therefore bounces the car in the same tick it is collected (`Collisions.CoinColliderBounces`). Whether `Coin` extends `ColliderObject` is decided in `coin.js`, which is not part of this model.

## Model

| member | source | states |
|---|---|---|
| Driving.Moving | assets/car.js:23-25 | moving holds exactly when abs(speed) >= INITIAL_SPEED, i.e. speed <= -0.5 or speed >= 0.5; a moving car has nonzero speed |
| Driving.Returning | assets/car.js:27-29 | returning holds exactly when the car is moving and its speed is negative |
| CarModel.Car.IsMoving | assets/car.js:23-25 | isMoving() iff speed <= -INITIAL_SPEED or speed >= INITIAL_SPEED |
| CarModel.Car.IsReturning | assets/car.js:27-29 | isReturning() iff speed <= -INITIAL_SPEED, and returning implies moving |
| Driving.Accelerated | assets/car.js:55-65 | accelerate never lowers the speed and leaves it unchanged exactly when speed >= MAX_SPEED |
| Driving.Decelerated | assets/car.js:67-77 | decelerate never raises the speed, leaves it unchanged exactly when speed <= -MAX_BACK_SPEED, and keeps a standing or reversing car strictly in reverse |
| Driving.ThrottleLeavesStandstill | assets/car.js:59-60 | from speed 0, accelerate gives a moving, non-returning car and decelerate a returning one |
| Driving.AccelerateOvershootsOnce | assets/car.js:55-65 | below 12 · 1.08 accelerate stays below it; a speed at or past MAX_SPEED is a fixed point of accelerate |
| Driving.HeldThrottleStaysBelowCeiling | assets/car.js:55-65 | any number of accelerate calls from below 12 · 1.08 never lowers the speed and never reaches 12 · 1.08 |
| Driving.RampFromStandstill | assets/car.js:55-65 | holding accelerate from 0 gives 0.5 and then 0.54 |
| Driving.OvershootExample | assets/car.js:56-62 | 11.5 accelerates to 12.42, past MAX_SPEED, and stays there on further calls |
| Driving.DecelerateOvershootsOnce | assets/car.js:67-77 | above -2 · 1.08 decelerate stays above it |
| Driving.HeldBrakeStaysAboveFloor | assets/car.js:67-77 | any number of decelerate calls from above -2 · 1.08 never raises the speed and never reaches -2 · 1.08 |
| Driving.AccelerateTimes | assets/car.js:55-65 | no contract of its own: n accelerate calls in a row; its meaning is HeldThrottleStaysBelowCeiling, RampFromStandstill and OvershootExample |
| Driving.DecelerateTimes | assets/car.js:67-77 | no contract of its own: n decelerate calls in a row; its meaning is HeldBrakeStaysAboveFloor |
| Driving.ThrottleKeepsSpeedBound | assets/car.js:55-77 | neither throttle call lets abs(speed) reach 12 · 1.08 |
| Driving.Turn | assets/car.js:34-36 | no contract of its own: the rotation step of both steering calls (car.js:34-36 and 46-48); its meaning is TurnProperties |
| Driving.SteerLeft | assets/car.js:31-37 | steerLeft sets its flag and keeps the other flag and speed; rotation drops by the turn, which is zero in the dead zone |
| Driving.SteerRight | assets/car.js:43-49 | steerRight sets its flag and keeps the other flag and speed; rotation rises by the same turn |
| Driving.TurnProperties | assets/car.js:31-49 | the turn is zero in the dead zone, positive going forward, negative in reverse (steering swaps), and at most ROTATION_STEP while abs(speed) <= MAX_SPEED |
| Driving.SteeringCancels | assets/car.js:31-49 | left and right turn by exact negatives: one of each in either order restores the rotation |
| Driving.SteerExample | assets/car.js:31-37 | speed 10 from rotation 0 steers left to -20/3; speed 0.4 leaves rotation 0 |
| Driving.Control | assets/car.js:79-99 | no contract of its own: the four key tests in source order; its meaning is ControlEffect, and Car.Control is proved equal to it |
| Driving.ControlEffect | assets/car.js:79-99 | after control each flag equals its key; rotation moves by the turn of each pressed steering key (both cancel); speed is accelerated if its key is pressed, then decelerated if its key is pressed |
| Driving.ThrottleOrderMatters | assets/car.js:92-98 | from 0, accelerate-then-decelerate (control's order) gives 0.45; the other order would give -0.45 |
| Driving.Ticked | assets/car.js:105-113 | no contract of its own: the bounce / snap / decay branch of update; its meaning is TickSpeedStep |
| Driving.TickSpeedStep | assets/car.js:105-113 | a bounce negates the speed exactly; without one the speed becomes 0 exactly when not moving, and otherwise keeps its sign and strictly shrinks; abs(speed) never grows |
| Driving.Coast | assets/car.js:105-113 | no contract of its own: n collision-free ticks in a row; its meaning is CoastingSettles and DeadZoneSettles |
| Driving.CoastingSettles | assets/car.js:105-113 | any number of collision-free ticks never raises abs(speed) and never flips its sign |
| Driving.DeadZoneSettles | assets/car.js:108-110 | a car in the dead zone is at exactly 0 after one collision-free tick and stays there |
| Driving.BounceExample | assets/car.js:105-113 | speed 5 bounces to -5, and without a bounce decays to 4.8 |
| Driving.TickKeepsSpeedBound | assets/car.js:105-113 | the tick step never lets abs(speed) reach 12 · 1.08 |
| World.Player.IncrementScore | assets/car.js:121 | incrementScore adds exactly one point |
| World.IndexOf | assets/car.js:120 | the index returned holds the value, and no earlier index does |
| World.RemoveFirst | assets/car.js:120 | removal leaves the sequence unchanged when the value is absent and shortens it by one when present |
| World.RemoveFirstSplits | assets/car.js:120 | removal cuts out exactly the first occurrence and keeps both sides in order |
| World.RemoveFirstMultiset | assets/car.js:120 | removal takes exactly one copy of the value out of the multiset, and nothing else |
| World.RemoveItemByValue | assets/car.js:120 | the shared registry becomes its first-occurrence removal |
| Collisions.Solid | assets/car.js:102-103 | no contract of its own: the filter test !(x instanceof Car) && x instanceof ColliderObject; its meaning is Obstacles, CoinColliderBounces and NoObstacleNoBounce |
| Collisions.Bumped | assets/car.js:105 | no contract of its own: some obstacle is touched; its meaning is CoinColliderBounces and NoObstacleNoBounce, and Car.Update feeds it to the tick step |
| Collisions.Obstacles | assets/car.js:102-103 | the obstacle list holds exactly the registry objects that are colliders and not cars |
| Collisions.CollidingCoins | assets/car.js:115-116 | the collected list holds exactly the registry coins the car touches |
| Collisions.Remaining | assets/car.js:118-122 | what remains holds exactly the registry objects that are not touched coins |
| Collisions.CoinsPartition | assets/car.js:115-122 | the remaining objects and the collected coins together are the registry, as a multiset and in size |
| Collisions.RemoveConsumedKeepsRemaining | assets/car.js:118-122 | removing a touched coin leaves what remains unchanged |
| Collisions.RemoveConsumedDropsOne | assets/car.js:118-122 | removing a touched coin takes exactly one copy of it off the coins still to collect |
| Collisions.NothingToCollect | assets/car.js:118-122 | with no touched coin left the registry is its own remainder |
| Collisions.CollectStep | assets/car.js:118-122 | one round of the coin loop keeps what remains and leaves exactly the later coins to collect |
| Collisions.CollectDone | assets/car.js:118-122 | when the loop has no coin left to collect the registry is exactly what remains |
| Collisions.ScoreCountsTouchedCoins | assets/car.js:115-122 | in a registry without duplicates, the number of coins collected equals the number of distinct touched coins |
| Collisions.CoinColliderBounces | assets/car.js:102-105 | a touched coin that is also a non-car collider is both collected and bounced off |
| Collisions.NoObstacleNoBounce | assets/car.js:102-105 | with no collider but cars (and non-colliders) in the registry, nothing bounces |
| CarModel.Axis | assets/car.js:131-136 | the displacement is an abstract heading vector scaled by the speed (the trigonometry is a parameter); the only fact stated is that speed 0 gives no displacement, which holds for any heading |
| CarModel.AxisReversesWithSpeed | assets/car.js:131-136 | negating the speed negates the displacement, for any heading vector; a fact about the scaling by speed only, not about the trigonometry of _getAxis |
| CarModel.Car.Valid | assets/car.js:55-113 | no contract of its own: abs(speed) < 12 · 1.08; the constructor establishes it and every method keeps it, by ThrottleKeepsSpeedBound and TickKeepsSpeedBound |
| CarModel.Car.constructor | assets/car.js:8-21 | a new car is at (x, y) with speed 0, rotation 0, no steering flag, and satisfies the speed invariant |
| CarModel.Car.SteerLeft | assets/car.js:31-37 | the new motion state is Driving.SteerLeft of the old one; position unchanged; invariant kept |
| CarModel.Car.StopSteerLeft | assets/car.js:39-41 | only the left flag changes, to false |
| CarModel.Car.SteerRight | assets/car.js:43-49 | the new motion state is Driving.SteerRight of the old one; position unchanged; invariant kept |
| CarModel.Car.StopSteerRight | assets/car.js:51-53 | only the right flag changes, to false |
| CarModel.Car.Accelerate | assets/car.js:55-65 | only the speed changes, to Driving.Accelerated of the old speed; invariant kept |
| CarModel.Car.Decelerate | assets/car.js:67-77 | only the speed changes, to Driving.Decelerated of the old speed; invariant kept |
| CarModel.Car.Control | assets/car.js:79-99 | the new motion state is Driving.Control of the old one and the key table; position unchanged; invariant kept |
| CarModel.Car.Update | assets/car.js:101-129 | speed becomes the tick step of the old speed and the obstacle verdict; the registry loses exactly the touched coins, keeping order; the score rises by the number collected; the position moves by the axis of the new speed; invariant kept |
| CarModel.Car.CollectCoins | assets/car.js:115-122 | the coin loop leaves the registry equal to what remains and raises the score by the number of touched coins |

## Left out

- `assets/scene.js` is not part of this model: canvas creation, key listeners and the `setInterval` loop are event and timer plumbing. The key table is a parameter of `Control`.
- Drawing (`car.js:138-188`) is rendering only.
- `_getAxis` trigonometry is left out: `Math.sin` and `Math.cos` of degrees become the `direction` parameter of `Update`, standing for the heading's unit vector.
- `super.update()` (`car.js:128`) is left out, because `collider-object.js` is not part of this model.
- The rectangle overlap tests `isCollidingManyWithSelf` and `collidingManyWithSelf` are not modelled; the set `touching` of overlapped registry objects stands for them. The car's width and height (30 and 50) only feed that test.
- `collidingManyWithSelf` is assumed to return the overlapped coins in registry order.
- `removeItemByValue` is modelled as removal of the first occurrence, because `utils.js` is not part of this model. `Player` is reduced to its score, because `player.js` is not part of this model.
- The class tests `instanceof Car`, `instanceof ColliderObject` and `instanceof Coin` are reduced to fixed flags on `Thing`, because `coin.js` and `collider-object.js` are not part of this model.
- The tuning constants are not parameters: the facts are proved only for the values `car.js:11-18` assigns.
- Everything is proved in exact real arithmetic. IEEE-754 rounding of the products and quotients is not modelled.
