# Ball Bouncer: a verified model of the game rules

Ball Bouncer is a pygame arcade game. A ball falls under gravity inside a stack
of concentric rings. Each ring rotates and has one open gap. When the ball
pokes out of the innermost ring, one of two things happens. If it is in the
ring's gap, the ring disappears. Otherwise the ball bounces off the ring.
When the ball flies too far from the screen centre, the game restarts with a
new stack of rings.

This project models the rules of the game in Dafny and proves what they
guarantee:

- `Boundary` (`boundary.dfy`): a ring's configuration (`BoundaryConfig`) and
  its validation; the `BoundaryArc` class, whose configuration is replaced on
  every rotation; the "outside the ring" test; and the gap test. The gap test
  normalises angles to [0, 360), mirrors the ball's direction, and applies a
  non-wrapping or a wrapping interval test.
- `BallPhysics` (`ball.dfy`): the `Ball` class with its explicit-Euler move,
  its specular reflection scaled by the elasticity, its random turn and
  rescale, and its per-axis speed adjustment.
- `GameRules` (`game_rules.dfy`): the game as values. It covers the schedule
  of ring radii and angles built at every (re)start, the collision policy
  against the last ring of the list, the containment correction, the restart
  condition, and one frame of the main loop in the code's order.
- `GameLoop` (`game.dfy`): the `Game` class. It owns the ball and the list of
  `BoundaryArc` objects. Every method that changes them in place is proved to
  reach the state that the `GameRules` functions compute.
- `Geometry` and `Common` (`geometry.dfy`, `common.dfy`): vectors, squares,
  Python's floating `% 360`, degree/radian conversion, and the outcome types
  that stand for Python exceptions.

Modelling choices:

- Coordinates, speeds and angles are `real`. Floating-point rounding is not
  modelled.
- `math.sqrt`/`math.hypot` and `math.atan2` are a `MathLib` value supplied by
  the caller. Its `Valid()` states what the model relies on: the root is the
  exact non-negative root; `atan2` lies in [-pi, pi]; `atan2(0, 0) == 0`.
  The cosine and sine of `atan2(dy, dx)` are written as `dx/d` and `dy/d`.
  At the centre they are (1, 0).
- Every `random.randint` and `random.uniform` draw is a parameter. A
  `Valid` predicate states the range the draw comes from.
- The random turn of `randomize_bounce` is given by the cosine and sine of
  the offset. The offset range [-pi/8, pi/8] is stated without trigonometry,
  as a lower bound on the cosine.
- Python exceptions become values. `ValueError` from validation,
  `ZeroDivisionError` when the ball sits at a ring's centre while bouncing,
  and `ZeroDivisionError` when the drawn ring count is -1 are all modelled as
  error results. Such an error ends the frame, and the loop, with its message.
- `list.remove` removes by object identity. The rings of a game are distinct
  objects, so removing the last ring by identity drops the last position
  (`RemoveLastOfDistinct`).

Three behaviours of the code are modelled as written:

- The restart test compares the ball's distance with `min(width, height)`
  (src/ball_bouncer/game.py:240), not with the larger dimension.
- A ball at a ring's centre that is outside the ring and not in its gap makes
  the code divide by zero (src/ball_bouncer/game.py:181). The model raises
  the division error there.
- The y-axis speed adjustment compares with the minimum speed in both
  branches (src/ball_bouncer/ball.py:91). The model keeps this, so the
  vertical speed is left alone only when its size equals the minimum exactly,
  or it is zero (`YAxisKeptOnlyAtMinimum`).

## Model

| member | source | states |
|---|---|---|
| `Boundary.BoundaryConfig.Validate` | src/ball_bouncer/boundary.py:26-31 | passes exactly when radius > 0 and width > 0; the radius is checked first, and each failure carries the code's `ValueError` message |
| `Boundary.BoundaryArc.constructor` | src/ball_bouncer/boundary.py:37-45 | an arc holds the configuration it was given, which has passed validation |
| `Boundary.BoundaryArc.Create` | src/ball_bouncer/boundary.py:37-45 | construction succeeds exactly when validation passes and otherwise fails with the validation message; a new arc holds the given configuration |
| `Boundary.BoundaryArc.UpdateAngles` | src/ball_bouncer/boundary.py:47-62 | the new configuration is the old one rotated, and validity is unchanged |
| `Boundary.BoundaryConfig.Rotated` | src/ball_bouncer/boundary.py:56-62 | the start angle advances by the rotation speed, the span end − start is preserved, and every other field is unchanged |
| `Boundary.RotatedTimesShift` | src/ball_bouncer/boundary.py:59-60 | k rotations shift both angles by exactly k·rotation_speed and change nothing else |
| `Boundary.RotatedValid` | src/ball_bouncer/boundary.py:26-31 | any number of rotations leaves the validation outcome unchanged |
| `Boundary.BoundaryConfig.IsPointOutsideBoundary` | src/ball_bouncer/boundary.py:110-116 | true exactly when the ball radius exceeds the ring radius or the squared distance exceeds (radius − ball_radius)², which is distance + ball_radius > radius without roots |
| `Boundary.OutsideMonotone` | src/ball_bouncer/boundary.py:110-116 | enlarging the probe radius can turn "inside" into "outside", never the reverse |
| `Geometry.Mod360` | src/ball_bouncer/boundary.py:137 | Python's float `% 360`: the result lies in [0, 360) and differs from the input by a whole number of turns |
| `Geometry.Hypot` | src/ball_bouncer/game.py:177-180 | the Euclidean length: non-negative, its square is dx² + dy², and zero exactly for the zero offset |
| `Boundary.Normalize` | src/ball_bouncer/boundary.py:137 | `(d + 360) % 360` is the remainder of d itself, in [0, 360) |
| `Boundary.Reverse` | src/ball_bouncer/boundary.py:140 | `(360 - a) % 360` is the remainder of −a, in [0, 360) |
| `Boundary.ReverseZero` | src/ball_bouncer/boundary.py:140 | reversal maps 0 to 0 |
| `Boundary.ReverseInvolutive` | src/ball_bouncer/boundary.py:140 | on [0, 360), reversal stays in [0, 360) and is its own inverse |
| `Boundary.ReverseOfNormalized` | src/ball_bouncer/boundary.py:137-140 | normalising and then reversing an angle gives the remainder of its negation |
| `Boundary.EmptyArcIsOpenTurn` | src/ball_bouncer/boundary.py:147-149 | both branches of the gap test say the same thing: the point lies strictly inside the counter-clockwise turn from the end angle to the start angle |
| `Boundary.GapPartition` | src/ball_bouncer/boundary.py:147-149 | every normalised angle is either in the gap or on the drawn arc, never both; when start == end, no angle is in the gap |
| `Boundary.BoundaryConfig.IsPointInEmptyArc` | src/ball_bouncer/boundary.py:133-149 | true exactly when the mirrored direction of the point lies strictly between the normalised end and start angles |
| `BallPhysics.ScaleWithin` | src/ball_bouncer/ball.py:83-91 | multiplying by a factor in [lo, hi] with lo > 0 keeps the sign and scales the size by between lo and hi |
| `BallPhysics.AdjustAxisBounds` | src/ball_bouncer/ball.py:83-91 | a slow component grows 1.5 to 3 times, a fast one shrinks to 0.5 to 0.8 times; the sign never flips; the component is unchanged exactly when its size is within bounds or it is zero |
| `BallPhysics.YAxisKeptOnlyAtMinimum` | src/ball_bouncer/ball.py:83-91 | vy is unchanged exactly when \|vy\| equals the minimum speed or vy is zero; vx is unchanged exactly when \|vx\| lies in [minimum, maximum] or vx is zero |
| `BallPhysics.ReflectComponents` | src/ball_bouncer/ball.py:51-53 | about a unit normal, reflection negates the normal component and keeps the tangential one |
| `BallPhysics.ReflectInvolutive` | src/ball_bouncer/ball.py:51-53 | reflecting twice about the same unit normal gives the velocity back, and reflection keeps the speed |
| `BallPhysics.RandomizedTurn` | src/ball_bouncer/ball.py:70-74 | the random turn scales the squared speed by factor² and turns the direction by the drawn offset (dot and cross products with the old velocity) |
| `BallPhysics.BounceBeforeAdjust` | src/ball_bouncer/ball.py:49-74 | before the speed adjustment, a bounce reverses the normal component and keeps the tangential one, both scaled by elasticity; the random turn keeps a non-zero velocity within a quarter turn of that |
| `BallPhysics.DistanceTo` | src/ball_bouncer/ball.py:104-106 | the distance is non-negative, its square is the squared offset, and it is zero exactly at the centre |
| `BallPhysics.Ball.constructor` | src/ball_bouncer/ball.py:32-42 | the ball starts at the configured position with the configured speed |
| `BallPhysics.Ball.UpdatePosition` | src/ball_bouncer/ball.py:44-47 | the position advances by the speed; the speed and configuration are unchanged |
| `BallPhysics.Ball.ReflectOffBoundary` | src/ball_bouncer/ball.py:49-60 | the new velocity is the bounce (reflect, elasticity, random turn, adjustment) of the old one; the position is unchanged |
| `BallPhysics.Ball.RandomizeBounce` | src/ball_bouncer/ball.py:62-77 | the new velocity is the old one turned and rescaled, then adjusted |
| `BallPhysics.Ball.AdjustSpeed` | src/ball_bouncer/ball.py:79-91 | the new velocity is the per-axis adjustment of the old one, with the y axis tested against the minimum twice |
| `BallPhysics.Ball.GetDistanceFromCenter` | src/ball_bouncer/ball.py:93-106 | the Euclidean distance from the centre: non-negative and zero exactly at the centre |
| `GameRules.FloorDiv` | src/ball_bouncer/game.py:115 | Python's `//`: the quotient rounded down, non-negative for a non-negative dividend and a positive divisor |
| `GameRules.ArcsFromShape` | src/ball_bouncer/game.py:117-147 | the i-th arc built has radius base − i·step and the i-th draws, and passes validation; the only error the loop can raise is the width check |
| `GameRules.ArcsFromComplete` | src/ball_bouncer/game.py:118-121 | when every remaining radius is positive and every width valid, no iteration breaks or raises |
| `GameRules.RadiiPositive` | src/ball_bouncer/game.py:115-121 | with base > 0, base − j·(base // (n + 1)) > 0 for every j < n |
| `GameRules.ScheduleComplete` | src/ball_bouncer/game.py:111-147 | with base > 0 and valid widths, exactly n arcs are built, the i-th with radius base − i·step > 0 |
| `GameRules.ScheduleEmpty` | src/ball_bouncer/game.py:111-121 | with base ≤ 0, no arcs are built |
| `GameRules.ScheduleOrdered` | src/ball_bouncer/game.py:115-121 | radii never increase along the list, and they strictly decrease exactly when base // (n + 1) > 0 |
| `GameRules.ScheduleGeometry` | src/ball_bouncer/game.py:123-144 | every arc is centred at (width // 2, height // 2), starts at the drawn whole number of degrees in [0, 180], ends 270 to 300 degrees later, and passes validation |
| `GameRules.ArcAngles` | src/ball_bouncer/game.py:123-124 | read back in degrees, the angles are the drawn start and the drawn start plus the drawn span |
| `GameRules.RestartDue` | src/ball_bouncer/game.py:238-240 | true exactly when the ball's distance from the screen centre strictly exceeds min(width, height), stated without roots |
| `GameRules.Restart` | src/ball_bouncer/game.py:217-223 | the ball is at the screen centre with speed (0, initial vy) and the drawn radius, and the arcs are the regenerated schedule; it fails exactly when building the arcs fails |
| `GameRules.RestartArcCount` | src/ball_bouncer/game.py:112-121 | with draws in their ranges, a restart builds at most `boundaries_range[1]` arcs, and at least `boundaries_range[0]` when there is room and widths are positive |
| `GameRules.ResetBall` | src/ball_bouncer/game.py:217-222 | definition: the ball moved to the screen centre with vx = 0, then initialised; characterised by `GameRules.Restart` and `GameLoop.Game.RestartGame` |
| `GameRules.OutwardNormal` | src/ball_bouncer/game.py:177-182 | the normal is a unit vector pointing from the centre to the ball, parallel to the offset |
| `GameRules.UnitDirection` | src/ball_bouncer/game.py:181-182 | dividing a non-zero offset by its length gives a unit vector along it |
| `GameRules.CollisionPolicy` | src/ball_bouncer/game.py:155-183 | with no arcs or inside the last arc, nothing changes; outside and in its gap, exactly the last arc is removed; otherwise the arcs stay and the ball bounces about the outward unit normal, or the division raises when the ball is at the centre |
| `GameRules.CollisionUsesActiveArcOnly` | src/ball_bouncer/game.py:155-164 | the ball comes out of a collision as it would with the last arc alone, and the list either stays or loses its last element |
| `GameRules.RotateAll` | src/ball_bouncer/game.py:225-228 | every arc is rotated once, in place and in order |
| `GameRules.PokesIsOutside` | src/ball_bouncer/game.py:185-193 | the inline test of `keep_ball_within_boundary` is the same as `is_point_outside_boundary` on the active arc |
| `GameRules.PulledAlongRay` | src/ball_bouncer/game.py:194-202 | pulling back by the excess leaves the point on the same ray, at distance \|R − r\| |
| `GameRules.PulledFromCenter` | src/ball_bouncer/game.py:197-202 | a ball at the centre is pushed along (1, 0) to distance \|R − r\| |
| `GameRules.ContainmentKeepsInside` | src/ball_bouncer/game.py:187-193 | a ball inside the last arc, or a game with no arcs, is left where it is |
| `GameRules.ContainmentDistance` | src/ball_bouncer/game.py:185-202 | a ball poking out of the last arc ends at distance \|radius − ball_radius\| from the centre, on the same ray when it was off the centre |
| `GameRules.ContainmentFromCenter` | src/ball_bouncer/game.py:197-202 | the containment case of a ball at the centre (direction (1, 0)) |
| `GameRules.ContainmentAlongRay` | src/ball_bouncer/game.py:194-202 | the containment case of a ball off the centre: scaled along its ray to distance \|radius − ball_radius\| |
| `GameRules.KeepWithinMovesAlongRay` | src/ball_bouncer/game.py:193-202 | the correction subtracts (offset/d)·excess from the position |
| `GameRules.KeepWithinMovesBallOnly` | src/ball_bouncer/game.py:185-202 | containment changes only the ball's position |
| `GameRules.ContainmentPlacesOnRing` | src/ball_bouncer/game.py:185-202 | containment changes only the ball's position, and a ball that fits in the last arc is no longer outside it |
| `GameRules.PlacedOnRing` | src/ball_bouncer/game.py:193-202 | a ball moved onto the inside of the last ring, with nothing else changed, is not outside it |
| `GameRules.OnRingNotOutside` | src/ball_bouncer/boundary.py:110-116 | a ball touching the ring from inside is not outside it |
| `GameRules.TickEndsInsideActiveArc` | src/ball_bouncer/game.py:243-248 | a frame ends with the ball not outside the last arc whenever the ball fits in it |
| `GameRules.TickArcs` | src/ball_bouncer/game.py:243-245 | without a restart, a frame removes at most the last arc and rotates every remaining arc once |
| `GameRules.FreeFlight` | src/ball_bouncer/game.py:243-248 | with no arcs and no restart, a frame is one Euler step followed by gravity |
| `Common.Min` | src/ball_bouncer/game.py:111 | `min` of two integers, also used at line 240: no larger than either, and equal to one of them |
| `Boundary.InEmptyArc` | src/ball_bouncer/boundary.py:147-149 | definition; characterised by `Boundary.EmptyArcIsOpenTurn` and `Boundary.GapPartition` |
| `BallPhysics.AdjustAxis` | src/ball_bouncer/ball.py:83-91 | definition; characterised by `BallPhysics.AdjustAxisBounds` |
| `BallPhysics.Adjusted` | src/ball_bouncer/ball.py:79-91 | definition; characterised by `BallPhysics.YAxisKeptOnlyAtMinimum` |
| `BallPhysics.Reflect` | src/ball_bouncer/ball.py:51-53 | definition; characterised by `BallPhysics.ReflectComponents` and `BallPhysics.ReflectInvolutive` |
| `BallPhysics.Randomized` | src/ball_bouncer/ball.py:70-74 | definition; characterised by `BallPhysics.RandomizedTurn` |
| `BallPhysics.Bounced` | src/ball_bouncer/ball.py:49-77 | definition; characterised by `BallPhysics.BounceBeforeAdjust` and `BallPhysics.Ball.ReflectOffBoundary` |
| `GameRules.ArcsFrom` | src/ball_bouncer/game.py:117-147 | definition; characterised by `GameRules.ArcsFromShape` and `GameRules.ArcsFromComplete` |
| `GameRules.CreateBoundaries` | src/ball_bouncer/game.py:111-147 | definition; characterised by `GameRules.ScheduleComplete`, `ScheduleEmpty`, `ScheduleOrdered`, `ScheduleGeometry` and `RestartArcCount` |
| `GameRules.Initialized` | src/ball_bouncer/game.py:91-96 | definition; characterised by `GameLoop.Game.InitializeBallProperties` and `GameRules.Restart` |
| `GameRules.HandleCollision` | src/ball_bouncer/game.py:166-183 | definition; characterised by `GameRules.CollisionPolicy` |
| `GameRules.CheckCollisions` | src/ball_bouncer/game.py:155-183 | definition; characterised by `GameRules.CollisionPolicy` and `GameRules.CollisionUsesActiveArcOnly` |
| `GameRules.KeepWithin` | src/ball_bouncer/game.py:185-202 | definition; characterised by `GameRules.ContainmentKeepsInside`, `ContainmentDistance`, `KeepWithinMovesAlongRay`, `KeepWithinMovesBallOnly` and `ContainmentPlacesOnRing` |
| `GameRules.Moved` | src/ball_bouncer/ball.py:44-47 | definition; characterised by `BallPhysics.Ball.UpdatePosition` and `GameRules.FreeFlight` |
| `GameRules.Fall` | src/ball_bouncer/game.py:248 | definition; characterised by `GameRules.FreeFlight` and `GameLoop.Game.Settle` |
| `GameRules.Started` | src/ball_bouncer/game.py:238-241 | definition; characterised by `GameLoop.Game.RestartIfOutOfBounds` |
| `GameRules.Settled` | src/ball_bouncer/game.py:245-248 | definition; characterised by `GameLoop.Game.Settle` and `GameRules.TickEndsInsideActiveArc` |
| `GameRules.Tick` | src/ball_bouncer/game.py:236-248 | definition; characterised by `GameRules.TickEndsInsideActiveArc`, `TickArcs`, `FreeFlight` and `GameLoop.Game.Step` |
| `GameRules.Play` | src/ball_bouncer/game.py:230-252 | definition; characterised by `GameLoop.Game.Run` |
| `GameLoop.RemoveFirstRemovesOne` | src/ball_bouncer/game.py:175 | `list.remove` drops exactly one occurrence and keeps every other element |
| `GameLoop.RemoveLastOfDistinct` | src/ball_bouncer/game.py:175 | in a list of distinct objects, removing the last element by identity drops the last position |
| `GameLoop.Game.constructor` | src/ball_bouncer/game.py:72-74 | the game holds its configuration and ball, has no arcs yet, and is running |
| `GameLoop.Game.Start` | src/ball_bouncer/game.py:61-89 | the ball is created and its properties initialised, then the arcs are built; the construction fails exactly when building the arcs fails |
| `GameLoop.Game.InitializeBallProperties` | src/ball_bouncer/game.py:91-96 | vy is reset to the initial vy and the radius is the drawn one; nothing else about the ball changes |
| `GameLoop.Game.CreateBoundaries` | src/ball_bouncer/game.py:103-147 | the new arcs are fresh, distinct, valid objects whose configurations are the `GameRules.CreateBoundaries` schedule; a ring count of -1 raises the division error |
| `GameLoop.Game.BuildArcs` | src/ball_bouncer/game.py:117-147 | the loop builds fresh, distinct, valid arcs whose configurations are `ArcsFrom`, stopping at the first non-positive radius |
| `GameLoop.Game.HandleEvents` | src/ball_bouncer/game.py:149-153 | a quit event stops the loop; the arcs are unchanged |
| `GameLoop.Game.HandleBallBoundaryCollision` | src/ball_bouncer/game.py:166-183 | in the gap the arc is removed by identity, or `ValueError` if it is absent; otherwise the ball bounces about the outward unit normal, or the division raises at the centre |
| `GameLoop.Game.CheckCollisions` | src/ball_bouncer/game.py:155-164 | the new state is `GameRules.CheckCollisions` of the old one, and the list is unchanged or loses its last element |
| `GameLoop.Game.KeepBallWithinBoundary` | src/ball_bouncer/game.py:185-202 | the new state is `GameRules.KeepWithin` of the old one |
| `GameLoop.Game.RestartGame` | src/ball_bouncer/game.py:217-223 | the new state is `GameRules.Restart` of the old one, with fresh arcs; if building fails, the old arcs stay and the ball is already reset (`GameRules.ResetBall`) |
| `GameLoop.Game.UpdateBoundaries` | src/ball_bouncer/game.py:225-228 | every arc's configuration is rotated once; the ball is unchanged |
| `GameLoop.Game.RestartIfOutOfBounds` | src/ball_bouncer/game.py:238-241 | restarts exactly when `RestartDue` holds, and otherwise changes nothing |
| `GameLoop.Game.Step` | src/ball_bouncer/game.py:236-248 | one pass of the loop reaches `GameRules.Tick` of the old state: restart check, move, collision, rotation, containment and gravity, in that order |
| `GameLoop.Game.Advance` | src/ball_bouncer/game.py:243-248 | the move, then the collisions, then the settling steps |
| `GameLoop.Game.Settle` | src/ball_bouncer/game.py:245-248 | rotation of every arc, then containment, then gravity added to vy |
| `GameLoop.Game.Run` | src/ball_bouncer/game.py:230-252 | the loop processes frames while running and ends in the state `GameRules.Play` computes, or with the first exception |

## Left out

- Rendering, the window, the display flip and the frame clock
  (`BoundaryArc.draw`, `Game.draw`, `pygame.display`, `clock.tick`,
  `pygame.init`/`quit`, `sys.exit`): graphics library I/O with nothing to
  verify.
- Event polling: a frame's events are reduced to one boolean, whether the
  window was closed.
- Sound loading and playback (src/ball_bouncer/game.py:86, 174) and the
  sound file path: audio I/O.
- Colours: the colour drawn for the ball in `_initialize_ball_properties` is
  not modelled. The colour of each ring is a parameter without the
  brightness condition. `generate_non_black_color` in
  src/ball_bouncer/utils.py is a random rejection loop with no termination
  bound and only affects rendering.
- src/main.py: configuration literals and the call to `run`, no logic.
- Floating-point rounding and IEEE behaviour: all arithmetic is exact real
  arithmetic. `math.pi` is the decimal 3.141592653589793.
- The square root and the arc tangent are not computed. They are parameters
  constrained by their defining equations.
- The random number generator: every draw is a parameter with its range.
- Configuration defaults: `BallConfig` and `BoundaryConfig` are always
  given in full. The default `speed_adjustment` of `BallConfig`
  (src/ball_bouncer/ball.py:21) is a one-element tuple holding a pair, so
  the comparisons of `adjust_speed` (src/ball_bouncer/ball.py:83-90) would
  compare a float with a tuple; src/main.py passes a pair of numbers.
- BallPhysics.Ball.RandomizeBounce: the offset's cosine and sine are
  parameters. The model does not check that they are the cosine and sine of
  an angle `uniform(-pi/8, pi/8)` actually drawn; it only requires that they
  lie on the unit circle within that angle.
- GameLoop.Game.Run: the model runs over a finite sequence of frames, not
  an unbounded loop. Once the frames run out, it returns the state and
  whether the game is still running.
