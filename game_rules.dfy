/**
 * The rules of the game as values: the configuration, the schedule of arcs
 * built on every (re)start, and one frame of the main loop taken step by
 * step in the source's order (restart check, move, collision, rotation,
 * containment, gravity). The `Game` class in module GameLoop is proved
 * against these functions.
 */
module GameRules {
  import opened Common
  import opened Geometry
  import opened Boundary
  import opened BallPhysics

  /**
   * `GameConfig`. Each pair is a (low, high) range for a random draw. The
   * ball's own configuration is shared with the ball; the game reads the
   * ball's radius, gravity and speeds through the ball.
   */
  datatype GameConfig = GameConfig(
    width: int,
    height: int,
    fps: int,
    ballConfig: BallConfig,
    rotationSpeed: (real, real),
    ballRadius: (int, int),
    boundaryWidth: (int, int),
    boundariesRange: (int, int))

  /** A value `random.randint(low, high)` can return. */
  predicate InRandInt(x: int, range: (int, int))
  {
    range.0 <= x <= range.1
  }

  /** A value `random.uniform(a, b)` can return: it lies between the two bounds, in either order. */
  predicate InUniform(x: real, range: (real, real))
  {
    range.0 <= x <= range.1 || range.1 <= x <= range.0
  }

  /** Python's `a // b`: the quotient rounded down. */
  function FloorDiv(a: int, b: int): (q: int)
    requires b != 0
    ensures b > 0 ==> q * b <= a < q * b + b
    ensures b < 0 ==> q * b >= a > q * b + b
    ensures b > 0 && a >= 0 ==> q >= 0
  {
    if b > 0 then a / b else (-a) / (-b)
  }

  lemma MulPosInt(a: int, b: int)
    requires 0 < a && 0 < b
    ensures 0 < a * b
  {
  }

  lemma {:induction false} MulStrict(a: int, b: int, c: int)
    requires a < b && 0 < c
    ensures a * c < b * c
  {
    MulPosInt(b - a, c);
    assert b * c - a * c == (b - a) * c;
  }

  lemma {:induction false} MulMonotone(a: int, b: int, c: int)
    requires a <= b && 0 <= c
    ensures a * c <= b * c
  {
    if a < b && c > 0 {
      MulStrict(a, b, c);
    }
  }

  /** The draws of one iteration of the arc loop of `_create_boundaries`. */
  datatype ArcDraw = ArcDraw(startDegrees: int, spanDegrees: int, rotationSpeed: real, color: Rgb, width: int)
  {
    predicate Valid(cfg: GameConfig)
    {
      && 0 <= startDegrees <= 180
      && 270 <= spanDegrees <= 300
      && InUniform(rotationSpeed, cfg.rotationSpeed)
      && InRandInt(width, cfg.boundaryWidth)
    }
  }

  /** How many iterations `range(count)` runs. */
  function Iterations(count: int): nat
  {
    if count < 0 then 0 else count
  }

  /** `min(width, height) // 2 - 10`: the radius of the outermost arc. */
  function BaseRadius(cfg: GameConfig): int
  {
    Min(cfg.width, cfg.height) / 2 - 10
  }

  /** `(width // 2, height // 2)`: the centre of the screen and of every arc. */
  function ScreenCenter(cfg: GameConfig): Vec
  {
    Vec((cfg.width / 2) as real, (cfg.height / 2) as real)
  }

  /** The configuration of the arc built with `radius` from one iteration's draws. */
  function ArcConfig(cfg: GameConfig, radius: int, d: ArcDraw): BoundaryConfig
  {
    var start := Radians(d.startDegrees as real);
    BoundaryConfig(
      (cfg.width / 2) as real, (cfg.height / 2) as real, radius as real,
      start, start + Radians(d.spanDegrees as real), d.rotationSpeed, d.color, d.width)
  }

  /**
   * The arcs the loop of `_create_boundaries` appends from iteration `i` on:
   * it stops at the first non-positive radius, and a configuration that fails
   * validation aborts the whole construction with its `ValueError`.
   */
  function ArcsFrom(cfg: GameConfig, base: int, step: int, draws: seq<ArcDraw>, i: nat): Result<seq<BoundaryConfig>>
    requires i <= |draws|
    decreases |draws| - i
  {
    if i == |draws| then Ok([])
    else
      var radius := base - i * step;
      if radius <= 0 then Ok([])
      else
        var c := ArcConfig(cfg, radius, draws[i]);
        if c.Validate().Fail? then Err(c.Validate().error)
        else
          match ArcsFrom(cfg, base, step, draws, i + 1)
          case Ok(rest) => Ok([c] + rest)
          case Err(e) => Err(e)
  }

  /**
   * `_create_boundaries` for `count` arcs drawn by `randint`: the step
   * `base // (count + 1)` raises `ZeroDivisionError` when `count` is -1.
   */
  function CreateBoundaries(cfg: GameConfig, count: int, draws: seq<ArcDraw>): Result<seq<BoundaryConfig>>
    requires |draws| == Iterations(count)
  {
    if count + 1 == 0 then Err("integer division or modulo by zero")
    else ArcsFrom(cfg, BaseRadius(cfg), FloorDiv(BaseRadius(cfg), count + 1), draws, 0)
  }

  /** The radius step of the schedule. */
  function RadiusStep(cfg: GameConfig, count: int): int
    requires count + 1 != 0
  {
    FloorDiv(BaseRadius(cfg), count + 1)
  }

  /**
   * Every arc the loop appends is built from the draws of its own iteration
   * with radius `base - i * step`, and passes validation; the only error the
   * loop can raise is the width check.
   */
  lemma {:induction false} ArcsFromShape(cfg: GameConfig, base: int, step: int, draws: seq<ArcDraw>, i: nat)
    requires i <= |draws|
    ensures var r := ArcsFrom(cfg, base, step, draws, i);
      && (r.Ok? ==> i + |r.value| <= |draws|
                    && forall k :: 0 <= k < |r.value| ==>
                         r.value[k] == ArcConfig(cfg, base - (i + k) * step, draws[i + k])
                         && r.value[k].Validate().Pass?)
      && (r.Err? ==> r.error == "Width must be positive.")
    decreases |draws| - i
  {
    if i < |draws| && base - i * step > 0 {
      ArcsFromShape(cfg, base, step, draws, i + 1);
      var r := ArcsFrom(cfg, base, step, draws, i);
      var rest := ArcsFrom(cfg, base, step, draws, i + 1);
      if r.Ok? {
        forall k | 0 <= k < |r.value|
          ensures r.value[k] == ArcConfig(cfg, base - (i + k) * step, draws[i + k])
        {
          if k > 0 {
            assert r.value[k] == rest.value[k - 1];
            assert i + 1 + (k - 1) == i + k;
          }
        }
      }
    }
  }

  /** When every remaining radius is positive and every width valid, no iteration breaks or raises. */
  lemma {:induction false} ArcsFromComplete(cfg: GameConfig, base: int, step: int, draws: seq<ArcDraw>, i: nat)
    requires i <= |draws|
    requires forall j :: i <= j < |draws| ==> base - j * step > 0 && draws[j].width > 0
    ensures ArcsFrom(cfg, base, step, draws, i).Ok?
    ensures |ArcsFrom(cfg, base, step, draws, i).value| == |draws| - i
    decreases |draws| - i
  {
    if i < |draws| {
      ArcsFromComplete(cfg, base, step, draws, i + 1);
    }
  }

  /** With a positive base, `base - j * (base // (n + 1))` is positive for every `j < n`. */
  lemma {:induction false} RadiiPositive(base: int, count: int, j: int)
    requires base > 0 && count >= 0 && 0 <= j < count
    ensures base - j * FloorDiv(base, count + 1) > 0
  {
    var step := FloorDiv(base, count + 1);
    if step > 0 {
      MulStrict(j, count + 1, step);
    }
  }

  /**
   * With room for arcs (`base > 0`) and valid widths, the early break never
   * fires: exactly `count` arcs are built, the `i`-th with radius
   * `base - i * step > 0`.
   */
  lemma {:induction false} ScheduleComplete(cfg: GameConfig, count: int, draws: seq<ArcDraw>)
    requires |draws| == Iterations(count) && count >= 0
    requires BaseRadius(cfg) > 0
    requires forall j :: 0 <= j < |draws| ==> draws[j].width > 0
    ensures CreateBoundaries(cfg, count, draws).Ok?
    ensures var arcs := CreateBoundaries(cfg, count, draws).value;
      && |arcs| == count
      && forall i :: 0 <= i < count ==>
           arcs[i].radius == (BaseRadius(cfg) - i * RadiusStep(cfg, count)) as real && arcs[i].radius > 0.0
  {
    var base, step := BaseRadius(cfg), RadiusStep(cfg, count);
    forall j | 0 <= j < |draws|
      ensures base - j * step > 0
    {
      RadiiPositive(base, count, j);
    }
    ArcsFromComplete(cfg, base, step, draws, 0);
    ArcsFromShape(cfg, base, step, draws, 0);
  }

  /** Without room for arcs (`base <= 0`) the list is empty. */
  lemma ScheduleEmpty(cfg: GameConfig, count: int, draws: seq<ArcDraw>)
    requires |draws| == Iterations(count) && count + 1 != 0
    requires BaseRadius(cfg) <= 0
    ensures CreateBoundaries(cfg, count, draws) == Ok([])
  {
  }

  /**
   * Radii never increase along the list, and they strictly decrease exactly
   * when the step `base // (count + 1)` is positive (given two arcs to compare).
   */
  lemma {:induction false} ScheduleOrdered(cfg: GameConfig, count: int, draws: seq<ArcDraw>)
    requires |draws| == Iterations(count)
    requires CreateBoundaries(cfg, count, draws).Ok?
    ensures var arcs := CreateBoundaries(cfg, count, draws).value;
      && (forall i, j :: 0 <= i <= j < |arcs| ==> arcs[j].radius <= arcs[i].radius)
      && (|arcs| >= 2 ==>
            ((forall i, j :: 0 <= i < j < |arcs| ==> arcs[j].radius < arcs[i].radius)
             <==> RadiusStep(cfg, count) > 0))
  {
    var arcs := CreateBoundaries(cfg, count, draws).value;
    var base := BaseRadius(cfg);
    ArcsFromShape(cfg, base, RadiusStep(cfg, count), draws, 0);
    if |arcs| > 0 {
      var step := RadiusStep(cfg, count);
      assert arcs[0] == ArcConfig(cfg, base - 0 * step, draws[0]);
      assert base > 0 && count >= 0;
      forall i, j | 0 <= i <= j < |arcs|
        ensures arcs[j].radius <= arcs[i].radius
        ensures i < j && step > 0 ==> arcs[j].radius < arcs[i].radius
      {
        assert arcs[i] == ArcConfig(cfg, base - (0 + i) * step, draws[0 + i]);
        assert arcs[j] == ArcConfig(cfg, base - (0 + j) * step, draws[0 + j]);
        MulMonotone(i, j, step);
        if i < j && step > 0 {
          MulStrict(i, j, step);
        }
      }
      if |arcs| >= 2 && step <= 0 {
        assert arcs[1] == ArcConfig(cfg, base - (0 + 1) * step, draws[0 + 1]);
        assert arcs[1].radius == arcs[0].radius;
      }
    }
  }

  /**
   * Every arc built is centred on the screen, starts at the drawn whole
   * number of degrees in [0, 180], ends 270 to 300 degrees further on, turns
   * at the drawn speed and passes validation.
   */
  lemma {:induction false} ScheduleGeometry(cfg: GameConfig, count: int, draws: seq<ArcDraw>)
    requires |draws| == Iterations(count)
    requires forall j :: 0 <= j < |draws| ==> draws[j].Valid(cfg)
    requires CreateBoundaries(cfg, count, draws).Ok?
    ensures var arcs := CreateBoundaries(cfg, count, draws).value;
      && |arcs| <= |draws|
      && forall i :: 0 <= i < |arcs| ==>
           && Vec(arcs[i].centerX, arcs[i].centerY) == ScreenCenter(cfg)
           && Degrees(arcs[i].startAngle) == draws[i].startDegrees as real
           && 0.0 <= Degrees(arcs[i].startAngle) <= 180.0
           && 270.0 <= Degrees(arcs[i].endAngle) - Degrees(arcs[i].startAngle) <= 300.0
           && InUniform(arcs[i].rotationSpeed, cfg.rotationSpeed)
           && arcs[i].Validate().Pass?
  {
    var arcs := CreateBoundaries(cfg, count, draws).value;
    var base, step := BaseRadius(cfg), RadiusStep(cfg, count);
    ArcsFromShape(cfg, base, step, draws, 0);
    forall i | 0 <= i < |arcs|
      ensures Degrees(arcs[i].startAngle) == draws[i].startDegrees as real
      ensures Degrees(arcs[i].endAngle) - Degrees(arcs[i].startAngle) == draws[i].spanDegrees as real
    {
      assert arcs[i] == ArcConfig(cfg, base - (0 + i) * step, draws[0 + i]);
      ArcAngles(cfg, base - i * step, draws[i]);
    }
  }

  /** An arc's angles, read back in degrees, are the drawn start and the drawn start plus the drawn span. */
  lemma ArcAngles(cfg: GameConfig, radius: int, d: ArcDraw)
    ensures Degrees(ArcConfig(cfg, radius, d).startAngle) == d.startDegrees as real
    ensures Degrees(ArcConfig(cfg, radius, d).endAngle) - Degrees(ArcConfig(cfg, radius, d).startAngle)
            == d.spanDegrees as real
  {
    var start := Radians(d.startDegrees as real);
    var span := Radians(d.spanDegrees as real);
    DegreesOfRadians(d.startDegrees as real);
    DegreesOfRadians(d.spanDegrees as real);
    DegreesOfSum(start, span);
  }

  /** The ball and the arcs, as the game holds them between frames. */
  datatype World = World(ball: BallState, arcs: seq<BoundaryConfig>)

  function BallRadius(b: BallState): real
  {
    b.config.radius as real
  }

  /** The active arc: the last one in the list. */
  function Active(w: World): BoundaryConfig
    requires |w.arcs| > 0
  {
    w.arcs[|w.arcs| - 1]
  }

  /** The ball is outside the active arc by `is_point_outside_boundary`. */
  predicate Outside(math: MathLib, w: World)
    requires math.Valid() && |w.arcs| > 0
  {
    Active(w).IsPointOutsideBoundary(math, w.ball.position.x, w.ball.position.y, BallRadius(w.ball))
  }

  /**
   * The restart condition of `run`: the ball is farther from the screen
   * centre than `min(width, height)`. Without roots: the bound is negative,
   * or the squared distance exceeds its square.
   */
  function RestartDue(cfg: GameConfig, math: MathLib, b: BallState): (due: bool)
    requires math.Valid()
    ensures due <==> Min(cfg.width, cfg.height) < 0
                     || SqNorm(Sub(b.position, ScreenCenter(cfg))) > Sq(Min(cfg.width, cfg.height) as real)
  {
    var distance := DistanceTo(math, b, ScreenCenter(cfg));
    LongerThan(distance, SqNorm(Sub(b.position, ScreenCenter(cfg))), Min(cfg.width, cfg.height) as real);
    distance > Min(cfg.width, cfg.height) as real
  }

  /** `_initialize_ball_properties`: vertical speed reset and the radius redrawn (colour left out). */
  function Initialized(b: BallState, radius: int): BallState
  {
    b.(velocity := b.velocity.(y := b.config.initialSpeed.y), config := b.config.(radius := radius))
  }

  /**
   * The ball as `restart_game` leaves it before building the arcs: at the
   * screen centre with no horizontal speed, then re-initialised.
   */
  function ResetBall(cfg: GameConfig, b: BallState, radius: int): BallState
  {
    Initialized(b.(position := ScreenCenter(cfg), velocity := b.velocity.(x := 0.0)), radius)
  }

  /** The draws of a restart: the ball radius, the number of arcs and each arc's draws. */
  datatype RestartDraw = RestartDraw(ballRadius: int, count: int, arcs: seq<ArcDraw>)
  {
    predicate Valid(cfg: GameConfig)
    {
      && InRandInt(ballRadius, cfg.ballRadius)
      && InRandInt(count, cfg.boundariesRange)
      && |arcs| == Iterations(count)
      && forall i :: 0 <= i < |arcs| ==> arcs[i].Valid(cfg)
    }
  }

  /** `restart_game`: the ball back at the screen centre, falling from rest, and a new set of arcs. */
  function Restart(cfg: GameConfig, w: World, d: RestartDraw): (r: Result<World>)
    requires |d.arcs| == Iterations(d.count)
    ensures r.Ok? <==> CreateBoundaries(cfg, d.count, d.arcs).Ok?
    ensures r.Ok? ==> && r.value.ball.position == ScreenCenter(cfg)
                      && r.value.ball.velocity == Vec(0.0, w.ball.config.initialSpeed.y)
                      && r.value.ball.config == w.ball.config.(radius := d.ballRadius)
                      && r.value.arcs == CreateBoundaries(cfg, d.count, d.arcs).value
  {
    var b := ResetBall(cfg, w.ball, d.ballRadius);
    match CreateBoundaries(cfg, d.count, d.arcs)
    case Ok(arcs) => Ok(World(b, arcs))
    case Err(e) => Err(e)
  }

  /**
   * A restart with draws the random module can return builds at most
   * `boundariesRange.1` arcs and, when there is room for arcs and the
   * configured counts and widths are positive, at least `boundariesRange.0`.
   */
  lemma {:induction false} RestartArcCount(cfg: GameConfig, w: World, d: RestartDraw)
    requires d.Valid(cfg)
    requires Restart(cfg, w, d).Ok?
    ensures |Restart(cfg, w, d).value.arcs| <= Iterations(cfg.boundariesRange.1)
    ensures BaseRadius(cfg) > 0 && 0 <= cfg.boundariesRange.0 && 0 < cfg.boundaryWidth.0 ==>
              cfg.boundariesRange.0 <= |Restart(cfg, w, d).value.arcs|
  {
    ArcsFromShape(cfg, BaseRadius(cfg), RadiusStep(cfg, d.count), d.arcs, 0);
    if BaseRadius(cfg) > 0 && 0 <= cfg.boundariesRange.0 && 0 < cfg.boundaryWidth.0 {
      assert forall j :: 0 <= j < |d.arcs| ==> d.arcs[j].width > 0 by {
        forall j | 0 <= j < |d.arcs| ensures d.arcs[j].width > 0 {
          assert d.arcs[j].Valid(cfg);
        }
      }
      ScheduleComplete(cfg, d.count, d.arcs);
    }
  }

  /** `update_position` on values. */
  function Moved(b: BallState): BallState
  {
    b.(position := Add(b.position, b.velocity))
  }

  /**
   * The unit vector from the arc's centre towards the ball: the normal
   * `_handle_ball_boundary_collision` reflects about (when the ball is not
   * at the centre).
   */
  function OutwardNormal(math: MathLib, a: BoundaryConfig, p: Vec): (n: Vec)
    requires math.Valid()
    requires p != Vec(a.centerX, a.centerY)
    ensures SqNorm(n) == 1.0
    ensures Dot(n, a.Offset(p.x, p.y)) == Hypot(math, p.x - a.centerX, p.y - a.centerY) > 0.0
    ensures Cross(n, a.Offset(p.x, p.y)) == 0.0
  {
    var off := a.Offset(p.x, p.y);
    var distance := Hypot(math, off.x, off.y);
    UnitDirection(off, distance);
    Vec(off.x / distance, off.y / distance)
  }

  /** Dividing a non-zero vector by its length gives a unit vector along it. */
  lemma {:induction false} UnitDirection(off: Vec, d: real)
    requires d > 0.0 && Sq(d) == SqNorm(off)
    ensures SqNorm(Vec(off.x / d, off.y / d)) == 1.0
    ensures Dot(Vec(off.x / d, off.y / d), off) == d
    ensures Cross(Vec(off.x / d, off.y / d), off) == 0.0
  {
    var n := Vec(off.x / d, off.y / d);
    assert d * n.x == off.x && d * n.y == off.y;
    SquareProduct(d, n.x);
    SquareProduct(d, n.y);
    assert Sq(d) * SqNorm(n) == Sq(d * n.x) + Sq(d * n.y);
    assert Sq(d) * SqNorm(n) == Sq(d);
    SquarePositive(d);
    assert (SqNorm(n) - 1.0) * Sq(d) == 0.0;
    assert Dot(n, off) == d * SqNorm(n);
  }

  /**
   * `_handle_ball_boundary_collision` with the active arc: in the gap the arc
   * is removed; otherwise the ball bounces about the outward normal, which
   * raises `ZeroDivisionError` when the ball is at the centre.
   */
  function HandleCollision(math: MathLib, w: World, d: BounceDraw): Result<World>
    requires math.Valid() && |w.arcs| > 0
  {
    var a := Active(w);
    var p := w.ball.position;
    if a.IsPointInEmptyArc(math, p.x, p.y) then
      Ok(w.(arcs := w.arcs[..|w.arcs| - 1]))
    else if p == Vec(a.centerX, a.centerY) then
      Err("float division by zero")
    else
      var n := OutwardNormal(math, a, p);
      Ok(w.(ball := w.ball.(velocity := Bounced(w.ball.velocity, n, w.ball.config.elasticity,
                                                w.ball.config.speedAdjustment, d))))
  }

  /** `check_collisions`: only the active arc is consulted, and only when the ball is outside it. */
  function CheckCollisions(math: MathLib, w: World, d: BounceDraw): Result<World>
    requires math.Valid()
  {
    if |w.arcs| == 0 then Ok(w)
    else if Outside(math, w) then HandleCollision(math, w, d)
    else Ok(w)
  }

  /**
   * The collision policy. With no arcs, or inside the active one, nothing
   * changes. Outside it and in its gap, exactly that arc is removed and the
   * others keep their order. Outside it and not in the gap, the arcs stay and
   * the ball bounces about the unit normal pointing from the centre to the
   * ball; at the centre itself the division raises.
   */
  lemma {:induction false} CollisionPolicy(math: MathLib, w: World, d: BounceDraw)
    requires math.Valid()
    ensures |w.arcs| == 0 ==> CheckCollisions(math, w, d) == Ok(w)
    ensures |w.arcs| > 0 ==>
      var a, p, r := Active(w), w.ball.position, CheckCollisions(math, w, d);
      && (!Outside(math, w) ==> r == Ok(w))
      && (Outside(math, w) && a.IsPointInEmptyArc(math, p.x, p.y) ==>
            r == Ok(w.(arcs := w.arcs[..|w.arcs| - 1])))
      && (Outside(math, w) && !a.IsPointInEmptyArc(math, p.x, p.y) ==>
            (r.Err? <==> p == Vec(a.centerX, a.centerY)))
      && (Outside(math, w) && !a.IsPointInEmptyArc(math, p.x, p.y) && p != Vec(a.centerX, a.centerY) ==>
            var n := OutwardNormal(math, a, p);
            && SqNorm(n) == 1.0 && 0.0 < Dot(n, a.Offset(p.x, p.y)) && Cross(n, a.Offset(p.x, p.y)) == 0.0
            && r == Ok(w.(ball := w.ball.(velocity := Bounced(w.ball.velocity, n, w.ball.config.elasticity,
                                                               w.ball.config.speedAdjustment, d)))))
  {
  }

  /**
   * Only the active arc matters: the ball comes out of a collision as it
   * would with that arc alone, and the list either stays or loses its last
   * element.
   */
  lemma {:induction false} CollisionUsesActiveArcOnly(math: MathLib, w: World, d: BounceDraw)
    requires math.Valid() && |w.arcs| > 0
    ensures var alone := CheckCollisions(math, w.(arcs := [Active(w)]), d);
            var r := CheckCollisions(math, w, d);
      && r.Ok? == alone.Ok?
      && (r.Ok? ==> r.value.ball == alone.value.ball
                    && (r.value.arcs == w.arcs || r.value.arcs == w.arcs[..|w.arcs| - 1]))
  {
    var single := w.(arcs := [Active(w)]);
    assert Active(single) == Active(w);
    assert Outside(math, single) == Outside(math, w);
  }

  /** `_update_boundaries` on values: every arc rotated once, in place. */
  function RotateAll(arcs: seq<BoundaryConfig>): (r: seq<BoundaryConfig>)
    ensures |r| == |arcs|
    ensures forall i :: 0 <= i < |arcs| ==> r[i] == arcs[i].Rotated()
  {
    seq(|arcs|, i requires 0 <= i < |arcs| => arcs[i].Rotated())
  }

  /**
   * The direction `(cos, sin)` of `atan2(dy, dx)`: the offset divided by its
   * length, and (1, 0) for the zero offset, where `atan2(0, 0)` is 0.
   */
  function Direction(off: Vec, distance: real): Vec
  {
    if distance == 0.0 then Vec(1.0, 0.0) else Vec(off.x / distance, off.y / distance)
  }

  /** `keep_ball_within_boundary`: pull the ball back along the radius by the excess. */
  function KeepWithin(math: MathLib, w: World): World
    requires math.Valid()
  {
    if |w.arcs| == 0 then w
    else
      var a := Active(w);
      var p := w.ball.position;
      var distance := Hypot(math, p.x - a.centerX, p.y - a.centerY);
      if distance + BallRadius(w.ball) > a.radius then
        var excess := distance + BallRadius(w.ball) - a.radius;
        var dir := Direction(a.Offset(p.x, p.y), distance);
        w.(ball := w.ball.(position := Vec(p.x - dir.x * excess, p.y - dir.y * excess)))
      else w
  }

  /**
   * Pulling a point at distance `d > 0` from the centre back along the
   * radius by the excess `d + r - R` leaves it on the same ray, scaled by
   * `(R - r) / d`, at distance `|R - r|`.
   */
  lemma {:induction false} PulledAlongRay(off: Vec, d: real, bigR: real, r: real)
    requires 0.0 < d && Sq(d) == SqNorm(off)
    ensures var excess := d + r - bigR;
            var moved := Vec(off.x - (off.x / d) * excess, off.y - (off.y / d) * excess);
            && moved == Scale(off, (bigR - r) / d)
            && SqNorm(moved) == Sq(bigR - r)
  {
    var excess := d + r - bigR;
    var s := (bigR - r) / d;
    assert off.x - (off.x / d) * excess == s * off.x;
    assert off.y - (off.y / d) * excess == s * off.y;
    SquareProduct(s, off.x);
    SquareProduct(s, off.y);
    assert SqNorm(Scale(off, s)) == Sq(s) * Sq(d);
    SquareProduct(s, d);
    assert s * d == bigR - r;
  }

  /** A ball at the centre is pushed along direction (1, 0) by the excess `r - R`: to distance `|R - r|`. */
  lemma PulledFromCenter(bigR: real, r: real)
    ensures var excess := 0.0 + r - bigR;
            SqNorm(Vec(0.0 - 1.0 * excess, 0.0 - 0.0 * excess)) == Sq(bigR - r)
  {
    assert 0.0 - 1.0 * (0.0 + r - bigR) == bigR - r;
  }

  /** The test of `keep_ball_within_boundary`: the ball's distance plus its radius exceeds the active arc's radius. */
  predicate Pokes(math: MathLib, w: World)
    requires math.Valid() && |w.arcs| > 0
  {
    var a, p := Active(w), w.ball.position;
    Hypot(math, p.x - a.centerX, p.y - a.centerY) + BallRadius(w.ball) > a.radius
  }

  /**
   * The two tests of the active arc agree: `keep_ball_within_boundary`
   * repeats inline the comparison `is_point_outside_boundary` makes.
   */
  lemma PokesIsOutside(math: MathLib, w: World)
    requires math.Valid() && |w.arcs| > 0
    ensures Pokes(math, w) <==> Outside(math, w)
  {
  }

  /** A ball inside the active arc, or a game with no arcs, is left where it is. */
  lemma ContainmentKeepsInside(math: MathLib, w: World)
    requires math.Valid()
    requires |w.arcs| > 0 ==> !Outside(math, w)
    ensures KeepWithin(math, w) == w
  {
  }

  /**
   * A ball that pokes out of the active arc is moved along the radius by
   * exactly the excess: it ends on the same ray at distance
   * `|radius - ballRadius|` from the centre.
   */
  lemma {:induction false} ContainmentDistance(math: MathLib, w: World)
    requires math.Valid() && |w.arcs| > 0 && Outside(math, w)
    ensures var a, k := Active(w), KeepWithin(math, w);
      && SqNorm(a.Offset(k.ball.position.x, k.ball.position.y)) == Sq(a.radius - BallRadius(w.ball))
      && (w.ball.position != Vec(a.centerX, a.centerY) ==>
            a.Offset(k.ball.position.x, k.ball.position.y)
            == Scale(a.Offset(w.ball.position.x, w.ball.position.y),
                     (a.radius - BallRadius(w.ball)) / Hypot(math, w.ball.position.x - a.centerX,
                                                                  w.ball.position.y - a.centerY)))
  {
    var a := Active(w);
    assert Pokes(math, w);
    if w.ball.position == Vec(a.centerX, a.centerY) {
      ContainmentFromCenter(math, w);
    } else {
      ContainmentAlongRay(math, w);
    }
  }

  lemma {:induction false} ContainmentFromCenter(math: MathLib, w: World)
    requires math.Valid() && |w.arcs| > 0 && Pokes(math, w)
    requires w.ball.position == Vec(Active(w).centerX, Active(w).centerY)
    ensures var q := KeepWithin(math, w).ball.position;
      SqNorm(Active(w).Offset(q.x, q.y)) == Sq(Active(w).radius - BallRadius(w.ball))
  {
    var a, k := Active(w), KeepWithin(math, w);
    var p, r := w.ball.position, BallRadius(w.ball);
    var d := Hypot(math, p.x - a.centerX, p.y - a.centerY);
    assert d == 0.0;
    var excess := 0.0 + r - a.radius;
    PulledFromCenter(a.radius, r);
    assert a.Offset(k.ball.position.x, k.ball.position.y) == Vec(0.0 - 1.0 * excess, 0.0 - 0.0 * excess);
  }

  lemma {:induction false} ContainmentAlongRay(math: MathLib, w: World)
    requires math.Valid() && |w.arcs| > 0 && Pokes(math, w)
    requires w.ball.position != Vec(Active(w).centerX, Active(w).centerY)
    ensures var a, k := Active(w), KeepWithin(math, w);
      var d := Hypot(math, w.ball.position.x - a.centerX, w.ball.position.y - a.centerY);
      && SqNorm(a.Offset(k.ball.position.x, k.ball.position.y)) == Sq(a.radius - BallRadius(w.ball))
      && a.Offset(k.ball.position.x, k.ball.position.y) == Scale(a.Offset(w.ball.position.x, w.ball.position.y), (a.radius - BallRadius(w.ball)) / d)
  {
    var a, k := Active(w), KeepWithin(math, w);
    var p, r := w.ball.position, BallRadius(w.ball);
    var off := a.Offset(p.x, p.y);
    var d := Hypot(math, p.x - a.centerX, p.y - a.centerY);
    KeepWithinMovesAlongRay(math, w);
    PulledAlongRay(off, d, a.radius, r);
  }

  /** Unfolds `KeepWithin` for a ball off the centre that pokes out of the active arc. */
  lemma KeepWithinMovesAlongRay(math: MathLib, w: World)
    requires math.Valid() && |w.arcs| > 0 && Pokes(math, w)
    requires w.ball.position != Vec(Active(w).centerX, Active(w).centerY)
    ensures var a, p := Active(w), w.ball.position;
      var off, d := a.Offset(p.x, p.y), Hypot(math, p.x - a.centerX, p.y - a.centerY);
      var excess := d + BallRadius(w.ball) - a.radius;
      var q := KeepWithin(math, w).ball.position;
      && 0.0 < d && Sq(d) == SqNorm(off)
      && a.Offset(q.x, q.y) == Vec(off.x - (off.x / d) * excess, off.y - (off.y / d) * excess)
  {
  }

  /**
   * The containment correction changes only the ball's position, and a ball
   * that fits in the active arc ends touching the ring from inside, no
   * longer outside it.
   */
  lemma {:induction false} ContainmentPlacesOnRing(math: MathLib, w: World)
    requires math.Valid() && |w.arcs| > 0 && Outside(math, w)
    ensures var k := KeepWithin(math, w);
      && k.arcs == w.arcs
      && k.ball == w.ball.(position := k.ball.position)
      && (BallRadius(w.ball) <= Active(w).radius ==> !Outside(math, k))
  {
    var k := KeepWithin(math, w);
    KeepWithinMovesBallOnly(math, w);
    ContainmentDistance(math, w);
    if BallRadius(w.ball) <= Active(w).radius {
      PlacedOnRing(math, w, k);
    }
  }

  /** The containment correction changes the ball's position and nothing else. */
  lemma KeepWithinMovesBallOnly(math: MathLib, w: World)
    requires math.Valid()
    ensures var k := KeepWithin(math, w);
      k.arcs == w.arcs && k.ball == w.ball.(position := k.ball.position)
  {
  }

  /** A ball moved onto the inside of the active ring, and nothing else changed, is not outside it. */
  lemma PlacedOnRing(math: MathLib, w: World, k: World)
    requires math.Valid() && |w.arcs| > 0
    requires k.arcs == w.arcs && k.ball == w.ball.(position := k.ball.position)
    requires BallRadius(w.ball) <= Active(w).radius
    requires SqNorm(Active(w).Offset(k.ball.position.x, k.ball.position.y)) == Sq(Active(w).radius - BallRadius(w.ball))
    ensures !Outside(math, k)
  {
    assert Active(k) == Active(w) && BallRadius(k.ball) == BallRadius(w.ball);
    OnRingNotOutside(math, Active(w), k.ball.position, BallRadius(w.ball));
  }

  /** A ball touching the ring from inside is not outside it. */
  lemma OnRingNotOutside(math: MathLib, a: BoundaryConfig, p: Vec, r: real)
    requires math.Valid() && r <= a.radius
    requires SqNorm(a.Offset(p.x, p.y)) == Sq(a.radius - r)
    ensures !a.IsPointOutsideBoundary(math, p.x, p.y, r)
  {
  }

  /** Gravity, added to the vertical speed at the end of every frame. */
  function Fall(b: BallState): BallState
  {
    b.(velocity := b.velocity.(y := b.velocity.y + b.config.gravity))
  }

  /** The draws one frame may use. */
  datatype TickDraw = TickDraw(restart: RestartDraw, bounce: BounceDraw)

  /** The state after the restart check at the head of a frame, or the exception of the restart. */
  function Started(cfg: GameConfig, math: MathLib, w: World, d: RestartDraw): Result<World>
    requires math.Valid() && |d.arcs| == Iterations(d.count)
  {
    if RestartDue(cfg, math, w.ball) then Restart(cfg, w, d) else Ok(w)
  }

  /** The state after the collision step of a frame, or the exception that ends the game. */
  function Collided(cfg: GameConfig, math: MathLib, w: World, t: TickDraw): Result<World>
    requires math.Valid() && |t.restart.arcs| == Iterations(t.restart.count)
  {
    match Started(cfg, math, w, t.restart)
    case Err(e) => Err(e)
    case Ok(w1) => CheckCollisions(math, w1.(ball := Moved(w1.ball)), t.bounce)
  }

  /** The rest of a frame after the collisions: rotation of every remaining arc, containment, gravity. */
  function Settled(math: MathLib, w2: World): World
    requires math.Valid()
  {
    var w3 := w2.(arcs := RotateAll(w2.arcs));
    var w4 := KeepWithin(math, w3);
    w4.(ball := Fall(w4.ball))
  }

  /**
   * One pass of the loop in `run`, after the events: restart check, position
   * update, collisions, rotation of every remaining arc, containment, gravity.
   */
  function Tick(cfg: GameConfig, math: MathLib, w: World, t: TickDraw): Result<World>
    requires math.Valid() && |t.restart.arcs| == Iterations(t.restart.count)
  {
    match Collided(cfg, math, w, t)
    case Err(e) => Err(e)
    case Ok(w2) => Ok(Settled(math, w2))
  }

  /**
   * A frame ends with the ball inside the active arc whenever the ball fits
   * in it: containment runs after the last change of position.
   */
  lemma {:induction false} TickEndsInsideActiveArc(cfg: GameConfig, math: MathLib, w: World, t: TickDraw)
    requires math.Valid() && |t.restart.arcs| == Iterations(t.restart.count)
    requires Tick(cfg, math, w, t).Ok?
    ensures var w' := Tick(cfg, math, w, t).value;
      |w'.arcs| > 0 && BallRadius(w'.ball) <= Active(w').radius ==> !Outside(math, w')
  {
    var w2 := Collided(cfg, math, w, t).value;
    var w3 := w2.(arcs := RotateAll(w2.arcs));
    var w4 := KeepWithin(math, w3);
    if |w3.arcs| > 0 {
      if Outside(math, w3) {
        ContainmentPlacesOnRing(math, w3);
      } else {
        ContainmentKeepsInside(math, w3);
      }
      var w' := w4.(ball := Fall(w4.ball));
      assert Active(w') == Active(w4) && w'.ball.position == w4.ball.position;
      assert BallRadius(w'.ball) == BallRadius(w4.ball);
    }
  }

  /**
   * Without a restart a frame removes at most one arc, the active one, and
   * rotates every remaining arc once.
   */
  lemma {:induction false} TickArcs(cfg: GameConfig, math: MathLib, w: World, t: TickDraw)
    requires math.Valid() && |t.restart.arcs| == Iterations(t.restart.count)
    requires !RestartDue(cfg, math, w.ball)
    requires Tick(cfg, math, w, t).Ok?
    ensures var arcs := Tick(cfg, math, w, t).value.arcs;
      arcs == RotateAll(w.arcs) || (|w.arcs| > 0 && arcs == RotateAll(w.arcs[..|w.arcs| - 1]))
  {
    var moved := w.(ball := Moved(w.ball));
    if |w.arcs| > 0 {
      CollisionUsesActiveArcOnly(math, moved, t.bounce);
    }
    var w2 := Collided(cfg, math, w, t).value;
    var w3 := w2.(arcs := RotateAll(w2.arcs));
    if |w3.arcs| > 0 && Outside(math, w3) {
      ContainmentPlacesOnRing(math, w3);
    }
  }

  /** With no arcs left and no restart, the ball flies freely: one Euler step, then gravity. */
  lemma FreeFlight(cfg: GameConfig, math: MathLib, w: World, t: TickDraw)
    requires math.Valid() && |t.restart.arcs| == Iterations(t.restart.count)
    requires !RestartDue(cfg, math, w.ball) && w.arcs == []
    ensures Tick(cfg, math, w, t)
            == Ok(World(w.ball.(position := Add(w.ball.position, w.ball.velocity),
                                velocity := Vec(w.ball.velocity.x, w.ball.velocity.y + w.ball.config.gravity)),
                        []))
  {
  }

  /** One frame of input: whether the window was closed, and the frame's draws. */
  datatype Frame = Frame(quit: bool, draws: TickDraw)

  predicate FramesWellFormed(frames: seq<Frame>)
  {
    forall i :: 0 <= i < |frames| ==> |frames[i].draws.restart.arcs| == Iterations(frames[i].draws.restart.count)
  }

  /**
   * `run` over the frames from `from` on: each frame runs to its end even
   * when the window was closed during it, and the loop stops after that
   * frame. The result is the state and whether the game is still running
   * when the frames run out, or the exception that ended it.
   */
  function Play(cfg: GameConfig, math: MathLib, w: World, frames: seq<Frame>, from: nat): Result<(World, bool)>
    requires math.Valid() && FramesWellFormed(frames) && from <= |frames|
    decreases |frames| - from
  {
    if from == |frames| then Ok((w, true))
    else
      match Tick(cfg, math, w, frames[from].draws)
      case Err(e) => Err(e)
      case Ok(w1) => if frames[from].quit then Ok((w1, false)) else Play(cfg, math, w1, frames, from + 1)
  }
}
