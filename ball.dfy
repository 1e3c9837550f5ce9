/**
 * The ball: explicit-Euler motion, the specular bounce followed by
 * elasticity, the random turn and speed variation of a bounce, and the
 * per-axis speed adjustment. Random draws are parameters constrained to the
 * ranges the source draws them from.
 */
module BallPhysics {
  import opened Common
  import opened Geometry

  /**
   * `BallConfig`. `speedAdjustment` is the pair (minimum speed, maximum
   * speed); `radius` is redrawn by the game on every (re)start.
   */
  datatype BallConfig = BallConfig(
    initialSpeed: Vec,
    speedAdjustment: (real, real),
    initialPosition: Vec,
    color: Rgb,
    radius: int,
    elasticity: real,
    gravity: real)

  /** The two draws one axis of `adjust_speed` may use: `uniform(1.5, 3.0)` and `uniform(0.5, 0.8)`. */
  datatype AxisDraw = AxisDraw(boost: real, damp: real)
  {
    predicate Valid()
    {
      1.5 <= boost <= 3.0 && 0.5 <= damp <= 0.8
    }
  }

  /**
   * The draws of one bounce: the speed factor `uniform(0.8, 1.2)`, the angle
   * offset `uniform(-pi/8, pi/8)` given by its cosine and sine, and the draws
   * of the speed adjustment that follows. An offset of at most pi/8 either
   * way is exactly a cosine of at least cos(pi/8), whose square is
   * (2 + sqrt 2) / 4.
   */
  datatype BounceDraw = BounceDraw(speedFactor: real, offsetCos: real, offsetSin: real, x: AxisDraw, y: AxisDraw)
  {
    predicate Valid()
    {
      && 0.8 <= speedFactor <= 1.2
      && Sq(offsetCos) + Sq(offsetSin) == 1.0
      && 0.0 < offsetCos && 2.0 <= 4.0 * Sq(offsetCos) && 2.0 <= Sq(4.0 * Sq(offsetCos) - 2.0)
      && x.Valid() && y.Valid()
    }
  }

  /** `k` times `v` for a factor in [lo, hi], 0 < lo: the sign is kept and the size scaled within the range. */
  lemma {:induction false} ScaleWithin(v: real, k: real, lo: real, hi: real)
    requires 0.0 < lo <= k <= hi
    ensures lo * Abs(v) <= Abs(v * k) <= hi * Abs(v)
    ensures (0.0 < v * k <==> 0.0 < v) && (v * k < 0.0 <==> v < 0.0)
  {
    var a := Abs(v);
    assert Abs(v * k) == a * k;
    if a > 0.0 {
      MulPos(a, k);
      if k > lo { MulPos(a, k - lo); }
      if hi > k { MulPos(a, hi - k); }
      assert a * (k - lo) == a * k - lo * a;
      assert a * (hi - k) == hi * a - a * k;
    }
    if v < 0.0 {
      assert v * k == -(a * k);
    }
  }

  /** One axis of `adjust_speed`: below `low` in size the component is boosted, above `high` damped. */
  function AdjustAxis(v: real, low: real, high: real, d: AxisDraw): real
  {
    if Abs(v) < low then v * d.boost
    else if Abs(v) > high then v * d.damp
    else v
  }

  /**
   * A boosted component grows to between 1.5 and 3 times its size, a damped
   * one shrinks to between 0.5 and 0.8 times; the sign never flips, and the
   * component is unchanged exactly when its size lies in [low, high] or it
   * is zero.
   */
  lemma {:induction false} AdjustAxisBounds(v: real, low: real, high: real, d: AxisDraw)
    requires d.Valid()
    ensures var r := AdjustAxis(v, low, high, d);
      && (Abs(v) < low ==> 1.5 * Abs(v) <= Abs(r) <= 3.0 * Abs(v))
      && (low <= Abs(v) && high < Abs(v) ==> 0.5 * Abs(v) <= Abs(r) <= 0.8 * Abs(v))
      && (0.0 < r <==> 0.0 < v) && (r < 0.0 <==> v < 0.0)
      && (r == v <==> (low <= Abs(v) <= high || v == 0.0))
  {
    ScaleWithin(v, d.boost, 1.5, 3.0);
    ScaleWithin(v, d.damp, 0.5, 0.8);
  }

  /**
   * `adjust_speed`: the x axis is kept within (minimum, maximum); the y axis,
   * as written, is compared with the minimum in both branches.
   */
  function Adjusted(v: Vec, bounds: (real, real), dx: AxisDraw, dy: AxisDraw): Vec
  {
    Vec(AdjustAxis(v.x, bounds.0, bounds.1, dx), AdjustAxis(v.y, bounds.0, bounds.0, dy))
  }

  /** The y axis is left alone only when its size is exactly the minimum speed, or it is zero. */
  lemma YAxisKeptOnlyAtMinimum(v: Vec, bounds: (real, real), dx: AxisDraw, dy: AxisDraw)
    requires dx.Valid() && dy.Valid()
    ensures Adjusted(v, bounds, dx, dy).y == v.y <==> Abs(v.y) == bounds.0 || v.y == 0.0
    ensures Adjusted(v, bounds, dx, dy).x == v.x <==> bounds.0 <= Abs(v.x) <= bounds.1 || v.x == 0.0
  {
    AdjustAxisBounds(v.x, bounds.0, bounds.1, dx);
    AdjustAxisBounds(v.y, bounds.0, bounds.0, dy);
  }

  /** The specular step of `reflect_off_boundary`: `v - 2 (v . n) n`. */
  function Reflect(v: Vec, n: Vec): Vec
  {
    Sub(v, Scale(n, 2.0 * Dot(v, n)))
  }

  /** About a unit normal, reflection negates the normal component and keeps the tangential one. */
  lemma {:induction false} ReflectComponents(v: Vec, n: Vec)
    requires SqNorm(n) == 1.0
    ensures Dot(Reflect(v, n), n) == -Dot(v, n)
    ensures Dot(Reflect(v, n), Perp(n)) == Dot(v, Perp(n))
  {
    var k := Dot(v, n);
    assert Dot(Reflect(v, n), n) == k - 2.0 * k * SqNorm(n);
  }

  /** Reflecting twice about the same unit normal gives the velocity back, and speed is kept. */
  lemma {:induction false} ReflectInvolutive(v: Vec, n: Vec)
    requires SqNorm(n) == 1.0
    ensures Reflect(Reflect(v, n), n) == v
    ensures SqNorm(Reflect(v, n)) == SqNorm(v)
  {
    ReflectComponents(v, n);
    var k := Dot(v, n);
    var w := Reflect(v, n);
    assert Reflect(w, n) == Sub(w, Scale(n, -2.0 * k));
    assert SqNorm(w) == SqNorm(v) - 4.0 * k * k + 4.0 * k * k * SqNorm(n);
  }

  /**
   * The velocity `randomize_bounce` produces before adjusting: its direction
   * turned by the offset and its length scaled by the factor. Written without
   * trigonometry: the cosine and sine of `atan2(vy, vx) + offset`, times the
   * length, are `c vx - s vy` and `s vx + c vy`.
   */
  function Randomized(v: Vec, factor: real, c: real, s: real): Vec
  {
    Scale(Vec(c * v.x - s * v.y, s * v.x + c * v.y), factor)
  }

  /** The random turn scales the speed by the factor and turns the direction by the offset. */
  lemma {:induction false} RandomizedTurn(v: Vec, factor: real, c: real, s: real)
    requires Sq(c) + Sq(s) == 1.0
    ensures SqNorm(Randomized(v, factor, c, s)) == Sq(factor) * SqNorm(v)
    ensures Dot(v, Randomized(v, factor, c, s)) == factor * c * SqNorm(v)
    ensures Cross(v, Randomized(v, factor, c, s)) == factor * s * SqNorm(v)
  {
    var w := Vec(c * v.x - s * v.y, s * v.x + c * v.y);
    RotationLength(v, c, s);
    ScaledLength(w, factor);
    RotationAngle(v, factor, c, s);
  }

  /** Turning by (c, s) multiplies the squared length by `c^2 + s^2`. */
  lemma RotationLength(v: Vec, c: real, s: real)
    ensures SqNorm(Vec(c * v.x - s * v.y, s * v.x + c * v.y)) == (Sq(c) + Sq(s)) * SqNorm(v)
  {
  }

  lemma ScaledLength(w: Vec, k: real)
    ensures SqNorm(Scale(w, k)) == Sq(k) * SqNorm(w)
  {
    SquareProduct(k, w.x);
    SquareProduct(k, w.y);
  }

  /** The cosine and sine of the turn, scaled, appear in the dot and cross products with the original. */
  lemma RotationAngle(v: Vec, factor: real, c: real, s: real)
    ensures Dot(v, Randomized(v, factor, c, s)) == factor * c * SqNorm(v)
    ensures Cross(v, Randomized(v, factor, c, s)) == factor * s * SqNorm(v)
  {
  }

  /**
   * `reflect_off_boundary` with the bounce it triggers: reflect, scale by the
   * elasticity, turn and rescale at random, then adjust the speed.
   */
  function Bounced(v: Vec, n: Vec, elasticity: real, bounds: (real, real), d: BounceDraw): Vec
  {
    var reflected := Scale(Reflect(v, n), elasticity);
    Adjusted(Randomized(reflected, d.speedFactor, d.offsetCos, d.offsetSin), bounds, d.x, d.y)
  }

  /**
   * Before the adjustment, a bounce about a unit normal reverses the normal
   * component and keeps the tangential one, both scaled by the elasticity;
   * the random turn then keeps the speed within 0.8 and 1.2 times that and
   * the direction within a quarter turn.
   */
  lemma {:induction false} BounceBeforeAdjust(v: Vec, n: Vec, elasticity: real, d: BounceDraw)
    requires SqNorm(n) == 1.0 && d.Valid()
    ensures Dot(Scale(Reflect(v, n), elasticity), n) == -elasticity * Dot(v, n)
    ensures Dot(Scale(Reflect(v, n), elasticity), Perp(n)) == elasticity * Dot(v, Perp(n))
    ensures var w := Scale(Reflect(v, n), elasticity);
            SqNorm(Randomized(w, d.speedFactor, d.offsetCos, d.offsetSin)) == Sq(d.speedFactor) * SqNorm(w)
            && (w != Vec(0.0, 0.0) ==> 0.0 < Dot(w, Randomized(w, d.speedFactor, d.offsetCos, d.offsetSin)))
  {
    ReflectComponents(v, n);
    var w := Scale(Reflect(v, n), elasticity);
    assert Dot(w, n) == elasticity * Dot(Reflect(v, n), n);
    assert Dot(w, Perp(n)) == elasticity * Dot(Reflect(v, n), Perp(n));
    RandomizedTurn(w, d.speedFactor, d.offsetCos, d.offsetSin);
    if w != Vec(0.0, 0.0) {
      SqNormZero(w);
      MulPos(d.speedFactor, d.offsetCos);
      MulPos(d.speedFactor * d.offsetCos, SqNorm(w));
    }
  }

  /** The ball's state as values. */
  datatype BallState = BallState(position: Vec, velocity: Vec, config: BallConfig)

  /** The distance from the ball to a centre, as `get_distance_from_center` computes it. */
  function DistanceTo(math: MathLib, b: BallState, center: Vec): (d: real)
    requires math.Valid()
    ensures 0.0 <= d && Sq(d) == SqNorm(Sub(b.position, center))
    ensures d == 0.0 <==> b.position == center
  {
    Hypot(math, b.position.x - center.x, b.position.y - center.y)
  }

  /** A `Ball`: position and speed updated in place; the configuration is shared with the game. */
  class Ball {
    var positionX: real
    var positionY: real
    var speedX: real
    var speedY: real
    var config: BallConfig

    function State(): BallState
      reads this
    {
      BallState(Vec(positionX, positionY), Vec(speedX, speedY), config)
    }

    /** `Ball(config)`: starts at the configured position with the configured speed. */
    constructor(config: BallConfig)
      ensures State() == BallState(config.initialPosition, config.initialSpeed, config)
    {
      positionX, positionY := config.initialPosition.x, config.initialPosition.y;
      speedX, speedY := config.initialSpeed.x, config.initialSpeed.y;
      this.config := config;
    }

    /** `update_position`: one explicit-Euler step; the speed is unchanged. */
    method UpdatePosition()
      modifies this
      ensures State() == old(State()).(position := Add(old(State()).position, old(State()).velocity))
    {
      positionX := positionX + speedX;
      positionY := positionY + speedY;
    }

    /** `reflect_off_boundary`, including the `randomize_bounce` it ends with. */
    method ReflectOffBoundary(normalX: real, normalY: real, d: BounceDraw)
      requires d.Valid()
      modifies this
      ensures State() == old(State()).(velocity := Bounced(old(State()).velocity, Vec(normalX, normalY),
                                                           config.elasticity, config.speedAdjustment, d))
    {
      ghost var v := Vec(speedX, speedY);
      var dotProduct := speedX * normalX + speedY * normalY;
      speedX := speedX - 2.0 * dotProduct * normalX;
      speedY := speedY - 2.0 * dotProduct * normalY;
      assert Vec(speedX, speedY) == Reflect(v, Vec(normalX, normalY));
      speedX := config.elasticity * speedX;
      speedY := config.elasticity * speedY;
      ghost var scaled := Vec(speedX, speedY);
      assert scaled == Scale(Reflect(v, Vec(normalX, normalY)), config.elasticity);
      RandomizeBounce(d);
      assert Vec(speedX, speedY) == Adjusted(Randomized(scaled, d.speedFactor, d.offsetCos, d.offsetSin),
                                             config.speedAdjustment, d.x, d.y);
    }

    /** `randomize_bounce`: turn and rescale, then `adjust_speed`. */
    method RandomizeBounce(d: BounceDraw)
      requires d.Valid()
      modifies this
      ensures State() == old(State()).(velocity := Adjusted(
                Randomized(old(State()).velocity, d.speedFactor, d.offsetCos, d.offsetSin),
                config.speedAdjustment, d.x, d.y))
    {
      var turned := Randomized(Vec(speedX, speedY), d.speedFactor, d.offsetCos, d.offsetSin);
      speedX, speedY := turned.x, turned.y;
      AdjustSpeed(d.x, d.y);
    }

    /** `adjust_speed`: the x axis against (minimum, maximum), the y axis against the minimum twice. */
    method AdjustSpeed(dx: AxisDraw, dy: AxisDraw)
      requires dx.Valid() && dy.Valid()
      modifies this
      ensures State() == old(State()).(velocity := Adjusted(old(State()).velocity, config.speedAdjustment, dx, dy))
    {
      ghost var v := Vec(speedX, speedY);
      var bounds := config.speedAdjustment;
      if Abs(speedX) < bounds.0 {
        speedX := speedX * dx.boost;
      } else if Abs(speedX) > bounds.1 {
        speedX := speedX * dx.damp;
      }
      assert speedX == AdjustAxis(v.x, bounds.0, bounds.1, dx);
      if Abs(speedY) < bounds.0 {
        speedY := speedY * dy.boost;
      } else if Abs(speedY) > bounds.0 {
        speedY := speedY * dy.damp;
      }
      assert speedY == AdjustAxis(v.y, bounds.0, bounds.0, dy);
    }

    /** `get_distance_from_center`: the Euclidean distance, zero exactly at the centre. */
    function GetDistanceFromCenter(math: MathLib, centerX: real, centerY: real): (d: real)
      requires math.Valid()
      reads this
      ensures 0.0 <= d && Sq(d) == Sq(positionX - centerX) + Sq(positionY - centerY)
      ensures d == 0.0 <==> positionX == centerX && positionY == centerY
    {
      DistanceTo(math, State(), Vec(centerX, centerY))
    }
  }
}
