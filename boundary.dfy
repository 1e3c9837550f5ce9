/**
 * A rotating ring with one open gap (`BoundaryArc`): its configuration and
 * validation, the per-frame rotation, the "outside the ring" test and the
 * rule that decides whether a point lies in the gap.
 *
 * Angles are stored in radians (as the game passes them to pygame) and
 * compared in degrees normalised to [0, 360).
 */
module Boundary {
  import opened Common
  import opened Geometry

  /** Python's `(d + 360) % 360`: the degree `d` brought into [0, 360); the `+ 360` changes nothing. */
  function Normalize(d: real): (r: real)
    ensures r == Mod360(d)
  {
    Mod360AddTurn(d);
    Mod360(d + 360.0)
  }

  /**
   * Python's `(360 - a) % 360`: the direction mirrored across the x axis,
   * which turns pygame's downward-growing y axis into the counter-clockwise
   * sense of `pygame.draw.arc`.
   */
  function Reverse(a: real): (r: real)
    ensures r == Mod360(-a)
  {
    Mod360AddTurn(-a);
    assert -a + 360.0 == 360.0 - a;
    Mod360(360.0 - a)
  }

  /** Reversal keeps 0 at 0. */
  lemma ReverseZero()
    ensures Reverse(0.0) == 0.0
  {
    Mod360OfRange(0.0);
  }

  /** Reversal is its own inverse on normalised angles. */
  lemma {:induction false} ReverseInvolutive(a: real)
    requires 0.0 <= a < 360.0
    ensures 0.0 <= Reverse(a) < 360.0
    ensures Reverse(Reverse(a)) == a
  {
    var m := Reverse(a);
    assert WholeTurns(-a - m);
    assert -m - a == -a - m;
    Mod360Congruent(-m, a);
    Mod360OfRange(a);
  }

  /**
   * The source's gap test on normalised degrees: with `s < e` the gap is
   * everything outside the closed interval [s, e]; otherwise the solid arc
   * wraps through 0 and the gap is what lies strictly between `e` and `s`.
   */
  predicate InEmptyArc(a: real, s: real, e: real)
  {
    if s < e then !(s <= a <= e) else !(a >= s || a <= e)
  }

  /** `a` lies strictly inside the counter-clockwise turn that leads from `from` to `to`. */
  predicate StrictlyBetween(from: real, a: real, to: real)
  {
    0.0 < Mod360(a - from) < Mod360(to - from)
  }

  /**
   * `a` lies on the drawn arc: within the counter-clockwise turn from `s` to
   * `e`, ends included; when the two ends coincide the arc is the whole circle.
   */
  predicate OnArc(a: real, s: real, e: real)
  {
    s == e || Mod360(a - s) <= Mod360(e - s)
  }

  /**
   * Both branches of the gap test say one thing: the gap is the open turn from
   * the end angle round to the start angle.
   */
  lemma {:induction false} EmptyArcIsOpenTurn(a: real, s: real, e: real)
    requires 0.0 <= a < 360.0 && 0.0 <= s < 360.0 && 0.0 <= e < 360.0
    ensures InEmptyArc(a, s, e) <==> StrictlyBetween(e, a, s)
  {
    Mod360OfNearRange(a - e);
    Mod360OfNearRange(s - e);
  }

  /**
   * Every normalised direction is in the gap or on the drawn arc and never
   * both; in particular an arc whose ends coincide has no gap.
   */
  lemma {:induction false} GapPartition(a: real, s: real, e: real)
    requires 0.0 <= a < 360.0 && 0.0 <= s < 360.0 && 0.0 <= e < 360.0
    ensures InEmptyArc(a, s, e) <==> !OnArc(a, s, e)
    ensures s == e ==> !InEmptyArc(a, s, e)
  {
    Mod360OfNearRange(a - s);
    Mod360OfNearRange(e - s);
  }

  /** The immutable configuration of one arc (a frozen dataclass in the source). */
  datatype BoundaryConfig = BoundaryConfig(
    centerX: real,
    centerY: real,
    radius: real,
    startAngle: real,
    endAngle: real,
    rotationSpeed: real,
    color: Rgb,
    width: int)
  {
    /** `validate`: the radius is checked first, then the width; each failure raises `ValueError`. */
    function Validate(): (o: Outcome)
      ensures o.Pass? <==> radius > 0.0 && width > 0
      ensures radius <= 0.0 ==> o == Fail("Radius must be positive.")
      ensures radius > 0.0 && width <= 0 ==> o == Fail("Width must be positive.")
    {
      if radius <= 0.0 then Fail("Radius must be positive.")
      else if width <= 0 then Fail("Width must be positive.")
      else Pass
    }

    /** The configuration `update_angles` installs: both angles advanced by the rotation speed. */
    function Rotated(): (c: BoundaryConfig)
      ensures c.startAngle == startAngle + rotationSpeed
      ensures c.endAngle - c.startAngle == endAngle - startAngle
      ensures c.(startAngle := startAngle, endAngle := endAngle) == this
    {
      this.(startAngle := startAngle + rotationSpeed, endAngle := endAngle + rotationSpeed)
    }

    /** The configuration after `k` calls of `update_angles`. */
    function RotatedTimes(k: nat): BoundaryConfig
    {
      if k == 0 then this else RotatedTimes(k - 1).Rotated()
    }

    /** The vector from the centre to a point. */
    function Offset(posX: real, posY: real): Vec
    {
      Vec(posX - centerX, posY - centerY)
    }

    /**
     * `is_point_outside_boundary`: the distance of the point plus the ball's
     * radius exceeds the ring's radius. Without roots: the ball is larger than
     * the ring, or the point is farther than `radius - ballRadius`.
     */
    function IsPointOutsideBoundary(math: MathLib, posX: real, posY: real, ballRadius: real): (r: bool)
      requires math.Valid()
      ensures r <==> ballRadius > radius || SqNorm(Offset(posX, posY)) > Sq(radius - ballRadius)
    {
      var distance := Hypot(math, posX - centerX, posY - centerY);
      LongerThan(distance, SqNorm(Offset(posX, posY)), radius - ballRadius);
      distance + ballRadius > radius
    }

    /**
     * `is_point_in_empty_arc`: the point's direction from the centre, in
     * reversed degrees, lies in the gap. Equivalently, the mirrored direction
     * lies strictly inside the turn from the end angle to the start angle.
     */
    function IsPointInEmptyArc(math: MathLib, posX: real, posY: real): (r: bool)
      ensures r <==> StrictlyBetween(
                       Mod360(Degrees(endAngle)),
                       Mod360(-Degrees(math.atan2(posY - centerY, posX - centerX))),
                       Mod360(Degrees(startAngle)))
    {
      var angle := math.atan2(posY - centerY, posX - centerX);
      var angleDegrees := Reverse(Normalize(Degrees(angle)));
      var startDeg := Normalize(Degrees(startAngle));
      var endDeg := Normalize(Degrees(endAngle));
      ReverseOfNormalized(Degrees(angle));
      EmptyArcIsOpenTurn(angleDegrees, startDeg, endDeg);
      InEmptyArc(angleDegrees, startDeg, endDeg)
    }
  }

  /** Normalising and then reversing a direction is the same as taking the remainder of its negation. */
  lemma {:induction false} ReverseOfNormalized(d: real)
    ensures Reverse(Normalize(d)) == Mod360(-d)
  {
    var m := Mod360(d);
    assert -m - -d == d - m;
    Mod360Congruent(-m, -d);
  }

  /** `k` rotations advance both angles by exactly `k` times the rotation speed and change nothing else. */
  lemma {:induction false} RotatedTimesShift(c: BoundaryConfig, k: nat)
    ensures c.RotatedTimes(k) == c.(startAngle := c.startAngle + k as real * c.rotationSpeed,
                                    endAngle := c.endAngle + k as real * c.rotationSpeed)
  {
    if k > 0 {
      RotatedTimesShift(c, k - 1);
      assert (k - 1) as real * c.rotationSpeed + c.rotationSpeed == k as real * c.rotationSpeed;
    }
  }

  /** Rotation never changes whether an arc is valid. */
  lemma RotatedValid(c: BoundaryConfig, k: nat)
    ensures c.RotatedTimes(k).Validate() == c.Validate()
  {
    RotatedTimesShift(c, k);
  }

  /** A larger ball is outside whenever a smaller one at the same point is. */
  lemma OutsideMonotone(c: BoundaryConfig, math: MathLib, posX: real, posY: real, r1: real, r2: real)
    requires math.Valid()
    requires r1 <= r2
    ensures c.IsPointOutsideBoundary(math, posX, posY, r1) ==> c.IsPointOutsideBoundary(math, posX, posY, r2)
  {
  }

  /** A `BoundaryArc`: the one mutable part is its configuration, replaced on every rotation. */
  class BoundaryArc {
    var config: BoundaryConfig

    /** Every arc holds a configuration that passed `validate`. */
    ghost predicate Valid()
      reads this
    {
      config.Validate().Pass?
    }

    constructor(config: BoundaryConfig)
      requires config.Validate().Pass?
      ensures this.config == config && Valid()
    {
      this.config := config;
    }

    /** `BoundaryArc(config)`: validates first and raises `ValueError` with the validation message. */
    static method Create(config: BoundaryConfig) returns (r: Result<BoundaryArc>)
      ensures r.Ok? <==> config.Validate().Pass?
      ensures r.Err? ==> r.error == config.Validate().error
      ensures r.Ok? ==> fresh(r.value) && r.value.config == config && r.value.Valid()
    {
      var outcome := config.Validate();
      if outcome.Fail? {
        return Err(outcome.error);
      }
      var arc := new BoundaryArc(config);
      return Ok(arc);
    }

    /** `update_angles`: replaces the configuration by its rotation; validity is kept. */
    method UpdateAngles()
      modifies this
      ensures config == old(config).Rotated()
      ensures Valid() == old(Valid())
    {
      config := config.(startAngle := config.startAngle + config.rotationSpeed,
                        endAngle := config.endAngle + config.rotationSpeed);
    }
  }
}
