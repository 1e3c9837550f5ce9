/**
 * Plane geometry used by the ball and the arcs: vectors, squares, Python's
 * floating `%` by 360, the degree/radian conversions, and the two `math`
 * functions the game calls (`sqrt`/`hypot` and `atan2`). Coordinates are
 * reals; the math functions are parameters constrained by their defining
 * equations.
 */
module Geometry {

  datatype Vec = Vec(x: real, y: real)

  function Add(a: Vec, b: Vec): Vec { Vec(a.x + b.x, a.y + b.y) }

  function Sub(a: Vec, b: Vec): Vec { Vec(a.x - b.x, a.y - b.y) }

  function Scale(v: Vec, k: real): Vec { Vec(k * v.x, k * v.y) }

  function Dot(a: Vec, b: Vec): real { a.x * b.x + a.y * b.y }

  /** `v` turned a quarter turn: `Dot(w, Perp(n))` is the component of `w` across the direction `n`. */
  function Perp(v: Vec): Vec { Vec(-v.y, v.x) }

  /** The z component of the cross product: how far `b` turns away from `a`. */
  function Cross(a: Vec, b: Vec): real { a.x * b.y - a.y * b.x }

  /**
   * The identity. `Sq` multiplies through it so that the solver treats a
   * square as a product of two terms: its nonlinear arithmetic fails to
   * decide sign and ordering facts about a syntactic `x * x`.
   */
  function Id(x: real): real { x }

  /** `x ** 2`, written through `Id` for the solver's sake (see `Id`). */
  function Sq(x: real): real { x * Id(x) }

  /** The squared length, `x ** 2 + y ** 2`. */
  function SqNorm(v: Vec): real { Sq(v.x) + Sq(v.y) }

  function Abs(x: real): (r: real)
    ensures 0.0 <= r && (r == x || r == -x)
  {
    if x < 0.0 then -x else x
  }

  lemma MulPos(a: real, b: real)
    requires 0.0 < a && 0.0 < b
    ensures 0.0 < a * b
  {
  }

  /** A square is positive away from zero. */
  lemma {:induction false} SquarePositive(a: real)
    requires a != 0.0
    ensures 0.0 < Sq(a)
  {
    if a < 0.0 {
      assert Sq(a) == (-a) * Id(-a);
    }
  }

  lemma {:induction false} SquareZero(a: real)
    ensures Sq(a) == 0.0 <==> a == 0.0
  {
    if a != 0.0 { SquarePositive(a); }
  }

  /** A squared length is non-negative, and zero only for the zero vector. */
  lemma {:induction false} SqNormZero(v: Vec)
    ensures 0.0 <= SqNorm(v)
    ensures SqNorm(v) == 0.0 <==> v == Vec(0.0, 0.0)
  {
    if v.x != 0.0 { SquarePositive(v.x); }
    if v.y != 0.0 { SquarePositive(v.y); }
  }

  /** Squaring is strictly increasing on the non-negative numbers. */
  lemma {:induction false} SquareMonotone(a: real, b: real)
    requires 0.0 <= a < b
    ensures Sq(a) < Sq(b)
  {
    MulPos(b - a, b + a);
    assert Sq(b) - Sq(a) == (b - a) * (b + a);
  }

  lemma SquareProduct(a: real, b: real)
    ensures Sq(a * b) == Sq(a) * Sq(b)
  {
  }

  /**
   * A length `d` (with square `sq`) exceeds a threshold `t` exactly when `t`
   * is negative or `sq` exceeds the square of `t`: the comparison can be
   * made without roots.
   */
  lemma {:induction false} LongerThan(d: real, sq: real, t: real)
    requires 0.0 <= d && Sq(d) == sq
    ensures d > t <==> t < 0.0 || sq > Sq(t)
  {
    if t >= 0.0 {
      if d > t {
        SquareMonotone(t, d);
      } else if d < t {
        SquareMonotone(d, t);
      }
    }
  }

  /** Python's `math.pi`, as the decimal it prints. */
  const Pi: real := 3.141592653589793

  /** `math.degrees`. */
  function Degrees(x: real): real { x * 180.0 / Pi }

  /** `math.radians`. */
  function Radians(d: real): real { d * Pi / 180.0 }

  lemma DegreesOfRadians(d: real)
    ensures Degrees(Radians(d)) == d
  {
  }

  /** `math.degrees` is linear: the degrees of a sum are the sum of the degrees. */
  lemma DegreesOfSum(a: real, b: real)
    ensures Degrees(a + b) == Degrees(a) + Degrees(b)
  {
  }

  /** True when `t` is a whole number of turns of 360 degrees. */
  predicate WholeTurns(t: real)
  {
    (t / 360.0).Floor as real == t / 360.0
  }

  /** Whole turns add up to whole turns. */
  lemma {:induction false} WholeTurnsAdd(s: real, t: real)
    requires WholeTurns(s) && WholeTurns(t)
    ensures WholeTurns(s + t) && WholeTurns(-s)
  {
    var i, j := (s / 360.0).Floor, (t / 360.0).Floor;
    assert s == 360.0 * i as real;
    assert t == 360.0 * j as real;
    WholeTurnsOf(s + t, i + j);
    WholeTurnsOf(-s, -i);
  }

  lemma WholeTurnsOf(t: real, k: int)
    requires t == 360.0 * k as real
    ensures WholeTurns(t)
  {
    assert t / 360.0 == k as real;
    assert (k as real).Floor == k;
  }

  /**
   * Python's `x % 360` on floats: the floored remainder, which takes the sign
   * of the divisor. It is the one value in [0, 360) a whole number of turns
   * away from `x`.
   */
  function Mod360(x: real): (r: real)
    ensures 0.0 <= r < 360.0
    ensures WholeTurns(x - r)
  {
    var k := (x / 360.0).Floor;
    assert (x - (x - 360.0 * k as real)) / 360.0 == k as real;
    x - 360.0 * k as real
  }

  lemma {:induction false} Mod360Unique(x: real, r: real)
    requires 0.0 <= r < 360.0
    requires WholeTurns(x - r)
    ensures Mod360(x) == r
  {
    var m := Mod360(x);
    var k := ((x - r) / 360.0).Floor;
    var j := ((x - m) / 360.0).Floor;
    assert x - r == 360.0 * k as real;
    assert x - m == 360.0 * j as real;
    assert m - r == 360.0 * (k - j) as real;
  }

  /** Values a whole number of turns apart have the same remainder. */
  lemma {:induction false} Mod360Congruent(x: real, y: real)
    requires WholeTurns(x - y)
    ensures Mod360(x) == Mod360(y)
  {
    var r := Mod360(y);
    WholeTurnsAdd(x - y, y - r);
    assert x - y + (y - r) == x - r;
    Mod360Unique(x, r);
  }

  /** A value already in [0, 360) is its own remainder. */
  lemma Mod360OfRange(x: real)
    requires 0.0 <= x < 360.0
    ensures Mod360(x) == x
  {
    assert WholeTurns(x - x);
    Mod360Unique(x, x);
  }

  /** One turn more or less does not change the remainder. */
  lemma Mod360AddTurn(x: real)
    ensures Mod360(x + 360.0) == Mod360(x)
    ensures Mod360(x - 360.0) == Mod360(x)
  {
    assert WholeTurns(360.0) && WholeTurns(-360.0);
    assert x + 360.0 - x == 360.0;
    Mod360Congruent(x + 360.0, x);
    assert x - 360.0 - x == -360.0;
    Mod360Congruent(x - 360.0, x);
  }

  /** On (-360, 360) the remainder adds one turn to negative values and leaves the others alone. */
  lemma Mod360OfNearRange(x: real)
    requires -360.0 < x < 360.0
    ensures Mod360(x) == if x >= 0.0 then x else x + 360.0
  {
    if x >= 0.0 {
      Mod360OfRange(x);
    } else {
      Mod360OfRange(x + 360.0);
      Mod360AddTurn(x);
    }
  }

  /**
   * The square root and arc tangent of Python's `math` module. They are not
   * computed here: a caller supplies them, and `Valid` states what the model
   * relies on — the root is the exact non-negative root, the arc tangent lies
   * in [-pi, pi] and `atan2(0, 0)` is 0.
   */
  datatype MathLib = MathLib(sqrt: real -> real, atan2: (real, real) -> real)
  {
    ghost predicate Valid()
    {
      && (forall x :: 0.0 <= x ==> 0.0 <= sqrt(x) && Sq(sqrt(x)) == x)
      && (forall y, x :: -Pi <= atan2(y, x) <= Pi)
      && atan2(0.0, 0.0) == 0.0
    }
  }

  /** `math.hypot(dx, dy)`, equivalently `math.sqrt(dx ** 2 + dy ** 2)`: the Euclidean length. */
  function Hypot(math: MathLib, dx: real, dy: real): (d: real)
    requires math.Valid()
    ensures 0.0 <= d && Sq(d) == Sq(dx) + Sq(dy)
    ensures d == 0.0 <==> dx == 0.0 && dy == 0.0
  {
    SqNormZero(Vec(dx, dy));
    var d := math.sqrt(Sq(dx) + Sq(dy));
    SquareZero(d);
    d
  }
}
