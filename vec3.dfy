/**
 * Three-component vectors over the reals (src/Vec3.hpp), also used as
 * points and colours.
 *
 * The source's scalar type T is taken to be `real`, so every identity below
 * is exact and nothing is said about floating-point rounding.  `std::abs` is
 * defined exactly; `std::sqrt` is code the model cannot see, so the
 * operations that call it take it as a parameter `sqrt` together with the
 * requirement `IsSqrt(sqrt)`, which fixes its value on non-negative inputs.
 */
module Vectors {

  import opened RealArith
  import opened RandomSource
  import opened Wrappers

  datatype Vec3 = Vec3(x: real, y: real, z: real)

  type Point3 = Vec3
  type Color = Vec3

  /** The default-constructed vector `Vec3()`. */
  const Zero: Vec3 := Vec3(0.0, 0.0, 0.0)

  /** `std::abs` on reals. */
  function Abs(a: real): (r: real)
    ensures 0.0 <= r && (r == a || r == -a)
  {
    if a < 0.0 then -a else a
  }

  /** `std::min<T>(a, b)`, which yields `b` only when `b < a`. */
  function Min(a: real, b: real): (r: real)
    ensures r <= a && r <= b && (r == a || r == b)
  {
    if b < a then b else a
  }

  /** What the model relies on of `std::sqrt`: the non-negative square root of a non-negative argument. */
  ghost predicate IsSqrt(sqrt: real -> real) {
    forall a :: 0.0 <= a ==> 0.0 <= sqrt(a) && sqrt(a) * sqrt(a) == a
  }

  // ---------------------------------------------------------------------
  // Component-wise arithmetic (the unary and binary operators)
  // ---------------------------------------------------------------------

  /** Unary `-v`. */
  function Neg(v: Vec3): Vec3 {
    Vec3(-v.x, -v.y, -v.z)
  }

  /** `u + v`. */
  function Add(u: Vec3, v: Vec3): Vec3 {
    Vec3(u.x + v.x, u.y + v.y, u.z + v.z)
  }

  /** `u - v`. */
  function Sub(u: Vec3, v: Vec3): Vec3 {
    Vec3(u.x - v.x, u.y - v.y, u.z - v.z)
  }

  /** Component-wise `u * v`. */
  function Mul(u: Vec3, v: Vec3): Vec3 {
    Vec3(u.x * v.x, u.y * v.y, u.z * v.z)
  }

  /** `t * v`; the source defines `v * t` as `t * v`, so both are this function. */
  function Scale(t: real, v: Vec3): Vec3 {
    Vec3(t * v.x, t * v.y, t * v.z)
  }

  /** `v / t`, written in the source as `(1.0 / t) * v`. */
  function Div(v: Vec3, t: real): Vec3
    requires t != 0.0
  {
    Scale(1.0 / t, v)
  }

  /** Scaling back by `t` undoes `v / t`. */
  lemma DivUndoneByScale(v: Vec3, t: real)
    requires t != 0.0
    ensures Scale(t, Div(v, t)) == v
  {
  }

  /** `dot(u, v)`. */
  function Dot(u: Vec3, v: Vec3): real {
    u.x * v.x + u.y * v.y + u.z * v.z
  }

  /** `cross(u, v)`: orthogonal to both of its arguments. */
  function Cross(u: Vec3, v: Vec3): (r: Vec3)
    ensures Dot(r, u) == 0.0 && Dot(r, v) == 0.0
  {
    Vec3(u.y * v.z - u.z * v.y,
         u.z * v.x - u.x * v.z,
         u.x * v.y - u.y * v.x)
  }

  /** `lengthSquared()`: the dot product of `v` with itself, never negative. */
  function LengthSquared(v: Vec3): (r: real)
    ensures r == Dot(v, v)
    ensures 0.0 <= r
  {
    v.x * v.x + v.y * v.y + v.z * v.z
  }

  /** `length()`: the non-negative number whose square is `lengthSquared()`. */
  function Length(v: Vec3, sqrt: real -> real): (r: real)
    requires IsSqrt(sqrt)
    ensures 0.0 <= r && r * r == LengthSquared(v)
  {
    sqrt(LengthSquared(v))
  }

  /** `nearZero()`: every component is below `epsilon` in magnitude. */
  function NearZero(v: Vec3, epsilon: real): bool {
    Abs(v.x) < epsilon && Abs(v.y) < epsilon && Abs(v.z) < epsilon
  }

  /**
   * `unit(v)` = `v / v.length()`.  The source divides by zero for the zero
   * vector; the model requires a non-zero argument.  The result has length 1
   * and points the same way as `v`.
   */
  function Unit(v: Vec3, sqrt: real -> real): (r: Vec3)
    requires IsSqrt(sqrt)
    requires v != Zero
    ensures LengthSquared(r) == 1.0
    ensures Scale(Length(v, sqrt), r) == v
  {
    var len := Length(v, sqrt);
    UnitLength(v, len);
    DivUndoneByScale(v, len);
    Div(v, len)
  }

  /** `reflect(v, n)` = `v - 2 * dot(v, n) * n`; the source assumes `n` has unit length. */
  function Reflect(v: Vec3, n: Vec3): Vec3 {
    Sub(v, Scale(2.0 * Dot(v, n), n))
  }

  /** The cosine term of `refract`: `std::min(dot(-uv, n), 1.0)`. */
  function RefractCos(uv: Vec3, n: Vec3): (c: real)
    ensures c <= 1.0
    ensures c <= Dot(Neg(uv), n)
  {
    Min(Dot(Neg(uv), n), 1.0)
  }

  /** `rOutPerp` of `refract`: `etaiOverEtat * (uv + cosTheta * n)`. */
  function RefractPerp(uv: Vec3, n: Vec3, etaiOverEtat: real): Vec3 {
    Scale(etaiOverEtat, Add(uv, Scale(RefractCos(uv, n), n)))
  }

  /** `refract(uv, n, etaiOverEtat)`, Snell's law built from a perpendicular and a parallel part. */
  function Refract(uv: Vec3, n: Vec3, etaiOverEtat: real, sqrt: real -> real): Vec3 {
    var rOutPerp := RefractPerp(uv, n, etaiOverEtat);
    var rOutParallel := Scale(-sqrt(Abs(1.0 - LengthSquared(rOutPerp))), n);
    Add(rOutPerp, rOutParallel)
  }

  // ---------------------------------------------------------------------
  // Helpers: scalar facts and bilinearity of the dot product
  // ---------------------------------------------------------------------

  /** Only the zero vector has length zero. */
  lemma LengthSquaredPositive(v: Vec3)
    requires v != Zero
    ensures 0.0 < LengthSquared(v)
  {
    NonZeroComponent(v);
    SumOfSquares(v);
  }

  /** `lengthSquared()` as a sum of `Square` terms, on which sign facts can be stated. */
  lemma SumOfSquares(v: Vec3)
    ensures LengthSquared(v) == Square(v.x) + Square(v.y) + Square(v.z)
  {
  }

  lemma NonZeroComponent(v: Vec3)
    requires v != Zero
    ensures v.x != 0.0 || v.y != 0.0 || v.z != 0.0
  {
  }

  lemma UnitLength(v: Vec3, len: real)
    requires 0.0 <= len && len * len == LengthSquared(v)
    requires v != Zero
    ensures len != 0.0
    ensures LengthSquared(Div(v, len)) == 1.0
  {
    LengthSquaredPositive(v);
    var k := 1.0 / len;
    calc {
      LengthSquared(Scale(k, v));
      (k * v.x) * (k * v.x) + (k * v.y) * (k * v.y) + (k * v.z) * (k * v.z);
      { ScaleSquares(k, v.x, v.y, v.z); }
      (k * k) * (v.x * v.x + v.y * v.y + v.z * v.z);
      (k * k) * (len * len);
      { InverseSquare(len); }
      1.0;
    }
  }

  lemma ScaleSquares(k: real, a: real, b: real, c: real)
    ensures (k * a) * (k * a) + (k * b) * (k * b) + (k * c) * (k * c) == (k * k) * (a * a + b * b + c * c)
  {
  }

  lemma InverseSquare(len: real)
    requires len != 0.0
    ensures ((1.0 / len) * (1.0 / len)) * (len * len) == 1.0
  {
  }

  lemma DotSubLeft(u: Vec3, w: Vec3, n: Vec3)
    ensures Dot(Sub(u, w), n) == Dot(u, n) - Dot(w, n)
  {
  }

  lemma DotAddLeft(u: Vec3, w: Vec3, n: Vec3)
    ensures Dot(Add(u, w), n) == Dot(u, n) + Dot(w, n)
  {
  }

  lemma DotScaleLeft(k: real, u: Vec3, n: Vec3)
    ensures Dot(Scale(k, u), n) == k * Dot(u, n)
  {
  }

  lemma DotScaleRight(u: Vec3, k: real, v: Vec3)
    ensures Dot(u, Scale(k, v)) == k * Dot(u, v)
  {
  }

  lemma LengthSquaredSub(u: Vec3, w: Vec3)
    ensures LengthSquared(Sub(u, w)) == LengthSquared(u) - 2.0 * Dot(u, w) + LengthSquared(w)
  {
  }

  lemma LengthSquaredAdd(u: Vec3, w: Vec3)
    ensures LengthSquared(Add(u, w)) == LengthSquared(u) + 2.0 * Dot(u, w) + LengthSquared(w)
  {
  }

  lemma LengthSquaredScale(k: real, u: Vec3)
    ensures LengthSquared(Scale(k, u)) == (k * k) * LengthSquared(u)
  {
    ScaleSquares(k, u.x, u.y, u.z);
  }

  // ---------------------------------------------------------------------
  // Properties of the algebra
  // ---------------------------------------------------------------------

  /** `dot` is symmetric. */
  lemma DotSymmetric(u: Vec3, v: Vec3)
    ensures Dot(u, v) == Dot(v, u)
  {
  }

  /** `cross` is anti-commutative. */
  lemma CrossAntiCommutative(u: Vec3, v: Vec3)
    ensures Cross(u, v) == Neg(Cross(v, u))
  {
  }

  /** Adding and then subtracting the same vector is the identity, and `-v` is the additive inverse. */
  lemma AddSubInverse(u: Vec3, v: Vec3)
    ensures Sub(Add(u, v), v) == u
    ensures Add(v, Neg(v)) == Zero
  {
  }

  /**
   * The component-wise product is commutative, its components sum to
   * `dot(u, v)`, and multiplying by the constant vector `(t, t, t)` is
   * scaling by `t`.
   */
  lemma MulComponents(u: Vec3, v: Vec3, t: real)
    ensures Mul(u, v) == Mul(v, u)
    ensures Mul(u, v).x + Mul(u, v).y + Mul(u, v).z == Dot(u, v)
    ensures Mul(Vec3(t, t, t), v) == Scale(t, v)
  {
  }

  /** The dot product of two unit vectors lies in [-1, 1]. */
  lemma UnitDotBounds(u: Vec3, n: Vec3)
    requires LengthSquared(u) == 1.0 && LengthSquared(n) == 1.0
    ensures -1.0 <= Dot(u, n) <= 1.0
  {
    LengthSquaredSub(u, n);
    LengthSquaredAdd(u, n);
  }

  /** For a unit normal, reflection negates the component along the normal. */
  lemma ReflectNormalComponent(v: Vec3, n: Vec3)
    requires LengthSquared(n) == 1.0
    ensures Dot(Reflect(v, n), n) == -Dot(v, n)
  {
    var d := Dot(v, n);
    DotSubLeft(v, Scale(2.0 * d, n), n);
    DotScaleLeft(2.0 * d, n, n);
  }

  /** For a unit normal, reflection preserves length. */
  lemma ReflectPreservesLength(v: Vec3, n: Vec3)
    requires LengthSquared(n) == 1.0
    ensures LengthSquared(Reflect(v, n)) == LengthSquared(v)
  {
    var d := Dot(v, n);
    var k := 2.0 * d;
    LengthSquaredSub(v, Scale(k, n));
    DotSymmetric(v, Scale(k, n));
    DotScaleLeft(k, n, v);
    DotSymmetric(n, v);
    LengthSquaredScale(k, n);
    assert 2.0 * Dot(v, Scale(k, n)) == 2.0 * k * d;
    assert (k * k) * LengthSquared(n) == k * k;
  }

  /** For a unit normal, reflecting twice gives the original vector back. */
  lemma ReflectInvolution(v: Vec3, n: Vec3)
    requires LengthSquared(n) == 1.0
    ensures Reflect(Reflect(v, n), n) == v
  {
    ReflectNormalComponent(v, n);
  }

  /** `nearZero` is a per-component test, and a near-zero vector is short. */
  lemma NearZeroMeansShort(v: Vec3, epsilon: real)
    requires NearZero(v, epsilon)
    ensures 0.0 < epsilon
    ensures LengthSquared(v) < 3.0 * Square(epsilon)
  {
    SquareBelow(v.x, epsilon);
    SquareBelow(v.y, epsilon);
    SquareBelow(v.z, epsilon);
    SumOfSquares(v);
  }

  lemma SquareBelow(a: real, epsilon: real)
    requires Abs(a) < epsilon
    ensures Square(a) < Square(epsilon)
  {
    SquareLess(Abs(a), epsilon);
    assert Square(Abs(a)) == Square(a);
  }

  /** The zero vector is near zero for every positive epsilon, and never for a non-positive one. */
  lemma ZeroIsNearZero(epsilon: real)
    ensures NearZero(Zero, epsilon) <==> 0.0 < epsilon
  {
  }

  /**
   * For a unit normal and an incoming direction whose `dot(-uv, n)` does not
   * exceed 1, the perpendicular part of `refract` is orthogonal to the normal
   * and equals `etaiOverEtat` times the tangential part of `uv`.
   */
  lemma RefractPerpTangential(uv: Vec3, n: Vec3, etaiOverEtat: real)
    requires LengthSquared(n) == 1.0
    requires Dot(Neg(uv), n) <= 1.0
    ensures Dot(RefractPerp(uv, n, etaiOverEtat), n) == 0.0
    ensures RefractPerp(uv, n, etaiOverEtat) == Scale(etaiOverEtat, Sub(uv, Scale(Dot(uv, n), n)))
  {
    var c := RefractCos(uv, n);
    assert c == -Dot(uv, n);
    var w := Add(uv, Scale(c, n));
    DotAddLeft(uv, Scale(c, n), n);
    DotScaleLeft(c, n, n);
    assert Dot(w, n) == 0.0;
    DotScaleLeft(etaiOverEtat, w, n);
  }

  /**
   * Under the same conditions, and when the perpendicular part is not longer
   * than 1 (no total internal reflection), `refract` returns a unit vector
   * that goes through the surface: its component along `n` is not positive.
   */
  lemma RefractUnitThroughSurface(uv: Vec3, n: Vec3, etaiOverEtat: real, sqrt: real -> real)
    requires IsSqrt(sqrt)
    requires LengthSquared(n) == 1.0
    requires Dot(Neg(uv), n) <= 1.0
    requires LengthSquared(RefractPerp(uv, n, etaiOverEtat)) <= 1.0
    ensures LengthSquared(Refract(uv, n, etaiOverEtat, sqrt)) == 1.0
    ensures Dot(Refract(uv, n, etaiOverEtat, sqrt), n) <= 0.0
  {
    var p := RefractPerp(uv, n, etaiOverEtat);
    var s := sqrt(Abs(1.0 - LengthSquared(p)));
    assert s * s == 1.0 - LengthSquared(p);
    var q := Scale(-s, n);
    RefractPerpTangential(uv, n, etaiOverEtat);
    LengthSquaredAdd(p, q);
    DotSymmetric(p, q);
    DotScaleLeft(-s, n, p);
    DotSymmetric(n, p);
    LengthSquaredScale(-s, n);
    assert LengthSquared(q) == s * s;
    DotAddLeft(p, q, n);
    DotScaleLeft(-s, n, n);
  }

  // ---------------------------------------------------------------------
  // In-place accumulation (`+=`, `*=`, `/=` on the array `e[3]`)
  // ---------------------------------------------------------------------

  /** A vector variable: the source's `T e[3]` as an array that the compound assignments update. */
  class Vec3Var {
    const e: array<real>

    ghost predicate Valid()
      reads this
    {
      e.Length == 3
    }

    /** The vector the array currently holds. */
    function Value(): (v: Vec3)
      requires Valid()
      reads this, e
    {
      Vec3(e[0], e[1], e[2])
    }

    /** `Vec3(x, y, z)`. */
    constructor (x: real, y: real, z: real)
      ensures Valid() && fresh(e)
      ensures Value() == Vec3(x, y, z)
    {
      e := new real[3] [x, y, z];
    }

    /** `*this += v`. */
    method AddAssign(v: Vec3)
      requires Valid()
      modifies e
      ensures Valid()
      ensures Value() == Add(old(Value()), v)
    {
      e[0] := e[0] + v.x;
      e[1] := e[1] + v.y;
      e[2] := e[2] + v.z;
    }

    /** `*this *= t`. */
    method MulAssign(t: real)
      requires Valid()
      modifies e
      ensures Valid()
      ensures Value() == Scale(t, old(Value()))
    {
      e[0] := e[0] * t;
      e[1] := e[1] * t;
      e[2] := e[2] * t;
    }

    /** `*this /= t`, which the source performs as `*this *= 1.0 / t`. */
    method DivAssign(t: real)
      requires Valid()
      requires t != 0.0
      modifies e
      ensures Valid()
      ensures Value() == Div(old(Value()), t)
    {
      MulAssign(1.0 / t);
    }
  }

  // ---------------------------------------------------------------------
  // Stochastic utilities
  // ---------------------------------------------------------------------

  /**
   * `Vec3::random(min, max)`: three draws, taken for x, y and z in that
   * order.  Every component lies in [min, max].
   */
  function RandomVec(g: Rng, min: real, max: real): (res: (Vec3, Rng))
    requires Uniform(g)
    ensures min <= max ==> min <= res.0.x <= max && min <= res.0.y <= max && min <= res.0.z <= max
    ensures res.1 == Skip(g, 3)
  {
    var (x, g1) := RandomReal(g, min, max);
    var (y, g2) := RandomReal(g1, min, max);
    var (z, g3) := RandomReal(g2, min, max);
    (Vec3(x, y, z), g3)
  }

  /** One candidate of `randomInUnitDisk`: two draws in [-1, 1] and z = 0. */
  function DiskCandidate(g: Rng): (res: (Vec3, Rng))
    requires Uniform(g)
    ensures res.0.z == 0.0
    ensures -1.0 <= res.0.x <= 1.0 && -1.0 <= res.0.y <= 1.0
    ensures res.1 == Skip(g, 2)
  {
    var (x, g1) := RandomReal(g, -1.0, 1.0);
    var (y, g2) := RandomReal(g1, -1.0, 1.0);
    (Vec3(x, y, 0.0), g2)
  }

  /**
   * What the rejection loop of `randomInUnitSphere` returns when it may
   * draw at most `fuel` candidates: the first candidate of length below 1,
   * or `None` once the fuel is spent.  The stream only moves forward.
   */
  function SphereSample(g: Rng, fuel: nat): (res: (Option<Vec3>, Rng))
    requires Uniform(g)
    ensures res.0.Some? ==> LengthSquared(res.0.value) < 1.0
    ensures res.1.draw == g.draw && g.next <= res.1.next
    decreases fuel
  {
    if fuel == 0 then
      (None, g)
    else
      var (p, g1) := RandomVec(g, -1.0, 1.0);
      if LengthSquared(p) >= 1.0 then SphereSample(g1, fuel - 1) else (Some(p), g1)
  }

  /** The same for `randomInUnitDisk`, whose accepted sample also lies in the plane z = 0. */
  function DiskSample(g: Rng, fuel: nat): (res: (Option<Vec3>, Rng))
    requires Uniform(g)
    ensures res.0.Some? ==> LengthSquared(res.0.value) < 1.0 && res.0.value.z == 0.0
    ensures res.1.draw == g.draw && g.next <= res.1.next
    decreases fuel
  {
    if fuel == 0 then
      (None, g)
    else
      var (p, g1) := DiskCandidate(g);
      if LengthSquared(p) >= 1.0 then DiskSample(g1, fuel - 1) else (Some(p), g1)
  }

  /** `randomInUnitDisk()`: the rejection loop, cut off after `fuel` candidates. */
  method RandomInUnitDisk(g: Rng, fuel: nat) returns (p: Option<Vec3>, h: Rng)
    requires Uniform(g)
    ensures (p, h) == DiskSample(g, fuel)
    ensures p.Some? ==> LengthSquared(p.value) < 1.0 && p.value.z == 0.0
  {
    var i := 0;
    h := g;
    while i < fuel
      invariant 0 <= i <= fuel
      invariant h.draw == g.draw
      invariant DiskSample(g, fuel) == DiskSample(h, fuel - i)
      decreases fuel - i
    {
      var (q, h1) := DiskCandidate(h);
      h := h1;
      if LengthSquared(q) >= 1.0 {
        i := i + 1;
        continue;
      }
      return Some(q), h;
    }
    p := None;
  }

  /** `randomInUnitSphere()`: the rejection loop, cut off after `fuel` candidates. */
  method RandomInUnitSphere(g: Rng, fuel: nat) returns (p: Option<Vec3>, h: Rng)
    requires Uniform(g)
    ensures (p, h) == SphereSample(g, fuel)
    ensures p.Some? ==> LengthSquared(p.value) < 1.0
  {
    var i := 0;
    h := g;
    while i < fuel
      invariant 0 <= i <= fuel
      invariant h.draw == g.draw
      invariant SphereSample(g, fuel) == SphereSample(h, fuel - i)
      decreases fuel - i
    {
      var (q, h1) := RandomVec(h, -1.0, 1.0);
      h := h1;
      if LengthSquared(q) >= 1.0 {
        i := i + 1;
        continue;
      }
      return Some(q), h;
    }
    p := None;
  }

  /**
   * `randomUnitVec()` = `unit(randomInUnitSphere())`.  The source divides
   * by zero when the accepted sample is the zero vector; the model then
   * returns `None`, as it does when the fuel runs out.
   */
  method RandomUnitVec(g: Rng, fuel: nat, sqrt: real -> real) returns (p: Option<Vec3>, h: Rng)
    requires Uniform(g)
    requires IsSqrt(sqrt)
    ensures p.Some? ==> LengthSquared(p.value) == 1.0
    ensures p.Some? <==> SphereSample(g, fuel).0.Some? && SphereSample(g, fuel).0.value != Zero
    ensures p.Some? ==> p.value == Unit(SphereSample(g, fuel).0.value, sqrt)
    ensures h == SphereSample(g, fuel).1
  {
    var q;
    q, h := RandomInUnitSphere(g, fuel);
    if q.Some? && q.value != Zero {
      p := Some(Unit(q.value, sqrt));
    } else {
      p := None;
    }
  }

  /**
   * `randomInHemisphere(normal)`: a sample of the unit ball, negated when it
   * does not lie strictly on the side of `normal`.  The result is never on
   * the far side of the surface and still lies inside the unit ball.
   */
  method RandomInHemisphere(normal: Vec3, g: Rng, fuel: nat) returns (p: Option<Vec3>, h: Rng)
    requires Uniform(g)
    ensures p.Some? ==> 0.0 <= Dot(p.value, normal) && LengthSquared(p.value) < 1.0
    ensures p.Some? <==> SphereSample(g, fuel).0.Some?
    ensures p.Some? ==>
      p.value == (if Dot(SphereSample(g, fuel).0.value, normal) > 0.0 then SphereSample(g, fuel).0.value
                  else Neg(SphereSample(g, fuel).0.value))
    ensures h == SphereSample(g, fuel).1
  {
    var inUnitSphere;
    inUnitSphere, h := RandomInUnitSphere(g, fuel);
    if inUnitSphere.None? {
      p := None;
    } else if Dot(inUnitSphere.value, normal) > 0.0 {
      p := inUnitSphere;
    } else {
      NegFlipsSide(inUnitSphere.value, normal);
      p := Some(Neg(inUnitSphere.value));
    }
  }

  /** Negating a vector flips the sign of its dot product and keeps its length. */
  lemma NegFlipsSide(v: Vec3, n: Vec3)
    ensures Dot(Neg(v), n) == -Dot(v, n)
    ensures LengthSquared(Neg(v)) == LengthSquared(v)
  {
  }
}
