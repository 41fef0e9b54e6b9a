/**
 * Ray-sphere intersection (src/Sphere.hpp), modelled as the code is
 * written.
 *
 * The code departs from the textbook intersection in three places, and the
 * model keeps all three:
 *  - it reports a miss when the discriminant is POSITIVE (src/Sphere.hpp:21),
 *    which is when the ray's line crosses the sphere at two points;
 *  - it computes `sqrtd = std::sqrt(discriminant)` and never uses it
 *    (src/Sphere.hpp:23); the model leaves that value out, since it has no
 *    effect;
 *  - both candidate roots use `std::sqrt(a)` in place of `sqrtd`
 *    (src/Sphere.hpp:27, 29).
 * Hence the point of a reported hit need not lie on the sphere at all; see
 * `SecantLineReportedAsMiss` and `MissedSphereReportedAsHit`.
 */
module Spheres {

  import opened Wrappers
  import opened RealArith
  import opened Vectors
  import opened Rays
  import opened Hittables

  datatype Sphere = Sphere(center: Point3, radius: real)

  // The quantities of src/Sphere.hpp:15-20.

  function Oc(s: Sphere, r: Ray): Vec3 {
    Sub(r.origin, s.center)
  }

  function QuadA(r: Ray): real {
    LengthSquared(r.direction)
  }

  function HalfB(s: Sphere, r: Ray): real {
    Dot(Oc(s, r), r.direction)
  }

  function QuadC(s: Sphere, r: Ray): real {
    LengthSquared(Oc(s, r)) - s.radius * s.radius
  }

  function Discriminant(s: Sphere, r: Ray): real {
    HalfB(s, r) * HalfB(s, r) - QuadA(r) * QuadC(s, r)
  }

  /** The first candidate, `(-halfB - std::sqrt(a)) / a` (src/Sphere.hpp:27). */
  function NearRoot(s: Sphere, r: Ray, sqrt: real -> real): real
    requires IsSqrt(sqrt)
    requires r.direction != Zero
  {
    LengthSquaredPositive(r.direction);
    (-HalfB(s, r) - sqrt(QuadA(r))) / QuadA(r)
  }

  /** The second candidate, `(-halfB + std::sqrt(a)) / a` (src/Sphere.hpp:29). */
  function FarRoot(s: Sphere, r: Ray, sqrt: real -> real): real
    requires IsSqrt(sqrt)
    requires r.direction != Zero
  {
    LengthSquaredPositive(r.direction);
    (-HalfB(s, r) + sqrt(QuadA(r))) / QuadA(r)
  }

  /** The range test of src/Sphere.hpp:28 and 30, negated. */
  predicate InWindow(t: real, tMin: real, tMax: real) {
    !(t < tMin || t > tMax)
  }

  /**
   * The parameter at which `hit` reports a hit in the window
   * [tMin, tMax], or `None` when it returns false.  The ray's direction
   * must be non-zero, since the source divides by its squared length.
   */
  function HitRoot(s: Sphere, r: Ray, tMin: real, tMax: real, sqrt: real -> real): (res: Option<real>)
    requires IsSqrt(sqrt)
    requires r.direction != Zero
    ensures res.Some? ==> tMin <= res.value <= tMax
    ensures Discriminant(s, r) > 0.0 ==> res == None
    ensures res.Some? ==> res.value == NearRoot(s, r, sqrt) || res.value == FarRoot(s, r, sqrt)
  {
    if Discriminant(s, r) > 0.0 then
      None
    else if InWindow(NearRoot(s, r, sqrt), tMin, tMax) then
      Some(NearRoot(s, r, sqrt))
    else if InWindow(FarRoot(s, r, sqrt), tMin, tMax) then
      Some(FarRoot(s, r, sqrt))
    else
      None
  }

  /** `(p - center) / radius`, the outward normal at `p` (src/Sphere.hpp:38). */
  function OutwardNormal(s: Sphere, p: Point3): (n: Vec3)
    requires s.radius != 0.0
    ensures Scale(s.radius, n) == Sub(p, s.center)
  {
    DivUndoneByScale(Sub(p, s.center), s.radius);
    Div(Sub(p, s.center), s.radius)
  }

  // ---------------------------------------------------------------------
  // Properties of the root selection
  // ---------------------------------------------------------------------

  /** The near candidate never lies beyond the far one. */
  lemma NearNotAfterFar(s: Sphere, r: Ray, sqrt: real -> real)
    requires IsSqrt(sqrt)
    requires r.direction != Zero
    ensures NearRoot(s, r, sqrt) <= FarRoot(s, r, sqrt)
  {
    LengthSquaredPositive(r.direction);
    var a := QuadA(r);
    var h := HalfB(s, r);
    var q := sqrt(a);
    DivideMonotone(-h - q, -h + q, a);
  }

  lemma DivideMonotone(x: real, y: real, a: real)
    requires x <= y && 0.0 < a
    ensures x / a <= y / a
  {
    var k := 1.0 / a;
    assert 0.0 < k;
    MulMonotone(k, x, y);
    assert x / a == k * x && y / a == k * y;
  }

  /**
   * The near candidate is taken whenever it lies in the window; the far
   * candidate only when the near one does not.
   */
  lemma NearPreferred(s: Sphere, r: Ray, tMin: real, tMax: real, sqrt: real -> real)
    requires IsSqrt(sqrt)
    requires r.direction != Zero
    requires Discriminant(s, r) <= 0.0
    ensures tMin <= NearRoot(s, r, sqrt) <= tMax ==> HitRoot(s, r, tMin, tMax, sqrt) == Some(NearRoot(s, r, sqrt))
    ensures !(tMin <= NearRoot(s, r, sqrt) <= tMax) ==>
      HitRoot(s, r, tMin, tMax, sqrt) == (if tMin <= FarRoot(s, r, sqrt) <= tMax then Some(FarRoot(s, r, sqrt)) else None)
  {
  }

  /**
   * Shrinking the upper end of the window to `m` keeps exactly the hits at
   * or before `m`.  This is what lets a scan over several objects pass its
   * closest hit so far as the new upper end.
   */
  lemma HitRootShrinkWindow(s: Sphere, r: Ray, tMin: real, m: real, tMax: real, sqrt: real -> real)
    requires IsSqrt(sqrt)
    requires r.direction != Zero
    requires m <= tMax
    ensures HitRoot(s, r, tMin, m, sqrt) ==
      (if HitRoot(s, r, tMin, tMax, sqrt).Some? && HitRoot(s, r, tMin, tMax, sqrt).value <= m
       then HitRoot(s, r, tMin, tMax, sqrt) else None)
  {
    NearNotAfterFar(s, r, sqrt);
  }

  // ---------------------------------------------------------------------
  // Consequences of the code as written
  // ---------------------------------------------------------------------

  /**
   * Whenever some point of the ray's line lies strictly inside the sphere,
   * the discriminant is positive, so `hit` reports a miss in every window.
   */
  lemma SecantLineReportedAsMiss(s: Sphere, r: Ray, t: real, tMin: real, tMax: real, sqrt: real -> real)
    requires IsSqrt(sqrt)
    requires r.direction != Zero
    requires LengthSquared(Sub(At(r, t), s.center)) < s.radius * s.radius
    ensures 0.0 < Discriminant(s, r)
    ensures HitRoot(s, r, tMin, tMax, sqrt) == None
  {
    SecantPositiveDiscriminant(s, r, t);
  }

  lemma SecantPositiveDiscriminant(s: Sphere, r: Ray, t: real)
    requires r.direction != Zero
    requires LengthSquared(Sub(At(r, t), s.center)) < s.radius * s.radius
    ensures 0.0 < Discriminant(s, r)
  {
    var a, h, c := QuadA(r), HalfB(s, r), QuadC(s, r);
    LengthSquaredPositive(r.direction);
    QuadraticAlongRay(s, r, t);
    NegativeValueMeansPositiveDiscriminant(a, h, c, t);
  }

  /** `|oc + t d|^2 - radius^2 = a t^2 + 2 halfB t + c`. */
  lemma QuadraticAlongRay(s: Sphere, r: Ray, t: real)
    ensures LengthSquared(Sub(At(r, t), s.center)) - s.radius * s.radius ==
      QuadA(r) * (t * t) + 2.0 * HalfB(s, r) * t + QuadC(s, r)
  {
    assert Sub(At(r, t), s.center) == Add(Oc(s, r), Scale(t, r.direction));
    LengthSquaredAdd(Oc(s, r), Scale(t, r.direction));
    LengthSquaredScale(t, r.direction);
    DotScaleRight(Oc(s, r), t, r.direction);
  }

  /** A quadratic with positive leading coefficient that takes a negative value has two real roots. */
  lemma NegativeValueMeansPositiveDiscriminant(a: real, h: real, c: real, t: real)
    requires 0.0 < a
    requires a * (t * t) + 2.0 * h * t + c < 0.0
    ensures 0.0 < h * h - a * c
  {
    var f := a * (t * t) + 2.0 * h * t + c;
    assert a * f == Square(a * t + h) - (h * h - a * c);
    StrictNegative(a, f);
  }

  lemma StrictNegative(a: real, f: real)
    requires 0.0 < a && f < 0.0
    ensures a * f < 0.0
  {
    StrictPositive(a, -f);
  }

  /** `std::sqrt(1) == 1` for any function that meets `IsSqrt`. */
  lemma SqrtOne(sqrt: real -> real)
    requires IsSqrt(sqrt)
    ensures sqrt(1.0) == 1.0
  {
    var q := sqrt(1.0);
    if q < 1.0 {
      MulMonotone(q, q, 1.0);
    } else if q > 1.0 {
      MulMonotone(q, 1.0, q);
    }
  }

  /**
   * A ray along -z from the origin, and a sphere of radius 0.5 centred five
   * units off the ray: the ray misses it by a wide margin, yet `hit`
   * reports a hit at t = 2 in the window [0.001, 10], at a point whose
   * squared distance from the centre is 26.
   */
  lemma MissedSphereReportedAsHit(s: Sphere, r: Ray, sqrt: real -> real)
    requires IsSqrt(sqrt)
    requires s.center == Vec3(0.0, 5.0, -1.0) && s.radius == 0.5
    requires r.origin == Zero && r.direction == Vec3(0.0, 0.0, -1.0)
    ensures HitRoot(s, r, 0.001, 10.0, sqrt) == Some(2.0)
    ensures LengthSquared(Sub(At(r, 2.0), s.center)) == 26.0
  {
    MissedSphereQuantities(s, r);
    ReportedAtTwo(s, r, sqrt);
  }

  /**
   * The quantities of `hit` for that sphere and ray, computed component by
   * component (the solver handles vector functions applied to constant
   * vectors poorly).
   */
  lemma MissedSphereQuantities(s: Sphere, r: Ray)
    requires s.center == Vec3(0.0, 5.0, -1.0) && s.radius == 0.5
    requires r.origin == Zero && r.direction == Vec3(0.0, 0.0, -1.0)
    ensures r.direction != Zero
    ensures QuadA(r) == 1.0 && HalfB(s, r) == -1.0
    ensures Discriminant(s, r) == -24.75
    ensures LengthSquared(Sub(At(r, 2.0), s.center)) == 26.0
  {
    var oc := Oc(s, r);
    assert oc.x == 0.0 && oc.y == -5.0 && oc.z == 1.0;
    assert LengthSquared(oc) == 26.0;
    assert QuadC(s, r) == 25.75;
    var p := Sub(At(r, 2.0), s.center);
    assert p.x == 0.0 && p.y == -5.0 && p.z == -1.0;
  }

  /** With `a == 1`, `halfB == -1` and a discriminant that does not reject, `hit` takes the far root 2. */
  lemma ReportedAtTwo(s: Sphere, r: Ray, sqrt: real -> real)
    requires IsSqrt(sqrt)
    requires r.direction != Zero
    requires QuadA(r) == 1.0 && HalfB(s, r) == -1.0 && Discriminant(s, r) <= 0.0
    ensures HitRoot(s, r, 0.001, 10.0, sqrt) == Some(2.0)
  {
    SqrtOne(sqrt);
    RootValues(HalfB(s, r), QuadA(r), sqrt(QuadA(r)));
  }

  lemma RootValues(h: real, a: real, q: real)
    requires h == -1.0 && a == 1.0 && q == 1.0
    ensures (-h - q) / a == 0.0 && (-h + q) / a == 2.0
  {
  }

  // ---------------------------------------------------------------------
  // Sphere::hit
  // ---------------------------------------------------------------------

  /**
   * `Sphere::hit(r, tMin, tMax, rec)`.  On a hit it writes `t`, `p`,
   * `frontFace` and `normal` of `rec`; `mat` is never written, and on a
   * miss nothing is.  The source divides by `a` and by the radius; the
   * model requires both to be non-zero.
   */
  method Hit(s: Sphere, r: Ray, tMin: real, tMax: real, rec: HitRecord, sqrt: real -> real) returns (hit: bool)
    requires IsSqrt(sqrt)
    requires r.direction != Zero
    requires s.radius != 0.0
    modifies rec
    ensures hit <==> HitRoot(s, r, tMin, tMax, sqrt).Some?
    ensures hit ==> rec.t == HitRoot(s, r, tMin, tMax, sqrt).value
    ensures hit ==> tMin <= rec.t <= tMax
    ensures hit ==> rec.p == At(r, rec.t)
    ensures hit ==> rec.frontFace == (Dot(r.direction, OutwardNormal(s, rec.p)) < 0.0)
    ensures hit ==> rec.normal == FaceNormal(r, OutwardNormal(s, rec.p))
    ensures rec.mat == old(rec.mat)
    ensures !hit ==> unchanged(rec)
  {
    var oc := Sub(r.origin, s.center);
    var a := LengthSquared(r.direction);
    var halfB := Dot(oc, r.direction);
    var c := LengthSquared(oc) - s.radius * s.radius;

    var discriminant := halfB * halfB - a * c;
    if discriminant > 0.0 {
      return false;
    }

    LengthSquaredPositive(r.direction);
    var root := (-halfB - sqrt(a)) / a;
    if root < tMin || root > tMax {
      root := (-halfB + sqrt(a)) / a;
      if root < tMin || root > tMax {
        return false;
      }
    }

    rec.t := root;
    rec.p := At(r, rec.t);
    var outwardNormal := Div(Sub(rec.p, s.center), s.radius);
    rec.SetFaceNormal(r, outwardNormal);
    return true;
  }
}
