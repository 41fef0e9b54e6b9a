/**
 * The scatter rules of the three materials (src/Material.hpp).
 *
 * Each `scatter` writes the out-parameters `attenuation` and `scattered`
 * and returns a flag; here the three are the method's results.  The flag is
 * true when the ray scatters, in all three rules, although the doc comment
 * of the abstract `Material::scatter` (src/Material.hpp:11) calls it
 * "absorbed".
 *
 * The random vectors that `Lambertian` and `Metal` draw
 * (`randomUnitVec()`, `randomInUnitSphere()`) are parameters here; how
 * they are drawn is modelled by `Vectors.RandomUnitVec` and
 * `Vectors.RandomInUnitSphere`.
 */
module Materials {

  import opened RealArith
  import opened Vectors
  import opened Rays
  import opened Hittables

  /** `Lambertian(a)`. */
  function MakeLambertian(a: Color): (m: Material)
    ensures m.Lambertian? && m.albedo == a
  {
    Lambertian(a)
  }

  /** `Metal(a, f)`: the fuzz is capped at 1 from above, and a negative fuzz is kept as it is. */
  function MakeMetal(a: Color, f: real): (m: Material)
    ensures m.Metal? && m.albedo == a
    ensures m.fuzz <= 1.0 && m.fuzz <= f
    ensures f < 1.0 ==> m.fuzz == f
    ensures 1.0 <= f ==> m.fuzz == 1.0
  {
    Metal(a, if f < 1.0 then f else 1.0)
  }

  /** `Dielectric(indexOfRefraction)`. */
  function MakeDielectric(indexOfRefraction: real): (m: Material)
    ensures m.Dielectric? && m.ir == indexOfRefraction
  {
    Dielectric(indexOfRefraction)
  }

  // ---------------------------------------------------------------------
  // Lambertian
  // ---------------------------------------------------------------------

  /**
   * `Lambertian::scatter`: always scatters from the hit point, with the
   * albedo as attenuation, along `normal + randomUnitVec()` unless that sum
   * is near zero, in which case along the normal itself.
   */
  method LambertianScatter(albedo: Color, rIn: Ray, rec: HitRecord, randomUnit: Vec3, epsilon: real)
    returns (scatters: bool, attenuation: Color, scattered: Ray)
    ensures scatters
    ensures attenuation == albedo
    ensures scattered.origin == rec.p
    ensures NearZero(Add(rec.normal, randomUnit), epsilon) ==> scattered.direction == rec.normal
    ensures !NearZero(Add(rec.normal, randomUnit), epsilon) ==> scattered.direction == Add(rec.normal, randomUnit)
    ensures !NearZero(rec.normal, epsilon) ==> !NearZero(scattered.direction, epsilon)
  {
    var scatterDirection := Add(rec.normal, randomUnit);
    if NearZero(scatterDirection, epsilon) {
      scatterDirection := rec.normal;
    }
    scattered := Ray(rec.p, scatterDirection);
    attenuation := albedo;
    return true, attenuation, scattered;
  }

  // ---------------------------------------------------------------------
  // Metal
  // ---------------------------------------------------------------------

  /**
   * `Metal::scatter`: reflects the unit incoming direction about the
   * normal, perturbs it by `fuzz` times a sample of the unit ball, and
   * reports a scatter exactly when the result leaves on the normal's side.
   * The attenuation is the albedo on both outcomes.  For a mirror
   * (`fuzz == 0`) and a unit normal, the ray scatters exactly when it
   * arrives against the normal.
   */
  method MetalScatter(albedo: Color, fuzz: real, rIn: Ray, rec: HitRecord, inUnitSphere: Vec3, sqrt: real -> real)
    returns (scatters: bool, attenuation: Color, scattered: Ray)
    requires IsSqrt(sqrt)
    requires rIn.direction != Zero
    ensures attenuation == albedo
    ensures scattered.origin == rec.p
    ensures scattered.direction == Add(Reflect(Unit(rIn.direction, sqrt), rec.normal), Scale(fuzz, inUnitSphere))
    ensures scatters <==> Dot(scattered.direction, rec.normal) > 0.0
    ensures fuzz == 0.0 ==> scattered.direction == Reflect(Unit(rIn.direction, sqrt), rec.normal)
    ensures fuzz == 0.0 && LengthSquared(rec.normal) == 1.0 ==>
      (scatters <==> Dot(Unit(rIn.direction, sqrt), rec.normal) < 0.0)
  {
    var reflected := Reflect(Unit(rIn.direction, sqrt), rec.normal);
    scattered := Ray(rec.p, Add(reflected, Scale(fuzz, inUnitSphere)));
    attenuation := albedo;
    if fuzz == 0.0 {
      assert scattered.direction == reflected;
      if LengthSquared(rec.normal) == 1.0 {
        ReflectNormalComponent(Unit(rIn.direction, sqrt), rec.normal);
      }
    }
    return Dot(scattered.direction, rec.normal) > 0.0, attenuation, scattered;
  }

  // ---------------------------------------------------------------------
  // Dielectric
  // ---------------------------------------------------------------------

  /** `refractionRatio`: 1/ir when the ray enters through the front face, ir when it leaves. */
  function RefractionRatio(ir: real, frontFace: bool): (ratio: real)
    requires frontFace ==> ir != 0.0
    ensures frontFace ==> ratio * ir == 1.0
    ensures !frontFace ==> ratio == ir
  {
    if frontFace then 1.0 / ir else ir
  }

  /** `sinTheta` = `std::sqrt(1 - cosTheta * cosTheta)`. */
  function SinTheta(cosTheta: real, sqrt: real -> real): real {
    sqrt(1.0 - cosTheta * cosTheta)
  }

  /** `cannotRefract`: Snell's law has no solution, so the ray is reflected. */
  predicate CannotRefract(ratio: real, sinTheta: real) {
    ratio * sinTheta > 1.0
  }

  /**
   * The direction `Dielectric::scatter` sends the unit incoming direction
   * `unitDir` in: its reflection when it cannot refract, its refraction
   * with ratio `ratio` otherwise.  `cosTheta` is the clamped cosine that
   * `refract` also uses.
   */
  function DielectricDirection(unitDir: Vec3, normal: Vec3, ratio: real, sqrt: real -> real): (d: Vec3)
    ensures CannotRefract(ratio, SinTheta(RefractCos(unitDir, normal), sqrt)) ==> d == Reflect(unitDir, normal)
    ensures !CannotRefract(ratio, SinTheta(RefractCos(unitDir, normal), sqrt)) ==> d == Refract(unitDir, normal, ratio, sqrt)
  {
    if CannotRefract(ratio, SinTheta(RefractCos(unitDir, normal), sqrt)) then
      Reflect(unitDir, normal)
    else
      Refract(unitDir, normal, ratio, sqrt)
  }

  /**
   * What the test `cannotRefract` means, for unit vectors and a
   * non-negative ratio: it holds exactly when the perpendicular part of
   * `refract` would be longer than 1, that is, when Snell's law has no
   * solution (total internal reflection).
   */
  lemma CannotRefractIffTotalReflection(unitDir: Vec3, normal: Vec3, ratio: real, sqrt: real -> real)
    requires IsSqrt(sqrt)
    requires 0.0 <= ratio
    requires LengthSquared(unitDir) == 1.0 && LengthSquared(normal) == 1.0
    ensures CannotRefract(ratio, SinTheta(RefractCos(unitDir, normal), sqrt)) <==>
      1.0 < LengthSquared(RefractPerp(unitDir, normal, ratio))
  {
    NegFlipsSide(unitDir, normal);
    UnitDotBounds(Neg(unitDir), normal);
    var c := RefractCos(unitDir, normal);
    SquareAtMostOne(c);
    var s := SinTheta(c, sqrt);
    assert 0.0 <= s && s * s == 1.0 - c * c;
    PerpLengthSquared(unitDir, normal, ratio);
    var k := ratio * s;
    MulNonNeg(ratio, s);
    ProductSquare(ratio, s);
    assert LengthSquared(RefractPerp(unitDir, normal, ratio)) == Square(k);
    if 1.0 < k {
      SquareLess(1.0, k);
      assert Square(1.0) == 1.0;
      assert 1.0 < Square(k);
      assert CannotRefract(ratio, s);
    } else {
      MulMonotone(k, Copy(k), 1.0);
      assert Square(k) <= 1.0;
      RefractsWhenWithinOne(ratio, s);
    }
  }

  lemma RefractsWhenWithinOne(ratio: real, sinTheta: real)
    requires ratio * sinTheta <= 1.0
    ensures !CannotRefract(ratio, sinTheta)
  {
  }

  /** For unit vectors, `|rOutPerp|^2 = ratio^2 (1 - cosTheta^2)`. */
  lemma PerpLengthSquared(unitDir: Vec3, normal: Vec3, ratio: real)
    requires LengthSquared(unitDir) == 1.0 && LengthSquared(normal) == 1.0
    ensures LengthSquared(RefractPerp(unitDir, normal, ratio)) ==
      (ratio * ratio) * (1.0 - RefractCos(unitDir, normal) * RefractCos(unitDir, normal))
  {
    NegFlipsSide(unitDir, normal);
    UnitDotBounds(Neg(unitDir), normal);
    RefractPerpTangential(unitDir, normal, ratio);
    var d := Dot(unitDir, normal);
    var w := Sub(unitDir, Scale(d, normal));
    LengthSquaredSub(unitDir, Scale(d, normal));
    DotScaleRight(unitDir, d, normal);
    LengthSquaredScale(d, normal);
    assert LengthSquared(w) == 1.0 - d * d;
    LengthSquaredScale(ratio, w);
  }

  lemma ProductSquare(a: real, b: real)
    ensures Square(a * b) == (a * a) * (b * b)
  {
  }

  /**
   * For unit vectors and a non-negative ratio, the glass always sends the
   * ray on in a unit direction; when it refracts, that direction goes
   * through the surface (its component along `normal` is not positive).
   */
  lemma DielectricDirectionUnit(unitDir: Vec3, normal: Vec3, ratio: real, sqrt: real -> real)
    requires IsSqrt(sqrt)
    requires 0.0 <= ratio
    requires LengthSquared(unitDir) == 1.0 && LengthSquared(normal) == 1.0
    ensures LengthSquared(DielectricDirection(unitDir, normal, ratio, sqrt)) == 1.0
    ensures !CannotRefract(ratio, SinTheta(RefractCos(unitDir, normal), sqrt)) ==>
      Dot(DielectricDirection(unitDir, normal, ratio, sqrt), normal) <= 0.0
  {
    if CannotRefract(ratio, SinTheta(RefractCos(unitDir, normal), sqrt)) {
      ReflectPreservesLength(unitDir, normal);
    } else {
      CannotRefractIffTotalReflection(unitDir, normal, ratio, sqrt);
      NegFlipsSide(unitDir, normal);
      UnitDotBounds(Neg(unitDir), normal);
      RefractUnitThroughSurface(unitDir, normal, ratio, sqrt);
    }
  }

  /**
   * `Dielectric::scatter`: always scatters from the hit point without
   * attenuation, along `DielectricDirection` of the unit incoming
   * direction, with ratio 1/ir on the front face and ir on the back face.
   */
  method DielectricScatter(ir: real, rIn: Ray, rec: HitRecord, sqrt: real -> real)
    returns (scatters: bool, attenuation: Color, scattered: Ray)
    requires IsSqrt(sqrt)
    requires rIn.direction != Zero
    requires rec.frontFace ==> ir != 0.0
    ensures scatters
    ensures attenuation == Vec3(1.0, 1.0, 1.0)
    ensures scattered.origin == rec.p
    ensures scattered.direction ==
      DielectricDirection(Unit(rIn.direction, sqrt), rec.normal, RefractionRatio(ir, rec.frontFace), sqrt)
    ensures 0.0 < ir && LengthSquared(rec.normal) == 1.0 ==> LengthSquared(scattered.direction) == 1.0
  {
    attenuation := Vec3(1.0, 1.0, 1.0);
    var refractionRatio := RefractionRatio(ir, rec.frontFace);
    var unitDir := Unit(rIn.direction, sqrt);

    var cosTheta := RefractCos(unitDir, rec.normal);
    var sinTheta := SinTheta(cosTheta, sqrt);

    var cannotRefract := CannotRefract(refractionRatio, sinTheta);
    var direction;

    if cannotRefract {
      direction := Reflect(unitDir, rec.normal);
    } else {
      direction := Refract(unitDir, rec.normal, refractionRatio, sqrt);
    }

    scattered := Ray(rec.p, direction);
    if 0.0 < ir && LengthSquared(rec.normal) == 1.0 {
      assert 0.0 <= refractionRatio;
      DielectricDirectionUnit(unitDir, rec.normal, refractionRatio, sqrt);
    }
    return true, attenuation, scattered;
  }

  /**
   * A ray entering, through the front face, a medium whose index is at
   * least 1 is never reflected (for a unit normal): it is refracted with
   * ratio 1/ir.
   */
  lemma EnteringDenserMediumRefracts(ir: real, unitDir: Vec3, normal: Vec3, sqrt: real -> real)
    requires IsSqrt(sqrt)
    requires 1.0 <= ir
    requires LengthSquared(unitDir) == 1.0 && LengthSquared(normal) == 1.0
    ensures !CannotRefract(RefractionRatio(ir, true), SinTheta(RefractCos(unitDir, normal), sqrt))
    ensures DielectricDirection(unitDir, normal, RefractionRatio(ir, true), sqrt) == Refract(unitDir, normal, 1.0 / ir, sqrt)
  {
    var ratio := RefractionRatio(ir, true);
    RatioBounds(ir, ratio);
    UnitDotBounds(Neg(unitDir), normal);
    var cosTheta := RefractCos(unitDir, normal);
    SquareAtMostOne(cosTheta);
    var sinTheta := SinTheta(cosTheta, sqrt);
    RootAtMostOne(1.0 - cosTheta * cosTheta, sinTheta);
    MulMonotone(ratio, sinTheta, 1.0);
  }

  lemma RatioBounds(ir: real, ratio: real)
    requires 1.0 <= ir && ratio * ir == 1.0
    ensures 0.0 < ratio <= 1.0
  {
    if ratio <= 0.0 {
      MulMonotone(ir, ratio, 0.0);
    } else if ratio > 1.0 {
      MulMonotone(ratio, 1.0, ir);
    }
  }

  lemma SquareAtMostOne(c: real)
    requires -1.0 <= c <= 1.0
    ensures 0.0 <= Square(c) <= 1.0
  {
    var b := if 0.0 <= c then c else -c;
    MulMonotone(b, Copy(b), 1.0);
    assert Square(b) == Square(c);
  }

  lemma RootAtMostOne(x: real, s: real)
    requires 0.0 <= x <= 1.0
    requires 0.0 <= s && s * s == x
    ensures s <= 1.0
  {
    if 1.0 < s {
      MulMonotone(s, 1.0, Copy(s));
    }
  }

  // ---------------------------------------------------------------------
  // Dispatch
  // ---------------------------------------------------------------------

  /**
   * The virtual call `mat->scatter(rIn, rec, attenuation, scattered)`: the
   * rule of the material's own variant, with that rule's direction and
   * flag.
   */
  method Scatter(m: Material, rIn: Ray, rec: HitRecord, randomUnit: Vec3, inUnitSphere: Vec3, epsilon: real, sqrt: real -> real)
    returns (scatters: bool, attenuation: Color, scattered: Ray)
    requires IsSqrt(sqrt)
    requires !m.Lambertian? ==> rIn.direction != Zero
    requires m.Dielectric? && rec.frontFace ==> m.ir != 0.0
    ensures scattered.origin == rec.p
    ensures m.Lambertian? || m.Dielectric? ==> scatters
    ensures m.Lambertian? || m.Metal? ==> attenuation == m.albedo
    ensures m.Dielectric? ==> attenuation == Vec3(1.0, 1.0, 1.0)
    ensures m.Lambertian? && NearZero(Add(rec.normal, randomUnit), epsilon) ==> scattered.direction == rec.normal
    ensures m.Lambertian? && !NearZero(Add(rec.normal, randomUnit), epsilon) ==>
      scattered.direction == Add(rec.normal, randomUnit)
    ensures m.Metal? ==>
      scattered.direction == Add(Reflect(Unit(rIn.direction, sqrt), rec.normal), Scale(m.fuzz, inUnitSphere))
    ensures m.Metal? ==> (scatters <==> Dot(scattered.direction, rec.normal) > 0.0)
    ensures m.Dielectric? ==>
      scattered.direction == DielectricDirection(Unit(rIn.direction, sqrt), rec.normal, RefractionRatio(m.ir, rec.frontFace), sqrt)
  {
    match m
    case Lambertian(albedo) =>
      scatters, attenuation, scattered := LambertianScatter(albedo, rIn, rec, randomUnit, epsilon);
    case Metal(albedo, fuzz) =>
      scatters, attenuation, scattered := MetalScatter(albedo, fuzz, rIn, rec, inUnitSphere, sqrt);
    case Dielectric(ir) =>
      scatters, attenuation, scattered := DielectricScatter(ir, rIn, rec, sqrt);
  }
}
