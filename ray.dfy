/** Rays `origin + t * direction` (src/Ray.hpp). */
module Rays {

  import opened Vectors

  /** `Ray(origin, direction)`; the accessors `origin()` and `direction()` are the field selectors. */
  datatype Ray = Ray(origin: Point3, direction: Vec3)

  /** The default-constructed `Ray()`, whose two vectors are default-constructed. */
  const DefaultRay: Ray := Ray(Zero, Zero)

  /** `at(t)` = `orig + t * dir`. */
  function At(r: Ray, t: real): Point3 {
    Add(r.origin, Scale(t, r.direction))
  }

  /** The accessors give back exactly what the ray was built from. */
  lemma AccessorsReturnArguments(origin: Point3, direction: Vec3)
    ensures Ray(origin, direction).origin == origin
    ensures Ray(origin, direction).direction == direction
  {
  }

  /** The ray starts at its origin. */
  lemma AtZero(r: Ray)
    ensures At(r, 0.0) == r.origin
  {
  }

  /** The point at parameter `t` lies `t` directions away from the origin. */
  lemma AtOffset(r: Ray, t: real)
    ensures Sub(At(r, t), r.origin) == Scale(t, r.direction)
  {
  }

  /** Evaluation is affine in the parameter: moving on by `t` adds `t` directions. */
  lemma AtAdditive(r: Ray, s: real, t: real)
    ensures At(r, s + t) == Add(At(r, s), Scale(t, r.direction))
  {
  }
}
