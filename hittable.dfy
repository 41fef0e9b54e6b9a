/**
 * Hit records (src/Hittable.hpp).
 *
 * `HitRecord` is a class whose fields are written in place by the
 * intersection routines.  Its `mat` field is a shared pointer to a material
 * and is modelled as an optional material value, `None` standing for the
 * null pointer.  The material kinds are declared here, where the source
 * forward-declares `Material` (src/Hittable.hpp:8), and their scatter rules
 * live in the module `Materials`.
 */
module Hittables {

  import opened Wrappers
  import opened Vectors
  import opened Rays

  /** The three material kinds of src/Material.hpp and the state each holds. */
  datatype Material =
    | Lambertian(albedo: Color)
    | Metal(albedo: Color, fuzz: real)
    | Dielectric(ir: real)

  /** The outward normal a record ends up holding: against the ray when it hits the front face. */
  function FaceNormal(r: Ray, outwardNormal: Vec3): (n: Vec3)
    ensures Dot(r.direction, n) <= 0.0
    ensures n == outwardNormal || n == Neg(outwardNormal)
    ensures LengthSquared(n) == LengthSquared(outwardNormal)
  {
    if Dot(r.direction, outwardNormal) < 0.0 then outwardNormal else Neg(outwardNormal)
  }

  class HitRecord {
    var p: Point3
    var normal: Vec3
    var mat: Option<Material>
    var t: real
    var frontFace: bool

    /**
     * The implicit default constructor: `p` and `normal` are zero vectors
     * and `mat` is the null pointer.  `t` and `frontFace` are left
     * uninitialised by the source; the model gives them 0 and false.
     */
    constructor ()
      ensures p == Zero && normal == Zero && mat == None
    {
      p := Zero;
      normal := Zero;
      mat := None;
      t := 0.0;
      frontFace := false;
    }

    /**
     * `setFaceNormal(r, outwardNormal)`: records whether the ray meets the
     * front face and stores the normal turned against the ray.  Only
     * `frontFace` and `normal` are written.
     */
    method SetFaceNormal(r: Ray, outwardNormal: Vec3)
      modifies this`frontFace, this`normal
      ensures frontFace <==> Dot(r.direction, outwardNormal) < 0.0
      ensures normal == (if frontFace then outwardNormal else Neg(outwardNormal))
      ensures normal == FaceNormal(r, outwardNormal)
    {
      frontFace := Dot(r.direction, outwardNormal) < 0.0;
      normal := if frontFace then outwardNormal else Neg(outwardNormal);
    }

    /** The copy assignment `*this = other`, field by field. */
    method CopyFrom(other: HitRecord)
      modifies this
      ensures p == old(other.p) && normal == old(other.normal) && mat == old(other.mat)
      ensures t == old(other.t) && frontFace == old(other.frontFace)
    {
      p, normal, mat, t, frontFace := other.p, other.normal, other.mat, other.t, other.frontFace;
    }
  }
}
