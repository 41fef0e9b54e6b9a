/**
 * The default pinhole camera (src/Camera.hpp): the eye at the origin looks
 * down -z at a 16:9 viewport of height 2 one unit away, and `getRay(u, v)`
 * sends a ray from the eye through the viewport point at fractions `u`
 * across and `v` up from the lower-left corner.
 */
module Cameras {

  import opened Vectors
  import opened Rays

  class Camera {
    // Private to the class and assigned only by the constructor.
    const origin: Point3
    const lowerLeftCorner: Point3
    const horizontal: Vec3
    const vertical: Vec3

    /** The fixed viewport of `Camera()`. */
    predicate IsDefault()
    {
      && origin == Vec3(0.0, 0.0, 0.0)
      && horizontal == Vec3(32.0 / 9.0, 0.0, 0.0)
      && vertical == Vec3(0.0, 2.0, 0.0)
      && lowerLeftCorner == Vec3(-16.0 / 9.0, -1.0, -1.0)
    }

    /**
     * `Camera()`: aspect ratio 16/9, viewport height 2 (so width 32/9) and
     * focal length 1, with the eye at the origin and the lower-left corner
     * half a viewport left and down and one focal length ahead.  The corner
     * `origin - horizontal/2 - vertical/2 - Vec3(0, 0, focalLength)` is
     * formed component by component; `CornerComponents` shows that this is
     * the same vector.
     */
    constructor ()
      ensures IsDefault()
    {
      var aspectRatio := 16.0 / 9.0;
      var viewportHeight := 2.0;
      var viewportWidth := aspectRatio * viewportHeight;
      var focalLength := 1.0;

      var eye := Vec3(0.0, 0.0, 0.0);
      var across := Vec3(viewportWidth, 0.0, 0.0);
      var up := Vec3(0.0, viewportHeight, 0.0);
      origin := eye;
      horizontal := across;
      vertical := up;
      lowerLeftCorner := Vec3(eye.x - across.x / 2.0 - up.x / 2.0,
                              eye.y - across.y / 2.0 - up.y / 2.0,
                              eye.z - across.z / 2.0 - up.z / 2.0 - focalLength);
    }

    /** The point of the viewport at fractions `u` across and `v` up. */
    function ViewportPoint(u: real, v: real): Point3
    {
      Add(Add(lowerLeftCorner, Scale(u, horizontal)), Scale(v, vertical))
    }

    /**
     * `getRay(u, v)`: the ray leaves the eye and reaches the viewport point
     * `(u, v)` at parameter 1.
     */
    function GetRay(u: real, v: real): (r: Ray)
      ensures r.origin == origin
      ensures At(r, 1.0) == ViewportPoint(u, v)
    {
      Ray(origin, Sub(Add(Add(lowerLeftCorner, Scale(u, horizontal)), Scale(v, vertical)), origin))
    }
  }

  /**
   * For the default camera every ray starts at the origin and points one
   * unit down -z, to the viewport point (-16/9 + 32/9 u, -1 + 2 v, -1).
   */
  lemma DefaultCameraRay(cam: Camera, u: real, v: real)
    requires cam.IsDefault()
    ensures cam.GetRay(u, v).origin == Zero
    ensures cam.GetRay(u, v).direction == Vec3(-16.0 / 9.0 + u * (32.0 / 9.0), -1.0 + 2.0 * v, -1.0)
    ensures cam.GetRay(u, v).direction.z == -1.0
  {
  }

  /**
   * The default camera's corner and centre rays: (0, 0) points at the
   * lower-left corner, (1, 1) at the upper-right one, (0.5, 0.5) straight
   * ahead.
   */
  lemma DefaultCornerRays(cam: Camera)
    requires cam.IsDefault()
    ensures cam.GetRay(0.0, 0.0).direction == cam.lowerLeftCorner
    ensures cam.GetRay(1.0, 1.0).direction == Vec3(16.0 / 9.0, 1.0, -1.0)
    ensures cam.GetRay(0.5, 0.5).direction == Vec3(0.0, 0.0, -1.0)
  {
    DefaultCameraRay(cam, 0.0, 0.0);
    DefaultCameraRay(cam, 1.0, 1.0);
    DefaultCameraRay(cam, 0.5, 0.5);
  }

  /**
   * Ray generation is affine in `u` and `v`, for any camera: moving by
   * `(du, dv)` adds `du * horizontal + dv * vertical` to the direction and
   * keeps the origin.
   */
  lemma GetRayAffine(cam: Camera, u: real, v: real, du: real, dv: real)
    ensures cam.GetRay(u + du, v + dv).origin == cam.GetRay(u, v).origin
    ensures cam.GetRay(u + du, v + dv).direction ==
      Add(cam.GetRay(u, v).direction, Add(Scale(du, cam.horizontal), Scale(dv, cam.vertical)))
  {
  }

  /**
   * The corner of src/Camera.hpp:19-20, `origin - horizontal/2 - vertical/2
   * - Vec3(0, 0, focalLength)`, component by component.
   */
  lemma CornerComponents(origin: Point3, horizontal: Vec3, vertical: Vec3, focalLength: real)
    ensures Sub(Sub(Sub(origin, Div(horizontal, 2.0)), Div(vertical, 2.0)), Vec3(0.0, 0.0, focalLength)) ==
      Vec3(origin.x - horizontal.x / 2.0 - vertical.x / 2.0,
           origin.y - horizontal.y / 2.0 - vertical.y / 2.0,
           origin.z - horizontal.z / 2.0 - vertical.z / 2.0 - focalLength)
  {
  }
}
