# A verified model of a small ray tracer's kernel

This project models the geometric and shading kernel of a small C++ ray
tracer (the `raytrace` namespace, headers under `src/`) and proves
properties of it in Dafny. The kernel covers:

- `Vec3` algebra, with its in-place operators and rejection samplers;
- rays;
- hit records and their face orientation;
- the closest-hit scan over a list of objects;
- ray-sphere intersection;
- the three scatter rules of the materials;
- packing a colour into a 32-bit RGBA word;
- the default camera.

Every class of the source is a template over a scalar `T`. Here `T` is
Dafny's `real`, so the model states exact algebraic behaviour. The source
also relies on code outside these headers:

- `std::sqrt` becomes a function-valued parameter `sqrt` constrained by
  `IsSqrt`: for a non-negative argument it gives the non-negative root.
- `std::abs` and `std::min` are defined exactly, as `Abs` and `Min`.
- `randomReal` becomes an explicit stream of uniform draws,
  `RandomSource.Rng`.
- `epsilon` becomes a parameter of `nearZero`.
- `clamp` is defined as the usual clamp, `Colors.Clamp`.

These headers do not define `randomReal`, `epsilon` or `clamp` anywhere.

Modules follow the headers:

| header | module | form |
|---|---|---|
| src/Vec3.hpp | `Vectors` (vec3.dfy) | datatype `Vec3` with pure functions; class `Vec3Var` over an `array<real>` for `+=`, `*=`, `/=`; methods with loops for the rejection samplers |
| src/Ray.hpp | `Rays` (ray.dfy) | datatype and function |
| src/Hittable.hpp | `Hittables` (hittable.dfy) | class `HitRecord`, whose fields are written in place |
| src/HittableList.hpp | `HittableLists` (hittable_list.dfy) | class with a `seq` field; the scan is a loop |
| src/Sphere.hpp | `Spheres` (sphere.dfy) | pure root selection, and a method that writes the record |
| src/Material.hpp | `Materials` (material.dfy) | one method per scatter rule; the out-parameters become results |
| src/Color.hpp | `Colors` (color.dfy) | method building the word by shifts and ors |
| src/Camera.hpp | `Cameras` (camera.dfy) | class with constant fields |

`RandomSource` (random.dfy), `RealArith` (real_arith.dfy) and `Wrappers`
(wrappers.dfy) are supporting modules.

Where the code departs from the textbook algorithm or from its own comments,
the model follows the code:

- `Sphere::hit` reports a miss when the discriminant is **positive**
  (src/Sphere.hpp:21). The textbook reports a miss when it is negative.
- `Sphere::hit` computes both candidate roots with `std::sqrt(a)`, and the
  value `sqrtd` goes unused (src/Sphere.hpp:23, 27, 29). The model proves
  what follows from this. Every ray whose line enters the sphere is
  reported as a miss (`SecantLineReportedAsMiss`). A ray that passes far
  from a sphere can be reported as a hit (`MissedSphereReportedAsHit`).
- `convertRGBA` applies no gamma correction; it scales, clamps and
  truncates (src/Color.hpp:14-24).
- The doc comment of `Material::scatter` says the flag means "absorbed"
  (src/Material.hpp:11). All three rules return `true` when the ray
  scatters, and the model follows the rules.
- `epsilon` is not defined in these headers, so it is a parameter.

## Model

| member | source | states |
|---|---|---|
| Vectors.Min | src/Material.hpp:72 | `std::min<T>(a, b)`: the result is at most both arguments and is one of them |
| Vectors.Abs | src/Vec3.hpp:46-47 | `std::abs`: non-negative, and equal to the argument or its negation |
| Vectors.Zero | src/Vec3.hpp:11 | the default `Vec3()`, all components 0; definition, no contract |
| Vectors.Neg | src/Vec3.hpp:20 | unary `-v`; definition, no contract (see `NegFlipsSide`, `AddSubInverse`) |
| Vectors.Add | src/Vec3.hpp:56-58 | `u + v`; definition, no contract (see `AddSubInverse`) |
| Vectors.Sub | src/Vec3.hpp:60-62 | `u - v`; definition, no contract (see `AddSubInverse`) |
| Vectors.Mul | src/Vec3.hpp:64-66 | component-wise `u * v`; definition, no contract (see `MulComponents`) |
| Vectors.MulComponents | src/Vec3.hpp:64-66 | `u * v` is commutative, its components sum to `dot(u, v)`, and `(t, t, t) * v == t * v` |
| Vectors.Scale | src/Vec3.hpp:68-72 | `t * v` and `v * t`; definition, no contract (see `DivUndoneByScale`) |
| Vectors.Div | src/Vec3.hpp:74 | `v / t` as `(1.0 / t) * v`; definition, no contract (see `DivUndoneByScale`) |
| Vectors.Dot | src/Vec3.hpp:76-78 | `dot(u, v)`; definition, no contract (see `DotSymmetric`, `UnitDotBounds`) |
| Vectors.NearZero | src/Vec3.hpp:45-48 | `nearZero()`; definition, no contract (see `NearZeroMeansShort`, `ZeroIsNearZero`) |
| Vectors.Reflect | src/Vec3.hpp:89-91 | `reflect(v, n)`; definition, no contract (see `ReflectNormalComponent`, `ReflectPreservesLength`, `ReflectInvolution`) |
| Vectors.RefractPerp | src/Vec3.hpp:96 | `rOutPerp` of `refract`; definition, no contract (see `RefractPerpTangential`) |
| Vectors.Refract | src/Vec3.hpp:94-100 | `refract(uv, n, etaiOverEtat)`; definition, no contract (see `RefractUnitThroughSurface`) |
| Vectors.LengthSquared | src/Vec3.hpp:40 | `lengthSquared()` equals `dot(v, v)` and is never negative |
| Vectors.Length | src/Vec3.hpp:42 | `length()` is non-negative and its square is `lengthSquared()` |
| Vectors.DotSymmetric | src/Vec3.hpp:76-78 | `dot(u, v) == dot(v, u)` |
| Vectors.Cross | src/Vec3.hpp:80-84 | `cross(u, v)` is orthogonal to `u` and to `v` |
| Vectors.CrossAntiCommutative | src/Vec3.hpp:80-84 | `cross(u, v) == -cross(v, u)` |
| Vectors.AddSubInverse | src/Vec3.hpp:56-62 | `(u + v) - v == u`, and `v + (-v)` is the zero vector |
| Vectors.DivUndoneByScale | src/Vec3.hpp:74 | `t * (v / t) == v` for `t != 0` |
| Vectors.Unit | src/Vec3.hpp:86 | `unit(v)` of a non-zero `v` has length 1, and `length(v) * unit(v) == v` |
| Vectors.LengthSquaredPositive | src/Vec3.hpp:40 | only the zero vector has squared length 0 |
| Vectors.UnitDotBounds | src/Vec3.hpp:76-78 | the dot product of two unit vectors lies in [-1, 1] |
| Vectors.ReflectNormalComponent | src/Vec3.hpp:88-91 | for a unit `n`, `dot(reflect(v, n), n) == -dot(v, n)` |
| Vectors.ReflectPreservesLength | src/Vec3.hpp:88-91 | for a unit `n`, `reflect` keeps `lengthSquared` |
| Vectors.ReflectInvolution | src/Vec3.hpp:88-91 | for a unit `n`, `reflect(reflect(v, n), n) == v` |
| Vectors.NearZeroMeansShort | src/Vec3.hpp:45-48 | a near-zero vector implies a positive `epsilon` and squared length below `3 * epsilon^2` |
| Vectors.ZeroIsNearZero | src/Vec3.hpp:45-48 | the zero vector is near zero exactly when `epsilon > 0` |
| Vectors.RefractCos | src/Vec3.hpp:95 | the cosine term of `refract` is at most 1 and at most `dot(-uv, n)` |
| Vectors.RefractPerpTangential | src/Vec3.hpp:94-96 | for a unit normal and `dot(-uv, n) <= 1` (true for a unit `uv`), the perpendicular part of `refract` is orthogonal to `n` and is `etaiOverEtat` times the tangential part of `uv` |
| Vectors.RefractUnitThroughSurface | src/Vec3.hpp:94-100 | for a unit normal and `dot(-uv, n) <= 1` (true for a unit `uv`), without total internal reflection (`|rOutPerp|^2 <= 1`), `refract` gives a unit vector whose component along `n` is not positive |
| Vectors.Vec3Var.constructor | src/Vec3.hpp:12 | `Vec3(x, y, z)` holds exactly `(x, y, z)` in a fresh three-element array |
| Vectors.Vec3Var.AddAssign | src/Vec3.hpp:24-29 | after `v += w`, `v` equals old `v` + `w` |
| Vectors.Vec3Var.MulAssign | src/Vec3.hpp:31-36 | after `v *= t`, `v` equals `t * old v` |
| Vectors.Vec3Var.DivAssign | src/Vec3.hpp:38 | after `v /= t`, `v` equals `old v / t` (for `t != 0`) |
| RandomSource.RandomReal | src/Vec3.hpp:104-105 | `randomReal(min, max)` takes one draw, lands in [min, max] when `min <= max`, and moves the stream on by one |
| RandomSource.ScaleDraw | src/Vec3.hpp:104-105 | the affine map of a draw in [0, 1) onto [min, max] stays in [min, max] |
| Vectors.RandomVec | src/Vec3.hpp:103-106 | `Vec3::random(min, max)` takes three draws and, when `min <= max`, has every component in [min, max] |
| Vectors.DiskCandidate | src/Vec3.hpp:111 | a disk candidate has `z == 0`, `x` and `y` in [-1, 1], and takes two draws |
| Vectors.SphereSample | src/Vec3.hpp:119-126 | an accepted sphere sample has `lengthSquared < 1`; the stream only moves forward |
| Vectors.DiskSample | src/Vec3.hpp:109-116 | an accepted disk sample has `lengthSquared < 1` and `z == 0` |
| Vectors.RandomInUnitDisk | src/Vec3.hpp:109-116 | the rejection loop returns exactly `DiskSample`, so any value it returns lies in the open unit disk of the plane z = 0 |
| Vectors.RandomInUnitSphere | src/Vec3.hpp:119-126 | the rejection loop returns exactly `SphereSample`, so any value it returns lies in the open unit ball |
| Vectors.RandomUnitVec | src/Vec3.hpp:129 | a returned value is `unit` of the sphere sample, so it has length 1 and `length(sample) * p == sample`; one is returned exactly when the sphere sample exists and is non-zero; the stream ends where the sphere sampler leaves it |
| Vectors.RandomInHemisphere | src/Vec3.hpp:132-140 | the result is the sphere sample when `dot(sample, normal) > 0` and its negation otherwise (also when the dot product is 0), lies in the unit ball and has `dot(p, normal) >= 0` |
| Vectors.NegFlipsSide | src/Vec3.hpp:20 | negation flips the sign of the dot product and keeps the length |
| Rays.AccessorsReturnArguments | src/Ray.hpp:11-15 | `origin()` and `direction()` return exactly the constructor arguments |
| Rays.DefaultRay | src/Ray.hpp:10 | the default `Ray()`, with both vectors default-constructed; definition, no contract |
| Rays.At | src/Ray.hpp:17 | `at(t)`; definition, no contract (see `AtZero`, `AtOffset`, `AtAdditive`) |
| Rays.AtZero | src/Ray.hpp:17 | `at(0) == origin()` |
| Rays.AtOffset | src/Ray.hpp:17 | `at(t) - origin() == t * direction()` |
| Rays.AtAdditive | src/Ray.hpp:17 | `at(s + t) == at(s) + t * direction()` |
| Hittables.FaceNormal | src/Hittable.hpp:19-20 | the stored normal is against the ray (`dot(dir, n) <= 0`), is `±outwardNormal`, and has the same squared length |
| Hittables.HitRecord.constructor | src/Hittable.hpp:10-16 | a fresh record has zero `p` and `normal` and a null material |
| Hittables.HitRecord.SetFaceNormal | src/Hittable.hpp:18-21 | `frontFace` holds iff `dot(r.direction(), outwardNormal) < 0`; `normal` is `outwardNormal` on the front face and its negation otherwise; only `frontFace` and `normal` change |
| Hittables.HitRecord.CopyFrom | src/HittableList.hpp:31 | `rec = tempRec` copies all five fields |
| HittableLists.ClosestHitUnique | src/HittableList.hpp:27-33 | the closest hit, as the scan defines it, is unique in both object and parameter |
| HittableLists.FirstHitStep | src/HittableList.hpp:28-31 | the first object that reports a hit is the closest among those scanned |
| HittableLists.CloserHitStep | src/HittableList.hpp:28-31 | a hit in [tMin, closestSoFar] becomes the new closest hit of the scanned prefix |
| HittableLists.NoCloserHitStep | src/HittableList.hpp:28 | an object with no hit in [tMin, closestSoFar] leaves the closest hit unchanged |
| HittableLists.HittableList.constructor | src/HittableList.hpp:15 | `HittableList()` is empty |
| HittableLists.HittableList.One | src/HittableList.hpp:16 | `HittableList(object)` holds exactly that object |
| HittableLists.HittableList.Clear | src/HittableList.hpp:18 | `clear()` empties the list |
| HittableLists.HittableList.Add | src/HittableList.hpp:19 | `add(object)` appends at the end and keeps the earlier entries |
| HittableLists.HittableList.Hit | src/HittableList.hpp:21-36 | returns true iff some object hits in [tMin, tMax]; `rec` is then the closest hit (no earlier hit; equal hits go to the last object), with point and normal from that sphere and a null material; on false `rec` is unchanged |
| Spheres.Oc | src/Sphere.hpp:15 | `oc = r.origin() - center`; definition, no contract |
| Spheres.QuadA | src/Sphere.hpp:16 | `a`; definition, no contract (see `QuadraticAlongRay`) |
| Spheres.HalfB | src/Sphere.hpp:17 | `halfB`; definition, no contract (see `QuadraticAlongRay`) |
| Spheres.QuadC | src/Sphere.hpp:18 | `c`; definition, no contract (see `QuadraticAlongRay`) |
| Spheres.Discriminant | src/Sphere.hpp:20 | `discriminant`; definition, no contract (see `SecantPositiveDiscriminant`) |
| Spheres.NearRoot | src/Sphere.hpp:27 | `(-halfB - std::sqrt(a)) / a`; definition, no contract (see `NearNotAfterFar`) |
| Spheres.FarRoot | src/Sphere.hpp:29 | `(-halfB + std::sqrt(a)) / a`; definition, no contract (see `NearNotAfterFar`) |
| Spheres.InWindow | src/Sphere.hpp:28-30 | the negation of the range test `root < tMin || root > tMax` of lines 28 and 30; definition, no contract |
| Spheres.HitRoot | src/Sphere.hpp:15-33 | a reported root lies in [tMin, tMax] and is one of the two candidates built with `sqrt(a)`; a positive discriminant always gives a miss |
| Spheres.OutwardNormal | src/Sphere.hpp:38 | `radius * outwardNormal == p - center` |
| Spheres.NearNotAfterFar | src/Sphere.hpp:27-29 | the near candidate never exceeds the far one |
| Spheres.NearPreferred | src/Sphere.hpp:27-33 | when the discriminant is not positive, the near candidate is taken when it is in the window; otherwise the far one if it is, else a miss |
| Spheres.HitRootShrinkWindow | src/Sphere.hpp:27-33 | lowering the window's upper end to `m` keeps exactly the hits at or before `m` |
| Spheres.QuadraticAlongRay | src/Sphere.hpp:15-18 | `|oc + t d|^2 - radius^2 == a t^2 + 2 halfB t + c` |
| Spheres.SecantPositiveDiscriminant | src/Sphere.hpp:20 | if any point of the ray's line lies strictly inside the sphere, the discriminant is positive |
| Spheres.SecantLineReportedAsMiss | src/Sphere.hpp:20-22 | such a ray is reported as a miss in every window |
| Spheres.MissedSphereReportedAsHit | src/Sphere.hpp:15-33 | the ray from the origin along -z and the sphere of radius 0.5 at (0, 5, -1), 5 units off the ray: `hit` reports t = 2 in [0.001, 10], at a point 26 squared units from the centre |
| Spheres.Hit | src/Sphere.hpp:13-42 | returns true iff `HitRoot` finds a root; then in `rec`, `t` equals it and lies in the window, `p == r.at(t)`, and `frontFace` and `normal` come from `setFaceNormal` with `(p - center) / radius`; `mat` is never written; on false `rec` is unchanged |
| Materials.MakeLambertian | src/Material.hpp:20 | stores the albedo |
| Materials.MakeMetal | src/Material.hpp:43 | `fuzz == min(f, 1)`: at most 1, equal to `f` below 1; a negative `f` is kept |
| Materials.MakeDielectric | src/Material.hpp:63 | stores the index of refraction |
| Materials.LambertianScatter | src/Material.hpp:22-34 | always scatters from `rec.p`, with attenuation `albedo`; the direction is `rec.normal` exactly when `normal + randomUnitVec()` is near zero, and otherwise that sum |
| Materials.MetalScatter | src/Material.hpp:45-53 | attenuation is the albedo on both outcomes; the direction is `reflect(unit(dir), normal) + fuzz * sample`; scatters iff `dot(direction, normal) > 0`; with `fuzz == 0` the direction is the pure reflection, and for a unit normal that ray scatters iff it arrives against the normal |
| Materials.RefractionRatio | src/Material.hpp:69 | `1/ir` on the front face, `ir` on the back face |
| Materials.SinTheta | src/Material.hpp:73 | `sinTheta`; definition, no contract (see `CannotRefractIffTotalReflection`) |
| Materials.CannotRefract | src/Material.hpp:75 | `cannotRefract`; definition, no contract (see `CannotRefractIffTotalReflection`) |
| Materials.DielectricDirection | src/Material.hpp:72-81 | the branch of `Dielectric::scatter`: the reflection when `ratio * sinTheta > 1`, the refraction otherwise (what the test means is `CannotRefractIffTotalReflection`) |
| Materials.CannotRefractIffTotalReflection | src/Material.hpp:72-75 | for unit vectors and `ratio >= 0`, `cannotRefract` holds exactly when the perpendicular part of `refract` is longer than 1, so that Snell's law has no solution |
| Materials.PerpLengthSquared | src/Vec3.hpp:94-96 | for unit vectors, `|rOutPerp|^2 == ratio^2 * (1 - cosTheta^2)` |
| Materials.DielectricDirectionUnit | src/Material.hpp:72-81 | for unit vectors and `ratio >= 0`, the glass's direction has length 1, and when it refracts it goes through the surface (`dot(d, normal) <= 0`) |
| Materials.DielectricScatter | src/Material.hpp:65-85 | always scatters from `rec.p` with attenuation (1, 1, 1), along `DielectricDirection` of `unit(dir)` with the face's ratio; for `ir > 0` and a unit normal that direction has length 1 |
| Materials.EnteringDenserMediumRefracts | src/Material.hpp:69-81 | entering through the front face a medium with `ir >= 1`, for unit vectors, never takes the reflect branch |
| Materials.Scatter | src/Material.hpp:13-14 | the virtual `scatter` keeps each variant's contract: origin at `rec.p`; the attenuation is the albedo, or (1, 1, 1) for glass; Lambertian goes along `rec.normal` when `normal + randomUnit` is near zero and along that sum otherwise, and always scatters; Metal goes along `reflect(unit(dir), normal) + fuzz * sample` and scatters iff that leaves on the normal's side; Dielectric goes along `DielectricDirection` with the face's ratio and always scatters |
| Colors.Clamp | src/Color.hpp:20 | the result lies in [lo, hi], and equals `x`, `lo` or `hi` by case |
| Colors.Truncate | src/Color.hpp:20 | the largest integer not above `y`, capped at 255 |
| Colors.TruncateIsFloor | src/Color.hpp:20 | on [0, 256) the truncation is the floor |
| Colors.ByteValue | src/Color.hpp:20 | a quantised channel lies in [0, 255] and is the floor of `255.999 * clamp(x, 0, 0.999)` |
| Colors.ByteOf | src/Color.hpp:20 | the 32-bit word holds exactly the byte value |
| Colors.ToByte | src/Color.hpp:20-24 | a widened channel byte is below 256 |
| Colors.ChannelByteValue | src/Color.hpp:14-24 | a channel's word equals its averaged, clamped, truncated value and is below 256 |
| Colors.SampleScale | src/Color.hpp:15 | `1.0 / samplesPerPixel`; definition, no contract |
| Colors.Average | src/Color.hpp:16-18 | `x *= scale`; definition, no contract |
| Colors.ChannelValue | src/Color.hpp:15-20 | a channel's byte value; definition, no contract (see `ChannelByteValue`, `ChannelMonotone`, `DarkChannel`, `SaturatedChannel`) |
| Colors.ChannelByte | src/Color.hpp:15-22 | a channel's byte as a word; definition, no contract (see `ChannelByteValue`) |
| Colors.Rgba | src/Color.hpp:20-25 | the word of three bytes; definition, no contract (see `RgbaChannels`, `RgbaSum`) |
| Colors.ConvertRGBA | src/Color.hpp:9-27 | the result is the word built from the three channel bytes by the shifts and ors of lines 20-25 |
| Colors.RgbaChannels | src/Color.hpp:20-26 | unpacking gives R in the top byte, then G, then B, and 0 in the low byte |
| Colors.RgbaSum | src/Color.hpp:20-26 | the word is `R * 2^24 + G * 2^16 + B * 2^8` in 32-bit word arithmetic |
| Colors.ByteValueMonotone | src/Color.hpp:20-24 | quantisation is monotone |
| Colors.ChannelMonotone | src/Color.hpp:14-24 | for a positive sample count, a channel's byte never decreases as its sum grows |
| Colors.DarkChannel | src/Color.hpp:14-24 | for a positive sample count, a channel sum `<= 0` gives byte 0 |
| Colors.SaturatedChannel | src/Color.hpp:14-24 | for a positive sample count, a channel sum `>= 0.999 * samplesPerPixel` gives byte 255 |
| Cameras.Camera.constructor | src/Camera.hpp:10-21 | the default camera has origin (0,0,0), horizontal (32/9,0,0), vertical (0,2,0) and lower-left corner (-16/9,-1,-1) |
| Cameras.CornerComponents | src/Camera.hpp:19-20 | `origin - horizontal/2 - vertical/2 - (0,0,focalLength)`, component by component |
| Cameras.Camera.GetRay | src/Camera.hpp:23-26 | the ray leaves the camera origin and reaches viewport point (u, v) at parameter 1 |
| Cameras.DefaultCameraRay | src/Camera.hpp:23-26 | every default-camera ray starts at (0,0,0), with direction (-16/9 + 32/9 u, -1 + 2 v, -1), so `z == -1` |
| Cameras.DefaultCornerRays | src/Camera.hpp:19-26 | `getRay(0,0)` points at the lower-left corner, `getRay(1,1)` at (16/9,1,-1), and `getRay(0.5,0.5)` at (0,0,-1) |
| Cameras.GetRayAffine | src/Camera.hpp:23-26 | the same origin, and the direction of `getRay(u+du, v+dv)` is that of `getRay(u, v)` plus `du * horizontal + dv * vertical` |

## Left out

- Floating-point behaviour: rounding, NaN, infinity and the accuracy of `std::sqrt`. Every scalar is an exact real.
- Division by zero gives infinity or NaN in C++. The model instead requires a non-zero divisor:
  - a non-zero vector for `unit`, `Metal` and `Dielectric`;
  - a non-zero ray direction for `Sphere::hit`, and so for `HittableList::hit`, which passes the ray to each sphere (even for an empty list);
  - a non-zero radius;
  - a non-zero `samplesPerPixel`;
  - `t != 0` for `/` and `/=`;
  - a non-zero `ir` on a front-face `Dielectric` hit.
- The rejection loops `while (true)` end only almost surely. The model gives them a fuel bound on the number of candidates, and reports `None` when the fuel runs out.
- `randomUnitVec` of a zero sample divides by zero in the source. The model returns `None` for it.
- The three draws of `Vec3::random` (src/Vec3.hpp:104-105), and the two of a `randomInUnitDisk` candidate (src/Vec3.hpp:111), are evaluated in an order C++ leaves unspecified. The model takes them for x, y (and z) in that order.
- `Vec3::random`'s default arguments `min = 0`, `max = 1` (src/Vec3.hpp:103) are not modelled: `RandomVec` always takes both bounds, and the one call in these headers passes `(-1, 1)`.
- `Lambertian` and `Metal` receive their random sample as a parameter. `RandomUnitVec` and `RandomInUnitSphere` model how those samples are drawn.
- `Sphere::hit` computes `std::sqrt(discriminant)` and never uses it (src/Sphere.hpp:23), so the model omits that value.
- `HitRecord` leaves `t` and `frontFace` uninitialised. The model gives them 0 and false.
- The list holds spheres. A list nested inside a list, and other `Hittable`s, are not modelled, because these headers define no others.
- `operator[]` and `operator<<` (src/Vec3.hpp:21-22, 52-54) are left out: indexing is the field selectors, and stream output is I/O.
- `degToRad`, `pi` and `infinity` (src/Common.hpp) are left out. `tMax` is any real.
- PixelWindow, Main, Vec2 and Pixel are display, UI and plain data. They are not part of this model.
- Colors.RgbaSum: states the packed value in 32-bit word arithmetic, not as a mathematical integer.
- Colors.Truncate: the conversion `static_cast<uint8_t>` of a value in [0, 256) is written as a recursive truncation. `TruncateIsFloor` ties it to the floor.
- Cameras.Camera.constructor: forms the lower-left corner component by component. `CornerComponents` shows that this equals the vector expression of src/Camera.hpp:19-20.
