/**
 * A list of hittable objects and its closest-hit scan (src/HittableList.hpp).
 *
 * The only hittable these headers define besides the list itself is `Sphere`,
 * so the list holds spheres; a list nested inside a list is not modelled.
 */
module HittableLists {

  import opened Wrappers
  import opened Vectors
  import opened Rays
  import opened Hittables
  import opened Spheres

  /** Some object reports a hit in the window [tMin, tMax]. */
  predicate AnyHit(objects: seq<Sphere>, r: Ray, tMin: real, tMax: real, sqrt: real -> real)
    requires IsSqrt(sqrt)
    requires r.direction != Zero
  {
    exists j :: 0 <= j < |objects| && HitRoot(objects[j], r, tMin, tMax, sqrt).Some?
  }

  /**
   * Object `k` reports a hit at `t` in [tMin, tMax], no object reports an
   * earlier one, and every later object that reports a hit reports a
   * strictly later one (of several objects hit at the same `t`, the last
   * one in the list wins).
   */
  predicate IsClosestHit(objects: seq<Sphere>, k: int, t: real, r: Ray, tMin: real, tMax: real, sqrt: real -> real)
    requires IsSqrt(sqrt)
    requires r.direction != Zero
  {
    && 0 <= k < |objects|
    && HitRoot(objects[k], r, tMin, tMax, sqrt) == Some(t)
    && (forall j :: 0 <= j < |objects| && HitRoot(objects[j], r, tMin, tMax, sqrt).Some? ==>
          t <= HitRoot(objects[j], r, tMin, tMax, sqrt).value)
    && (forall j :: k < j < |objects| && HitRoot(objects[j], r, tMin, tMax, sqrt).Some? ==>
          t < HitRoot(objects[j], r, tMin, tMax, sqrt).value)
  }

  /** The closest hit is unique: its object and its parameter are determined by the list. */
  lemma ClosestHitUnique(objects: seq<Sphere>, k1: int, t1: real, k2: int, t2: real, r: Ray, tMin: real, tMax: real, sqrt: real -> real)
    requires IsSqrt(sqrt)
    requires r.direction != Zero
    requires IsClosestHit(objects, k1, t1, r, tMin, tMax, sqrt)
    requires IsClosestHit(objects, k2, t2, r, tMin, tMax, sqrt)
    ensures k1 == k2 && t1 == t2
  {
    assert t1 <= t2 && t2 <= t1;
  }

  /** No object among the first `i` reports a hit in [tMin, tMax]. */
  predicate NoHitBefore(objects: seq<Sphere>, i: int, r: Ray, tMin: real, tMax: real, sqrt: real -> real)
    requires IsSqrt(sqrt)
    requires r.direction != Zero
  {
    forall j :: 0 <= j < i && j < |objects| ==> HitRoot(objects[j], r, tMin, tMax, sqrt) == None
  }

  /** `IsClosestHit`, for the list cut down to its first `i` objects. */
  predicate ClosestBefore(objects: seq<Sphere>, i: int, k: int, t: real, r: Ray, tMin: real, tMax: real, sqrt: real -> real)
    requires IsSqrt(sqrt)
    requires r.direction != Zero
  {
    && 0 <= k < i <= |objects|
    && HitRoot(objects[k], r, tMin, tMax, sqrt) == Some(t)
    && (forall j :: 0 <= j < i && HitRoot(objects[j], r, tMin, tMax, sqrt).Some? ==>
          t <= HitRoot(objects[j], r, tMin, tMax, sqrt).value)
    && (forall j :: k < j < i && HitRoot(objects[j], r, tMin, tMax, sqrt).Some? ==>
          t < HitRoot(objects[j], r, tMin, tMax, sqrt).value)
  }

  /** The first object to report a hit is the closest among those scanned so far. */
  lemma FirstHitStep(objects: seq<Sphere>, i: int, t: real, r: Ray, tMin: real, tMax: real, sqrt: real -> real)
    requires IsSqrt(sqrt)
    requires r.direction != Zero
    requires 0 <= i < |objects|
    requires NoHitBefore(objects, i, r, tMin, tMax, sqrt)
    requires HitRoot(objects[i], r, tMin, tMax, sqrt) == Some(t)
    ensures ClosestBefore(objects, i + 1, i, t, r, tMin, tMax, sqrt)
  {
  }

  /**
   * A hit of object `i` in [tMin, t], where `t` is the closest hit so far,
   * becomes the new closest hit.
   */
  lemma CloserHitStep(objects: seq<Sphere>, i: int, k: int, t: real, t': real, r: Ray, tMin: real, tMax: real, sqrt: real -> real)
    requires IsSqrt(sqrt)
    requires r.direction != Zero
    requires i < |objects| && t <= tMax
    requires ClosestBefore(objects, i, k, t, r, tMin, tMax, sqrt)
    requires HitRoot(objects[i], r, tMin, t, sqrt) == Some(t')
    ensures ClosestBefore(objects, i + 1, i, t', r, tMin, tMax, sqrt)
  {
    HitRootShrinkWindow(objects[i], r, tMin, t, tMax, sqrt);
  }

  /** An object with no hit in [tMin, t] leaves the closest hit so far as it is. */
  lemma NoCloserHitStep(objects: seq<Sphere>, i: int, k: int, t: real, r: Ray, tMin: real, tMax: real, sqrt: real -> real)
    requires IsSqrt(sqrt)
    requires r.direction != Zero
    requires i < |objects| && t <= tMax
    requires ClosestBefore(objects, i, k, t, r, tMin, tMax, sqrt)
    requires HitRoot(objects[i], r, tMin, t, sqrt) == None
    ensures ClosestBefore(objects, i + 1, k, t, r, tMin, tMax, sqrt)
  {
    HitRootShrinkWindow(objects[i], r, tMin, t, tMax, sqrt);
  }

  class HittableList {
    var objects: seq<Sphere>

    /** `HittableList()`: the empty list. */
    constructor ()
      ensures objects == []
    {
      objects := [];
    }

    /** `HittableList(object)`: the list holding just that object, built by `add`. */
    constructor One(obj: Sphere)
      ensures objects == [obj]
    {
      objects := [];
      new;
      Add(obj);
    }

    /** `clear()`. */
    method Clear()
      modifies this
      ensures objects == []
    {
      objects := [];
    }

    /** `add(object)`: appends at the end and leaves the earlier entries as they were. */
    method Add(obj: Sphere)
      modifies this
      ensures objects == old(objects) + [obj]
    {
      objects := objects + [obj];
    }

    /**
     * `hit(r, tMin, tMax, rec)`: asks every object in turn for a hit in
     * [tMin, closestSoFar] and lowers `closestSoFar` to each hit found.
     * It returns true exactly when some object has a hit in [tMin, tMax];
     * `rec` then describes the closest hit, and is otherwise untouched.
     * Each sphere writes a scratch record whose material pointer is never
     * set, and that record is copied whole into `rec`, so after a hit
     * `rec.mat` is the null pointer.
     */
    method Hit(r: Ray, tMin: real, tMax: real, rec: HitRecord, sqrt: real -> real) returns (hitAnything: bool)
      requires IsSqrt(sqrt)
      requires r.direction != Zero
      requires forall j :: 0 <= j < |objects| ==> objects[j].radius != 0.0
      modifies rec
      ensures hitAnything <==> AnyHit(objects, r, tMin, tMax, sqrt)
      ensures !hitAnything ==> unchanged(rec)
      ensures hitAnything ==>
        exists k :: IsClosestHit(objects, k, rec.t, r, tMin, tMax, sqrt)
          && rec.normal == FaceNormal(r, OutwardNormal(objects[k], rec.p))
          && rec.frontFace == (Dot(r.direction, OutwardNormal(objects[k], rec.p)) < 0.0)
      ensures hitAnything ==> rec.p == At(r, rec.t) && rec.mat == None
    {
      var tempRec := new HitRecord();
      hitAnything := false;
      var closestSoFar := tMax;
      ghost var k := 0;

      for i := 0 to |objects|
        invariant tempRec.mat == None
        invariant !hitAnything ==> closestSoFar == tMax && unchanged(rec)
        invariant !hitAnything ==> NoHitBefore(objects, i, r, tMin, tMax, sqrt)
        invariant hitAnything ==> closestSoFar <= tMax && ClosestBefore(objects, i, k, closestSoFar, r, tMin, tMax, sqrt)
        invariant hitAnything ==> rec.t == closestSoFar && rec.p == At(r, rec.t) && rec.mat == None
        invariant hitAnything ==> rec.normal == FaceNormal(r, OutwardNormal(objects[k], rec.p))
        invariant hitAnything ==> rec.frontFace == (Dot(r.direction, OutwardNormal(objects[k], rec.p)) < 0.0)
      {
        var hit := Spheres.Hit(objects[i], r, tMin, closestSoFar, tempRec, sqrt);
        if hit {
          if hitAnything {
            CloserHitStep(objects, i, k, closestSoFar, tempRec.t, r, tMin, tMax, sqrt);
          } else {
            FirstHitStep(objects, i, tempRec.t, r, tMin, tMax, sqrt);
          }
          hitAnything := true;
          closestSoFar := tempRec.t;
          rec.CopyFrom(tempRec);
          k := i;
        } else if hitAnything {
          NoCloserHitStep(objects, i, k, closestSoFar, r, tMin, tMax, sqrt);
        }
      }
      if hitAnything {
        assert IsClosestHit(objects, k, rec.t, r, tMin, tMax, sqrt);
      }
    }
  }
}
