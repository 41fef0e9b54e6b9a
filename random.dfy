/**
 * The random source that the vector samplers draw from.
 *
 * The ray tracer calls `randomReal<T>(min, max)`, which these headers do not
 * declare.  It is modelled as an explicit stream of uniform draws: `draw(i)`
 * is the i-th value in [0, 1) and `next` the index of the next one to be
 * used.  A call consumes one draw and maps it affinely onto [min, max].
 */
module RandomSource {

  import opened RealArith

  datatype Rng = Rng(draw: nat -> real, next: nat)

  /** Every draw of the stream lies in [0, 1). */
  ghost predicate Uniform(g: Rng) {
    forall i: nat :: 0.0 <= g.draw(i) < 1.0
  }

  /** The stream after `n` further draws. */
  function Skip(g: Rng, n: nat): Rng {
    Rng(g.draw, g.next + n)
  }

  /** `randomReal(min, max)`: one draw, mapped onto [min, max]. */
  function RandomReal(g: Rng, min: real, max: real): (res: (real, Rng))
    requires Uniform(g)
    ensures min <= max ==> min <= res.0 <= max
    ensures res.1 == Skip(g, 1)
  {
    (ScaleDraw(g.draw(g.next), min, max), Skip(g, 1))
  }

  /** The affine map from a draw in [0, 1) onto [min, max]. */
  function ScaleDraw(u: real, min: real, max: real): (x: real)
    requires 0.0 <= u < 1.0
    ensures min <= max ==> min <= x <= max
  {
    ScaledDrawInRange(u, min, max);
    min + (max - min) * u
  }

  lemma ScaledDrawInRange(u: real, min: real, max: real)
    requires 0.0 <= u < 1.0
    ensures min <= max ==> min <= min + (max - min) * u <= max
  {
    if min <= max {
      MulNonNeg(max - min, u);
      MulMonotone(max - min, u, 1.0);
    }
  }
}
