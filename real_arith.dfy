/** Small facts of ordered-field arithmetic that the solver does not find by itself. */
module RealArith {

  /** The identity; see `Square`. */
  function Copy(a: real): real {
    a
  }

  /**
   * `a * a` together with its sign.  The solver rewrites a literal `a * a`
   * in a way that loses sign facts about it, so the product is formed with
   * the second factor written as `Copy(a)`, and order facts about squares
   * are stated on `Square` terms.
   */
  function Square(a: real): (r: real)
    ensures r == a * a
    ensures 0.0 <= r
    ensures a != 0.0 ==> 0.0 < r
  {
    if 0.0 < a then
      StrictPositive(a, Copy(a));
      a * Copy(a)
    else if a == 0.0 then
      0.0
    else
      StrictPositive(-a, -Copy(a));
      a * Copy(a)
  }

  lemma MulNonNeg(a: real, b: real)
    requires 0.0 <= a && 0.0 <= b
    ensures 0.0 <= a * b
  {
  }

  lemma StrictPositive(a: real, b: real)
    requires 0.0 < a && 0.0 < b
    ensures 0.0 < a * b
  {
  }

  lemma MulMonotone(a: real, b: real, c: real)
    requires 0.0 <= a && b <= c
    ensures a * b <= a * c
  {
    MulNonNeg(a, c - b);
  }

  /** Squaring is strictly increasing on the non-negative reals. */
  lemma SquareLess(b: real, e: real)
    requires 0.0 <= b < e
    ensures Square(b) < Square(e)
  {
    MulMonotone(b, Copy(b), e);
    StrictPositive(e - b, Copy(e));
  }
}
