/** The C math library (`sqrt`, `pow`, `log`) is code outside this model. Its functions are
    passed in as a value of type `MathLib`; every property proved about a formula that calls
    them assumes only what is stated here, as a precondition. */
module Libm {

  datatype MathLib = MathLib(sqrt: real -> real, pow: (real, real) -> real, log: real -> real)

  /** `sqrt` returns the non-negative square root of a non-negative argument. */
  ghost predicate SqrtSound(lib: MathLib)
  {
    forall x: real :: 0.0 <= x ==> 0.0 <= lib.sqrt(x) && lib.sqrt(x) * lib.sqrt(x) == x
  }

  /** `pow(x, e)` is strictly increasing in `x` over the non-negative reals, for exponent `e`. */
  ghost predicate PowIncreasing(lib: MathLib, e: real)
  {
    forall x: real, y: real :: 0.0 <= x < y ==> lib.pow(x, e) < lib.pow(y, e)
  }

  /** `pow` of a non-negative base is non-negative, for every exponent. */
  ghost predicate PowNonNegative(lib: MathLib)
  {
    forall x: real, e: real :: 0.0 <= x ==> 0.0 <= lib.pow(x, e)
  }

  /** A non-negative number whose square is `x` is the square root of `x`. */
  lemma SqrtOfSquare(lib: MathLib, x: real, y: real)
    requires SqrtSound(lib)
    requires 0.0 <= y && y * y == x
    ensures lib.sqrt(x) == y
  {
    var s := lib.sqrt(x);
    assert 0.0 <= s && s * s == y * y;
    if s < y {
      SquareStrictlyIncreasing(s, y);
      assert false;
    } else if y < s {
      SquareStrictlyIncreasing(y, s);
      assert false;
    }
  }

  lemma SquareStrictlyIncreasing(s: real, y: real)
    requires 0.0 <= s < y
    ensures s * s < y * y
  {
    var d := y - s;
    var p := s * d;
    var q := y * d;
    assert 0.0 <= p;
    assert 0.0 < q;
    assert y * y - s * s == p + q;
  }
}
