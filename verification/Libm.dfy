/**
 The parts of the C mathematics library the program calls. They are values handed to the
 model: the only law it ever uses is that `Sqrt` takes square roots, which `Sound` states.
 `double` is modelled as `real`, so nothing here speaks about rounding.
 */
module Libm {

  datatype Libm = Libm(Sqrt: real -> real, Acos: real -> real, DegreesPerRadian: real) {

    /** Every non-negative real has a non-negative square root, and `Sqrt` returns it. */
    ghost predicate Sound() {
      forall x: real {:trigger Sqrt(x)} :: x >= 0.0 ==> Sqrt(x) >= 0.0 && Sqrt(x) * Sqrt(x) == x
    }
  }

  /** A product of named factors. Lemmas that pass products around state them with `Times`, so
      that equal factors give equal products without polynomial arithmetic. */
  function Times(x: real, y: real): real {
    x * y
  }

  lemma Commutes(x: real, y: real)
    ensures Times(x, y) == Times(y, x)
  {
  }

  lemma ProductIsTimes(x: real, y: real, m: real)
    requires m == x * y
    ensures m == Times(x, y)
  {
  }

  lemma ZeroProduct(x: real, y: real)
    requires x * y == 0.0
    ensures x == 0.0 || y == 0.0
  {
  }

  lemma CancelFactor(x: real, y: real, k: real)
    requires k != 0.0 && x * k == y * k
    ensures x == y
  {
    ZeroProduct(x - y, k);
  }

  lemma SquareNonNegative(x: real)
    ensures x * x >= 0.0
    ensures x * x == 0.0 ==> x == 0.0
  {
    if x * x == 0.0 {
      ZeroProduct(x, x);
    }
  }

  lemma SquaresAreInjective(x: real, y: real)
    requires x >= 0.0 && y >= 0.0
    requires x * x == y * y
    ensures x == y
  {
    ZeroProduct(x - y, x + y);
  }

  /** Square roots are unique, so `Sqrt` undoes squaring of non-negative numbers. */
  lemma SqrtOfSquare(lib: Libm, x: real)
    requires lib.Sound() && x >= 0.0
    ensures lib.Sqrt(x * x) == x
  {
    SquareNonNegative(x);
    SquaresAreInjective(lib.Sqrt(x * x), x);
  }

  lemma SqrtSign(lib: Libm, x: real)
    requires lib.Sound() && x >= 0.0
    ensures lib.Sqrt(x) >= 0.0 && lib.Sqrt(x) * lib.Sqrt(x) == x
    ensures lib.Sqrt(x) == 0.0 <==> x == 0.0
  {
    SquareNonNegative(lib.Sqrt(x));
  }
}
