/** Facts about products and quotients of reals. */
module Reals {

  lemma PositiveProduct(x: real, y: real)
    requires x > 0.0 && y > 0.0
    ensures x * y > 0.0
  {
  }

  lemma NonnegativeProduct(x: real, y: real)
    requires x >= 0.0 && y >= 0.0
    ensures x * y >= 0.0
  {
  }

  lemma SquareNonnegative(x: real)
    ensures x * x >= 0.0
  {
    if x < 0.0 {
      NonnegativeProduct(-x, -x);
      assert (-x) * (-x) == x * x;
    } else {
      NonnegativeProduct(x, x);
    }
  }

  lemma ProductZero(x: real, w: real)
    requires w > 0.0
    ensures x * w == 0.0 <==> x == 0.0
  {
  }

  lemma NonnegativeFactor(x: real, w: real)
    requires w > 0.0 && x * w >= 0.0
    ensures x >= 0.0
  {
  }

  lemma ScaleMonotone(x: real, y: real, w: real)
    requires x <= y && w >= 0.0
    ensures x * w <= y * w
  {
  }

  lemma Distribute(x: real, a: real, b: real)
    ensures x * (a + b) == x * a + x * b
  {
  }

  lemma DivideThenMultiply(x: real, y: real)
    requires y > 0.0
    ensures x / y * y == x
  {
  }

  lemma DivideMonotone(x: real, y: real, w: real)
    requires w > 0.0 && x <= y
    ensures x / w <= y / w
  {
  }
}
