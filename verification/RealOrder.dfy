/** Order facts about products and quotients of reals. */
module RealOrder {

  lemma ProductMonotone(a: real, b: real, x: real, y: real)
    requires 0.0 <= a <= b && 0.0 <= x <= y
    ensures 0.0 <= a * x <= b * y
  {
    assert a * x <= a * y <= b * y;
  }

  lemma QuotientMonotone(a: real, b: real, x: real, y: real)
    requires 0.0 <= a <= b && x >= y > 0.0
    ensures 0.0 <= a / x <= b / y
  {
    assert a / x * x == a && b / y * y == b;
    assert b / y * x >= b / y * y;
  }
}
