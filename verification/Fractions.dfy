/** How real quotients and products compare. */
module Fractions {

  /** Scaling by a positive factor keeps the order. */
  lemma ScalingOrders(a: real, b: real, c: real)
    requires c > 0.0
    ensures a < b <==> a * c < b * c
  {
  }

  lemma QuotientsOrdered(x: real, y: real, b: real)
    requires x <= y && b > 0.0
    ensures x / b <= y / b
  {
    assert y / b - x / b == (y - x) / b;
  }

  /** A part over the whole. */
  lemma FractionOf(x: real, y: real)
    requires 0.0 <= x <= y && 0.0 < y
    ensures 0.0 <= x / y <= 1.0
    ensures x / y == 1.0 <==> x == y
    ensures x / y == 0.0 <==> x == 0.0
  {
    var z := x / y;
    assert z * y == x;
    ScalingOrders(z, 1.0, y);
    ScalingOrders(1.0, z, y);
    ScalingOrders(z, 0.0, y);
    ScalingOrders(0.0, z, y);
  }

  lemma FractionTimes(x: real, y: real)
    requires y != 0.0
    ensures x / y * y == x
  {
  }

  lemma FractionSign(x: real, y: real)
    requires x >= 0.0 && y > 0.0
    ensures x / y > 0.0 <==> x > 0.0
  {
    ScalingOrders(0.0, x / y, y);
  }
}
