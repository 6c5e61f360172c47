/** Comparing fractions of reals. */
module Fractions {

  lemma MulNonNegative(x: real, y: real)
    requires x >= 0.0 && y >= 0.0
    ensures x * y >= 0.0
  {
  }

  lemma FractionOrder(a: real, b: real, c: real, d: real)
    requires b > 0.0 && d > 0.0 && a * d <= c * b
    ensures a / b <= c / d
  {
    var x, y := a / b, c / d;
    assert a == x * b && c == y * d;
    if x > y {
      MulOrder(y, x, b, d);
    }
  }

  lemma MulOrder(y: real, x: real, b: real, d: real)
    requires x > y && b > 0.0 && d > 0.0
    ensures (x * b) * d > (y * d) * b
  {
    assert (x - y) * b > 0.0;
    assert ((x - y) * b) * d > 0.0;
  }

  lemma EqualFractions(a: real, b: real, c: real, d: real)
    requires b > 0.0 && d > 0.0 && a * d == c * b
    ensures a / b == c / d
  {
    FractionOrder(a, b, c, d);
    FractionOrder(c, d, a, b);
  }
}
