/**
 Elementary facts about products, ratios and convex combinations of reals in the unit interval
 that the solver does not find by itself. Qualities, drives and residuals are products of this
 kind.
 */
module RealFacts {

  lemma Product(a: real, b: real)
    requires 0.0 <= a && 0.0 <= b
    ensures 0.0 <= a * b
  {
  }

  lemma Swap(a: real, b: real, c: real)
    ensures a * (b * c) == b * (a * c) && a * (b * c) == (a * b) * c
  {
  }

  lemma Monotone(a: real, b: real, c: real)
    requires 0.0 <= a && b <= c
    ensures a * b <= a * c
  {
    Product(a, c - b);
    assert a * (c - b) == a * c - a * b;
  }

  lemma Ratio(a: real, b: real)
    requires 0.0 <= a <= b && 0.0 < b
    ensures 0.0 <= a / b <= 1.0
  {
  }

  lemma UnitProduct(a: real, b: real)
    requires 0.0 <= a <= 1.0 && 0.0 <= b <= 1.0
    ensures 0.0 <= a * b <= 1.0 && a * b <= a && a * b <= b
    ensures a * b == 1.0 <==> a == 1.0 && b == 1.0
  {
    Product(a, b);
    Monotone(a, b, 1.0);
    Monotone(b, a, 1.0);
  }

  /** Moving a fraction of the way to a target stays in the unit interval. */
  lemma Convex(s: real, f: real, y: real)
    requires 0.0 <= s <= 1.0 && 0.0 <= f <= 1.0 && 0.0 <= y <= 1.0
    ensures 0.0 <= s + f * (y - s) <= 1.0
  {
    Product(1.0 - f, s);
    Product(f, y);
    Product(1.0 - f, 1.0 - s);
    Product(f, 1.0 - y);
    assert s + f * (y - s) == (1.0 - f) * s + f * y;
    assert 1.0 - (s + f * (y - s)) == (1.0 - f) * (1.0 - s) + f * (1.0 - y);
  }
}
