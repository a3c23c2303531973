/** Small facts about real multiplication and division that the solver does
    not find on its own when they appear inside larger terms. */
module RealFacts {

  lemma MulNonneg(a: real, b: real)
    requires 0.0 <= a && 0.0 <= b
    ensures 0.0 <= a * b
  {
  }

  lemma MulLeftMonotone(c: real, a: real, b: real)
    requires 0.0 <= c && a <= b
    ensures c * a <= c * b
  {
    MulNonneg(c, b - a);
    assert c * (b - a) == c * b - c * a;
  }

  lemma DivMonotone(a: real, b: real, d: real)
    requires 0.0 < d && a <= b
    ensures a / d <= b / d
  {
    assert b / d - a / d == (b - a) / d;
  }

  /** A fraction of a difference lies between zero and that difference. */
  lemma FractionBetween(perc: real, d: real)
    requires 0.0 <= perc <= 1.0
    ensures 0.0 <= d ==> 0.0 <= perc * d <= d
    ensures d <= 0.0 ==> d <= perc * d <= 0.0
  {
    if 0.0 <= d {
      MulNonneg(perc, d);
      MulNonneg(1.0 - perc, d);
      assert (1.0 - perc) * d == d - perc * d;
    } else {
      MulNonneg(perc, -d);
      MulNonneg(1.0 - perc, -d);
      assert (1.0 - perc) * (-d) == perc * d - d;
      assert perc * (-d) == -(perc * d);
    }
  }

  lemma DivSelf(d: real)
    requires d != 0.0
    ensures d / d == 1.0
  {
  }

  lemma DivAtLeastOne(a: real, d: real)
    ensures 0.0 < d <= a ==> 1.0 <= a / d
  {
  }

  lemma MulCancel(a: real, b: real, d: real)
    requires d != 0.0
    ensures a * d == b * d <==> a == b
  {
    assert a * d - b * d == (a - b) * d;
    ZeroProduct(a - b, d);
  }

  lemma ZeroProduct(a: real, b: real)
    ensures a * b == 0.0 <==> a == 0.0 || b == 0.0
  {
    if a != 0.0 && b != 0.0 {
      assert a * b / b == a;
    }
  }

  /** A part of a positive whole is a fraction in [0, 1] that scales back. */
  lemma FractionInRange(a: real, d: real)
    requires 0.0 < d && 0.0 <= a <= d
    ensures 0.0 <= a / d <= 1.0
    ensures a / d * d == a
  {
    DivMonotone(0.0, a, d);
    DivMonotone(a, d, d);
    DivSelf(d);
  }
}
