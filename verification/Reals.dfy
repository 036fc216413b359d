/** Elementary facts about real products and quotients, kept apart for the solver's sake. */
module Reals {

  lemma QuotientTimes(a: real, b: real)
    requires b != 0.0
    ensures a / b * b == a
  {}

  lemma ProductNonNegative(x: real, y: real)
    requires x >= 0.0 && y >= 0.0
    ensures x * y >= 0.0
  {}

  lemma ProductPositive(x: real, y: real)
    requires x > 0.0 && y > 0.0
    ensures x * y > 0.0
  {}

  lemma QuotientNonNegative(x: real, y: real)
    requires x >= 0.0 && y > 0.0
    ensures x / y >= 0.0
  {}

  lemma QuotientPositive(x: real, y: real)
    requires x > 0.0 && y > 0.0
    ensures x / y > 0.0
  {}

  lemma FactorPositive(x: real, y: real)
    requires x * y > 0.0 && y > 0.0
    ensures x > 0.0
  {}

  lemma Cancel(x: real, y: real, z: real)
    requires x * z == y * z && z != 0.0
    ensures x == y
  {
    assert (x - y) * z == 0.0;
  }

  lemma QuotientOfDifference(x: real, y: real, z: real)
    requires z != 0.0
    ensures (x - y) / z == x / z - y / z
  {
    QuotientTimes(x - y, z);
    QuotientTimes(x, z);
    QuotientTimes(y, z);
    Cancel((x - y) / z, x / z - y / z, z);
  }

  lemma Distribute(x: real, y: real, z: real)
    ensures x * (y + z) == x * y + x * z
  {}

  lemma OneMore(x: real, n: nat)
    ensures x * (n + 1) as real == x * n as real + x
  {
    Distribute(x, n as real, 1.0);
  }

  lemma ProductMonotone(x: real, y: real, z: real)
    requires x <= y && z >= 0.0
    ensures x * z <= y * z
  {
    ProductNonNegative(y - x, z);
  }

  lemma QuotientAntitone(t: real, x: real, y: real)
    requires 0.0 < x <= y && t >= 0.0
    ensures t / y <= t / x
  {
    var atX, atY := t / x, t / y;
    QuotientTimes(t, x);
    QuotientTimes(t, y);
    QuotientNonNegative(t, x);
    ProductMonotone(x, y, atX);
    if atX < atY {
      ProductPositive(atY - atX, y);
    }
  }
}
