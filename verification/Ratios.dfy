/** Products and quotients of reals, one fact at a time. */
module Ratios {
  lemma ProductPositive(x: real, y: real)
    requires x > 0.0 && y > 0.0
    ensures x * y > 0.0
  {
  }

  lemma ProductNegative(x: real, y: real)
    requires x < 0.0 && y > 0.0
    ensures x * y < 0.0
  {
    ProductPositive(-x, y);
    assert (-x) * y == -(x * y);
  }

  lemma SquareSign(x: real, y: real)
    requires x == y
    ensures x * y >= 0.0 && (x != 0.0 ==> x * y > 0.0)
  {
    if x > 0.0 {
      ProductPositive(x, y);
    } else if x < 0.0 {
      ProductPositive(-x, -y);
      assert (-x) * (-y) == x * y;
    } else {
      assert 0.0 * y == 0.0;
    }
  }

  lemma Distributes(x: real, y: real, z: real)
    ensures (x + y) * z == x * z + y * z
  {
  }

  lemma DistributesLeft(x: real, y: real, z: real)
    ensures x * (y + z) == x * y + x * z
  {
  }

  lemma Associates(x: real, y: real, z: real)
    ensures x * y * z == x * (y * z)
  {
  }

  lemma Divided(x: real, y: real, m: real)
    requires m > 0.0 && x < y
    ensures x / m < y / m
  {
    ProductPositive(y - x, 1.0 / m);
    assert (y - x) * (1.0 / m) == y / m - x / m;
  }

  lemma Quotient(x: real, m: real, q: real)
    requires m > 0.0 && q == x / m
    ensures q * m == x
  {
  }

  lemma Cancels(x: real, m: real)
    requires m > 0.0
    ensures x * m / m == x
  {
  }

  lemma DividedWithin(low: real, x: real, high: real, m: real)
    requires m > 0.0 && low * m <= x <= high * m
    ensures low <= x / m <= high
  {
    Cancels(low, m);
    Cancels(high, m);
    if low * m < x {
      Divided(low * m, x, m);
    }
    if x < high * m {
      Divided(x, high * m, m);
    }
  }

  lemma MovedTerm(before: real, after: real, value: real, other: real, c: real)
    requires after == before + c * value
    ensures after * other == before * other + c * (value * other)
  {
    assert after * other == (before + c * value) * other;
    Distributes(before, c * value, other);
    Associates(c, value, other);
  }

  lemma MovesBy(before: real, after: real, gain: real, size: real)
    requires after == before + gain * size && size > 0.0
    ensures gain > 0.0 ==> after > before
    ensures gain < 0.0 ==> after < before
  {
    if gain > 0.0 {
      ProductPositive(gain, size);
    } else if gain < 0.0 {
      ProductNegative(gain, size);
    }
  }

  lemma SumMoves(a: real, b: real, r: real, x: real, y: real, z: real, c: real)
    requires a == b + c * r && x == y + c * z
    ensures a + x == b + y + c * (r + z)
  {
    DistributesLeft(c, r, z);
  }
}
