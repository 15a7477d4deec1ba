/** The laws of products and quotients that the other modules use. */
module Arithmetic {

  // --------------------------------------------------------------- integers

  lemma MulMonotone(a: int, b: int, c: nat)
    requires a <= b
    ensures a * c <= b * c
  {
  }

  /** A quotient is below a bound exactly if the dividend is below that many divisors. */
  lemma QuotientBelow(a: nat, d: nat, bound: nat)
    requires d > 0
    ensures a / d < bound <==> a < bound * d
  {
    var q := a / d;
    assert a == q * d + a % d;
    if q < bound {
      MulMonotone(q + 1, bound, d);
    } else {
      MulMonotone(bound, q, d);
    }
  }

  lemma QuotientIs(a: nat, d: nat, q: nat, r: nat)
    requires a == q * d + r && r < d
    ensures a / d == q
  {
    var other := a / d;
    assert a == other * d + a % d;
    if other < q {
      MulMonotone(other + 1, q, d);
    } else if other > q {
      MulMonotone(q + 1, other, d);
    }
  }

  lemma DivideInTurn(a: nat, p: nat)
    requires p > 0
    ensures a / 10 / p == a / (10 * p)
  {
    var q, r := a / 10 / p, a / 10 % p;
    assert a / 10 == q * p + r;
    assert a == 10 * (q * p + r) + a % 10;
    assert 10 * (q * p) == q * (10 * p);
    QuotientIs(a, 10 * p, q, 10 * r + a % 10);
  }

  // ------------------------------------------------------------------ reals

  lemma ProductAssociate(a: real, b: real, c: real)
    ensures a * b * c == a * (b * c)
  {
  }

  lemma Regroup(a: real, f: real, p: real)
    ensures a * (f * p) == a * p * f
  {
  }

  lemma ProductAtLeast(a: real, b: real, x: real, y: real)
    requires a >= x >= 0.0 && b >= y >= 0.0
    ensures a * b >= x * y
  {
    assert (a - x) * b >= 0.0;
    assert x * (b - y) >= 0.0;
    assert a * b - x * y == (a - x) * b + x * (b - y);
  }

  lemma CrossMultiply(a: real, p: real, b: real)
    requires p > 0.0
    ensures a / p <= b <==> a <= b * p
  {
    var q := a / p;
    assert q * p == a;
    if q <= b {
      assert (b - q) * p >= 0.0;
    } else {
      assert (q - b) * p > 0.0;
    }
  }

  lemma DivideTwice(g: real, p: real, f: real)
    requires p >= 1.0 && f >= 1.0
    ensures f * p > 0.0 && g / p / f == g / (f * p)
    ensures g >= 0.0 ==> g / p >= 0.0
  {
    ProductAtLeast(f, p, 1.0, 1.0);
    var q := g / p / f;
    assert q * f == g / p;
    assert q * f * p == g;
    ProductAssociate(q, f, p);
    assert q * (f * p) == g;
  }

  lemma DivideShrinks(a: real, f: real)
    requires a >= 0.0 && f >= 1.0
    ensures 0.0 <= a / f <= a
  {
    var q := a / f;
    assert q * f == a;
    if q < 0.0 { assert q * f < 0.0; }
    ProductAtLeast(q, f, q, 1.0);
  }
}
