/** Integer division facts that the solver does not find by itself. */
module Arithmetic {

  /** Dividing by 256 and then by b is dividing by 256 * b. */
  lemma DivDiv256(u: nat, b: nat)
    requires b > 0
    ensures (u / 256) / b == u / (256 * b)
  {
    var v := u / 256;
    var q, r := v / b, v % b;
    assert v == b * q + r;
    MulAssoc(256, b, q);
    QuotientUnique(u, 256 * b, q, 256 * r + u % 256);
  }

  lemma MulAssoc(a: int, b: int, c: int)
    ensures (a * b) * c == a * (b * c)
  {
  }

  lemma QuotientUnique(u: int, d: int, q: int, r: int)
    requires d > 0 && u == d * q + r && 0 <= r < d
    ensures u / d == q
  {
    var p := u / d;
    var gap := p - q;
    assert d * gap == r - u % d by {
      assert u == d * p + u % d;
      assert d * gap == d * p - d * q;
    }
    if gap >= 1 {
      MulAtLeast(d, gap);
    } else if gap <= -1 {
      MulAtLeast(d, -gap);
    }
  }

  lemma MulAtLeast(d: int, n: int)
    requires d > 0 && n >= 1
    ensures d * n >= d && d * -n == -(d * n)
  {
  }

  lemma DivStep(a: int, b: int)
    requires b > 0 && a >= b
    ensures a / b == (a - b) / b + 1
  {
    var q, r := a / b, a % b;
    assert a - b == b * (q - 1) + r by {
      assert a == b * q + r;
      assert b * (q - 1) == b * q - b;
    }
    QuotientUnique(a - b, b, q - 1, r);
  }

  lemma DivNonNegative(a: int, b: int)
    requires a >= 0 && b > 0
    ensures a / b >= 0
  {
  }

  /** Adding a multiple of the divisor adds to the quotient. */
  lemma DivAddMultiple(x: int, d: int, q: int)
    requires d > 0
    ensures (x + d * q) / d == x / d + q
  {
    var p, r := x / d, x % d;
    assert x + d * q == d * (p + q) + r by {
      assert x == d * p + r;
      assert d * (p + q) == d * p + d * q;
    }
    QuotientUnique(x + d * q, d, p + q, r);
  }

  lemma ModAddMultiple(y: int, n: int)
    ensures (y + 256 * n) % 256 == y % 256
  {
  }
}
