// Products and quotients of unknowns, in the few forms the proofs need.
module Arithmetic {

  lemma MulNext(c: nat, k: int)
    ensures c * (k + 1) == c * k + c
  {
  }

  lemma MulMonotone(c: nat, a: int, b: int)
    requires a < b
    ensures c * a + c <= c * b
  {
    var d := b - a - 1;
    assert b == a + 1 + d;
    assert c * (a + 1 + d) == c * a + c + c * d;
  }

  lemma MulSplit(m: nat, a: nat, b: nat)
    requires a <= b
    ensures m * (b - a) + m * a == m * b
  {
  }

  /** Quotient and remainder are unique. */
  lemma QuotientRemainder(c: nat, q: int, r: nat)
    requires r < c
    ensures (c * q + r) / c == q && (c * q + r) % c == r
  {
    var x := c * q + r;
    var d := x / c;
    assert x == c * d + x % c;
    if d > q {
      MulMonotone(c, q, d);
    } else if d < q {
      MulMonotone(c, d, q);
    }
  }

  /** Multiples do not change a remainder. */
  lemma SameRemainder(c: nat, x: int, k: int)
    requires c > 0
    ensures (x + c * k) % c == x % c
  {
    var q, r := x / c, x % c;
    assert x == c * q + r;
    assert c * (q + k) == c * q + c * k;
    QuotientRemainder(c, q + k, r);
  }

  lemma MultipleRemainder(c: nat, n: nat)
    requires c > 0
    ensures (c * n) % c == 0
  {
    QuotientRemainder(c, n, 0);
  }
}
