/** The few facts about products and quotients that the other modules need. */
module Arithmetic {

  lemma MulStrict(m: int, n: int, a: nat)
    ensures m < n ==> m * a + a <= n * a
  {
    var d := n - 1 - m;
    assert d >= 0 ==> d * a >= 0;
    assert n * a == m * a + a + d * a;
  }

  lemma MulMonotone(m: int, n: int, a: nat)
    ensures m <= n ==> m * a <= n * a
  {
    var d := n - m;
    assert d >= 0 ==> d * a >= 0;
    assert n * a == m * a + d * a;
  }

  lemma QuotientRemainder(x: nat, p: nat)
    requires p > 0
    ensures x == x / p * p + x % p && x % p < p
  {
  }

  lemma QuotientUnique(x: nat, p: nat, q: nat, r: nat)
    requires x == q * p + r && r < p
    ensures x / p == q && x % p == r
  {
    assert x == (x / p) * p + x % p;
    MulStrict(q, x / p, p);
    MulStrict(x / p, q, p);
  }

  /** Counting on from a reduced position. */
  lemma RemainderOfSum(k: nat, i: nat, n: nat)
    requires n > 0
    ensures (k % n + i) % n == (k + i) % n
  {
    var q, r := (k % n + i) / n, (k % n + i) % n;
    assert k + i == (k / n) * n + (q * n + r);
    assert (k / n) * n + q * n == (k / n + q) * n;
    QuotientUnique(k + i, n, k / n + q, r);
  }

  lemma QuotientBounds(x: nat, p: nat)
    requires p > 0
    ensures x / p * p <= x < (x / p + 1) * p
  {
  }
}
