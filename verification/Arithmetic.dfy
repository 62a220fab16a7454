/** Facts about multiples that page sizes and region limits need. */
module Arithmetic {

  function Min(a: nat, b: nat): nat {
    if a <= b then a else b
  }

  lemma ModStep(a: nat, p: nat)
    requires p > 0
    ensures (a + p) % p == a % p
  {
    var q, r := a / p, a % p;
    assert a + p == (q + 1) * p + r;
    ModUnique(q + 1, r, p);
  }

  lemma ModUnique(q: nat, r: nat, p: nat)
    requires p > 0 && r < p
    ensures (q * p + r) % p == r
  {
    var n := q * p + r;
    assert n == (n / p) * p + n % p;
    MulOrder(q + 1, n / p, p);
    MulOrder(n / p + 1, q, p);
  }

  lemma MulOrder(a: nat, b: nat, p: nat)
    ensures a <= b ==> a * p <= b * p
  {
  }

  /** Two multiples of p that differ, differ by at least p. */
  lemma MultiplesApart(a: nat, b: nat, p: nat)
    requires p > 0 && a % p == 0 && b % p == 0 && a < b
    ensures a + p <= b
  {
    assert a == (a / p) * p && b == (b / p) * p;
    MulOrder(b / p, a / p, p);
    MulOrder(a / p + 1, b / p, p);
  }
}
