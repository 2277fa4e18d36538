/** Quotient and remainder of a number written as a multiple and a rest. */
module Division {

  lemma Remainder(m: nat, q: nat, r: nat)
    requires r < m
    ensures (m * q + r) % m == r
  {
    var n := m * q + r;
    var e := q - n / m;
    assert m * e == n % m - r;
  }

  lemma Quotient(m: nat, q: nat, r: nat)
    requires r < m
    ensures (m * q + r) / m == q
  {
    var n := m * q + r;
    var e := q - n / m;
    assert m * e == n % m - r;
  }

  lemma AddMultiple(m: nat, k: nat, n: nat)
    requires m > 0
    ensures (m * k + n) % m == n % m
  {
    var q, r := n / m, n % m;
    Distribute(m, k, q);
    assert m * k + n == m * (k + q) + r;
    Remainder(m, k + q, r);
  }

  lemma Distribute(m: nat, k: nat, q: nat)
    ensures m * (k + q) == m * k + m * q
  {
  }
}
