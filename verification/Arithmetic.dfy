/** Division with remainder and powers of two. */
module Arithmetic {

  lemma AtLeastOne(m: nat, d: int)
    ensures d >= 1 ==> m * d >= m
    ensures d <= 0 ==> m * d <= 0
  {
  }

  lemma Distributes(m: int, p: int, q: int)
    ensures m * (p - q) == m * p - m * q
  {
  }

  /** Quotient and remainder are unique. */
  lemma DivisionUnique(m: nat, p: int, s: nat, q: int, r: nat)
    requires s < m && r < m && m * p + s == m * q + r
    ensures p == q && s == r
  {
    Distributes(m, p, q);
    Distributes(m, q, p);
    AtLeastOne(m, p - q);
    AtLeastOne(m, q - p);
  }

  lemma ModOf(a: int, m: nat, q: int, r: nat)
    requires 0 < m && r < m && a == m * q + r
    ensures a % m == r && a / m == q
  {
    DivisionUnique(m, a / m, a % m, q, r);
  }

  lemma ModBack(k: nat, m: nat)
    requires 0 < m <= k
    ensures (k - m) % m == k % m
  {
    Distributes(m, k / m, 1);
    ModOf(k - m, m, k / m - 1, k % m);
  }

  /** The remainder of a successor. */
  lemma ModStep(a: nat, m: nat)
    requires m > 0
    ensures (a + 1) % m == if a % m + 1 == m then 0 else a % m + 1
  {
    var q, r := a / m, a % m;
    if r + 1 == m {
      Distributes(m, q, -1);
      ModOf(a + 1, m, q + 1, 0);
    } else {
      ModOf(a + 1, m, q, r + 1);
    }
  }

  function Pow2(n: nat): (p: nat)
    ensures p > 0
  {
    if n == 0 then 1 else 2 * Pow2(n - 1)
  }

  lemma {:induction false} Pow2Grows(m: nat, n: nat)
    requires m <= n
    ensures Pow2(m) <= Pow2(n)
  {
    if m < n {
      Pow2Grows(m, n - 1);
    }
  }
}
