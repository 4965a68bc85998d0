/** The few facts about products, quotients and remainders the proofs share. */
module Arith {
  lemma MulAtLeast(a: int, m: int)
    requires a >= 1 && m >= 0
    ensures a * m >= m
  {}

  lemma MulMonotone(a: int, b: int, m: int)
    requires a <= b && m >= 0
    ensures a * m <= b * m
  {}

  lemma MulMonotoneStrict(a: int, b: int, m: int)
    requires a < b && m > 0
    ensures a * m + m <= b * m
  {
    MulAtLeast(b - a, m);
    Distribute(b, a, m);
  }

  lemma Distribute(a: int, b: int, m: int)
    ensures (a - b) * m == a * m - b * m
    ensures (a + b) * m == a * m + b * m
  {}

  lemma Associate(a: int, b: int, c: int)
    ensures a * (b * c) == (a * b) * c
    ensures a * b == b * a
  {}

  lemma DivMod(k: int, m: int)
    requires m > 0
    ensures k == (k / m) * m + k % m && 0 <= k % m < m
  {}

  /** A quotient and a remainder are those of the division. */
  lemma DivModUnique(k: int, m: int, q: int, r: int)
    requires m > 0 && 0 <= r < m && k == q * m + r
    ensures k / m == q && k % m == r
  {
    DivMod(k, m);
    Distribute(k / m, q, m);
    if k / m > q {
      MulAtLeast(k / m - q, m);
    } else if k / m < q {
      Distribute(q, k / m, m);
      MulAtLeast(q - k / m, m);
    }
  }

  function Pow256(n: nat): (p: nat)
    ensures p > 0
  {
    if n == 0 then 1 else 256 * Pow256(n - 1)
  }

  function Quotient(a: nat, b: nat): nat
    requires b > 0
  {
    a / b
  }

  function Pow10(n: nat): (p: nat)
    ensures p > 0
  {
    if n == 0 then 1 else 10 * Pow10(n - 1)
  }

  lemma {:induction false} Pow10Add(m: nat, n: nat)
    ensures Pow10(m + n) == Pow10(m) * Pow10(n)
  {
    if m > 0 {
      Pow10Add(m - 1, n);
      Associate(10, Pow10(m - 1), Pow10(n));
    }
  }

  function Pow2(n: nat): (p: nat)
    ensures p > 0
  {
    if n == 0 then 1 else 2 * Pow2(n - 1)
  }

  lemma {:induction false} Pow2Add(m: nat, n: nat)
    ensures Pow2(m + n) == Pow2(m) * Pow2(n)
  {
    if m > 0 {
      Pow2Add(m - 1, n);
      Associate(2, Pow2(m - 1), Pow2(n));
    }
  }

  lemma {:induction false} Pow2Monotone(m: nat, n: nat)
    requires m <= n
    ensures Pow2(m) <= Pow2(n)
    decreases n - m
  {
    if m < n {
      Pow2Monotone(m + 1, n);
    }
  }

  lemma Pow2Below(m: nat, n: nat)
    requires Pow2(m) < Pow2(n)
    ensures m < n
  {
    if n <= m {
      Pow2Monotone(n, m);
    }
  }
}
