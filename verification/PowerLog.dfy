/** The exponent formula of m9_el_compute: 152170 * q >> 16 is floor (log2 5^q) wherever the
    two convergents of log2 5 that bracket it decide. */
module PowerLog {
  import opened Arith

  function Pow(b: nat, n: nat): (p: nat)
    ensures b > 0 ==> p > 0
  {
    if n == 0 then 1 else b * Pow(b, n - 1)
  }

  lemma {:induction false} PowAdd(b: nat, m: nat, n: nat)
    ensures Pow(b, m + n) == Pow(b, m) * Pow(b, n)
  {
    if m > 0 {
      PowAdd(b, m - 1, n);
      Associate(b, Pow(b, m - 1), Pow(b, n));
    }
  }

  lemma {:induction false} PowTimes(b: nat, m: nat, n: nat)
    ensures Pow(b, m * n) == Pow(Pow(b, m), n)
  {
    if n > 0 {
      PowTimes(b, m, n - 1);
      assert m * n == m + m * (n - 1);
      PowAdd(b, m, m * (n - 1));
    }
  }

  lemma {:induction false} PowMonotoneBase(a: nat, b: nat, n: nat)
    requires a <= b
    ensures Pow(a, n) <= Pow(b, n)
  {
    if n > 0 {
      PowMonotoneBase(a, b, n - 1);
      MulMonotone(a, b, Pow(a, n - 1));
      MulMonotone(Pow(a, n - 1), Pow(b, n - 1), b);
      Associate(b, Pow(a, n - 1), 1);
      Associate(b, Pow(b, n - 1), 1);
    }
  }

  lemma {:induction false} PowStrictBase(a: nat, b: nat, n: nat)
    requires a < b && n > 0
    ensures Pow(a, n) < Pow(b, n)
  {
    PowMonotoneBase(a, b, n - 1);
    MulMonotone(Pow(a, n - 1), Pow(b, n - 1), a);
    Associate(a, Pow(a, n - 1), 1);
    Associate(a, Pow(b, n - 1), 1);
    MulMonotoneStrict(a, b, Pow(b, n - 1));
    assert Pow(b, n - 1) > 0;
  }

  lemma {:induction false} PowMonotone(b: nat, m: nat, n: nat)
    requires b > 0 && m <= n
    ensures Pow(b, m) <= Pow(b, n)
    decreases n - m
  {
    if m < n {
      PowMonotone(b, m + 1, n);
      MulAtLeast(b, Pow(b, m));
    }
  }

  /** 5^146 is just above 2^339, and 5^351 just below 2^815. */
  lemma Convergents()
    ensures Pow(2, 339) <= Pow(5, 146) && Pow(5, 351) < Pow(2, 815)
  {
    hide Pow;
    SmallPowers();
    PowAdd(5, 7, 7);
    PowAdd(5, 14, 14);
    PowAdd(5, 28, 28);
    PowAdd(5, 56, 56);
    PowAdd(5, 112, 28);
    PowAdd(5, 140, 6);
    PowAdd(5, 112, 112);
    PowAdd(5, 224, 112);
    PowAdd(5, 336, 14);
    PowAdd(5, 350, 1);
    PowAdd(2, 8, 8);
    PowAdd(2, 16, 16);
    PowAdd(2, 32, 32);
    PowAdd(2, 64, 64);
    PowAdd(2, 128, 128);
    PowAdd(2, 256, 64);
    PowAdd(2, 320, 16);
    PowAdd(2, 336, 3);
    PowAdd(2, 256, 256);
    PowAdd(2, 512, 256);
    PowAdd(2, 768, 32);
    PowAdd(2, 800, 8);
    PowAdd(2, 808, 7);
  }

  lemma SmallPowers()
    ensures Pow(5, 1) == 5 && Pow(5, 6) == 15625 && Pow(5, 7) == 78125
    ensures Pow(2, 3) == 8 && Pow(2, 7) == 128 && Pow(2, 8) == 256
  {}

  /** floor (log2 5^q), as the code has it. */
  function Log5(q: nat): nat {
    152170 * q / 65536
  }

  lemma LogLinear(q: nat)
    requires q <= 342
    ensures 146 * Log5(q) <= 339 * q && 815 * q <= 351 * (Log5(q) + 1)
  {}

  /** 2^b <= 5^q < 2^(b + 1) for b = Log5(q). */
  lemma LogExact(q: nat)
    requires q <= 342
    ensures Pow(2, Log5(q)) <= Pow(5, q) < Pow(2, Log5(q) + 1)
  {
    hide Pow, Log5;
    var b := Log5(q);
    LogLinear(q);
    Convergents();
    if q == 0 {
      LogOfZero();
      return;
    }
    PowMonotoneBase(Pow(2, 339), Pow(5, 146), q);
    PowTimes(2, 339, q);
    PowTimes(5, 146, q);
    PowTimes(5, q, 146);
    PowTimes(2, b, 146);
    PowMonotone(2, b * 146, 339 * q);
    assert 146 * q == q * 146;
    if Pow(5, q) < Pow(2, b) {
      PowStrictBase(Pow(5, q), Pow(2, b), 146);
    }
    PowStrictBase(Pow(5, 351), Pow(2, 815), q);
    PowTimes(5, 351, q);
    PowTimes(2, 815, q);
    PowTimes(5, q, 351);
    PowTimes(2, b + 1, 351);
    PowMonotone(2, 815 * q, (b + 1) * 351);
    assert 351 * q == q * 351;
    if Pow(2, b + 1) <= Pow(5, q) {
      PowMonotoneBase(Pow(2, b + 1), Pow(5, q), 351);
    }
  }

  lemma LogOfZero()
    ensures Log5(0) == 0 && Pow(2, 0) == 1 && Pow(5, 0) == 1 && Pow(2, 1) == 2
  {}

  lemma {:induction false} Pow2IsPow(n: nat)
    ensures Pow2(n) == Pow(2, n)
  {
    if n > 0 {
      Pow2IsPow(n - 1);
    }
  }
}
