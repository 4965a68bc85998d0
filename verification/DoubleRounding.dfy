/** Rounding to the nearest binary64 significand, ties to even (section 4.3.1 of
    IEEE 754-2008): a definition by cutting to 54 bits, and the proof that it is the nearest. */
module DoubleRounding {
  import opened Arith

  /** A normal double's magnitude, m * 2^e with 2^52 <= m < 2^53. */
  datatype Double = Double(m: nat, e: int)

  function Bits(x: nat): (n: nat)
    ensures x < Pow2(n)
    ensures x > 0 ==> n > 0 && Pow2(n - 1) <= x
  {
    if x == 0 then 0
    else
      var n := Bits(x / 2) + 1;
      assert x == 1 ==> x / 2 == 0;
      n
  }

  lemma BitsUnique(x: nat, n: nat)
    requires n > 0 && Pow2(n - 1) <= x < Pow2(n)
    ensures Bits(x) == n
  {
    Pow2Below(Bits(x) - 1, n);
    Pow2Below(n - 1, Bits(x));
  }

  /** The upper 53 of 54 bits, rounded on the last and on whether more follows. */
  function HalfEven(m54: nat, exact: bool): nat {
    if m54 % 2 == 0 then m54 / 2
    else if exact && m54 / 2 % 2 == 0 then m54 / 2
    else m54 / 2 + 1
  }

  /** A significand that rounded up to 2^53 is halved. */
  function Normal(m: nat, e: int): Double {
    if m == Pow2(53) then Double(Pow2(52), e + 1) else Double(m, e)
  }

  /** The scale that makes room for 54 bits and a remainder below any positive integer. */
  const SCALE: nat := 256

  /** The double nearest a positive integer. */
  function Nearest(x: nat): Double
    requires x > 0
  {
    var p := x * Pow2(SCALE);
    ScaledLong(x);
    var s := Bits(p) - 54;
    Normal(HalfEven(p / Pow2(s), p % Pow2(s) == 0), s + 1 - SCALE)
  }

  lemma ScaledLong(x: nat)
    requires x > 0
    ensures Bits(x * Pow2(SCALE)) > SCALE
  {
    hide Pow2, Bits;
    MulAtLeast(x, Pow2(SCALE));
    Pow2Below(SCALE, Bits(x * Pow2(SCALE)));
  }

  // ---- the definition is the nearest, and even on a tie ----

  function Abs(a: int): nat {
    if a < 0 then -a else a
  }

  /** d, scaled by 2^n to an integer. */
  function Scaled(d: Double, n: nat): nat
    requires d.e + n >= 0
  {
    d.m * Pow2(d.e + n)
  }

  function Distance(x: nat, d: Double, n: nat): nat
    requires d.e + n >= 0
  {
    Abs(x * Pow2(n) - Scaled(d, n))
  }

  /** d is no farther from x than c; a tie between different values went to the even one. */
  predicate NoFarther(x: nat, d: Double, c: Double, n: nat)
    requires d.e + n >= 0 && c.e + n >= 0
  {
    Distance(x, d, n) <= Distance(x, c, n)
    && (Distance(x, d, n) == Distance(x, c, n) && Scaled(d, n) != Scaled(c, n) ==> d.m % 2 == 0)
  }

  lemma FarMultiple(delta: int, s: nat, a: int)
    requires a != 0 && Abs(delta) <= s
    ensures Abs(delta + a * (2 * s)) >= 2 * s - Abs(delta)
  {
    if a > 0 {
      MulAtLeast(a, 2 * s);
    } else {
      MulAtLeast(-a, 2 * s);
      assert (-a) * (2 * s) == -(a * (2 * s));
    }
  }

  /** Among the multiples of 2 * s, HalfEven picks the nearest to p = m54 * s + r. */
  lemma NearestMultiple(p: nat, s: nat, m54: nat, r: nat, k: int)
    requires r < s && p == m54 * s + r
    ensures var m := HalfEven(m54, r == 0);
            Abs(p - m * (2 * s)) <= Abs(p - k * (2 * s))
            && (Abs(p - m * (2 * s)) == Abs(p - k * (2 * s)) && k != m ==> m % 2 == 0)
            && Abs(p - m * (2 * s)) <= s
  {
    var m := HalfEven(m54, r == 0);
    var delta := p - m * (2 * s);
    Offset(m54, m, s);
    if m54 % 2 == 0 {
      assert m54 - 2 * m == 0;
    } else if m == m54 / 2 {
      assert m54 - 2 * m == 1;
    } else {
      assert m54 - 2 * m == -1;
    }
    assert Abs(delta) <= s;
    if k != m {
      FarMultiple(delta, s, m - k);
      Distribute(m, k, 2 * s);
    }
  }

  lemma Offset(m54: nat, m: nat, s: nat)
    ensures m54 * s == m * (2 * s) + (m54 - 2 * m) * s
    ensures m54 - 2 * m == 1 ==> (m54 - 2 * m) * s == s
    ensures m54 - 2 * m == -1 ==> (m54 - 2 * m) * s + s == 0
    ensures m54 - 2 * m == 0 ==> (m54 - 2 * m) * s == 0
  {
    Distribute(2 * m, m54 - 2 * m, s);
    Associate(m, 2, s);
  }

  /** A double of a smaller exponent is below the binade p lies in. */
  lemma SmallerExponent(m: nat, low: nat, s: nat)
    requires m < Pow2(53) && 2 * low <= 2 * s
    ensures m * low <= Pow2(52) * (2 * s)
  {
    MulMonotone(m, Pow2(53), low);
    MulMonotone(low, s, Pow2(53));
    Associate(low, Pow2(53), 1);
    Associate(s, Pow2(53), 1);
    Associate(Pow2(52), 2, s);
  }

  lemma AbsTimes(a: int, j: nat)
    requires j > 0
    ensures Abs(a * j) == Abs(a) * j
  {
    if a < 0 {
      assert a * j == -((-a) * j);
      MulAtLeast(-a, j);
    } else if a > 0 {
      MulAtLeast(a, j);
    }
  }

  /** Comparing distances is the same at any scale. */
  lemma TimesOrder(a: nat, b: nat, j: nat)
    requires j > 0
    ensures a <= b ==> a * j <= b * j
    ensures a * j == b * j ==> a == b
  {
    if a < b {
      MulMonotoneStrict(a, b, j);
    } else if b < a {
      MulMonotoneStrict(b, a, j);
    }
  }

  /** The cut: 54 bits, the rest, and where they stand. */
  lemma Cut(x: nat) returns (p: nat, s: nat, m54: nat, r: nat)
    requires x > 0
    ensures p == x * Pow2(SCALE) && s == Bits(p) - 54
    ensures m54 == p / Pow2(s) && r == p % Pow2(s) && p == m54 * Pow2(s) + r && r < Pow2(s)
    ensures Pow2(53) <= m54 < Pow2(54)
  {
    hide Pow2, Bits;
    p := x * Pow2(SCALE);
    ScaledLong(x);
    s := Bits(p) - 54;
    CutBits(p, s);
    m54, r := p / Pow2(s), p % Pow2(s);
    DivMod(p, Pow2(s));
  }

  lemma CutBits(p: nat, s: nat)
    requires p > 0 && s + 54 == Bits(p)
    ensures Pow2(53) <= p / Pow2(s) < Pow2(54)
  {
    hide Pow2;
    Pow2Add(53, s);
    Pow2Add(54, s);
    DivBetween(p, Pow2(s), Pow2(53), Pow2(54));
  }

  lemma DivBetween(p: nat, s: nat, lo: nat, hi: nat)
    requires s > 0 && lo * s <= p < hi * s
    ensures lo <= p / s < hi
  {
    DivMod(p, s);
    var q := p / s;
    if q < lo {
      MulMonotoneStrict(q, lo, s);
    }
    if q >= hi {
      MulMonotone(hi, q, s);
    }
  }

  lemma HalfEvenRange(m54: nat, exact: bool)
    requires Pow2(53) <= m54 < Pow2(54)
    ensures Pow2(52) <= HalfEven(m54, exact) <= Pow2(53)
  {
    hide Pow2;
    Powers53();
  }

  /** Nearest's significand is normal, and its value the multiple HalfEven picks. */
  lemma NearestValue(x: nat, n: nat, p: nat, s: nat, m54: nat, r: nat)
    requires x > 0 && n >= SCALE
    requires p == x * Pow2(SCALE) && s == Bits(p) - 54 && m54 == p / Pow2(s) && r == p % Pow2(s)
    requires Pow2(53) <= m54 < Pow2(54)
    ensures var d := Nearest(x);
            Pow2(52) <= d.m < Pow2(53) && d.e + n >= 0
            && Scaled(d, n) == HalfEven(m54, r == 0) * (2 * Pow2(s)) * Pow2(n - SCALE)
            && (HalfEven(m54, r == 0) % 2 == 0 ==> d.m % 2 == 0)
  {
    hide Pow2;
    HalfEvenRange(m54, r == 0);
    var m, j := HalfEven(m54, r == 0), n - SCALE;
    var d := Nearest(x);
    assert d == Normal(m, s + 1 - SCALE);
    Pow2Add(s + 1, j);
    Associate(m, 2 * Pow2(s), Pow2(j));
    Powers53();
    Pow2Step(s);
    if m == Pow2(53) {
      Pow2Step(s + 1 + j);
      Associate(Pow2(52), 2, Pow2(s + 1 + j));
    }
  }

  lemma Pow2Step(n: nat)
    ensures Pow2(n + 1) == 2 * Pow2(n)
  {}

  lemma Powers53()
    ensures Pow2(54) == 2 * Pow2(53) && Pow2(53) == 2 * Pow2(52) && Pow2(52) % 2 == 0
  {
    hide Pow2;
    Pow2Step(53);
    Pow2Step(52);
    Pow2Step(51);
  }

  /** A competitor's value against a multiple of the ulp: equal to one, or no more than the
      binade's first. */
  lemma Competitor(c: Double, n: nat, s: nat) returns (k: nat)
    requires c.m < Pow2(53) && n >= SCALE && c.e + n >= 0
    ensures var v := k * (2 * Pow2(s)) * Pow2(n - SCALE);
            Scaled(c, n) == v || (Scaled(c, n) <= v && k == Pow2(52))
  {
    hide Pow2;
    var j := n - SCALE;
    var ulp := s + 1 + j;
    Pow2Add(s + 1, j);
    Pow2Step(s);
    if c.e + n >= ulp {
      k := c.m * Pow2(c.e + n - ulp);
      Pow2Add(c.e + n - ulp, ulp);
      Associate(c.m, Pow2(c.e + n - ulp), Pow2(ulp));
      Associate(k, 2 * Pow2(s), Pow2(j));
    } else {
      k := Pow2(52);
      Pow2Monotone(c.e + n + 1, ulp);
      Pow2Step(c.e + n);
      Associate(2, Pow2(s), Pow2(j));
      SmallerExponent(c.m, Pow2(c.e + n), Pow2(s) * Pow2(j));
      Associate(k, 2 * Pow2(s), Pow2(j));
    }
  }

  lemma Scaling(p: int, a: int, j: nat)
    requires j > 0
    ensures Abs(p * j - a * j) == Abs(p - a) * j
  {
    Distribute(p, a, j);
    AbsTimes(p - a, j);
  }

  /** The comparison, scaled: dv and cv are the values compared with p * j. */
  lemma CompareScaled(p: nat, m: nat, k: nat, two: nat, j: nat, dv: nat, cv: nat)
    requires j > 0 && dv == m * two * j
    requires cv == k * two * j || (cv <= k * two * j && k * two <= p)
    requires Abs(p - m * two) <= Abs(p - k * two)
    requires Abs(p - m * two) == Abs(p - k * two) && k != m ==> m % 2 == 0
    ensures Abs(p * j - dv) <= Abs(p * j - cv)
    ensures Abs(p * j - dv) == Abs(p * j - cv) && dv != cv ==> m % 2 == 0
  {
    Scaling(p, m * two, j);
    Scaling(p, k * two, j);
    TimesOrder(Abs(p - m * two), Abs(p - k * two), j);
    if cv != k * two * j {
      MulMonotone(k * two, p, j);
    }
  }

  /** Nearest(x) is as near to x as any double of any exponent, and even on a tie. */
  lemma NearestIsNearest(x: nat, c: Double, n: nat)
    requires x > 0 && c.m < Pow2(53) && n >= SCALE && c.e + n >= 0
    ensures Pow2(52) <= Nearest(x).m < Pow2(53) && Nearest(x).e + n >= 0
    ensures NoFarther(x, Nearest(x), c, n)
  {
    hide Pow2, Nearest, HalfEven, Bits, Abs, Scaled;
    var p, s, m54, r := Cut(x);
    NearestValue(x, n, p, s, m54, r);
    var k := Competitor(c, n, s);
    var m, two, j := HalfEven(m54, r == 0), 2 * Pow2(s), Pow2(n - SCALE);
    NearestMultiple(p, Pow2(s), m54, r, k);
    Pow2Add(SCALE, n - SCALE);
    Associate(x, Pow2(SCALE), j);
    Pow2Below53(p, s, m54, r);
    CompareScaled(p, m, k, two, j, Scaled(Nearest(x), n), Scaled(c, n));
  }

  lemma Pow2Below53(p: nat, s: nat, m54: nat, r: nat)
    requires p == m54 * Pow2(s) + r && Pow2(53) <= m54
    ensures Pow2(52) * (2 * Pow2(s)) <= p
  {
    hide Pow2;
    MulMonotone(Pow2(53), m54, Pow2(s));
    Powers53();
    Associate(Pow2(52), 2, Pow2(s));
  }
}
