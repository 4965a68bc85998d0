/** A decimal to the nearest double: m9_el_compute (runtime/m9rt.c:1965-2044), exact wherever
    the table holds all of 5^q (runtime/m9powfive.h:352-407). */
module EiselLemire {
  import opened Wrappers
  import opened Arith
  import opened PowerLog
  import opened DoubleRounding

  const TWO64: nat := 0x1_0000_0000_0000_0000
  const POW5_LOW: int := -342
  const POW5_HIGH: int := 308

  /** What the code takes from outside: the table of powers, and the processor's double
      multiply and divide of two whole numbers. */
  datatype Machine = Machine(pow5: int -> (nat, nat), multiply: (nat, nat) -> nat, divide: (nat, nat) -> nat)

  /** The largest q whose power of five fits the table's 128 bits. */
  const EXACT_MAX: int := 55

  /** 5^q shifted up to the top of 128 bits. */
  function Entry(q: nat): nat
    requires q <= 55
  {
    Pow(5, q) * Pow2(EntryShift(q))
  }

  function EntryShift(q: nat): nat
    requires q <= 55
  {
    127 - Log5(q)
  }

  ghost predicate TableExact(pow5: int -> (nat, nat)) {
    forall q {:trigger pow5(q)} :: 0 <= q <= EXACT_MAX ==>
      pow5(q).0 < TWO64 && pow5(q).1 < TWO64 && pow5(q).0 * TWO64 + pow5(q).1 == Entry(q)
  }

  /** The bits of a finite, normal double. */
  function BitsOf(neg: bool, d: Double): int {
    (d.m - Pow2(52)) + (d.e + 1075) * Pow2(52) + (if neg then Pow2(63) else 0)
  }

  /** A whole number up to 2^53 and a power of ten up to 10^22 are doubles exactly, so one
      multiply rounds their product once (section 4.3.1 of IEEE 754-2008). */
  ghost predicate MultiplyRounds(multiply: (nat, nat) -> nat) {
    forall w, q: nat {:trigger multiply(w, Pow10(q))} :: 0 < w <= Pow2(53) && q <= 22 ==>
      w * Pow10(q) > 0 && multiply(w, Pow10(q)) == BitsOf(false, Nearest(w * Pow10(q)))
  }

  // ---- the two-word product ----

  /** hi and lo after the second multiply has been taken where the first cannot decide. */
  function Product(w: nat, c0: nat, c1: nat): (r: (nat, nat)) {
    var p := w * c0;
    var hi, lo := p / TWO64, p % TWO64;
    if hi % 512 == 511 then
      var hi2 := w * c1 / TWO64;
      var sum := (lo + hi2) % TWO64;
      (if sum < hi2 then (hi + 1) % TWO64 else hi, sum)
    else (hi, lo)
  }

  lemma DivDiv(f: nat, a: nat, b: nat)
    requires a > 0 && b > 0
    ensures a * b > 0 && f / a / b == f / (a * b)
  {
    MulAtLeast(a, b);
    var q := f / a;
    DivMod(f, a);
    DivMod(q, b);
    var h := q / b;
    Distribute(h * b, q % b, a);
    Associate(h, b, a);
    Associate(a, b, 1);
    MulMonotone(q % b, b - 1, a);
    Distribute(b, 1, a);
    DivModUnique(f, a * b, h, q % b * a + f % a);
  }

  lemma Carry(hi: nat, lo: nat, hi2: nat)
    requires lo < TWO64 && hi2 < TWO64
    ensures var t := hi * TWO64 + lo + hi2;
            t / TWO64 == hi + (if lo + hi2 >= TWO64 then 1 else 0) && t % TWO64 == (lo + hi2) % TWO64
    ensures (lo + hi2) % TWO64 < hi2 <==> lo + hi2 >= TWO64
  {}

  lemma WholeProduct(w: nat, c0: nat, c1: nat)
    ensures w * (c0 * TWO64 + c1) / TWO64 == w * c0 + w * c1 / TWO64
    ensures c1 == 0 ==> w * c1 / TWO64 == 0
  {
    Distribute(c0 * TWO64, c1, w);
    Associate(w, c0, TWO64);
    Associate(w, c0 * TWO64, 1);
    Associate(w, c1, 1);
    Associate(w, c0 * TWO64 + c1, 1);
    var r := w * c1;
    DivMod(r, TWO64);
    Distribute(w * c0, r / TWO64, TWO64);
    DivModUnique(w * (c0 * TWO64 + c1), TWO64, w * c0 + r / TWO64, r % TWO64);
  }

  /** The carry, or none, leaves all but nine bits of hi alone when they are not all ones. */
  lemma TopOf(hi: nat, lo: nat, hi2: nat, t: nat)
    requires lo < TWO64 && hi2 < TWO64 && t == hi * TWO64 + lo + hi2
    ensures hi % 512 != 511 ==> t / TWO64 / 512 == hi / 512
    ensures t / TWO64 == if (lo + hi2) % TWO64 < hi2 then hi + 1 else hi
    ensures t % TWO64 == (lo + hi2) % TWO64
  {
    Carry(hi, lo, hi2);
  }

  /** The product by two words is the whole product's top, exactly or but for its nine low bits. */
  lemma ProductExact(w: nat, c0: nat, c1: nat)
    requires w < TWO64 && c0 < TWO64 && c1 < TWO64
    ensures var f := w * (c0 * TWO64 + c1);
            var (hi, lo) := Product(w, c0, c1);
            var top := f / (TWO64 * TWO64);
            top / 512 == hi / 512
            && (c1 == 0 ==> hi == top && lo == f / TWO64 % TWO64)
            && top < TWO64
  {
    var p, f := w * c0, w * (c0 * TWO64 + c1);
    var hi, lo, hi2 := p / TWO64, p % TWO64, w * c1 / TWO64;
    WholeProduct(w, c0, c1);
    DivDiv(f, TWO64, TWO64);
    HighHalfSmall(w, c1);
    TopSmall(w, c0, c1);
    ProductParts(w, c0, c1, p, hi, lo, hi2, f / TWO64);
  }

  lemma ProductParts(w: nat, c0: nat, c1: nat, p: nat, hi: nat, lo: nat, hi2: nat, t: nat)
    requires p == w * c0 && hi == p / TWO64 && lo == p % TWO64 && hi2 == w * c1 / TWO64 && hi2 < TWO64
    requires t == p + hi2 && t / TWO64 < TWO64 && (c1 == 0 ==> hi2 == 0)
    ensures var r := Product(w, c0, c1);
            t / TWO64 / 512 == r.0 / 512 && (c1 == 0 ==> r.0 == t / TWO64 && r.1 == t % TWO64)
  {
    DivMod(p, TWO64);
    TopOf(hi, lo, hi2, t);
    var r := Product(w, c0, c1);
    if hi % 512 == 511 {
      assert r.1 == (lo + hi2) % TWO64;
      assert r.0 == t / TWO64;
    } else {
      assert r == (hi, lo);
    }
  }

  lemma HighHalfSmall(w: nat, c: nat)
    requires w < TWO64 && c < TWO64
    ensures w * c / TWO64 < TWO64
  {
    MulMonotone(w, TWO64 - 1, c);
    MulMonotone(c, TWO64 - 1, TWO64 - 1);
    Associate(w, c, 1);
    DivMod(w * c, TWO64);
  }

  lemma TopSmall(w: nat, c0: nat, c1: nat)
    requires w < TWO64 && c0 < TWO64 && c1 < TWO64
    ensures w * (c0 * TWO64 + c1) / (TWO64 * TWO64) < TWO64
  {
    var c, f := c0 * TWO64 + c1, w * (c0 * TWO64 + c1);
    MulMonotone(w, TWO64 - 1, c);
    MulMonotoneStrict(w, TWO64, c + 1);
    DivMod(f, TWO64 * TWO64);
    var t := f / (TWO64 * TWO64);
    if t >= TWO64 {
      MulMonotone(TWO64, t, TWO64 * TWO64);
    }
  }

  // ---- what the exact product is ----

  /** The whole product of the shifted significand and the entry, and where it stands. */
  lemma WholeProductRange(w: nat, lz: nat, q: nat)
    requires 0 < w < TWO64 && lz == 64 - Bits(w) && q <= 55
    ensures var f := w * Pow2(lz) * Entry(q);
            Pow2(63) <= w * Pow2(lz) < Pow2(64) && Pow2(127) <= Entry(q) < Pow2(128)
            && Pow2(190) <= f < Pow2(192)
  {
    hide Pow2, Pow, Log5, Bits;
    WordBits(w);
    Normalized(w, lz);
    EntryRange(q);
    Pow2Add(63, 127);
    Pow2Add(64, 128);
    var v, e := w * Pow2(lz), Entry(q);
    MulMonotone(Pow2(63), v, Pow2(127));
    MulMonotone(Pow2(127), e, v);
    Associate(v, Pow2(127), 1);
    Associate(v, e, 1);
    MulMonotoneStrict(v, Pow2(64), e);
    MulMonotone(e, Pow2(128), Pow2(64));
    Associate(Pow2(64), e, 1);
    Associate(Pow2(64), Pow2(128), 1);
  }

  lemma WordBits(w: nat)
    requires 0 < w < TWO64
    ensures 0 < Bits(w) <= 64
  {
    Pow64();
    hide Pow2;
    Pow2Below(Bits(w) - 1, 64);
  }

  lemma Pow8()
    ensures Pow2(8) == 256
  {}

  lemma Pow64()
    ensures Pow2(64) == TWO64
  {
    hide Pow2;
    Pow8();
    Pow2Add(8, 8);
    Pow2Add(16, 16);
    Pow2Add(32, 32);
  }

  lemma Normalized(w: nat, lz: nat)
    requires w > 0 && Bits(w) + lz == 64
    ensures Pow2(63) <= w * Pow2(lz) < Pow2(64)
  {
    hide Pow2;
    Pow2Add(Bits(w) - 1, lz);
    Pow2Add(Bits(w), lz);
    MulMonotone(Pow2(Bits(w) - 1), w, Pow2(lz));
    MulMonotoneStrict(w, Pow2(Bits(w)), Pow2(lz));
  }

  lemma EntryRange(q: nat)
    requires q <= 55
    ensures Pow2(127) <= Entry(q) < Pow2(128)
  {
    hide Pow2, Pow;
    LogExact(q);
    var b, l := Log5(q), EntryShift(q);
    Pow2IsPow(b);
    Pow2IsPow(b + 1);
    Pow2Add(b, l);
    Pow2Add(b + 1, l);
    MulMonotone(Pow2(b), Pow(5, q), Pow2(l));
    MulMonotoneStrict(Pow(5, q), Pow2(b + 1), Pow2(l));
  }

  /** The value rounded, at Nearest's scale, is the product shifted up. */
  lemma Rescaled(w: nat, lz: nat, q: nat)
    requires 0 < w && lz <= 64 && q <= 55
    ensures w * Pow10(q) * Pow2(SCALE) == w * Pow2(lz) * Entry(q) * Pow2(q + SCALE - lz - EntryShift(q))
  {
    hide Pow2, Pow, Pow10, Log5;
    LogSmall(q);
    var l := EntryShift(q);
    TenIsTwoFive(q);
    var k := q + SCALE - lz - l;
    Pow2Add(lz, l);
    Pow2Add(lz + l, k);
    Pow2Add(q, SCALE);
    Regroup(w, Pow(5, q), Pow2(q), Pow2(SCALE), Pow2(lz), Pow2(l), Pow2(k));
  }

  lemma LogSmall(q: nat)
    requires q <= 55
    ensures Log5(q) <= 127
  {}

  lemma Regroup(w: nat, five: nat, tq: nat, ts: nat, tz: nat, tl: nat, tk: nat)
    requires tq * ts == tz * tl * tk
    ensures w * (five * tq) * ts == w * tz * (five * tl) * tk
  {
    assert w * (five * tq) * ts == (w * five) * (tq * ts);
    assert w * tz * (five * tl) * tk == (w * five) * (tz * tl * tk);
  }

  lemma {:induction false} TenIsTwoFive(q: nat)
    ensures Pow10(q) == Pow(5, q) * Pow2(q)
  {
    if q > 0 {
      TenIsTwoFive(q - 1);
      assert 10 * (Pow(5, q - 1) * Pow2(q - 1)) == (5 * Pow(5, q - 1)) * (2 * Pow2(q - 1));
    }
  }

  // ---- the 54 bits, and the tie ----

  /** A product's length, and Nearest's cut of it, from its top bit. */
  lemma CutOfProduct(f: nat, ub: nat, k: nat)
    requires ub <= 1 && Pow2(190 + ub) <= f < Pow2(191 + ub)
    ensures Bits(f * Pow2(k)) == 191 + ub + k
    ensures f * Pow2(k) / Pow2(137 + ub + k) == Top54(f, ub)
    ensures f * Pow2(k) % Pow2(137 + ub + k) == 0 <==> Below54(f, ub) == 0
  {
    hide Pow2, Bits;
    Pow2Add(190 + ub, k);
    Pow2Add(191 + ub, k);
    MulMonotone(Pow2(190 + ub), f, Pow2(k));
    MulMonotoneStrict(f, Pow2(191 + ub), Pow2(k));
    BitsUnique(f * Pow2(k), 191 + ub + k);
    Pow2Add(137 + ub, k);
    DivScaled(f, Pow2(137 + ub), Pow2(k));
  }

  lemma DivScaled(f: nat, a: nat, j: nat)
    requires a > 0 && j > 0
    ensures a * j > 0 && f * j / (a * j) == f / a && f * j % (a * j) == f % a * j
    ensures f % a * j == 0 <==> f % a == 0
  {
    MulAtLeast(a, j);
    DivMod(f, a);
    Distribute(f / a * a, f % a, j);
    Associate(f / a, a, j);
    MulMonotoneStrict(f % a, a, j);
    DivModUnique(f * j, a * j, f / a, f % a * j);
    if f % a > 0 {
      MulAtLeast(f % a, j);
    }
  }

  lemma OddTimesOdd(x: nat, y: nat)
    ensures (2 * x + 1) * (2 * y + 1) % 2 == 1
  {
    assert (2 * x + 1) * (2 * y + 1) == 2 * (2 * (x * y) + x + y) + 1;
  }

  lemma Parity(a: nat, b: nat)
    requires a * b % 2 == 0 && a % 2 == 1
    ensures b % 2 == 0
  {
    OddTimesOdd(a / 2, b / 2);
    assert a == 2 * (a / 2) + 1;
  }

  lemma {:induction false} PowFiveOdd(q: nat)
    ensures Pow(5, q) % 2 == 1
  {
    if q > 0 {
      PowFiveOdd(q - 1);
    }
  }

  /** Five's power divides what is left when two's is taken out. */
  lemma {:induction false} FiveDivides(q: nat, w: nat, m: nat, j: nat) returns (t: nat)
    requires w * Pow(5, q) == m * Pow2(j)
    ensures t * Pow(5, q) == m
  {
    hide Pow;
    if j == 0 {
      t := w;
    } else {
      PowFiveOdd(q);
      assert m * Pow2(j) == 2 * (m * Pow2(j - 1));
      Associate(w, Pow(5, q), 1);
      Parity(Pow(5, q), w);
      assert w == w / 2 * 2;
      assert w * Pow(5, q) == 2 * (w / 2 * Pow(5, q));
      t := FiveDivides(q, w / 2, m, j - 1);
    }
  }

  /** An exact tie needs a power of five below 2^54. */
  lemma NoTieAbove(w: nat, lz: nat, q: nat, m54: nat, j: nat)
    requires w > 0 && q <= 55 && m54 % 2 == 1 && m54 < Pow2(54)
    requires w * Pow2(lz) * Entry(q) == m54 * Pow2(j)
    ensures q <= 23
  {
    hide Pow2, Pow, Log5;
    var a := lz + EntryShift(q);
    Pow2Add(lz, EntryShift(q));
    Regroup2(w, Pow2(lz), Pow(5, q), Pow2(EntryShift(q)));
    var b := w * Pow(5, q);
    if a > j {
      Pow2Add(a - j, j);
      Associate(b, Pow2(a - j), Pow2(j));
      Cancel(b * Pow2(a - j), m54, Pow2(j));
      EvenPow(a - j);
      EvenTimes(b, Pow2(a - j));
      assert false;
    }
    Pow2Add(j - a, a);
    Associate(m54, Pow2(j - a), Pow2(a));
    Cancel(b, m54 * Pow2(j - a), Pow2(a));
    var t := FiveDivides(q, w, m54, j - a);
    if t == 0 {
      assert false;
    }
    MulAtLeast(t, Pow(5, q));
    LogExact(q);
    Pow2IsPow(Log5(q));
    Pow2Below(Log5(q), 54);
    LogOf24(q);
  }

  lemma LogOf24(q: nat)
    requires Log5(q) < 54
    ensures q <= 23
  {}

  lemma EvenPow(n: nat)
    requires n > 0
    ensures Pow2(n) % 2 == 0
  {}

  lemma EvenTimes(a: nat, b: nat)
    requires b % 2 == 0
    ensures a * b % 2 == 0
  {
    assert a * b == 2 * (a * (b / 2));
  }

  lemma Cancel(a: nat, b: nat, j: nat)
    requires j > 0 && a * j == b * j
    ensures a == b
  {
    TimesOrder(a, b, j);
  }

  lemma Regroup2(w: nat, tz: nat, five: nat, tl: nat)
    ensures w * tz * (five * tl) == w * five * (tz * tl)
  {}

  // ---- the code's 54 bits are the product's ----

  /** x >> n */
  function Shr(x: nat, n: nat): nat {
    Quotient(x, Pow2(n))
  }

  /** The 54 bits of a product whose upper bit is ub, and what lies below them. */
  function Top54(f: nat, ub: nat): nat {
    Quotient(f, Pow2(137 + ub))
  }

  function Below54(f: nat, ub: nat): nat {
    f % Pow2(137 + ub)
  }

  /** The top word's upper bit and 54 bits, from a word equal but for its nine low bits. */
  lemma TopBits(hi: nat, top: nat)
    requires top / 512 == hi / 512 && Pow2(62) <= top < TWO64
    ensures var ub := Shr(hi, 63);
            ub <= 1 && Pow2(62 + ub) <= top < Pow2(63 + ub) && Shr(hi, ub + 9) == Shr(top, ub + 9)
  {
    LiteralPowers();
    hide Pow2;
    DivDiv(hi, 512, Pow2(54));
    DivDiv(top, 512, Pow2(54));
    var ub := Shr(hi, 63);
    assert ub == Shr(top, 63) == top / 0x8000_0000_0000_0000;
    if ub == 1 {
      DivDiv(hi, 512, 2);
      DivDiv(top, 512, 2);
    }
  }

  lemma LiteralPowers()
    ensures Pow2(9) == 512 && Pow2(10) == 1024 && 512 * Pow2(54) == Pow2(63)
    ensures Pow2(62) == 0x4000_0000_0000_0000 && Pow2(63) == 0x8000_0000_0000_0000 && Pow2(64) == TWO64
  {
    assert Pow2(8) == 256 && Pow2(9) == 512 && Pow2(10) == 1024;
    hide Pow2;
    Pow64();
    Pow2Add(9, 54);
    HalvePow(63);
    HalvePow(62);
  }

  lemma HalvePow(n: nat)
    ensures Pow2(n + 1) == 2 * Pow2(n)
  {}

  /** From the top word to the whole product. */
  lemma FromTop(f: nat, ub: nat)
    requires ub <= 1
    ensures Shr(f / (TWO64 * TWO64), ub + 9) == Top54(f, ub)
  {
    Pow64();
    hide Pow2;
    Pow2Add(64, 64);
    Pow2Add(128, ub + 9);
    DivDiv(f, TWO64 * TWO64, Pow2(ub + 9));
  }

  lemma TopRange(f: nat)
    requires Pow2(190) <= f < Pow2(192)
    ensures Pow2(62) <= f / (TWO64 * TWO64) < TWO64
  {
    Pow64();
    hide Pow2;
    Pow2Add(64, 64);
    Pow2Add(62, 128);
    Pow2Add(64, 128);
    DivBetween(f, TWO64 * TWO64, Pow2(62), Pow2(64));
  }

  /** And back: where the top word lies, the product lies. */
  lemma ProductRange(f: nat, ub: nat)
    requires ub <= 1 && Pow2(62 + ub) <= f / (TWO64 * TWO64) < Pow2(63 + ub)
    ensures Pow2(190 + ub) <= f < Pow2(191 + ub)
  {
    Pow64();
    hide Pow2;
    Pow2Add(64, 64);
    Pow2Add(62 + ub, 128);
    Pow2Add(63 + ub, 128);
    var m, t := TWO64 * TWO64, f / (TWO64 * TWO64);
    DivMod(f, m);
    MulMonotone(Pow2(62 + ub), t, m);
    MulMonotoneStrict(t, Pow2(63 + ub), m);
  }

  /** The code's tie test, on the two words it kept. */
  predicate TieSeen(q: int, hi: nat, lo: nat, m54: nat, shift: nat) {
    lo <= 1 && -4 <= q <= 23 && m54 % 4 == 1 && m54 * Pow2(shift) == hi
  }

  /** The code sees a tie exactly when there is one that half-up would break. */
  lemma TieExact(w: nat, lz: nat, v: nat, q: nat, c0: nat, c1: nat, ub: nat, f: nat, hi: nat, lo: nat)
    requires 0 < w && v == w * Pow2(lz) < TWO64 && q <= 55 && ub <= 1
    requires c0 < TWO64 && c1 < TWO64 && c0 * TWO64 + c1 == Entry(q)
    requires f == v * Entry(q) && (hi, lo) == Product(v, c0, c1) && Top54(f, ub) < Pow2(54)
    ensures TieSeen(q, hi, lo, Top54(f, ub), ub + 9) <==> Top54(f, ub) % 4 == 1 && Below54(f, ub) == 0
  {
    hide *;
    ProductExact(v, c0, c1);
    if q <= 23 {
      SmallEntry(q, c0, c1);
      TieOfSmall(v, c0, q, ub, f, hi, lo);
    } else {
      NoTieAt(w, lz, q, ub, f);
      TieIsSmall(q, hi, lo, Top54(f, ub), ub + 9);
    }
  }

  lemma TieIsSmall(q: int, hi: nat, lo: nat, m54: nat, shift: nat)
    requires q > 23
    ensures !TieSeen(q, hi, lo, m54, shift)
  {}

  lemma NoTieAt(w: nat, lz: nat, q: nat, ub: nat, f: nat)
    requires 0 < w && 23 < q <= 55 && f == w * Pow2(lz) * Entry(q)
    ensures Top54(f, ub) < Pow2(54) && Top54(f, ub) % 4 == 1 ==> Below54(f, ub) != 0
  {
    hide Pow2, Pow, Log5, Entry;
    var m54 := Top54(f, ub);
    DivMod(f, Pow2(137 + ub));
    if m54 < Pow2(54) && m54 % 4 == 1 && Below54(f, ub) == 0 {
      NoTieAbove(w, lz, q, m54, 137 + ub);
    }
  }

  lemma TieOfSmall(v: nat, c0: nat, q: nat, ub: nat, f: nat, hi: nat, lo: nat)
    requires q <= 23 && ub <= 1 && c0 % 2 == 0 && f == v * (c0 * TWO64)
    requires hi == f / (TWO64 * TWO64) && lo == f / TWO64 % TWO64
    ensures TieSeen(q, hi, lo, Top54(f, ub), ub + 9) <==> Top54(f, ub) % 4 == 1 && Below54(f, ub) == 0
  {
    hide Pow2;
    Associate(v, c0, TWO64);
    EvenLow(v, c0);
    DivModUnique(f, TWO64, v * c0, 0);
    TieWords(f, v * c0, ub, Top54(f, ub), hi, lo);
  }

  /** A small power fills the high word only, and leaves its low bit clear. */
  lemma SmallEntry(q: nat, c0: nat, c1: nat)
    requires q <= 23 && c1 < TWO64 && c0 * TWO64 + c1 == Entry(q)
    ensures c1 == 0 && c0 % 2 == 0
  {
    Pow64();
    hide Pow2, Pow;
    LogOf23(q);
    var l := EntryShift(q);
    Pow2Add(l - 64, 64);
    Associate(Pow(5, q), Pow2(l - 64), TWO64);
    var c := Pow(5, q) * Pow2(l - 64);
    DivModUnique(Entry(q), TWO64, c, 0);
    DivModUnique(Entry(q), TWO64, c0, c1);
    EvenPow(l - 64);
    EvenTimes(Pow(5, q), Pow2(l - 64));
  }

  lemma LogOf23(q: nat)
    requires q <= 23
    ensures Log5(q) <= 53
  {}

  lemma EvenLow(v: nat, c0: nat)
    requires c0 % 2 == 0
    ensures v * c0 % TWO64 % 2 == 0
  {
    EvenTimes(v, c0);
    DivMod(v * c0, TWO64);
    EvenTimes(v * c0 / TWO64, TWO64);
  }

  /** Nothing below the 54 bits is nothing in the low word and nothing below them in the high. */
  lemma TieWords(f: nat, p: nat, ub: nat, m54: nat, hi: nat, lo: nat)
    requires ub <= 1 && f == p * TWO64 && m54 == Top54(f, ub)
    requires hi == f / (TWO64 * TWO64) && lo == f / TWO64 % TWO64
    ensures Below54(f, ub) == 0 <==> lo == 0 && m54 * Pow2(ub + 9) == hi
  {
    Pow64();
    hide Pow2;
    Pow2Add(64, 64);
    Pow2Add(ub + 9, 128);
    var b := TWO64 * TWO64;
    DivMod(f, Pow2(137 + ub));
    DivDiv(f, TWO64, TWO64);
    DivModUnique(f, TWO64, p, 0);
    DivMod(p, TWO64);
    Associate(m54, Pow2(ub + 9), b);
    if lo == 0 && m54 * Pow2(ub + 9) == hi {
      Associate(hi, TWO64, TWO64);
    }
    if Below54(f, ub) == 0 {
      DivModUnique(f, b, m54 * Pow2(ub + 9), 0);
      Associate(m54 * Pow2(ub + 9), TWO64, TWO64);
      Cancel(p, m54 * Pow2(ub + 9) * TWO64, TWO64);
      DivModUnique(p, TWO64, m54 * Pow2(ub + 9), 0);
    }
  }

  // ---- the code ----

  /** __builtin_clzll: the leading zeros of a non-zero 64-bit word. */
  function Clz(w: nat): nat
    requires 0 < w < TWO64
  {
    WordBits(w);
    64 - Bits(w)
  }

  /** The binary exponent the code gives, biased. */
  function Power2(q: int, ub: nat, lz: nat): int {
    (152170 + 65536) * q / 65536 + 63 + ub - lz + 1023
  }

  /** The 54 bits rounded: half up, but for a tie seen. */
  function RoundHalfUp(m54: nat, tie: bool): nat {
    var m := if tie && m54 > 0 then m54 - 1 else m54;
    (m + m % 2) / 2
  }

  /** The last steps: a significand that overflowed is halved, the hidden bit dropped. */
  function Assemble(m: nat, power2: int, neg: bool): Option<int> {
    var over := m >= Pow2(53);
    var m', p := if over then Pow2(52) else m, if over then power2 + 1 else power2;
    var frac := if Shr(m', 52) % 2 == 1 then m' - Pow2(52) else m';
    if p >= 0x7FF then None
    else Some(frac + p * Pow2(52) + (if neg then Pow2(63) else 0))
  }

  /** m9_el_compute; None is its answer 0. */
  method ElCompute(m: Machine, q: int, w: nat, neg: bool) returns (r: Option<int>)
    requires w < TWO64 && TableExact(m.pow5) && MultiplyRounds(m.multiply)
    ensures w == 0 ==> r == Some(if neg then Pow2(63) else 0)
    ensures w != 0 && (q < POW5_LOW || q > POW5_HIGH) ==> r == None
    ensures w != 0 && 0 <= q <= EXACT_MAX ==>
              w * Pow10(q) > 0 && r == Some(BitsOf(neg, Nearest(w * Pow10(q))))
  {
    hide *;
    Limits();
    if w == 0 {
      return Some(if neg then Pow2(63) else 0);
    }
    if q < POW5_LOW || q > POW5_HIGH {
      return None;
    }
    if -22 <= q <= 22 && w <= Pow2(53) {
      var d := if q < 0 then m.divide(w, Pow10(-q)) else m.multiply(w, Pow10(q));
      ClingerRounds(m, q, w, neg, d);
      return Some(if neg then d + Pow2(63) else d);
    }
    WordBits(w);
    var lz := Clz(w);
    ClzBits(w);
    var v := w * Pow2(lz);
    var (c0, c1) := m.pow5(q);
    var (hi, lo) := Product(v, c0, c1);
    var ub := Shr(hi, 63);
    var shift := ub + 64 - 52 - 3;
    var mant := Shr(hi, shift);
    var power2 := Power2(q, ub, lz);
    if 0 <= q <= EXACT_MAX {
      ExactPath(m, q, w, lz, v, c0, c1, hi, lo, neg);
    }
    if power2 <= 0 {
      return None;
    }
    r := Assemble(RoundHalfUp(mant, TieSeen(q, hi, lo, mant, shift)), power2, neg);
  }

  lemma ClingerRounds(m: Machine, q: int, w: nat, neg: bool, d: nat)
    requires MultiplyRounds(m.multiply) && 0 < w <= Pow2(53) && q <= 22
    requires q >= 0 ==> d == m.multiply(w, Pow10(q))
    ensures q >= 0 ==> w * Pow10(q) > 0
                       && BitsOf(neg, Nearest(w * Pow10(q))) == if neg then d + Pow2(63) else d
  {
    hide Nearest, Pow2, Pow10;
  }

  lemma ClzBits(w: nat)
    requires 0 < w < TWO64
    ensures Clz(w) == 64 - Bits(w)
  {}

  // ---- the exact path, put together ----

  lemma RoundIsHalfEven(m54: nat, exact: bool)
    requires m54 > 0
    ensures RoundHalfUp(m54, m54 % 4 == 1 && exact) == HalfEven(m54, exact)
  {}

  lemma AssembleIsBits(m: nat, e: int, neg: bool)
    requires Pow2(52) <= m <= Pow2(53) && e + 1075 < 0x7FE
    ensures Assemble(m, e + 1075, neg) == Some(BitsOf(neg, Normal(m, e)))
  {
    Powers53();
    hide Pow2;
    if m < Pow2(53) {
      DivModUnique(m, Pow2(52), 1, m - Pow2(52));
    } else {
      DivModUnique(Pow2(52), Pow2(52), 1, 0);
    }
  }

  lemma PowerIsExponent(q: nat, ub: nat, lz: nat)
    requires q <= 55 && ub <= 1 && lz <= 64
    ensures Power2(q, ub, lz) == 138 + ub + q - lz - EntryShift(q) + 1075
    ensures 0 < Power2(q, ub, lz) < 0x7FE
  {}

  /** The value's nearest double, by the product's own bits. */
  lemma NearestByProduct(w: nat, lz: nat, q: nat, f: nat, ub: nat)
    requires 0 < w && lz <= 64 && q <= 55 && ub <= 1
    requires f == w * Pow2(lz) * Entry(q) && Pow2(190 + ub) <= f < Pow2(191 + ub)
    ensures w * Pow10(q) > 0
    ensures Nearest(w * Pow10(q))
            == Normal(HalfEven(Top54(f, ub), Below54(f, ub) == 0), 138 + ub + q - lz - EntryShift(q))
    ensures Pow2(53) <= Top54(f, ub) < Pow2(54)
  {
    hide Pow2, Pow, Pow10, Log5, Entry, Bits;
    LogSmall(q);
    ShiftSmall(q);
    var x, k := w * Pow10(q), q + SCALE - lz - EntryShift(q);
    MulAtLeast(w, Pow10(q));
    Rescaled(w, lz, q);
    CutOfProduct(f, ub, k);
    Pow2Add(53, 137 + ub);
    Pow2Add(54, 137 + ub);
    DivBetween(f, Pow2(137 + ub), Pow2(53), Pow2(54));
    NearestUnfolds(x, f * Pow2(k), 137 + ub + k);
  }

  lemma ShiftSmall(q: nat)
    requires q <= 55
    ensures EntryShift(q) <= 127
  {}

  lemma NearestUnfolds(x: nat, p: nat, s: nat)
    requires x > 0 && p == x * Pow2(SCALE) && s + 54 == Bits(p)
    ensures Nearest(x) == Normal(HalfEven(Quotient(p, Pow2(s)), p % Pow2(s) == 0), s + 1 - SCALE)
  {
    hide Pow2, Bits;
  }

  lemma ExactPath(m: Machine, q: int, w: nat, lz: nat, v: nat, c0: nat, c1: nat, hi: nat, lo: nat, neg: bool)
    requires TableExact(m.pow5) && 0 <= q <= EXACT_MAX && 0 < w < TWO64
    requires lz == 64 - Bits(w) && v == w * Pow2(lz) && (c0, c1) == m.pow5(q) && (hi, lo) == Product(v, c0, c1)
    ensures var ub := Shr(hi, 63);
            var mant := Shr(hi, ub + 9);
            Power2(q, ub, lz) > 0 && w * Pow10(q) > 0
            && Assemble(RoundHalfUp(mant, TieSeen(q, hi, lo, mant, ub + 9)), Power2(q, ub, lz), neg)
               == Some(BitsOf(neg, Nearest(w * Pow10(q))))
  {
    hide *;
    Limits();
    EntryAt(m, q);
    WordBits(w);
    WholeProductRange(w, lz, q);
    Pow64();
    var f := v * Entry(q);
    var top := f / (TWO64 * TWO64);
    ProductExact(v, c0, c1);
    TopRange(f);
    TopBits(hi, top);
    var ub := Shr(hi, 63);
    ProductRange(f, ub);
    FromTop(f, ub);
    NearestByProduct(w, lz, q, f, ub);
    TieExact(w, lz, v, q, c0, c1, ub, f, hi, lo);
    var m54 := Top54(f, ub);
    SomeBit(m54);
    RoundIsHalfEven(m54, Below54(f, ub) == 0);
    HalfEvenRange(m54, Below54(f, ub) == 0);
    PowerIsExponent(q, ub, lz);
    AssembleIsBits(HalfEven(m54, Below54(f, ub) == 0), 138 + ub + q - lz - EntryShift(q), neg);
  }

  lemma Limits()
    ensures EXACT_MAX == 55 && POW5_LOW == -342 && POW5_HIGH == 308
  {}

  lemma SomeBit(m54: nat)
    requires Pow2(53) <= m54
    ensures m54 > 0
  {}

  lemma EntryAt(m: Machine, q: int)
    requires TableExact(m.pow5) && 0 <= q <= EXACT_MAX
    ensures var (c0, c1) := m.pow5(q);
            c0 < TWO64 && c1 < TWO64 && c0 * TWO64 + c1 == Entry(q)
  {}
}
