/** m9_rtz: decimal zeros taken off a 64-bit significand by multiply, rotate and compare
    (runtime/m9rt.c:2617-2648). */
module TrailingZeros {
  import opened Arith

  const TWO64: nat := 0x1_0000_0000_0000_0000

  /** The product of two 64-bit words, as the machine keeps it. */
  function MulWrap(a: nat, b: nat): (p: nat)
    ensures p < TWO64
  {
    a * b % TWO64
  }

  /** m9_rotr64 for a count from 1 to 63; low and high are the two powers of two. */
  function RotR(x: nat, low: nat, high: nat): nat
    requires low > 0
  {
    x / low + x % low * high
  }

  /** One step's constants: ten = 10^k = two * five, two = 2^k, and a multiplier that undoes
      five modulo 2^(64 - k); limit is the first quotient too large. */
  datatype Step = Step(k: nat, two: nat, high: nat, five: nat, multiplier: nat, limit: nat)

  const STEP8 := Step(8, 256, 0x100_0000_0000_0000, 390625, 28999941890838049, 184467440738)
  const STEP4 := Step(4, 16, 0x1000_0000_0000_0000, 625, 182622766329724561, 1844674407370956)
  const STEP2 := Step(2, 4, 0x4000_0000_0000_0000, 25, 10330176681277348905, 184467440737095517)
  const STEP1 := Step(1, 2, 0x8000_0000_0000_0000, 5, 14757395258967641293, 1844674407370955162)

  function Ten(t: Step): nat {
    t.two * t.five
  }

  /** What makes a step's constants right. */
  predicate Good(t: Step) {
    t.two > 0 && t.high > 0 && t.two * t.high == TWO64 && t.high % t.two == 0
    && t.five > 0
    && t.multiplier * t.five % t.high == 1
    && (t.limit - 1) * Ten(t) < TWO64 <= t.limit * Ten(t)
    && 0 < t.limit <= t.high
  }

  lemma StepsGood()
    ensures Good(STEP8) && Good(STEP4) && Good(STEP2) && Good(STEP1)
  {}

  function Rotated(t: Step, s: nat): nat
    requires Good(t)
  {
    RotR(MulWrap(s, t.multiplier), t.two, t.high)
  }

  /** The inverse, as an equation: multiplier * five = c * high + 1. */
  lemma Inverse(t: Step) returns (c: nat)
    requires Good(t)
    ensures t.five * t.multiplier == c * t.high + 1
  {
    c := t.multiplier * t.five / t.high;
    DivMod(t.multiplier * t.five, t.high);
    Associate(t.multiplier, t.five, 1);
  }

  lemma ProductOfMultiple(two: int, q: int, five: int, m: int, c: int, high: int)
    requires five * m == c * high + 1
    ensures two * five * q * m == (q * c) * (two * high) + two * q
  {
    assert two * five * q * m == (two * q) * (five * m);
    Distribute(c * high, 1, two * q);
    assert (two * q) * (c * high) == (q * c) * (two * high);
  }

  /** A multiple of the power of ten rotates to its quotient. */
  lemma MultipleRotates(t: Step, q: nat)
    requires Good(t) && Ten(t) * q < TWO64
    ensures Rotated(t, Ten(t) * q) == q && q < t.limit
  {
    var c := Inverse(t);
    var s := Ten(t) * q;
    ProductOfMultiple(t.two, q, t.five, t.multiplier, c, t.high);
    TwiceSmaller(t.two, t.five, q);
    DivModUnique(s * t.multiplier, TWO64, q * c, t.two * q);
    DivModUnique(t.two * q, t.two, q, 0);
    if q >= t.limit {
      MulMonotone(t.limit, q, Ten(t));
    }
  }

  lemma TwiceSmaller(two: nat, five: nat, q: nat)
    requires five > 0
    ensures two * q <= two * five * q
  {
    MulAtLeast(five, two * q);
    assert two * five * q == five * (two * q);
  }

  /** A rotation below the limit did not carry a low bit round. */
  lemma NoBitRound(t: Step, x: nat)
    requires Good(t) && RotR(x, t.two, t.high) < t.limit
    ensures x == RotR(x, t.two, t.high) * t.two
  {
    DivMod(x, t.two);
    if x % t.two > 0 {
      MulAtLeast(x % t.two, t.high);
    }
  }

  /** An equation modulo high, and then modulo 2^64. */
  lemma SmallRotates(t: Step, s: nat)
    requires Good(t) && s < TWO64 && Rotated(t, s) < t.limit
    ensures s == Rotated(t, s) * Ten(t)
  {
    var c := Inverse(t);
    var x := MulWrap(s, t.multiplier);
    var r := Rotated(t, s);
    NoBitRound(t, x);
    var e := s * t.multiplier / TWO64;
    DivMod(s * t.multiplier, TWO64);
    Solve(s, t.multiplier, t.five, t.two, t.high, c, e, r);
    var s1 := Halved(s, t.two, t.high, e * t.five * t.two - s * c, r * t.five);
    Collect(s, s1, t.two, t.high, c, e * t.five, r * Ten(t));
    assert r * Ten(t) == r * t.five * t.two;
    MulMonotone(r, t.limit - 1, Ten(t));
    Between(s, r * Ten(t), e * t.five - s1 * c);
  }

  lemma Solve(s: int, m: int, five: int, two: int, high: int, c: int, e: int, r: int)
    requires five * m == c * high + 1 && s * m == e * (two * high) + r * two
    ensures s == r * five * two + (e * five * two - s * c) * high
  {
    assert five * (s * m) == s * (five * m);
    Distribute(c * high, 1, s);
    assert s * (c * high) == s * c * high;
    Distribute(e * (two * high), r * two, five);
    assert five * (e * (two * high)) == e * five * two * high;
    assert five * (r * two) == r * five * two;
    Distribute(e * five * two, s * c, high);
  }

  /** high is a multiple of two, so s is. */
  lemma Halved(s: int, two: int, high: int, a: int, b: int) returns (s1: int)
    requires two > 0 && high % two == 0 && s == b * two + a * high
    ensures s == s1 * two
  {
    var h := high / two;
    DivMod(high, two);
    s1 := b + a * h;
    Distribute(b, a * h, two);
    assert a * high == a * h * two by {
      Associate(a, h, two);
    }
  }

  lemma Collect(s: int, s1: int, two: int, high: int, c: int, ef: int, rt: int)
    requires s == s1 * two && s == rt + (ef * two - s * c) * high
    ensures s == rt + (ef - s1 * c) * (two * high)
  {
    assert s * c == s1 * c * two;
    Distribute(ef, s1 * c, two);
    Associate(ef - s1 * c, two, high);
  }

  lemma Between(s: int, x: int, k: int)
    requires 0 <= s < TWO64 && 0 <= x < TWO64 && s == x + k * TWO64
    ensures s == x
  {}

  /** One step: below the limit exactly on the multiples, and there the quotient. */
  lemma StepExact(t: Step, s: nat)
    requires Good(t) && s < TWO64
    ensures Rotated(t, s) < t.limit <==> s % Ten(t) == 0
    ensures s % Ten(t) == 0 ==> Rotated(t, s) == s / Ten(t) && s == Ten(t) * Rotated(t, s)
  {
    MulAtLeast(t.two, t.five);
    DivMod(s, Ten(t));
    if s % Ten(t) == 0 {
      Associate(s / Ten(t), Ten(t), 1);
      MultipleRotates(t, s / Ten(t));
    }
    if Rotated(t, s) < t.limit {
      SmallRotates(t, s);
      DivModUnique(s, Ten(t), Rotated(t, s), 0);
    }
  }

  lemma Tens()
    ensures Ten(STEP8) == Pow10(8) && Ten(STEP4) == Pow10(4) && Ten(STEP2) == Pow10(2) && Ten(STEP1) == Pow10(1)
  {
    assert Pow10(4) == 10000;
  }

  /** What is no multiple of the square is, after the step, no multiple of the power. */
  lemma NotSquare(ten: nat, s: nat)
    requires ten > 0 && s % (ten * ten) != 0 && s % ten == 0
    ensures s / ten % ten != 0
  {
    var q := s / ten;
    DivMod(s, ten);
    MulAtLeast(ten, ten);
    if q % ten == 0 {
      DivMod(q, ten);
      Associate(q / ten, ten, ten);
      DivModUnique(s, ten * ten, q / ten, 0);
    }
  }

  /** One step of the search, as the code takes it. */
  method Take(t: Step, s: nat, ghost square: nat) returns (s': nat, b: nat)
    requires Good(t) && s < TWO64 && square == Ten(t) * Ten(t) && square > 0
    ensures b <= 1 && s' <= s && s' < TWO64
    ensures b == 1 ==> s == s' * Ten(t)
    ensures b == 0 ==> s == s' && s % Ten(t) != 0
    ensures s % square != 0 ==> s' % Ten(t) != 0
    ensures s % square == 0 ==> b == 1
  {
    StepExact(t, s);
    MulAtLeast(t.two, t.five);
    var r := Rotated(t, s);
    if s % square != 0 && s % Ten(t) == 0 {
      NotSquare(Ten(t), s);
    }
    if s % square == 0 {
      DivMod(s, square);
      Associate(s / square, Ten(t), Ten(t));
      DivModUnique(s, Ten(t), s / square * Ten(t), 0);
    }
    if r < t.limit {
      s', b := r, 1;
      MulAtLeast(Ten(t), r);
      Associate(r, Ten(t), 1);
    } else {
      s', b := s, 0;
    }
  }

  /** m9_rtz. */
  method Rtz(sig: nat, exp: int) returns (s: nat, e: int)
    requires sig < TWO64
    ensures exp <= e <= exp + 15
    ensures sig == s * Pow10(e - exp)
    ensures s % 10 != 0 || e == exp + 15
  {
    hide Good, Ten, Pow10;
    StepsGood();
    Tens();
    TensSquared();
    PowZero();
    var b8, b4, b2, b1;
    s, b8 := Take(STEP8, sig, Pow10(16));
    ghost var s8 := s;
    s, b4 := Take(STEP4, s, Pow10(8));
    ghost var s4 := s;
    s, b2 := Take(STEP2, s, Pow10(4));
    ghost var s2 := s;
    s, b1 := Take(STEP1, s, Pow10(2));
    var n := ((b8 * 2 + b4) * 2 + b2) * 2 + b1;
    e := exp + n;
    UndoneOnce(s2, s, s, 0, 1, b1);
    UndoneOnce(s4, s2, s, b1, 2, b2);
    UndoneOnce(s8, s4, s, b1 + b2 * 2, 4, b4);
    UndoneOnce(sig, s8, s, b1 + b2 * 2 + b4 * 4, 8, b8);
  }

  lemma TensSquared()
    ensures Pow10(16) == Pow10(8) * Pow10(8) && Pow10(8) == Pow10(4) * Pow10(4)
    ensures Pow10(4) == Pow10(2) * Pow10(2) && Pow10(2) == Pow10(1) * Pow10(1) && Pow10(1) == 10
  {
    Pow10Add(8, 8);
    Pow10Add(4, 4);
    Pow10Add(2, 2);
    Pow10Add(1, 1);
  }

  lemma PowZero()
    ensures Pow10(0) == 1
  {}

  /** One step's zeros, put back on what the later steps took n from. */
  lemma UndoneOnce(before: nat, after: nat, s: nat, n: nat, k: nat, b: nat)
    requires after == s * Pow10(n) && b <= 1
    requires before == if b == 1 then after * Pow10(k) else after
    ensures before == s * Pow10(n + b * k)
  {
    if b == 1 {
      Pow10Add(n, k);
      Associate(s, Pow10(n), Pow10(k));
    }
  }
}
