/** CRC-32, reflected, by tables eight octets a step, against one bit at a time
    (runtime/m9rt.c:2467-2530; section 8 of RFC 1952). */
module Crc32 {
  type Octet = bv8
  type Word = bv32

  const POLY: Word := 0xEDB88320

  // The word operations, named so that a proof can take them as they are.
  function Xor(a: Word, b: Word): Word { a ^ b }
  function Low(c: Word): Word { c & 0xFF }
  function Shr8(c: Word): Word { c >> 8 }
  function Wide(b: Octet): Word { b as bv32 }
  predicate Odd(c: Word) { c & 1 == 1 }

  /** One bit of the register shifted out. */
  function Shift1(c: Word): Word {
    if Odd(c) then POLY ^ (c >> 1) else c >> 1
  }

  /** k bits shifted out. */
  function ShiftBits(c: Word, k: nat): Word
    decreases k
  {
    if k == 0 then c else ShiftBits(Shift1(c), k - 1)
  }

  /** The register carried over one zero octet. */
  function Carry(c: Word): Word {
    ShiftBits(c, 8)
  }

  /** One octet fed to the register, bit by bit. */
  function Feed(c: Word, b: Octet): Word {
    Carry(Xor(c, Wide(b)))
  }

  /** The reference: a buffer fed octet by octet, each bit by bit. */
  function Crc(c: Word, p: seq<Octet>): Word
    decreases |p|
  {
    if p == [] then c else Crc(Feed(c, p[0]), p[1..])
  }

  /** The register carried over k zero octets. */
  function Zeros(c: Word, k: nat): Word
    decreases k
  {
    if k == 0 then c else Zeros(Carry(c), k - 1)
  }

  // ---- the shift is linear ----

  lemma LinearOddOdd(a: Word, b: Word)
    requires Odd(a) && Odd(b)
    ensures Shift1(Xor(a, b)) == Xor(Shift1(a), Shift1(b))
  {}

  lemma LinearEvenOdd(a: Word, b: Word)
    requires !Odd(a) && Odd(b)
    ensures Shift1(Xor(a, b)) == Xor(Shift1(a), Shift1(b))
  {}

  lemma XorCommutes(a: Word, b: Word)
    ensures Xor(a, b) == Xor(b, a)
  {}

  lemma LinearEvenEven(a: Word, b: Word)
    requires !Odd(a) && !Odd(b)
    ensures Shift1(Xor(a, b)) == Xor(Shift1(a), Shift1(b))
  {}

  lemma Shift1Linear(a: Word, b: Word)
    ensures Shift1(Xor(a, b)) == Xor(Shift1(a), Shift1(b))
  {
    hide *;
    if Odd(a) {
      if Odd(b) {
        LinearOddOdd(a, b);
      } else {
        XorCommutes(a, b);
        XorCommutes(Shift1(a), Shift1(b));
        LinearEvenOdd(b, a);
      }
    } else if Odd(b) {
      LinearEvenOdd(a, b);
    } else {
      LinearEvenEven(a, b);
    }
  }

  lemma {:induction false} ShiftLinear(a: Word, b: Word, k: nat)
    ensures ShiftBits(Xor(a, b), k) == Xor(ShiftBits(a, k), ShiftBits(b, k))
    decreases k
  {
    hide Shift1, Xor, Odd;
    if k > 0 {
      Shift1Linear(a, b);
      ShiftLinear(Shift1(a), Shift1(b), k - 1);
    }
  }

  lemma {:induction false} ZerosLinear(a: Word, b: Word, k: nat)
    ensures Zeros(Xor(a, b), k) == Xor(Zeros(a, k), Zeros(b, k))
    decreases k
  {
    hide ShiftBits, Xor;
    if k > 0 {
      ShiftLinear(a, b, 8);
      ZerosLinear(Carry(a), Carry(b), k - 1);
    }
  }

  // ---- low octet clear, carrying over an octet only shifts ----

  function Half(c: Word): Word { c >> 1 }

  lemma ShiftEven(c: Word)
    requires !Odd(c)
    ensures Shift1(c) == Half(c)
  {}

  lemma EightEven(c: Word)
    requires Low(c) == 0
    ensures !Odd(c) && !Odd(c >> 1) && !Odd(c >> 2) && !Odd(c >> 3)
    ensures !Odd(c >> 4) && !Odd(c >> 5) && !Odd(c >> 6) && !Odd(c >> 7)
  {}

  lemma EightHalves(c: Word)
    ensures Half(c) == c >> 1 && Half(c >> 1) == c >> 2 && Half(c >> 2) == c >> 3 && Half(c >> 3) == c >> 4
    ensures Half(c >> 4) == c >> 5 && Half(c >> 5) == c >> 6 && Half(c >> 6) == c >> 7
    ensures Half(c >> 7) == Shr8(c)
  {}

  lemma CarryIsEightShifts(c0: Word, c1: Word, c2: Word, c3: Word, c4: Word,
                           c5: Word, c6: Word, c7: Word, c8: Word)
    requires c1 == Shift1(c0) && c2 == Shift1(c1) && c3 == Shift1(c2) && c4 == Shift1(c3)
    requires c5 == Shift1(c4) && c6 == Shift1(c5) && c7 == Shift1(c6) && c8 == Shift1(c7)
    ensures Carry(c0) == c8
  {
    hide Shift1;
    assert ShiftBits(c0, 8) == ShiftBits(c1, 7) == ShiftBits(c2, 6) == ShiftBits(c3, 5) == ShiftBits(c4, 4);
    assert ShiftBits(c4, 4) == ShiftBits(c5, 3) == ShiftBits(c6, 2) == ShiftBits(c7, 1);
  }

  lemma HighOnly(c: Word)
    requires Low(c) == 0
    ensures Carry(c) == Shr8(c)
  {
    hide *;
    EightEven(c);
    EightHalves(c);
    ShiftEven(c);
    ShiftEven(c >> 1);
    ShiftEven(c >> 2);
    ShiftEven(c >> 3);
    ShiftEven(c >> 4);
    ShiftEven(c >> 5);
    ShiftEven(c >> 6);
    ShiftEven(c >> 7);
    CarryIsEightShifts(c, c >> 1, c >> 2, c >> 3, c >> 4, c >> 5, c >> 6, c >> 7, Shr8(c));
  }

  function High(c: Word): Word { c & 0xFFFFFF00 }

  lemma LowAndHigh(c: Word)
    ensures c == Xor(Low(c), High(c)) && Low(High(c)) == 0 && Shr8(High(c)) == Shr8(c)
  {}

  /** The table step: the low octet by table, the rest shifted. */
  lemma TableStep(c: Word)
    ensures Carry(c) == Xor(Carry(Low(c)), Shr8(c))
  {
    hide Xor, Low, High, Shr8, ShiftBits;
    LowAndHigh(c);
    HighOnly(High(c));
    ShiftLinear(Low(c), High(c), 8);
  }

  // ---- the tables ----

  /** Table k at an octet: its CRC carried k zero octets further. */
  function Table(k: nat, b: Word): Word {
    Zeros(b, k + 1)
  }

  lemma {:induction false} ZerosSnoc(c: Word, k: nat)
    ensures Zeros(c, k + 1) == Carry(Zeros(c, k))
    decreases k
  {
    hide Carry;
    if k > 0 {
      ZerosSnoc(Carry(c), k - 1);
    }
  }

  lemma TableZero(b: Word)
    ensures Table(0, b) == Carry(b)
  {
    hide Carry;
    assert Zeros(b, 1) == Zeros(Carry(b), 0);
  }

  /** How m9_crc_build makes each table from the one below. */
  lemma TableBuilt(k: nat, b: Word)
    requires k > 0
    ensures Table(k, b) == Xor(Shr8(Table(k - 1, b)), Table(0, Low(Table(k - 1, b))))
  {
    hide Carry, Xor, Low, Shr8;
    var t := Zeros(b, k);
    ZerosSnoc(b, k);
    TableStep(t);
    TableZero(Low(t));
    XorCommutes(Carry(Low(t)), Shr8(t));
  }

  // ---- four octets at once ----

  /** An octet below three others. */
  function Pack(b: Octet, rest: Word): Word {
    (b as bv32) ^ (rest << 8)
  }

  lemma PackLow(c: Word, b: Octet, rest: Word)
    ensures Low(Xor(c, Pack(b, rest))) == Low(Xor(c, Wide(b)))
  {}

  lemma PackDown(b: Octet, rest: Word)
    requires rest < 0x1000000
    ensures Shr8(Pack(b, rest)) == rest
  {}

  lemma Shr8Linear(a: Word, b: Word)
    ensures Shr8(Xor(a, b)) == Xor(Shr8(a), Shr8(b))
  {}

  lemma Shr8Wide(c: Word, b: Octet)
    ensures Shr8(Xor(c, Wide(b))) == Shr8(c)
  {}

  lemma PackHigh(c: Word, b: Octet, rest: Word)
    requires rest < 0x1000000
    ensures Shr8(Xor(c, Pack(b, rest))) == Xor(Shr8(Xor(c, Wide(b))), rest)
  {
    hide *;
    PackDown(b, rest);
    Shr8Linear(c, Pack(b, rest));
    Shr8Wide(c, b);
  }

  lemma XorAssociates(a: Word, b: Word, c: Word)
    ensures Xor(a, Xor(b, c)) == Xor(Xor(a, b), c)
  {}

  /** Feeding the low octet leaves the others one place down. */
  lemma FeedPacked(c: Word, b: Octet, rest: Word)
    requires rest < 0x1000000
    ensures Carry(Xor(c, Pack(b, rest))) == Xor(Feed(c, b), rest)
  {
    hide *;
    var x, y := Xor(c, Pack(b, rest)), Xor(c, Wide(b));
    PackLow(c, b, rest);
    PackHigh(c, b, rest);
    TableStep(x);
    TableStep(y);
    XorAssociates(Carry(Low(y)), Shr8(y), rest);
    FeedIsCarry(c, b);
  }

  lemma FeedIsCarry(c: Word, b: Octet)
    ensures Feed(c, b) == Carry(Xor(c, Wide(b)))
  {}

  /** A little-endian load of four octets. */
  function Load4(b0: Octet, b1: Octet, b2: Octet, b3: Octet): Word {
    (b0 as bv32) | ((b1 as bv32) << 8) | ((b2 as bv32) << 16) | ((b3 as bv32) << 24)
  }

  lemma PackFits(b: Octet, rest: Word)
    ensures rest < 0x10000 ==> Pack(b, rest) < 0x1000000
    ensures rest < 0x100 ==> Pack(b, rest) < 0x10000
    ensures Pack(b, 0) < 0x100
  {}

  lemma Load4IsPacked(b0: Octet, b1: Octet, b2: Octet, b3: Octet)
    ensures Load4(b0, b1, b2, b3) == Pack(b0, Pack(b1, Pack(b2, Pack(b3, 0))))
  {}

  lemma Smaller(w: Word)
    ensures w < 0x100 ==> w < 0x10000
    ensures w < 0x10000 ==> w < 0x1000000
  {}

  lemma Load4Packs(b0: Octet, b1: Octet, b2: Octet, b3: Octet)
    ensures Pack(b3, 0) < 0x1000000 && Pack(b2, Pack(b3, 0)) < 0x1000000
    ensures Pack(b1, Pack(b2, Pack(b3, 0))) < 0x1000000
    ensures Load4(b0, b1, b2, b3) == Pack(b0, Pack(b1, Pack(b2, Pack(b3, 0))))
  {
    hide *;
    Load4IsPacked(b0, b1, b2, b3);
    PackFits(b3, 0);
    PackFits(b2, Pack(b3, 0));
    PackFits(b1, Pack(b2, Pack(b3, 0)));
    Smaller(Pack(b3, 0));
    Smaller(Pack(b2, Pack(b3, 0)));
  }

  lemma XorZero(a: Word)
    ensures Xor(a, 0) == a
  {}

  lemma ZerosUnfold(c: Word, k: nat)
    ensures Zeros(c, 0) == c && Zeros(c, k + 1) == Zeros(Carry(c), k)
  {
    hide Carry;
  }

  /** Four octets fed one by one are four octets loaded, then carried. */
  lemma FourFed(c: Word, b0: Octet, b1: Octet, b2: Octet, b3: Octet)
    ensures Zeros(Xor(c, Load4(b0, b1, b2, b3)), 4) == Feed(Feed(Feed(Feed(c, b0), b1), b2), b3)
  {
    hide *;
    Load4Packs(b0, b1, b2, b3);
    var r3 := Pack(b3, 0);
    var r2 := Pack(b2, r3);
    var r1 := Pack(b1, r2);
    var c1 := Feed(c, b0);
    var c2 := Feed(c1, b1);
    var c3 := Feed(c2, b2);
    FeedPacked(c, b0, r1);
    ZerosUnfold(Xor(c, Pack(b0, r1)), 3);
    FeedPacked(c1, b1, r2);
    ZerosUnfold(Xor(c1, r1), 2);
    FeedPacked(c2, b2, r3);
    ZerosUnfold(Xor(c2, r2), 1);
    FeedPacked(c3, b3, 0);
    ZerosUnfold(Xor(c3, r3), 0);
    XorZero(Feed(c3, b3));
    ZerosUnfold(Feed(c3, b3), 0);
  }

  // ---- the four octets of a word, each through its own table ----

  function Octet1(w: Word): Word { (w >> 8) & 0xFF }
  function Octet2(w: Word): Word { (w >> 16) & 0xFF }
  function Octet3(w: Word): Word { w >> 24 }

  lemma OctetsOf(w: Word)
    ensures Low(Shr8(w)) == Octet1(w) && Low(Shr8(Shr8(w))) == Octet2(w)
    ensures Low(Shr8(Shr8(Shr8(w)))) == Octet3(w) && Shr8(Shr8(Shr8(Shr8(w)))) == 0
  {}

  lemma CarryZero()
    ensures Carry(0) == 0
  {
    hide Carry;
    HighOnly(0);
    assert Low(0) == 0 && Shr8(0) == 0;
  }

  lemma {:induction false} ZerosOfZero(k: nat)
    ensures Zeros(0, k) == 0
  {
    hide Carry;
    CarryZero();
    if k > 0 {
      ZerosOfZero(k - 1);
    }
  }

  /** The lowest octet through table k, the rest carried one octet less. */
  lemma OneTable(w: Word, k: nat)
    ensures Zeros(w, k + 1) == Xor(Table(k, Low(w)), Zeros(Shr8(w), k))
  {
    hide *;
    TableStep(w);
    ZerosUnfold(w, k);
    ZerosLinear(Carry(Low(w)), Shr8(w), k);
    ZerosUnfold(Low(w), k);
    TableIsZeros(k, Low(w));
  }

  lemma TableIsZeros(k: nat, b: Word)
    ensures Table(k, b) == Zeros(b, k + 1)
  {}

  lemma FourTables(w: Word, k: nat)
    ensures Zeros(w, k + 4)
            == Xor(Xor(Xor(Table(k + 3, Low(w)), Table(k + 2, Octet1(w))), Table(k + 1, Octet2(w))),
                Table(k, Octet3(w)))
  {
    hide *;
    OctetsOf(w);
    var w1 := Shr8(w);
    var w2 := Shr8(w1);
    var w3 := Shr8(w2);
    OneTable(w, k + 3);
    OneTable(w1, k + 2);
    OneTable(w2, k + 1);
    OneTable(w3, k);
    ZerosOfZero(k);
    XorZero(Table(k, Low(w3)));
    XorAssociates(Table(k + 2, Low(w1)), Table(k + 1, Low(w2)), Table(k, Low(w3)));
    XorAssociates(Table(k + 3, Low(w)), Xor(Table(k + 2, Low(w1)), Table(k + 1, Low(w2))), Table(k, Low(w3)));
    XorAssociates(Table(k + 3, Low(w)), Table(k + 2, Low(w1)), Table(k + 1, Low(w2)));
  }

  // ---- the reference in pieces ----

  /** Summing in pieces is summing the whole. */
  lemma {:induction false} CrcConcat(c: Word, p: seq<Octet>, q: seq<Octet>)
    ensures Crc(c, p + q) == Crc(Crc(c, p), q)
    decreases |p|
  {
    hide Feed;
    if p == [] {
      assert p + q == q;
    } else {
      assert (p + q)[1..] == p[1..] + q;
      CrcConcat(Feed(c, p[0]), p[1..], q);
    }
  }

  lemma CrcSnoc(c: Word, p: seq<Octet>, i: nat)
    requires i < |p|
    ensures Crc(c, p[..i + 1]) == Feed(Crc(c, p[..i]), p[i])
  {
    hide Feed;
    assert p[..i + 1] == p[..i] + [p[i]];
    CrcConcat(c, p[..i], [p[i]]);
    assert Crc(Crc(c, p[..i]), [p[i]]) == Crc(Feed(Crc(c, p[..i]), p[i]), []);
  }

  lemma CrcEight(c: Word, p: seq<Octet>, i: nat)
    requires i + 8 <= |p|
    ensures Crc(c, p[..i + 8])
            == Feed(Feed(Feed(Feed(Feed(Feed(Feed(Feed(Crc(c, p[..i]), p[i]), p[i + 1]), p[i + 2]), p[i + 3]),
                              p[i + 4]), p[i + 5]), p[i + 6]), p[i + 7])
  {
    hide *;
    CrcSnoc(c, p, i);
    CrcSnoc(c, p, i + 1);
    CrcSnoc(c, p, i + 2);
    CrcSnoc(c, p, i + 3);
    CrcSnoc(c, p, i + 4);
    CrcSnoc(c, p, i + 5);
    CrcSnoc(c, p, i + 6);
    CrcSnoc(c, p, i + 7);
  }

  // ---- the code ----

  function Index(w: Word): (i: nat)
    ensures i < 256
  {
    ((w & 0xFF) as bv8) as int
  }

  function WordOf(i: nat): Word
    requires i < 256
  {
    (i as bv8) as bv32
  }

  lemma IndexOfOctet(w: Word)
    requires w <= 0xFF
    ensures WordOf(Index(w)) == w
  {
    var b := (w & 0xFF) as bv8;
    RoundTrip(b);
    assert b as bv32 == w;
  }

  lemma RoundTrip(b: bv8)
    ensures (b as int) as bv8 == b
  {}

  ghost predicate Built(tab: array2<Word>, k: nat)
    requires tab.Length0 == 8 && tab.Length1 == 256
    reads tab
  {
    forall j, i :: 0 <= j < k <= 8 && 0 <= i < 256 ==> tab[j, i] == Table(j, WordOf(i))
  }

  /** m9_crc_build. */
  method Build(tab: array2<Word>)
    requires tab.Length0 == 8 && tab.Length1 == 256
    modifies tab
    ensures Built(tab, 8)
  {
    hide Table, WordOf, Shift1, Xor, Shr8, Low;
    for i := 0 to 256
      invariant forall m :: 0 <= m < i ==> tab[0, m] == Table(0, WordOf(m))
    {
      var c := WordOf(i);
      for k := 0 to 8
        invariant ShiftBits(c, 8 - k) == ShiftBits(WordOf(i), 8)
        invariant forall m :: 0 <= m < i ==> tab[0, m] == Table(0, WordOf(m))
      {
        c := Shift1(c);
      }
      TableZero(WordOf(i));
      tab[0, i] := c;
    }
    for k := 1 to 8
      invariant Built(tab, k)
    {
      for i := 0 to 256
        invariant Built(tab, k)
        invariant forall m :: 0 <= m < i ==> tab[k, m] == Table(k, WordOf(m))
      {
        TableBuilt(k, WordOf(i));
        LowIsOctet(tab[k - 1, i]);
        IndexOfOctet(Low(tab[k - 1, i]));
        tab[k, i] := Xor(Shr8(tab[k - 1, i]), tab[0, Index(Low(tab[k - 1, i]))]);
      }
    }
  }

  lemma LowIsOctet(w: Word)
    ensures Low(w) <= 0xFF && Octet1(w) <= 0xFF && Octet2(w) <= 0xFF && Octet3(w) <= 0xFF
  {}

  function At(tab: array2<Word>, k: nat, w: Word): Word
    requires tab.Length0 == 8 && tab.Length1 == 256 && k < 8
    reads tab
  {
    tab[k, Index(w)]
  }

  lemma TabAt(tab: array2<Word>, k: nat, w: Word)
    requires tab.Length0 == 8 && tab.Length1 == 256 && Built(tab, 8) && k < 8 && w <= 0xFF
    ensures At(tab, k, w) == Table(k, w)
  {
    hide Table, WordOf;
    IndexOfOctet(w);
  }

  /** Four octets of a word through four tables. */
  lemma FourAt(tab: array2<Word>, k: nat, w: Word)
    requires tab.Length0 == 8 && tab.Length1 == 256 && Built(tab, 8) && k <= 4
    ensures Zeros(w, k + 4)
            == Xor(Xor(Xor(At(tab, k + 3, Low(w)), At(tab, k + 2, Octet1(w))), At(tab, k + 1, Octet2(w))),
                   At(tab, k, Octet3(w)))
  {
    hide *;
    FourTables(w, k);
    LowIsOctet(w);
    TabAt(tab, k + 3, Low(w));
    TabAt(tab, k + 2, Octet1(w));
    TabAt(tab, k + 1, Octet2(w));
    TabAt(tab, k, Octet3(w));
  }

  lemma {:induction false} ZerosAdd(c: Word, j: nat, k: nat)
    ensures Zeros(c, j + k) == Zeros(Zeros(c, j), k)
    decreases j
  {
    hide Carry;
    if j > 0 {
      ZerosAdd(Carry(c), j - 1, k);
    }
  }

  /** Eight octets as two words: each octet through its own table. */
  lemma EightAt(tab: array2<Word>, c: Word, lo: Word, hi: Word,
                b0: Octet, b1: Octet, b2: Octet, b3: Octet, b4: Octet, b5: Octet, b6: Octet, b7: Octet)
    requires tab.Length0 == 8 && tab.Length1 == 256 && Built(tab, 8)
    requires lo == Xor(Load4(b0, b1, b2, b3), c) && hi == Load4(b4, b5, b6, b7)
    ensures Xor(Xor(Xor(Xor(Xor(Xor(Xor(
              At(tab, 7, Low(lo)), At(tab, 6, Octet1(lo))), At(tab, 5, Octet2(lo))), At(tab, 4, Octet3(lo))),
              At(tab, 3, Low(hi))), At(tab, 2, Octet1(hi))), At(tab, 1, Octet2(hi))), At(tab, 0, Octet3(hi)))
            == Feed(Feed(Feed(Feed(Feed(Feed(Feed(Feed(c, b0), b1), b2), b3), b4), b5), b6), b7)
  {
    hide *;
    XorCommutes(Load4(b0, b1, b2, b3), c);
    FourFed(c, b0, b1, b2, b3);
    var c4 := Feed(Feed(Feed(Feed(c, b0), b1), b2), b3);
    FourFed(c4, b4, b5, b6, b7);
    ZerosLinear(c4, hi, 4);
    ZerosAdd(lo, 4, 4);
    FourAt(tab, 4, lo);
    FourAt(tab, 0, hi);
    var a := Zeros(lo, 8);
    var (x, y, z, w) := (At(tab, 3, Low(hi)), At(tab, 2, Octet1(hi)), At(tab, 1, Octet2(hi)), At(tab, 0, Octet3(hi)));
    XorAssociates(a, Xor(Xor(x, y), z), w);
    XorAssociates(a, Xor(x, y), z);
    XorAssociates(a, x, y);
  }

  /** m9_crc_raw_portable. */
  method RawPortable(tab: array2<Word>, c0: Word, p: seq<Octet>) returns (c: Word)
    requires tab.Length0 == 8 && tab.Length1 == 256 && Built(tab, 8)
    ensures c == Crc(c0, p)
  {
    hide *;
    c := c0;
    var i := 0;
    CrcNothing(c0, p);
    while |p| - i >= 8
      invariant 0 <= i <= |p| && c == Crc(c0, p[..i])
    {
      var lo := Xor(Load4(p[i], p[i + 1], p[i + 2], p[i + 3]), c);
      var hi := Load4(p[i + 4], p[i + 5], p[i + 6], p[i + 7]);
      CrcEight(c0, p, i);
      EightAt(tab, c, lo, hi, p[i], p[i + 1], p[i + 2], p[i + 3], p[i + 4], p[i + 5], p[i + 6], p[i + 7]);
      c := Xor(Xor(Xor(Xor(Xor(Xor(Xor(
             At(tab, 7, Low(lo)), At(tab, 6, Octet1(lo))), At(tab, 5, Octet2(lo))), At(tab, 4, Octet3(lo))),
             At(tab, 3, Low(hi))), At(tab, 2, Octet1(hi))), At(tab, 1, Octet2(hi))), At(tab, 0, Octet3(hi)));
      i := i + 8;
    }
    while i < |p|
      invariant 0 <= i <= |p| && c == Crc(c0, p[..i])
    {
      OneAt(tab, c, p[i]);
      CrcSnoc(c0, p, i);
      c := Xor(At(tab, 0, Low(Xor(c, Wide(p[i])))), Shr8(c));
      i := i + 1;
    }
    assert p[..|p|] == p;
  }

  lemma CrcNothing(c: Word, p: seq<Octet>)
    ensures Crc(c, p[..0]) == c
  {}

  /** One octet by table 0. */
  lemma OneAt(tab: array2<Word>, c: Word, b: Octet)
    requires tab.Length0 == 8 && tab.Length1 == 256 && Built(tab, 8)
    ensures Xor(At(tab, 0, Low(Xor(c, Wide(b)))), Shr8(c)) == Feed(c, b)
  {
    hide *;
    var x := Xor(c, Wide(b));
    FeedIsCarry(c, b);
    TableStep(x);
    Shr8Wide(c, b);
    LowIsOctet(x);
    TabAt(tab, 0, Low(x));
    TableZero(Low(x));
  }
}
