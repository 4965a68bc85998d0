/** Eight octets at a time: the test for a high bit and the continuation count, over
    the little-endian word the octets load as. */
module Utf8Words {
  import opened Utf8

  type Word = bv64

  function Word8(b0: Octet, b1: Octet, b2: Octet, b3: Octet,
                 b4: Octet, b5: Octet, b6: Octet, b7: Octet): Word
  {
    (b0 as bv64) | ((b1 as bv64) << 8) | ((b2 as bv64) << 16) | ((b3 as bv64) << 24)
    | ((b4 as bv64) << 32) | ((b5 as bv64) << 40) | ((b6 as bv64) << 48) | ((b7 as bv64) << 56)
  }

  function LoadWord(u: Text, i: nat): Word
    requires i + 8 <= |u|
  {
    Word8(u[i], u[i + 1], u[i + 2], u[i + 3], u[i + 4], u[i + 5], u[i + 6], u[i + 7])
  }

  lemma HighBits(b0: Octet, b1: Octet, b2: Octet, b3: Octet,
                 b4: Octet, b5: Octet, b6: Octet, b7: Octet)
    ensures Word8(b0, b1, b2, b3, b4, b5, b6, b7) & 0x8080808080808080 == 0
            <==> b0 < 0x80 && b1 < 0x80 && b2 < 0x80 && b3 < 0x80
                 && b4 < 0x80 && b5 < 0x80 && b6 < 0x80 && b7 < 0x80
  {}

  /** One bit a continuation octet, at the bottom of its byte. */
  function ContBits(w: Word): Word {
    (w & !(w << 1) & 0x8080808080808080) >> 7
  }

  /** The bits summed by one multiplication, into the top byte. */
  function SumBits(m: Word): Word {
    (m * 0x0101010101010101) >> 56
  }

  function Bit(b: Octet): Word {
    if IsCont(b) then 1 else 0
  }

  lemma ContBitsOfWord(b0: Octet, b1: Octet, b2: Octet, b3: Octet,
                       b4: Octet, b5: Octet, b6: Octet, b7: Octet)
    ensures ContBits(Word8(b0, b1, b2, b3, b4, b5, b6, b7))
            == Bit(b0) | (Bit(b1) << 8) | (Bit(b2) << 16) | (Bit(b3) << 24)
               | (Bit(b4) << 32) | (Bit(b5) << 40) | (Bit(b6) << 48) | (Bit(b7) << 56)
  {}

  lemma SumOfBits(x0: Word, x1: Word, x2: Word, x3: Word, x4: Word, x5: Word, x6: Word, x7: Word)
    requires x0 <= 1 && x1 <= 1 && x2 <= 1 && x3 <= 1 && x4 <= 1 && x5 <= 1 && x6 <= 1 && x7 <= 1
    ensures SumBits(x0 | (x1 << 8) | (x2 << 16) | (x3 << 24)
                    | (x4 << 32) | (x5 << 40) | (x6 << 48) | (x7 << 56))
            == x0 + x1 + x2 + x3 + x4 + x5 + x6 + x7
  {}

  /** The octets counted one by one. */
  function ContCount(u: Text): (n: nat)
    ensures n <= |u|
  {
    if u == [] then 0 else ContCount(u[..|u| - 1]) + (if IsCont(u[|u| - 1]) then 1 else 0)
  }

  /** The conversion of a sum of at most eight to an integer. */
  function Small(w: Word): int {
    ((w & 0xFF) as bv8) as int
  }

  function BitInt(b: Octet): nat {
    if IsCont(b) then 1 else 0
  }

  /** Adding one more bit to a sum of at most seven. */
  lemma SmallPlus(w: Word, x: Word, limit: Word)
    requires w <= limit < 8 && x <= 1
    ensures w + x <= limit + 1
    ensures Small(w + x) == Small(w) + Small(x)
  {
    if x == 0 {
      assert w + x == w;
    } else {
      SmallPlusOne((w & 0xFF) as bv8);
      assert ((w + x) & 0xFF) as bv8 == ((w & 0xFF) as bv8) + 1;
    }
  }

  lemma SmallPlusOne(b: bv8)
    requires b < 8
    ensures (b + 1) as int == b as int + 1
  {}

  lemma SmallBit(b: Octet)
    ensures Bit(b) <= 1 && Small(Bit(b)) == BitInt(b)
  {}

  lemma SmallSum(x0: Word, x1: Word, x2: Word, x3: Word, x4: Word, x5: Word, x6: Word, x7: Word)
    requires x0 <= 1 && x1 <= 1 && x2 <= 1 && x3 <= 1 && x4 <= 1 && x5 <= 1 && x6 <= 1 && x7 <= 1
    ensures Small(x0 + x1 + x2 + x3 + x4 + x5 + x6 + x7)
            == Small(x0) + Small(x1) + Small(x2) + Small(x3)
               + Small(x4) + Small(x5) + Small(x6) + Small(x7)
  {
    SmallPlus(x0, x1, 1);
    SmallPlus(x0 + x1, x2, 2);
    SmallPlus(x0 + x1 + x2, x3, 3);
    SmallPlus(x0 + x1 + x2 + x3, x4, 4);
    SmallPlus(x0 + x1 + x2 + x3 + x4, x5, 5);
    SmallPlus(x0 + x1 + x2 + x3 + x4 + x5, x6, 6);
    SmallPlus(x0 + x1 + x2 + x3 + x4 + x5 + x6, x7, 7);
  }

  lemma BitsCount(x0: Word, x1: Word, x2: Word, x3: Word, x4: Word, x5: Word, x6: Word, x7: Word)
    requires x0 <= 1 && x1 <= 1 && x2 <= 1 && x3 <= 1 && x4 <= 1 && x5 <= 1 && x6 <= 1 && x7 <= 1
    ensures Small(SumBits(x0 | (x1 << 8) | (x2 << 16) | (x3 << 24)
                          | (x4 << 32) | (x5 << 40) | (x6 << 48) | (x7 << 56)))
            == Small(x0) + Small(x1) + Small(x2) + Small(x3)
               + Small(x4) + Small(x5) + Small(x6) + Small(x7)
  {
    SumOfBits(x0, x1, x2, x3, x4, x5, x6, x7);
    SmallSum(x0, x1, x2, x3, x4, x5, x6, x7);
  }

  lemma WordCount(b0: Octet, b1: Octet, b2: Octet, b3: Octet,
                  b4: Octet, b5: Octet, b6: Octet, b7: Octet)
    ensures Small(SumBits(ContBits(Word8(b0, b1, b2, b3, b4, b5, b6, b7))))
            == BitInt(b0) + BitInt(b1) + BitInt(b2) + BitInt(b3)
               + BitInt(b4) + BitInt(b5) + BitInt(b6) + BitInt(b7)
  {
    hide *;
    ContBitsOfWord(b0, b1, b2, b3, b4, b5, b6, b7);
    SmallBit(b0);
    SmallBit(b1);
    SmallBit(b2);
    SmallBit(b3);
    SmallBit(b4);
    SmallBit(b5);
    SmallBit(b6);
    SmallBit(b7);
    BitsCount(Bit(b0), Bit(b1), Bit(b2), Bit(b3), Bit(b4), Bit(b5), Bit(b6), Bit(b7));
  }

  lemma ContCountSnoc(u: Text, i: nat)
    requires i < |u|
    ensures ContCount(u[..i + 1]) == ContCount(u[..i]) + BitInt(u[i])
  {
    assert u[..i + 1][..i] == u[..i];
  }

  lemma EightSnocs(u: Text, i: nat)
    requires i + 8 <= |u|
    ensures ContCount(u[..i + 8])
            == ContCount(u[..i]) + BitInt(u[i]) + BitInt(u[i + 1]) + BitInt(u[i + 2]) + BitInt(u[i + 3])
               + BitInt(u[i + 4]) + BitInt(u[i + 5]) + BitInt(u[i + 6]) + BitInt(u[i + 7])
  {
    ContCountSnoc(u, i);
    ContCountSnoc(u, i + 1);
    ContCountSnoc(u, i + 2);
    ContCountSnoc(u, i + 3);
    ContCountSnoc(u, i + 4);
    ContCountSnoc(u, i + 5);
    ContCountSnoc(u, i + 6);
    ContCountSnoc(u, i + 7);
  }

  /** One word's count is that of its eight octets. */
  lemma WordAt(u: Text, i: nat)
    requires i + 8 <= |u|
    ensures ContCount(u[..i + 8]) == ContCount(u[..i]) + Small(SumBits(ContBits(LoadWord(u, i))))
  {
    EightSnocs(u, i);
    WordCount(u[i], u[i + 1], u[i + 2], u[i + 3], u[i + 4], u[i + 5], u[i + 6], u[i + 7]);
  }

  lemma HighBitsAt(u: Text, i: nat)
    requires i + 8 <= |u|
    ensures LoadWord(u, i) & 0x8080808080808080 == 0 <==> forall k :: i <= k < i + 8 ==> u[k] < 0x80
  {
    HighBits(u[i], u[i + 1], u[i + 2], u[i + 3], u[i + 4], u[i + 5], u[i + 6], u[i + 7]);
  }
}
