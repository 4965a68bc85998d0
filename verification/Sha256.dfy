/** SHA-256 (FIPS 180-4): the block function both shims hold, the padding, and the digest
    of a whole message. */
module Sha256 {
  import opened Arith

  type Octet = bv8
  type Word = bv32

  const K: seq<Word> := [
    0x428a2f98, 0x71374491, 0xb5c0fbcf, 0xe9b5dba5, 0x3956c25b, 0x59f111f1, 0x923f82a4, 0xab1c5ed5,
    0xd807aa98, 0x12835b01, 0x243185be, 0x550c7dc3, 0x72be5d74, 0x80deb1fe, 0x9bdc06a7, 0xc19bf174,
    0xe49b69c1, 0xefbe4786, 0x0fc19dc6, 0x240ca1cc, 0x2de92c6f, 0x4a7484aa, 0x5cb0a9dc, 0x76f988da,
    0x983e5152, 0xa831c66d, 0xb00327c8, 0xbf597fc7, 0xc6e00bf3, 0xd5a79147, 0x06ca6351, 0x14292967,
    0x27b70a85, 0x2e1b2138, 0x4d2c6dfc, 0x53380d13, 0x650a7354, 0x766a0abb, 0x81c2c92e, 0x92722c85,
    0xa2bfe8a1, 0xa81a664b, 0xc24b8b70, 0xc76c51a3, 0xd192e819, 0xd6990624, 0xf40e3585, 0x106aa070,
    0x19a4c116, 0x1e376c08, 0x2748774c, 0x34b0bcb5, 0x391c0cb3, 0x4ed8aa4a, 0x5b9cca4f, 0x682e6ff3,
    0x748f82ee, 0x78a5636f, 0x84c87814, 0x8cc70208, 0x90befffa, 0xa4506ceb, 0xbef9a3f7, 0xc67178f2
  ]

  const H0: Hash := [
    0x6a09e667, 0xbb67ae85, 0x3c6ef372, 0xa54ff53a, 0x510e527f, 0x9b05688c, 0x1f83d9ab, 0x5be0cd19
  ]

  // ---- the word functions of section 4.1.2 ----

  function Ror(x: Word, n: nat): Word
    requires 0 < n < 32
  {
    (x >> n) | (x << (32 - n))
  }

  function SmallSigma0(x: Word): Word { Ror(x, 7) ^ Ror(x, 18) ^ (x >> 3) }
  function SmallSigma1(x: Word): Word { Ror(x, 17) ^ Ror(x, 19) ^ (x >> 10) }
  function BigSigma0(x: Word): Word { Ror(x, 2) ^ Ror(x, 13) ^ Ror(x, 22) }
  function BigSigma1(x: Word): Word { Ror(x, 6) ^ Ror(x, 11) ^ Ror(x, 25) }
  function Ch(e: Word, f: Word, g: Word): Word { (e & f) ^ (!e & g) }
  function Maj(a: Word, b: Word, c: Word): Word { (a & b) ^ (a & c) ^ (b & c) }

  function Word4(a: Octet, b: Octet, c: Octet, d: Octet): Word {
    ((a as bv32) << 24) | ((b as bv32) << 16) | ((c as bv32) << 8) | (d as bv32)
  }

  function Plus(x: Word, y: Word): Word { x + y }

  function Expand(w16: Word, w15: Word, w7: Word, w2: Word): Word {
    w16 + SmallSigma0(w15) + w7 + SmallSigma1(w2)
  }

  function T1(e: Word, f: Word, g: Word, h: Word, k: Word, w: Word): Word {
    h + BigSigma1(e) + Ch(e, f, g) + k + w
  }

  function T2(a: Word, b: Word, c: Word): Word {
    BigSigma0(a) + Maj(a, b, c)
  }

  // ---- one block ----

  type Block = p: seq<Octet> | |p| == 64 witness seq(64, _ => 0)
  type Hash = h: seq<Word> | |h| == 8 witness seq(8, _ => 0)

  /** The message schedule, section 6.2.2 step 1. */
  function Schedule(p: Block, i: nat): Word {
    if i < 16 then Word4(p[4 * i], p[4 * i + 1], p[4 * i + 2], p[4 * i + 3])
    else
      Expand(Schedule(p, i - 16), Schedule(p, i - 15), Schedule(p, i - 7), Schedule(p, i - 2))
  }

  /** The eight working words. */
  datatype Vars = Vars(a: Word, b: Word, c: Word, d: Word, e: Word, f: Word, g: Word, h: Word)

  function Round(v: Vars, k: Word, w: Word): Vars {
    var t1 := T1(v.e, v.f, v.g, v.h, k, w);
    var t2 := T2(v.a, v.b, v.c);
    Vars(Plus(t1, t2), v.a, v.b, v.c, Plus(v.d, t1), v.e, v.f, v.g)
  }

  function Rounds(v: Vars, p: Block, i: nat): Vars
    requires i <= 64
  {
    if i == 0 then v else Round(Rounds(v, p, i - 1), K[i - 1], Schedule(p, i - 1))
  }

  function Start(h: Hash): Vars {
    Vars(h[0], h[1], h[2], h[3], h[4], h[5], h[6], h[7])
  }

  /** The hash words plus the working words, one by one. */
  function Added(h: Hash, v: Vars): Hash {
    [Plus(h[0], v.a), Plus(h[1], v.b), Plus(h[2], v.c), Plus(h[3], v.d),
     Plus(h[4], v.e), Plus(h[5], v.f), Plus(h[6], v.g), Plus(h[7], v.h)]
  }

  function Compress(h: Hash, p: Block): Hash {
    Added(h, Rounds(Start(h), p, 64))
  }

  /** block: the loops of both shims, on the hash words in place. */
  method CompressInPlace(h: array<Word>, p: Block)
    requires h.Length == 8
    modifies h
    ensures h[..] == Compress(old(h[..]), p)
  {
    hide Plus, T1, T2, Schedule;
    var w := new Word[64];
    FillSchedule(w, p);
    var a, b, c, d := h[0], h[1], h[2], h[3];
    var e, f, g, hh := h[4], h[5], h[6], h[7];
    ghost var start := Start(h[..]);
    for i := 0 to 64
      invariant h[..] == old(h[..])
      invariant forall j :: 0 <= j < 64 ==> w[j] == Schedule(p, j)
      invariant Vars(a, b, c, d, e, f, g, hh) == Rounds(start, p, i)
    {
      var t1 := T1(e, f, g, hh, K[i], w[i]);
      var t2 := T2(a, b, c);
      hh, g, f, e := g, f, e, Plus(d, t1);
      d, c, b, a := c, b, a, Plus(t1, t2);
    }
    AddInPlace(h, Vars(a, b, c, d, e, f, g, hh));
  }

  method AddInPlace(h: array<Word>, v: Vars)
    requires h.Length == 8
    modifies h
    ensures h[..] == Added(old(h[..]), v)
  {
    hide Plus;
    AddHalf(h, 0, v.a, v.b, v.c, v.d);
    AddHalf(h, 4, v.e, v.f, v.g, v.h);
  }

  method AddHalf(h: array<Word>, at: nat, a: Word, b: Word, c: Word, d: Word)
    requires at + 4 <= h.Length
    modifies h
    ensures h[at] == Plus(old(h[at]), a) && h[at + 1] == Plus(old(h[at + 1]), b)
    ensures h[at + 2] == Plus(old(h[at + 2]), c) && h[at + 3] == Plus(old(h[at + 3]), d)
    ensures forall i :: 0 <= i < h.Length && !(at <= i < at + 4) ==> h[i] == old(h[i])
  {
    hide Plus;
    h[at], h[at + 1], h[at + 2], h[at + 3] :=
      Plus(h[at], a), Plus(h[at + 1], b), Plus(h[at + 2], c), Plus(h[at + 3], d);
  }

  method FillSchedule(w: array<Word>, p: Block)
    requires w.Length == 64
    modifies w
    ensures forall j :: 0 <= j < 64 ==> w[j] == Schedule(p, j)
  {
    hide Word4, Expand, Schedule;
    for i := 0 to 16
      invariant forall j :: 0 <= j < i ==> w[j] == Schedule(p, j)
    {
      ScheduleAt(p, i);
      w[i] := Word4(p[4 * i], p[4 * i + 1], p[4 * i + 2], p[4 * i + 3]);
    }
    for i := 16 to 64
      invariant forall j :: 0 <= j < i ==> w[j] == Schedule(p, j)
    {
      ScheduleAt(p, i);
      w[i] := Expand(w[i - 16], w[i - 15], w[i - 7], w[i - 2]);
    }
  }

  lemma ScheduleAt(p: Block, i: nat)
    ensures i < 16 ==> Schedule(p, i) == Word4(p[4 * i], p[4 * i + 1], p[4 * i + 2], p[4 * i + 3])
    ensures i >= 16 ==>
              Schedule(p, i) == Expand(Schedule(p, i - 16), Schedule(p, i - 15), Schedule(p, i - 7), Schedule(p, i - 2))
  {
    hide Word4, Expand;
  }

  // ---- many blocks ----

  function Blocks(h: Hash, p: seq<Octet>): Hash
    decreases |p|
  {
    if |p| < 64 then h else Blocks(Compress(h, p[..64]), p[64..])
  }

  lemma {:induction false} BlocksConcat(h: Hash, p: seq<Octet>, q: seq<Octet>)
    requires |p| % 64 == 0
    ensures Blocks(h, p + q) == Blocks(Blocks(h, p), q)
    decreases |p|
  {
    hide Compress;
    if p == [] {
      assert p + q == q;
    } else {
      assert (p + q)[..64] == p[..64] && (p + q)[64..] == p[64..] + q;
      BlocksConcat(Compress(h, p[..64]), p[64..], q);
    }
  }

  lemma BlocksSnoc(h: Hash, p: seq<Octet>, b: Block)
    requires |p| % 64 == 0
    ensures Blocks(h, p + b) == Compress(Blocks(h, p), b)
  {
    hide Compress;
    BlocksConcat(h, p, b);
    var g := Blocks(h, p);
    assert b[..64] == b && b[64..] == [];
    assert Blocks(g, b) == Blocks(Compress(g, b), []);
  }

  // ---- padding, section 5.1.1 ----

  function Zeros(k: nat): (z: seq<Octet>)
    ensures |z| == k
  {
    seq(k, _ => 0)
  }

  function OctetOf(x: nat): Octet {
    (x % 256) as bv8
  }

  /** The length in bits, in 64 of them. */
  function LengthBits(n: nat): nat {
    n * 8 % 0x1_0000_0000_0000_0000
  }

  /** bits >> 8 * i, cast to an octet. */
  function Shifted(bits: nat, i: nat): Octet {
    OctetOf(Quotient(bits, Pow256(i)))
  }

  /** The length in eight octets, the highest first. */
  function LengthOctets(n: nat): (s: seq<Octet>)
    ensures |s| == 8
  {
    seq(8, i requires 0 <= i < 8 => Shifted(LengthBits(n), 7 - i))
  }

  /** How many zero octets follow the 0x80. */
  function PadCount(n: nat): (k: nat)
    ensures k < 64
  {
    (55 - n) % 64
  }

  function Padding(n: nat): seq<Octet> {
    [0x80] + Zeros(PadCount(n)) + LengthOctets(n)
  }

  /** It is the least count that ends the message on a block. */
  lemma PadCountLeast(n: nat, k: nat)
    ensures (n + 1 + PadCount(n) + 8) % 64 == 0
    ensures (n + 1 + k + 8) % 64 == 0 ==> PadCount(n) <= k
  {}

  // ---- the digest ----

  function Digest(msg: seq<Octet>): Hash {
    Blocks(H0, msg + Padding(|msg|))
  }

  /** The last of a message: what follows the whole blocks, padded, is one block or two. */
  lemma DigestOfTail(msg: seq<Octet>, full: nat)
    requires full <= |msg| && full % 64 == 0
    ensures Digest(msg) == Blocks(Blocks(H0, msg[..full]), msg[full..] + Padding(|msg|))
  {
    assert msg + Padding(|msg|) == msg[..full] + (msg[full..] + Padding(|msg|));
    BlocksConcat(H0, msg[..full], msg[full..] + Padding(|msg|));
  }

  /** The four octets of a hash word, the highest first. */
  function WordOctets(x: Word): (s: seq<Octet>)
    ensures |s| == 4
  {
    [((x >> 24) & 0xFF) as bv8, ((x >> 16) & 0xFF) as bv8, ((x >> 8) & 0xFF) as bv8, (x & 0xFF) as bv8]
  }

  function HashOctets(h: seq<Word>): seq<Octet> {
    if h == [] then [] else HashOctets(h[..|h| - 1]) + WordOctets(h[|h| - 1])
  }

  lemma HashOctetsSnoc(h: seq<Word>, i: nat)
    requires i < |h|
    ensures HashOctets(h[..i + 1]) == HashOctets(h[..i]) + WordOctets(h[i])
  {
    assert h[..i + 1][..i] == h[..i];
  }

  lemma {:induction false} HashOctetsLength(h: seq<Word>)
    ensures |HashOctets(h)| == 4 * |h|
  {
    if h != [] {
      HashOctetsLength(h[..|h| - 1]);
    }
  }
}
