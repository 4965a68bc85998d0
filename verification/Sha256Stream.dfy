/** The two SHA-256 shims: the stream that takes a message in updates of any size
    (runtime/sha256shim.c:104-153) and the one call for a whole message
    (runtime/hashshim.c:84-120).  Both give the digest of the padded message. */
module Sha256Stream {
  import opened Sha256

  /** The state Hash.Sha256 holds.  msg is the message so far. */
  class Stream {
    const h: array<Word>
    const buf: array<Octet>
    var n: nat
    var total: nat
    ghost var msg: seq<Octet>

    ghost predicate Valid()
      reads this, h, buf
    {
      h.Length == 8 && buf.Length == 64
      && total == |msg| && n == |msg| % 64
      && buf[..n] == msg[|msg| - n..]
      && h[..] == Blocks(H0, msg[..|msg| - n])
    }

    /** m9_sha256_init. */
    constructor ()
      ensures Valid() && msg == [] && fresh(h) && fresh(buf)
    {
      h := new Word[8](i requires 0 <= i < 8 => H0[i]);
      buf := new Octet[64](_ => 0);
      n, total, msg := 0, 0, [];
      new;
      assert h[..] == H0;
    }

    /** What Update keeps while octets of its source are still to come. */
    ghost predicate Filling()
      reads this, h, buf
    {
      h.Length == 8 && buf.Length == 64 && n == |msg| % 64
      && buf[..n] == msg[|msg| - n..] && h[..] == Blocks(H0, msg[..|msg| - n])
    }

    /** m9_sha256_update. */
    method Update(src: seq<Octet>)
      requires Valid()
      modifies this, h, buf
      ensures Valid() && msg == old(msg) + src
    {
      hide Blocks;
      total := total + |src|;
      var i := 0;
      ghost var before := msg;
      assert src[..0] == [] && msg == before + src[..0];
      while i < |src|
        invariant 0 <= i <= |src|
        invariant msg == before + src[..i] && total == |before| + |src|
        invariant Filling()
        decreases |src| - i
      {
        var k := Next(src, i);
        assert src[..i] + src[i..i + k] == src[..i + k];
        assert before + src[..i] + src[i..i + k] == before + src[..i + k];
        i := i + k;
      }
      assert src[..|src|] == src;
    }

    /** One turn of the loop: a block from the source, or what fits in the buffer. */
    method Next(src: seq<Octet>, i: nat) returns (k: nat)
      requires Filling() && i < |src|
      modifies `n, `msg, h, buf
      ensures 0 < k <= |src| - i && Filling()
      ensures msg == old(msg) + src[i..i + k]
    {
      hide Blocks;
      if n == 0 && |src| - i >= 64 {
        k := 64;
        assert msg[..|msg|] == msg;
        TakeBlock(src[i..i + 64]);
        assert msg[..|msg|] == msg;
      } else {
        k := if 64 - n > |src| - i then |src| - i else 64 - n;
        Fill(src[i..i + k]);
      }
    }

    /** A whole block straight from the source, when nothing is buffered. */
    method TakeBlock(b: Block)
      requires h.Length == 8 && buf.Length == 64 && n == 0 && |msg| % 64 == 0
      requires h[..] == Blocks(H0, msg)
      modifies `msg, h
      ensures msg == old(msg) + b && |msg| % 64 == 0
      ensures h[..] == Blocks(H0, msg)
    {
      hide *;
      BlocksSnoc(H0, msg, b);
      CompressInPlace(h, b);
      msg := msg + b;
    }

    /** Octets into the buffer; a full buffer goes through the block function. */
    method Fill(p: seq<Octet>)
      requires h.Length == 8 && buf.Length == 64 && n == |msg| % 64 && 0 < |p| <= 64 - n
      requires buf[..n] == msg[|msg| - n..] && h[..] == Blocks(H0, msg[..|msg| - n])
      modifies `n, `msg, h, buf
      ensures msg == old(msg) + p && n == |msg| % 64
      ensures buf[..n] == msg[|msg| - n..] && h[..] == Blocks(H0, msg[..|msg| - n])
    {
      hide *;
      ghost var whole := msg[..|msg| - n];
      Buffered(msg, n, p);
      CopyIn(buf, n, p);
      n := n + |p|;
      msg := msg + p;
      if n == 64 {
        EmptyBuffer(whole, buf[..64]);
        BlocksSnoc(H0, whole, buf[..64]);
        CompressInPlace(h, buf[..64]);
        n := 0;
      }
    }

    /** m9_sha256_final; the stream is spent. */
    method Final() returns (out: array<Octet>)
      requires Valid()
      modifies this, h, buf
      ensures fresh(out) && out[..] == HashOctets(Digest(old(msg)))
    {
      hide *;
      ValidParts();
      ghost var tail, g := buf[..n], h[..];
      FinalBlocks(msg, n, tail, g);
      PutOctet(buf, n, 0x80);
      n := n + 1;
      if n > 56 {
        Clear(buf, n, 64);
        assert buf[..] == buf[..64];
        CompressInPlace(h, buf[..]);
        n := 0;
      }
      ghost var front := buf[..n];
      Clear(buf, n, 56);
      PutLengthAt(buf, 56, total);
      assert buf[..] == buf[..64] == front + Zeros(56 - n) + LengthOctets(total);
      CompressInPlace(h, buf[..]);
      out := Octets(h);
    }

    lemma ValidParts()
      requires Valid()
      ensures h.Length == 8 && buf.Length == 64 && total == |msg| && n == |msg| % 64
      ensures buf[..n] == msg[|msg| - n..] && h[..] == Blocks(H0, msg[..|msg| - n])
    {}
  }

  lemma Buffered(msg: seq<Octet>, n: nat, p: seq<Octet>)
    requires n == |msg| % 64 && |p| <= 64 - n
    ensures var m := msg + p;
            var whole := msg[..|msg| - n];
            m[..|m| - (n + |p|)] == whole && m[|m| - (n + |p|)..] == msg[|msg| - n..] + p
            && m == whole + (msg[|msg| - n..] + p) && |whole| % 64 == 0
            && (n + |p| < 64 ==> n + |p| == |m| % 64)
  {}

  lemma EmptyBuffer(whole: seq<Octet>, b: Block)
    requires |whole| % 64 == 0
    ensures var m := whole + b; |m| % 64 == 0 && m[|m|..] == [] && m[..|m|] == m
  {}

  // ---- the last block or two ----

  /** The digest as the final step computes it, from the octets left in the buffer. */
  lemma FinalBlocks(msg: seq<Octet>, n: nat, tail: seq<Octet>, g: Hash)
    requires n == |msg| % 64 && tail == msg[|msg| - n..] && g == Blocks(H0, msg[..|msg| - n])
    ensures n + 1 <= 56 ==>
              var b := tail + [0x80] + Zeros(56 - (n + 1)) + LengthOctets(|msg|);
              |b| == 64 && Digest(msg) == Compress(g, b)
    ensures n + 1 > 56 ==>
              var b := tail + [0x80] + Zeros(64 - (n + 1));
              var c := [] + Zeros(56) + LengthOctets(|msg|);
              |b| == |c| == 64 && Digest(msg) == Compress(Compress(g, b), c)
  {
    hide Compress, LengthOctets, Digest;
    DigestOfTail(msg, |msg| - n);
    var k := PadCount(|msg|);
    var rest := tail + Padding(|msg|);
    if n + 1 <= 56 {
      assert k == 55 - n;
      var b := tail + [0x80] + Zeros(56 - (n + 1)) + LengthOctets(|msg|);
      assert rest == b;
      OneBlock(g, b);
    } else {
      assert k == 119 - n;
      var b := tail + [0x80] + Zeros(64 - (n + 1));
      var c := [] + Zeros(56) + LengthOctets(|msg|);
      assert Zeros(k) == Zeros(64 - (n + 1)) + Zeros(56);
      assert rest == b + c;
      BlocksConcat(g, b, c);
      OneBlock(g, b);
      OneBlock(Compress(g, b), c);
    }
  }

  lemma OneBlock(g: Hash, b: Block)
    ensures Blocks(g, b) == Compress(g, b)
  {
    hide Compress;
    assert b[..64] == b && b[64..] == [];
    assert Blocks(g, b) == Blocks(Compress(g, b), []);
  }

  // ---- buffers ----

  method PutOctet(buf: array<Octet>, at: nat, b: Octet)
    requires at < buf.Length
    modifies buf
    ensures buf[..at + 1] == old(buf[..at]) + [b]
  {
    buf[at] := b;
  }

  /** memset (buf + from, 0, to - from). */
  method Clear(buf: array<Octet>, from: nat, to: nat)
    requires from <= to <= buf.Length
    modifies buf
    ensures buf[..to] == old(buf[..from]) + Zeros(to - from)
  {
    forall i | from <= i < to {
      buf[i] := 0;
    }
  }

  method PutFour(out: array<Octet>, at: nat, w: seq<Octet>)
    requires |w| == 4 && at + 4 <= out.Length
    modifies out
    ensures out[..at + 4] == old(out[..at]) + w
  {
    out[at], out[at + 1], out[at + 2], out[at + 3] := w[0], w[1], w[2], w[3];
  }

  /** The hash words as octets, the highest of each first. */
  method Octets(h: array<Word>) returns (out: array<Octet>)
    requires h.Length == 8
    ensures fresh(out) && out[..] == HashOctets(h[..])
  {
    hide WordOctets;
    out := new Octet[32];
    for i := 0 to 8
      invariant out[..4 * i] == HashOctets(h[..i])
    {
      HashOctetsSnoc(h[..], i);
      assert h[..][..i] == h[..i] && h[..][..i + 1] == h[..i + 1];
      var w := WordOctets(h[i]);
      PutFour(out, 4 * i, w);
    }
    assert out[..32] == out[..] && h[..8] == h[..];
  }

  /** memcpy (buf + at, p, |p|). */
  method CopyIn(buf: array<Octet>, at: nat, p: seq<Octet>)
    requires at + |p| <= buf.Length
    modifies buf
    ensures buf[..at] == old(buf[..at]) && buf[at..at + |p|] == p && buf[at + |p|..] == old(buf[at + |p|..])
    ensures buf[..at + |p|] == old(buf[..at]) + p
  {
    forall i | 0 <= i < |p| {
      buf[at + i] := p[i];
    }
  }

  // ---- one shot ----

  const DIGITS: string := "0123456789abcdef"

  function HexDigit(b: Octet): char {
    DIGITS[(b & 0x0F) as int]
  }

  /** An octet as two lower-case digits. */
  function HexOctet(b: Octet): (s: string)
    ensures |s| == 2
  {
    [HexDigit(b >> 4), HexDigit(b & 0x0F)]
  }

  function HexOf(p: seq<Octet>): (s: string)
    ensures |s| == 2 * |p|
  {
    if p == [] then [] else HexOf(p[..|p| - 1]) + HexOctet(p[|p| - 1])
  }

  lemma {:induction false} HexConcat(p: seq<Octet>, q: seq<Octet>)
    ensures HexOf(p + q) == HexOf(p) + HexOf(q)
  {
    hide HexOctet;
    if q == [] {
      assert p + q == p;
    } else {
      assert (p + q)[..|p + q| - 1] == p + q[..|q| - 1];
      HexConcat(p, q[..|q| - 1]);
    }
  }

  /** The nibble of a word the one-shot form takes: digits[(x >> s) & 15]. */
  function Nibble(x: Word, s: nat): char
    requires s < 32
  {
    DIGITS[((((x >> s) & 15) as bv8) & 0x0F) as int]
  }

  function HexWord(x: Word): (s: string)
    ensures |s| == 8
  {
    [Nibble(x, 28), Nibble(x, 24), Nibble(x, 20), Nibble(x, 16),
     Nibble(x, 12), Nibble(x, 8), Nibble(x, 4), Nibble(x, 0)]
  }

  lemma Nibbles(x: Word)
    ensures var w := WordOctets(x);
            HexOctet(w[0]) == [Nibble(x, 28), Nibble(x, 24)] && HexOctet(w[1]) == [Nibble(x, 20), Nibble(x, 16)]
            && HexOctet(w[2]) == [Nibble(x, 12), Nibble(x, 8)] && HexOctet(w[3]) == [Nibble(x, 4), Nibble(x, 0)]
  {}

  /** A word's eight digits are those of its four octets. */
  lemma HexOfWord(x: Word)
    ensures HexOf(WordOctets(x)) == HexWord(x)
  {
    hide WordOctets, HexOctet, Nibble;
    var w := WordOctets(x);
    Nibbles(x);
    assert w[..3][..2] == w[..2] && w[..2][..1] == w[..1] && w[..1][..0] == [];
    assert HexOf(w[..1]) == HexOctet(w[0]);
    assert HexOf(w[..2]) == HexOctet(w[0]) + HexOctet(w[1]);
    assert HexOf(w[..3]) == HexOctet(w[0]) + HexOctet(w[1]) + HexOctet(w[2]);
  }

  /** The whole blocks of the source. */
  method WholeBlocks(h: array<Word>, src: seq<Octet>, full: nat)
    requires h.Length == 8 && h[..] == H0 && full <= |src| && full % 64 == 0
    modifies h
    ensures h[..] == Blocks(H0, src[..full])
  {
    hide Compress, Blocks;
    NoBlocks(H0, src);
    var i := 0;
    while i < full
      invariant 0 <= i <= full && i % 64 == 0
      invariant h[..] == Blocks(H0, src[..i])
    {
      BlocksSnoc(H0, src[..i], src[i..i + 64]);
      assert src[..i] + src[i..i + 64] == src[..i + 64];
      CompressInPlace(h, src[i..i + 64]);
      i := i + 64;
    }
  }

  lemma NoBlocks(h: Hash, src: seq<Octet>)
    ensures Blocks(h, src[..0]) == h
  {}

  method PutLengthAt(tail: array<Octet>, at: nat, n: nat)
    requires at + 8 <= tail.Length
    modifies tail
    ensures tail[..at + 8] == old(tail[..at]) + LengthOctets(n)
  {
    hide Shifted, LengthBits;
    var bits := LengthBits(n);
    for i := 0 to 8
      invariant tail[..at] == old(tail[..at])
      invariant forall j :: 0 <= j < i ==> tail[at + j] == LengthOctets(n)[j]
    {
      tail[at + i] := Shifted(bits, 7 - i);
    }
  }

  /** The tail of a message, padded into one block or two, and hashed. */
  method HashTail(h: array<Word>, src: seq<Octet>, full: nat)
    requires h.Length == 8 && full == |src| / 64 * 64 && h[..] == Blocks(H0, src[..full])
    modifies h
    ensures h[..] == Digest(src)
  {
    hide *;
    var tail := new Octet[128](_ => 0);
    var rest := |src| - full;
    FinalBlocks(src, rest, src[full..], h[..]);
    CopyIn(tail, 0, src[full..]);
    assert tail[..0] == [] && tail[..rest] == src[full..];
    PutOctet(tail, rest, 0x80);
    if rest + 1 > 56 {
      TwoBlockTail(tail, rest + 1, |src|);
      CompressInPlace(h, tail[..64]);
      CompressInPlace(h, tail[64..128]);
    } else {
      Clear(tail, rest + 1, 56);
      PutLengthAt(tail, 56, |src|);
      CompressInPlace(h, tail[..64]);
    }
  }

  method TwoBlockTail(tail: array<Octet>, at: nat, n: nat)
    requires tail.Length == 128 && 56 < at <= 64
    modifies tail
    ensures tail[..64] == old(tail[..at]) + Zeros(64 - at)
    ensures tail[64..128] == [] + Zeros(56) + LengthOctets(n)
  {
    hide LengthOctets;
    Clear(tail, at, 120);
    SplitZeros(64 - at, 56);
    PutLengthAt(tail, 120, n);
    ghost var all := tail[..128];
    assert all == old(tail[..at]) + Zeros(64 - at) + (Zeros(56) + LengthOctets(n));
    assert tail[..64] == all[..64] && tail[64..128] == all[64..];
  }

  lemma SplitZeros(a: nat, b: nat)
    ensures Zeros(a + b) == Zeros(a) + Zeros(b)
  {}

  /** m9_sha256_hex. */
  method Sha256Hex(src: seq<Octet>, hex: array<char>)
    requires hex.Length == 64
    modifies hex
    ensures hex[..] == HexOf(HashOctets(Digest(src)))
  {
    hide *;
    var h := new Word[8](i requires 0 <= i < 8 => H0[i]);
    assert h[..] == H0;
    var full := |src| / 64 * 64;
    WholeBlocks(h, src, full);
    HashTail(h, src, full);
    WriteHex(h, hex);
  }

  method WriteHex(h: array<Word>, hex: array<char>)
    requires h.Length == 8 && hex.Length == 64
    modifies hex
    ensures h[..] == old(h[..]) && hex[..] == HexOf(HashOctets(h[..]))
  {
    hide Nibble, WordOctets, HexOctet;
    for i := 0 to 8
      invariant hex[..8 * i] == HexOf(HashOctets(h[..i]))
    {
      assert h[..][..i] == h[..i] && h[..][..i + 1] == h[..i + 1];
      HashOctetsSnoc(h[..], i);
      HexConcat(HashOctets(h[..i]), WordOctets(h[i]));
      HexOfWord(h[i]);
      WriteWord(hex, 8 * i, h[i]);
    }
    assert hex[..64] == hex[..] && h[..8] == h[..];
  }

  method WriteWord(hex: array<char>, at: nat, x: Word)
    requires at + 8 <= hex.Length
    modifies hex
    ensures hex[..at + 8] == old(hex[..at]) + HexWord(x)
  {
    hide Nibble;
    hex[at], hex[at + 1], hex[at + 2], hex[at + 3] := Nibble(x, 28), Nibble(x, 24), Nibble(x, 20), Nibble(x, 16);
    hex[at + 4], hex[at + 5], hex[at + 6], hex[at + 7] := Nibble(x, 12), Nibble(x, 8), Nibble(x, 4), Nibble(x, 0);
  }
}
