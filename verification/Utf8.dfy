/** UTF-8 as the runtime writes, reads and checks it: the encoder, the decoder and
    the strict sequence loop, held to an encoding-first definition of the format
    (sections 3 and 4 of RFC 3629). */
module Utf8 {

  type Octet = bv8
  type Text = seq<Octet>

  /** A CHAR is 32 bits wide; only Unicode scalar values are characters. */
  type Char32 = bv32

  predicate IsScalar(c: Char32) {
    c < 0xD800 || 0xE000 <= c <= 0x10FFFF
  }

  // ---- one character ----

  function EncLen(c: Char32): (k: nat)
    ensures 1 <= k <= 4
  {
    if c < 0x80 then 1 else if c < 0x800 then 2 else if c < 0x10000 then 3 else 4
  }

  /** The cast of a 32-bit word to one octet, which drops the high bits. */
  function Low8(c: bv32): Octet {
    (c & 0xFF) as bv8
  }

  /** The last octet of a sequence, the one before it, and the one before that. */
  function Tail0(c: Char32): Octet { Low8(0x80 | (c & 0x3F)) }
  function Tail1(c: Char32): Octet { Low8(0x80 | ((c >> 6) & 0x3F)) }
  function Tail2(c: Char32): Octet { Low8(0x80 | ((c >> 12) & 0x3F)) }

  /** The lead octets of two, three and four. */
  function Lead2(c: Char32): Octet { Low8(0xC0 | (c >> 6)) }
  function Lead3(c: Char32): Octet { Low8(0xE0 | (c >> 12)) }
  function Lead4(c: Char32): Octet { Low8(0xF0 | (c >> 18)) }

  function Put(c: Char32): (s: Text)
    ensures |s| == EncLen(c)
  {
    if c < 0x80 then [Low8(c)]
    else if c < 0x800 then [Lead2(c), Tail0(c)]
    else if c < 0x10000 then [Lead3(c), Tail1(c), Tail0(c)]
    else [Lead4(c), Tail2(c), Tail1(c), Tail0(c)]
  }

  function Lead(b0: Octet): (k: nat)
    ensures 1 <= k <= 4
  {
    if b0 < 0x80 then 1 else if b0 < 0xE0 then 2 else if b0 < 0xF0 then 3 else 4
  }

  predicate IsCont(b: Octet) {
    b & 0xC0 == 0x80
  }

  /** What the decoder makes of a sequence of k octets; it looks at no other. */
  function Get(p: Text): Char32
    requires 1 <= |p| <= 4
  {
    if |p| == 1 then p[0] as bv32
    else if |p| == 2 then Get2(p[0], p[1])
    else if |p| == 3 then Get3(p[0], p[1], p[2])
    else Get4(p[0], p[1], p[2], p[3])
  }

  function Get2(a: Octet, b: Octet): Char32 {
    (((a & 0x1F) as bv32) << 6) | ((b & 0x3F) as bv32)
  }

  function Get3(a: Octet, b: Octet, c: Octet): Char32 {
    (((a & 0x0F) as bv32) << 12) | (((b & 0x3F) as bv32) << 6) | ((c & 0x3F) as bv32)
  }

  function Get4(a: Octet, b: Octet, c: Octet, d: Octet): Char32 {
    (((a & 0x07) as bv32) << 18) | (((b & 0x3F) as bv32) << 12)
    | (((c & 0x3F) as bv32) << 6) | ((d & 0x3F) as bv32)
  }

  /** The length of the well-formed sequence p begins with, or 0. */
  function Seq(p: Text): (k: nat)
    requires p != []
    ensures k <= 4 && k <= |p|
    ensures k != 0 ==> k == Lead(p[0])
  {
    var n := |p|;
    var b0 := p[0];
    if b0 < 0x80 then 1
    else if 0xC2 <= b0 <= 0xDF then
      if n < 2 || !IsCont(p[1]) then 0 else 2
    else if 0xE0 <= b0 <= 0xEF then
      if n < 3 || !IsCont(p[1]) || !IsCont(p[2]) then 0
      else if b0 == 0xE0 && p[1] < 0xA0 then 0
      else if b0 == 0xED && p[1] >= 0xA0 then 0
      else 3
    else if 0xF0 <= b0 <= 0xF4 then
      if n < 4 || !IsCont(p[1]) || !IsCont(p[2]) || !IsCont(p[3]) then 0
      else if b0 == 0xF0 && p[1] < 0x90 then 0
      else if b0 == 0xF4 && p[1] >= 0x90 then 0
      else 4
    else 0
  }

  // ---- whole texts ----

  /** The reference: a text is well formed when it is the encoding of some characters. */
  function Encode(cs: seq<Char32>): Text {
    if cs == [] then [] else Put(cs[0]) + Encode(cs[1..])
  }

  predicate AllScalar(cs: seq<Char32>) {
    forall i :: 0 <= i < |cs| ==> IsScalar(cs[i])
  }

  ghost predicate WellFormed(u: Text) {
    exists cs :: AllScalar(cs) && Encode(cs) == u
  }

  /** What the sequence loop answers: the offset of the first sequence it refuses, or |u|. */
  function FirstBad(u: Text): (at: nat)
    ensures at <= |u|
    decreases |u|
  {
    if u == [] then 0
    else if Seq(u) == 0 then 0
    else Seq(u) + FirstBad(u[Seq(u)..])
  }

  predicate Accepts(u: Text) {
    FirstBad(u) == |u|
  }

  /** The characters of a text, each by the length its lead octet announces. */
  function Decode(u: Text): seq<Char32>
    decreases |u|
  {
    if u == [] then []
    else if |u| < Lead(u[0]) then []
    else [Get(u[..Lead(u[0])])] + Decode(u[Lead(u[0])..])
  }

  // ---- one character, both ways ----

  lemma SeqOfPut(c: Char32, rest: Text)
    requires IsScalar(c)
    ensures Seq(Put(c) + rest) == EncLen(c)
  {
    var p := Put(c);
    var s := p + rest;
    assert s[0] == p[0];
    if |p| >= 2 { assert s[1] == p[1]; }
    if |p| >= 3 { assert s[2] == p[2]; }
    if |p| >= 4 { assert s[3] == p[3]; }
  }

  lemma GetOfPut2(c: Char32)
    requires 0x80 <= c < 0x800
    ensures Get2(Lead2(c), Tail0(c)) == c && Lead(Lead2(c)) == 2
  {}

  lemma GetOfPut3(c: Char32)
    requires 0x800 <= c < 0x10000
    ensures Get3(Lead3(c), Tail1(c), Tail0(c)) == c && Lead(Lead3(c)) == 3
  {}

  lemma GetOfPut4(c: Char32)
    requires 0x10000 <= c
    ensures Get4(Lead4(c), Tail2(c), Tail1(c), Tail0(c)) == c <==> c < 0x200000
    ensures Lead(Lead4(c)) == 4
  {}

  /** The decoder gives back what the encoder was given exactly below 2^21. */
  lemma GetOfPut(c: Char32)
    ensures Lead(Put(c)[0]) == EncLen(c)
    ensures Get(Put(c)) == c <==> c < 0x200000
  {
    if c < 0x80 {
    } else if c < 0x800 {
      GetOfPut2(c);
    } else if c < 0x10000 {
      GetOfPut3(c);
    } else {
      GetOfPut4(c);
    }
  }

  lemma PutOfGet2(a: Octet, b: Octet)
    requires 0xC2 <= a <= 0xDF && IsCont(b)
    ensures var c := Get2(a, b); 0x80 <= c < 0x800 && Lead2(c) == a && Tail0(c) == b
  {}

  lemma PutOfGet3(a: Octet, b: Octet, d: Octet)
    requires 0xE0 <= a <= 0xEF && IsCont(b) && IsCont(d)
    requires a == 0xE0 ==> b >= 0xA0
    requires a == 0xED ==> b < 0xA0
    ensures var c := Get3(a, b, d);
            0x800 <= c < 0x10000 && IsScalar(c) && Lead3(c) == a && Tail1(c) == b && Tail0(c) == d
  {}

  lemma PutOfGet4(a: Octet, b: Octet, d: Octet, e: Octet)
    requires 0xF0 <= a <= 0xF4 && IsCont(b) && IsCont(d) && IsCont(e)
    requires a == 0xF0 ==> b >= 0x90
    requires a == 0xF4 ==> b < 0x90
    ensures var c := Get4(a, b, d, e);
            0x10000 <= c && IsScalar(c) && Lead4(c) == a && Tail2(c) == b && Tail1(c) == d && Tail0(c) == e
  {}

  lemma PutOfGet(u: Text)
    requires u != [] && Seq(u) != 0
    ensures IsScalar(Get(u[..Seq(u)])) && Put(Get(u[..Seq(u)])) == u[..Seq(u)]
  {
    var k := Seq(u);
    if k == 2 {
      PutOfGet2(u[0], u[1]);
    } else if k == 3 {
      PutOfGet3(u[0], u[1], u[2]);
    } else if k == 4 {
      PutOfGet4(u[0], u[1], u[2], u[3]);
    } else {
      PutOfGet1(u[0]);
    }
  }

  lemma PutOfGet1(a: Octet)
    requires a < 0x80
    ensures (a as bv32) < 0x80 && Low8(a as bv32) == a
  {}
}
