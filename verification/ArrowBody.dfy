/**
 * A table's columns and the body of its batch: each column's buffers end to end, every one padded to
 * eight octets, with the list of offsets and lengths that names them.
 */
module ArrowBody {
  import opened Arith
  import opened ArrowBytes
  import opened ArrowTables
  import opened ArrowBuild
  import opened ArrowSchema
  import opened ArrowBatch

  /** A column's values: whole numbers, floats by their bit patterns, or strings encoded end to end. */
  datatype Data =
    | Ints(iv: seq<int>)
    | Singles(f4: seq<int>)
    | Doubles(f8: seq<int>)
    | Strings(soff: seq<int>, sdata: seq<Byte>)

  datatype Col = Col(name: Str, ty: int, data: Data)

  // ---- numbers end to end ----

  function EachPacked(v: seq<int>, k: nat): (s: seq<Byte>)
    ensures |s| == k * |v|
  {
    hide Little;
    if v == [] then []
    else
      Distribute(|v|, 1, k);
      EachPacked(v[..|v| - 1], k) + Little(v[|v| - 1], k)
  }

  function Packed(v: seq<int>, k: nat): (s: seq<Byte>)
    ensures |s| == k * |v|
  {
    EachPacked(v, k)
  }

  lemma PackedSnoc(v: seq<int>, k: nat, i: nat)
    requires i < |v|
    ensures Packed(v[..i + 1], k) == Packed(v[..i], k) + Little(v[i], k)
  {
    hide Little;
    assert v[..i + 1][..i] == v[..i];
  }

  lemma {:induction false} PackedPrefix(v: seq<int>, k: nat, i: nat)
    requires i <= |v|
    ensures k * i <= |Packed(v, k)| && Packed(v, k)[..k * i] == Packed(v[..i], k)
    decreases |v| - i
  {
    hide Little, Packed;
    if i == |v| {
      assert v[..i] == v;
    } else {
      PackedPrefix(v, k, i + 1);
      PackedSnoc(v, k, i);
      Distribute(i + 1, i, k);
      FirstOf(Packed(v, k), Packed(v[..i], k), Little(v[i], k));
    }
  }

  lemma FirstOf(w: seq<Byte>, a: seq<Byte>, b: seq<Byte>)
    requires |a| + |b| <= |w| && w[..|a| + |b|] == a + b
    ensures w[..|a|] == a && w[|a|..|a| + |b|] == b
  {
    assert w[..|a|] == w[..|a| + |b|][..|a|] && w[|a|..|a| + |b|] == w[..|a| + |b|][|a|..];
  }

  /** Where each number stands. */
  lemma PackedAt(v: seq<int>, k: nat, i: nat)
    requires i < |v|
    ensures k * i + k <= |Packed(v, k)| && Packed(v, k)[k * i..k * i + k] == Little(v[i], k)
  {
    hide Little, Packed;
    PackedPrefix(v, k, i + 1);
    PackedSnoc(v, k, i);
    Distribute(i + 1, i, k);
    FirstOf(Packed(v, k), Packed(v[..i], k), Little(v[i], k));
  }

  /** Each number is read back. */
  lemma PackedIsRead(v: seq<int>, k: nat, i: nat, signed: bool)
    requires i < |v| && k > 0
    requires if signed || k == 8 then Fits(v[i], k) else 0 <= v[i] < Pow256(k)
    ensures GetLE(Packed(v, k), k * i, k, signed) == Ok(v[i])
  {
    hide Little, Packed, Fits, GetLE, Pow256;
    PackedAt(v, k, i);
    GetWritten(Packed(v, k), k * i, k, signed, v[i]);
  }

  // ---- buffers end to end ----

  function Pad8(n: nat): (p: nat)
    ensures n <= p < n + 8 && p % 8 == 0
  {
    if n % 8 == 0 then n else n + 8 - n % 8
  }

  /** A column's buffers: no validity, then its values, or a string's offsets and octets. */
  function BuffersOf(c: Col): (b: seq<seq<Byte>>)
    ensures |b| == if c.data.Strings? then 3 else 2
  {
    match c.data
    case Ints(iv) => [[], Packed(iv, Width(c.ty))]
    case Singles(f4) => [[], Packed(f4, 4)]
    case Doubles(f8) => [[], Packed(f8, 8)]
    case Strings(soff, sdata) => [[], Packed(soff, 4), sdata]
  }

  function EachBuffer(cols: seq<Col>): seq<seq<Byte>> {
    if cols == [] then [] else EachBuffer(cols[..|cols| - 1]) + BuffersOf(cols[|cols| - 1])
  }

  /** The buffers of the columns, in order. */
  function Buffers(cols: seq<Col>): seq<seq<Byte>> {
    EachBuffer(cols)
  }

  function EachBody(bs: seq<seq<Byte>>): seq<Byte> {
    if bs == [] then [] else EachBody(bs[..|bs| - 1]) + Padded8(bs[|bs| - 1])
  }

  /** A buffer and the zeros after it. */
  function Padded8(b: seq<Byte>): (s: seq<Byte>)
    ensures |s| == Pad8(|b|)
  {
    b + Zeros(Pad8(|b|) - |b|)
  }

  function Body(bs: seq<seq<Byte>>): seq<Byte> {
    EachBody(bs)
  }

  /** Each buffer's offset in the body, and its length. */
  function Layout(bs: seq<seq<Byte>>): (l: seq<Two>)
    ensures |l| == |bs|
  {
    seq(|bs|, i requires 0 <= i < |bs| => Two(|Body(bs[..i])|, |bs[i]|))
  }

  lemma BodySnoc(bs: seq<seq<Byte>>, i: nat)
    requires i < |bs|
    ensures Body(bs[..i + 1]) == Body(bs[..i]) + Padded8(bs[i])
  {
    hide Padded8;
    assert bs[..i + 1][..i] == bs[..i];
  }

  lemma {:induction false} BodyPrefix(bs: seq<seq<Byte>>, i: nat)
    requires i <= |bs|
    ensures |Body(bs[..i])| <= |Body(bs)| && Body(bs)[..|Body(bs[..i])|] == Body(bs[..i])
    decreases |bs| - i
  {
    hide Padded8, Body;
    if i == |bs| {
      assert bs[..i] == bs;
    } else {
      BodyPrefix(bs, i + 1);
      BodySnoc(bs, i);
      FirstOf(Body(bs), Body(bs[..i]), Padded8(bs[i]));
    }
  }

  /** What the layout names of the body is the buffer. */
  lemma BufferStands(bs: seq<seq<Byte>>, i: nat)
    requires i < |bs|
    ensures var l := Layout(bs)[i];
            0 <= l.first && l.second == |bs[i]| && l.first + l.second <= |Body(bs)|
            && Body(bs)[l.first..l.first + l.second] == bs[i]
  {
    hide Body;
    BodyPrefix(bs, i + 1);
    BodySnoc(bs, i);
    var (a, b) := (Body(bs[..i]), bs[i]);
    FirstOf(Body(bs), a, Padded8(b));
    assert Body(bs)[|a|..|a| + |Padded8(b)|][..|b|] == Body(bs)[|a|..|a| + |b|];
  }

  lemma LayoutFits(bs: seq<seq<Byte>>)
    requires |Body(bs)| < 0x4000_0000_0000_0000
    ensures AllFit(Layout(bs))
  {
    hide Body;
    Powers();
    forall i | 0 <= i < |bs| ensures TwoFits(Layout(bs)[i]) {
      BufferStands(bs, i);
    }
  }
}
