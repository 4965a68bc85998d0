/** The runtime's UTF-8 procedures, each a loop over a buffer (runtime/m9rt.c:715-1001,
    1259-1293; runtime/m9rt.h:366-401). */
module Utf8Runtime {
  import opened Wrappers
  import opened Utf8
  import opened Utf8Text
  import opened Utf8Words
  import Utf8Vector

  // ---- checking ----

  lemma AsciiIsAccepted(u: Text, i: nat)
    requires i <= |u| && forall k :: 0 <= k < i ==> u[k] < 0x80
    ensures FirstBad(u) == i + FirstBad(u[i..])
    decreases i
  {
    if i == 0 {
      assert u[0..] == u;
    } else {
      AsciiIsAccepted(u[1..], i - 1);
      assert u[1..][i - 1..] == u[i..];
    }
  }

  /** The prescan: how far the text is ASCII, eight octets at a time. */
  method AsciiPrefix(u: Text) returns (i: nat)
    ensures i <= |u| && forall k :: 0 <= k < i ==> u[k] < 0x80
    ensures i + 8 <= |u| ==> exists k :: i <= k < i + 8 && u[k] >= 0x80
  {
    hide *;
    i := 0;
    while i + 8 <= |u|
      invariant i <= |u|
      invariant forall k :: 0 <= k < i ==> u[k] < 0x80
    {
      HighBitsAt(u, i);
      if LoadWord(u, i) & 0x8080808080808080 != 0 {
        break;
      }
      i := i + 8;
    }
  }

  /** m9_utf_check, with or without the vector validator. */
  method Check(u: Text, simd: bool) returns (at: int)
    ensures at == -1 <==> WellFormed(u)
    ensures at != -1 ==> 0 <= at < |u| && WellFormed(u[..at])
                         && forall c :: IsScalar(c) ==> !(Put(c) <= u[at..])
  {
    AcceptsIffWellFormed(u);
    FirstBadMeaning(u);
    var i := AsciiPrefix(u);
    AsciiIsAccepted(u, i);
    if i < |u| && simd {
      var ok := Utf8Vector.Valid(u[i..]);
      if ok {
        AcceptsIffWellFormed(u[i..]);
        return -1;
      }
    }
    at := SequenceLoop(u, i);
  }

  /** The loop that names the offset, from i on. */
  method SequenceLoop(u: Text, from: nat) returns (at: int)
    requires from <= |u| && FirstBad(u) == from + FirstBad(u[from..])
    ensures at == if FirstBad(u) == |u| then -1 else FirstBad(u)
  {
    var i := from;
    while i < |u|
      invariant i <= |u|
      invariant FirstBad(u) == i + FirstBad(u[i..])
      decreases |u| - i
    {
      var k := Seq(u[i..]);
      if k == 0 {
        return i;
      }
      assert u[i..][k..] == u[i + k..];
      i := i + k;
    }
    return -1;
  }

  // ---- encoding and decoding ----

  lemma EncodeEmpty(s: seq<Char32>)
    ensures Encode(s[..0]) == []
  {}

  /** m9_utf_from_chars: one pass for the length, one to write. */
  method FromChars(s: seq<Char32>) returns (out: array<Octet>)
    ensures fresh(out) && out[..] == Encode(s)
  {
    hide *;
    EncodeEmpty(s);
    var n := 0;
    for i := 0 to |s|
      invariant n == |Encode(s[..i])|
    {
      EncodeSnoc(s, i);
      n := n + EncLen(s[i]);
    }
    assert s[..|s|] == s;
    out := new Octet[n];
    var k := 0;
    for i := 0 to |s|
      invariant k == |Encode(s[..i])| <= n == out.Length
      invariant out[..k] == Encode(s[..i])
    {
      EncodeSnoc(s, i);
      EncodeSplit(s, i + 1);
      ghost var at := k;
      k := PutAt(out, k, s[i]);
      assert out[..k] == out[..at] + out[at..k];
    }
  }

  /** m9_utf_put at an offset; it answers the offset past what it wrote. */
  method PutAt(p: array<Octet>, at: nat, c: Char32) returns (next: nat)
    requires at + EncLen(c) <= p.Length
    modifies p
    ensures next == at + EncLen(c)
    ensures p[at..next] == Put(c)
    ensures p[..at] == old(p[..at]) && p[next..] == old(p[next..])
  {
    hide Low8, Tail0, Tail1, Tail2, Lead2, Lead3, Lead4;
    if c < 0x80 {
      p[at] := Low8(c);
    } else if c < 0x800 {
      p[at] := Lead2(c);
      p[at + 1] := Tail0(c);
    } else if c < 0x10000 {
      p[at] := Lead3(c);
      p[at + 1] := Tail1(c);
      p[at + 2] := Tail0(c);
    } else {
      p[at] := Lead4(c);
      p[at + 1] := Tail2(c);
      p[at + 2] := Tail1(c);
      p[at + 3] := Tail0(c);
    }
    next := at + EncLen(c);
  }

  /** What one step of a decoding loop does at a character's start. */
  lemma StepAt(u: Text, i: nat)
    requires i < |u| && Accepts(u[i..])
    ensures var next := i + Lead(u[i]);
            next <= |u| && Accepts(u[next..])
            && Decode(u[i..]) == [Get(u[i..next])] + Decode(u[next..])
  {
    AcceptedStep(u[i..]);
    var k := Lead(u[i]);
    assert u[i..][k..] == u[i + k..];
    assert u[i..][..k] == u[i..i + k];
  }

  /** m9_utf_to_chars: one pass to count the leads, one to decode. */
  method ToChars(u: Text) returns (out: array<Char32>)
    requires WellFormed(u)
    ensures fresh(out) && out[..] == Decode(u)
    ensures AllScalar(out[..]) && Encode(out[..]) == u
  {
    AcceptsIffWellFormed(u);
    EncodeOfDecode(u);
    var n := CountLeads(u);
    out := new Char32[n];
    DecodeInto(u, out);
  }

  method CountLeads(u: Text) returns (n: nat)
    requires Accepts(u)
    ensures n == |Decode(u)|
  {
    hide *;
    assert u[0..] == u;
    n := 0;
    var i := 0;
    while i < |u|
      invariant 0 <= i <= |u| && Accepts(u[i..])
      invariant n + |Decode(u[i..])| == |Decode(u)|
      decreases |u| - i
    {
      StepAt(u, i);
      i := i + Lead(u[i]);
      n := n + 1;
    }
    EmptyDecode(u);
  }

  lemma EmptyDecode(u: Text)
    ensures Decode(u[|u|..]) == []
  {}

  method DecodeInto(u: Text, out: array<Char32>)
    requires Accepts(u) && out.Length == |Decode(u)|
    modifies out
    ensures out[..] == Decode(u)
  {
    hide *;
    assert u[0..] == u;
    var i, j := 0, 0;
    EmptyDecode(u);
    while i < |u|
      invariant 0 <= i <= |u| && Accepts(u[i..]) && 0 <= j <= out.Length
      invariant Decode(u) == out[..j] + Decode(u[i..])
      decreases |u| - i
    {
      StepAt(u, i);
      var k := Lead(u[i]);
      ghost var done := out[..j];
      out[j] := Get(u[i..i + k]);
      j := j + 1;
      assert out[..j] == done + [Get(u[i..i + k])];
      i := i + k;
    }
  }

  /** m9_utf_next: at a character's start, the character and the next one's start. */
  method Next(u: Text, at: nat) returns (c: Char32, next: nat)
    requires at < |u| && WellFormed(u[at..])
    ensures next == at + EncLen(c) <= |u| && IsScalar(c)
    ensures u[at..next] == Put(c) && WellFormed(u[next..])
    ensures Decode(u[at..]) == [c] + Decode(u[next..])
  {
    hide WellFormed, Accepts, Decode, IsScalar, Put, Get2, Get3, Get4;
    AcceptsIffWellFormed(u[at..]);
    StepAt(u, at);
    var b0 := u[at];
    if b0 < 0x80 {
      next, c := at + 1, b0 as bv32;
    } else if b0 < 0xE0 {
      next, c := at + 2, Get2(b0, u[at + 1]);
    } else if b0 < 0xF0 {
      next, c := at + 3, Get3(b0, u[at + 1], u[at + 2]);
    } else {
      next, c := at + 4, Get4(b0, u[at + 1], u[at + 2], u[at + 3]);
    }
    NextIsStep(u, at);
    GetAt(u, at, next - at);
    AcceptsIffWellFormed(u[next..]);
  }

  lemma GetAt(u: Text, at: nat, k: nat)
    requires 1 <= k <= 4 && at + k <= |u|
    ensures Get(u[at..at + k])
            == if k == 1 then u[at] as bv32
               else if k == 2 then Get2(u[at], u[at + 1])
               else if k == 3 then Get3(u[at], u[at + 1], u[at + 2])
               else Get4(u[at], u[at + 1], u[at + 2], u[at + 3])
  {
    hide Get2, Get3, Get4;
  }

  lemma NextIsStep(u: Text, at: nat)
    requires at < |u| && Accepts(u[at..])
    ensures var next := at + Lead(u[at]);
            next <= |u| && IsScalar(Get(u[at..next])) && u[at..next] == Put(Get(u[at..next]))
  {
    PutOfGet(u[at..]);
    assert u[at..][..Seq(u[at..])] == u[at..at + Lead(u[at])];
  }

  /** Walking a text with Next visits its characters, in order and each once. */
  method Walk(u: Text) returns (cs: seq<Char32>)
    requires WellFormed(u)
    ensures cs == Decode(u)
  {
    hide *;
    cs := [];
    var at := 0;
    EmptyDecode(u);
    assert u[0..] == u;
    while at < |u|
      invariant at <= |u| && WellFormed(u[at..])
      invariant Decode(u) == cs + Decode(u[at..])
      decreases |u| - at
    {
      var c, next := Next(u, at);
      cs := cs + [c];
      at := next;
    }
  }

  // ---- counting ----

  lemma {:induction false} ConcatCount(a: Text, b: Text)
    ensures ContCount(a + b) == ContCount(a) + ContCount(b)
  {
    if b == [] {
      assert a + b == a;
    } else {
      ConcatCount(a, b[..|b| - 1]);
      assert (a + b)[..|a + b| - 1] == a + b[..|b| - 1];
    }
  }

  lemma PutCount(c: Char32)
    ensures ContCount(Put(c)) == EncLen(c) - 1
  {
    var p := Put(c);
    forall i | 0 <= i < EncLen(c) ensures IsCont(p[i]) <==> i != 0 {
      PutConts(c, i);
    }
    assert p == p[..|p|];
    ContCountSnoc(p, 0);
    if |p| > 1 { ContCountSnoc(p, 1); }
    if |p| > 2 { ContCountSnoc(p, 2); }
    if |p| > 3 { ContCountSnoc(p, 3); }
  }

  /** Octets less continuations is characters. */
  lemma {:induction false} CountOfEncode(cs: seq<Char32>)
    ensures |Encode(cs)| - ContCount(Encode(cs)) == |cs|
  {
    if cs != [] {
      CountOfEncode(cs[1..]);
      PutCount(cs[0]);
      ConcatCount(Put(cs[0]), Encode(cs[1..]));
    }
  }

  /** m9_utf_cpcount_p. */
  method CpCount(u: Text) returns (count: int)
    ensures count == |u| - ContCount(u)
    ensures WellFormed(u) ==> count == |Decode(u)|
  {
    var i, cont := 0, 0;
    while i + 8 <= |u|
      invariant 0 <= i <= |u| && cont == ContCount(u[..i])
    {
      WordAt(u, i);
      cont := cont + Small(SumBits(ContBits(LoadWord(u, i))));
      i := i + 8;
    }
    while i < |u|
      invariant 0 <= i <= |u| && cont == ContCount(u[..i])
    {
      ContCountSnoc(u, i);
      if IsCont(u[i]) {
        cont := cont + 1;
      }
      i := i + 1;
    }
    assert u[..|u|] == u;
    count := |u| - cont;
    if WellFormed(u) {
      var cs :| AllScalar(cs) && Encode(cs) == u;
      CountOfEncode(cs);
      DecodeUnique(cs, u);
    }
  }
}
