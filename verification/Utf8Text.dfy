/** Whole texts: encoding and decoding undo each other, the sequence loop accepts the
    encodings and nothing else, and concatenation and slicing stay among them. */
module Utf8Text {
  import opened Utf8

  // ---- encoding ----

  lemma {:induction false} EncodeConcat(a: seq<Char32>, b: seq<Char32>)
    ensures Encode(a + b) == Encode(a) + Encode(b)
  {
    if a == [] {
      assert a + b == b;
    } else {
      assert (a + b)[1..] == a[1..] + b;
      EncodeConcat(a[1..], b);
    }
  }

  lemma EncodeSnoc(s: seq<Char32>, i: nat)
    requires i < |s|
    ensures Encode(s[..i + 1]) == Encode(s[..i]) + Put(s[i])
  {
    assert s[..i + 1] == s[..i] + [s[i]];
    EncodeConcat(s[..i], [s[i]]);
    assert Encode([s[i]]) == Put(s[i]);
  }

  lemma EncodeSplit(s: seq<Char32>, i: nat)
    requires i <= |s|
    ensures Encode(s) == Encode(s[..i]) + Encode(s[i..])
  {
    assert s == s[..i] + s[i..];
    EncodeConcat(s[..i], s[i..]);
  }

  // ---- the sequence loop accepts the encodings of characters, and nothing else ----

  lemma {:induction false} EncodeAccepted(cs: seq<Char32>)
    requires AllScalar(cs)
    ensures Accepts(Encode(cs))
  {
    if cs != [] {
      EncodeAccepted(cs[1..]);
      SeqOfPut(cs[0], Encode(cs[1..]));
      assert Encode(cs)[EncLen(cs[0])..] == Encode(cs[1..]);
    }
  }

  /** The first step of both the loop and the decoder on an accepted text. */
  lemma AcceptedStep(u: Text)
    requires Accepts(u) && u != []
    ensures Seq(u) == Lead(u[0]) && Accepts(u[Lead(u[0])..])
    ensures Decode(u) == [Get(u[..Lead(u[0])])] + Decode(u[Lead(u[0])..])
  {
    assert Seq(u) != 0;
  }

  lemma FirstCharacter(u: Text) returns (c: Char32, rest: Text)
    requires Accepts(u) && u != []
    ensures IsScalar(c) && Put(c) + rest == u && |rest| < |u| && Accepts(rest)
    ensures Decode(u) == [c] + Decode(rest)
  {
    AcceptedStep(u);
    PutOfGet(u);
    hide *;
    c, rest := Get(u[..Lead(u[0])]), u[Lead(u[0])..];
  }

  lemma {:induction false} EncodeOfDecode(u: Text)
    requires Accepts(u)
    ensures AllScalar(Decode(u)) && Encode(Decode(u)) == u
    decreases |u|
  {
    if u != [] {
      var c, rest := FirstCharacter(u);
      EncodeOfDecode(rest);
      hide *;
      OneMore(c, Decode(rest));
    }
  }

  lemma OneMore(c: Char32, cs: seq<Char32>)
    requires IsScalar(c) && AllScalar(cs)
    ensures AllScalar([c] + cs) && Encode([c] + cs) == Put(c) + Encode(cs)
  {
    hide IsScalar, Put;
    assert ([c] + cs)[1..] == cs;
  }

  lemma AcceptsIffWellFormed(u: Text)
    ensures Accepts(u) <==> WellFormed(u)
  {
    if Accepts(u) {
      EncodeOfDecode(u);
    }
    if WellFormed(u) {
      var cs :| AllScalar(cs) && Encode(cs) == u;
      EncodeAccepted(cs);
    }
  }

  // ---- decoding gives back what was encoded ----

  /** The decoder steps over what the encoder wrote, whatever the character. */
  lemma DecodeStep(c: Char32, rest: Text)
    ensures Decode(Put(c) + rest) == [Get(Put(c))] + Decode(rest)
  {
    GetOfPut(c);
    var u := Put(c) + rest;
    assert u[0] == Put(c)[0];
    assert u[..EncLen(c)] == Put(c) && u[EncLen(c)..] == rest;
  }

  lemma {:induction false} DecodeOfEncode(cs: seq<Char32>)
    ensures |Decode(Encode(cs))| == |cs|
    ensures Decode(Encode(cs)) == cs <==> forall i :: 0 <= i < |cs| ==> cs[i] < 0x200000
  {
    if cs != [] {
      var c, rest := cs[0], cs[1..];
      DecodeStep(c, Encode(rest));
      DecodeOfEncode(rest);
      GetOfPut(c);
      assert cs == [c] + rest;
      var d := Decode(Encode(cs));
      assert d[0] == Get(Put(c)) && d[1..] == Decode(Encode(rest));
      assert d == cs <==> Get(Put(c)) == c && Decode(Encode(rest)) == rest;
      if forall i :: 0 <= i < |cs| ==> cs[i] < 0x200000 {
        assert forall i :: 0 <= i < |rest| ==> rest[i] == cs[i + 1];
      }
      if forall i :: 0 <= i < |rest| ==> rest[i] < 0x200000 {
        assert forall i :: 0 < i < |cs| ==> cs[i] == rest[i - 1];
      }
    }
  }

  lemma ScalarsAreSmall(cs: seq<Char32>)
    requires AllScalar(cs)
    ensures forall i :: 0 <= i < |cs| ==> cs[i] < 0x200000
  {
    forall i | 0 <= i < |cs| ensures cs[i] < 0x200000 {
      assert IsScalar(cs[i]);
    }
  }

  /** A well-formed text is the encoding of one sequence of characters only. */
  lemma DecodeUnique(cs: seq<Char32>, u: Text)
    requires AllScalar(cs) && Encode(cs) == u
    ensures Decode(u) == cs
  {
    ScalarsAreSmall(cs);
    DecodeOfEncode(cs);
  }

  lemma ConcatWellFormed(a: Text, b: Text)
    requires WellFormed(a) && WellFormed(b)
    ensures WellFormed(a + b) && Decode(a + b) == Decode(a) + Decode(b)
  {
    var x :| AllScalar(x) && Encode(x) == a;
    var y :| AllScalar(y) && Encode(y) == b;
    EncodeConcat(x, y);
    DecodeUnique(x, a);
    DecodeUnique(y, b);
    assert AllScalar(x + y);
    DecodeUnique(x + y, a + b);
  }

  // ---- where the loop stops ----

  lemma SeqOfPrefix(c: Char32, u: Text)
    requires IsScalar(c) && Put(c) <= u
    ensures Seq(u) == EncLen(c)
  {
    SeqOfPut(c, u[EncLen(c)..]);
    assert u == Put(c) + u[EncLen(c)..];
  }

  lemma {:induction false} FirstBadSplits(u: Text)
    ensures WellFormed(u[..FirstBad(u)])
    ensures FirstBad(u) < |u| ==> Seq(u[FirstBad(u)..]) == 0
    decreases |u|
  {
    if u == [] || Seq(u) == 0 {
      NothingTaken(u);
    } else {
      FirstBadStep(u);
      OneCharacter(u);
      FirstBadSplits(u[Seq(u)..]);
      hide *;
      TakenOn(u, Seq(u), FirstBad(u[Seq(u)..]));
    }
  }

  /** A well-formed prefix and the one found behind it. */
  lemma TakenOn(u: Text, k: nat, r: nat)
    requires k + r <= |u| && WellFormed(u[..k]) && WellFormed(u[k..][..r])
    requires r < |u[k..]| ==> Seq(u[k..][r..]) == 0
    ensures WellFormed(u[..k + r]) && (k + r < |u| ==> Seq(u[k + r..]) == 0)
  {
    hide Seq, WellFormed;
    ConcatWellFormed(u[..k], u[k..][..r]);
    assert u[..k + r] == u[..k] + u[k..][..r] && u[k + r..] == u[k..][r..];
  }

  lemma NothingTaken(u: Text)
    requires u == [] || Seq(u) == 0
    ensures FirstBad(u) == 0 && WellFormed(u[..0]) && u[0..] == u
  {
    hide Seq;
    assert AllScalar([]) && u[..0] == Encode([]);
  }

  lemma FirstBadStep(u: Text)
    requires u != [] && Seq(u) != 0
    ensures FirstBad(u) == Seq(u) + FirstBad(u[Seq(u)..])
  {
    hide Seq;
  }

  /** The offset named is where the first ill-formed sequence starts: all before it is
      well formed, and no character's encoding begins at it. */
  lemma FirstBadMeaning(u: Text)
    ensures WellFormed(u[..FirstBad(u)])
    ensures FirstBad(u) < |u| ==> forall c :: IsScalar(c) ==> !(Put(c) <= u[FirstBad(u)..])
  {
    FirstBadSplits(u);
    if FirstBad(u) < |u| {
      forall c | IsScalar(c) ensures !(Put(c) <= u[FirstBad(u)..]) {
        if Put(c) <= u[FirstBad(u)..] {
          SeqOfPrefix(c, u[FirstBad(u)..]);
        }
      }
    }
  }

  lemma OneCharacter(u: Text)
    requires u != [] && Seq(u) != 0
    ensures WellFormed(u[..Seq(u)])
  {
    PutOfGet(u);
    var cs := [Get(u[..Seq(u)])];
    assert AllScalar(cs) && Encode(cs) == u[..Seq(u)];
  }

  // ---- character boundaries ----

  /** Offset i of a text begins a character (or is its end). */
  predicate Boundary(u: Text, i: int) {
    0 <= i <= |u| && !(i < |u| && IsCont(u[i]))
  }

  lemma PutConts(c: Char32, i: nat)
    requires i < EncLen(c)
    ensures IsCont(Put(c)[i]) <==> i != 0
  {
    if c < 0x80 {
    } else if c < 0x800 {
      ContOctets(c);
    } else {
      ContOctets(c);
    }
  }

  lemma ContOctets(c: Char32)
    ensures IsCont(Tail0(c)) && IsCont(Tail1(c)) && IsCont(Tail2(c))
    ensures 0x80 <= c < 0x800 ==> !IsCont(Lead2(c))
    ensures 0x800 <= c < 0x10000 ==> !IsCont(Lead3(c))
    ensures !IsCont(Lead4(c))
  {}

  /** The offsets the slice's test lets through are those between two characters. */
  lemma {:induction false} BoundaryIsPrefix(cs: seq<Char32>, i: int) returns (j: nat)
    requires 0 <= i <= |Encode(cs)|
    ensures j <= |cs|
    ensures Boundary(Encode(cs), i) <==> i == |Encode(cs[..j])|
    ensures |Encode(cs[..j])| <= i && (j < |cs| ==> i < |Encode(cs[..j + 1])|)
  {
    hide Put, IsCont;
    if cs == [] {
      j := 0;
    } else {
      var c, rest := cs[0], cs[1..];
      var k := EncLen(c);
      if i < k {
        j := 0;
        PutConts(c, i);
        assert Encode(cs)[i] == Put(c)[i];
        assert cs[..0] == [] && cs[..1] == [c];
        assert Encode(cs[..1]) == Put(c) + Encode(cs[..1][1..]);
      } else {
        var j' := BoundaryIsPrefix(rest, i - k);
        j := j' + 1;
        assert cs[..j][1..] == rest[..j'];
        assert j < |cs| ==> cs[..j + 1][1..] == rest[..j' + 1];
        assert i < |Encode(cs)| ==> Encode(cs)[i] == Encode(rest)[i - k];
      }
    }
  }

  /** Whether SLICE takes the octets from start for len (runtime/m9rt.h, m9_utf_slice). */
  predicate SliceTaken(u: Text, start: int, len: int) {
    !(start < 0 || len < 0 || start > |u| - len ||
      (start < |u| && IsCont(u[start])) ||
      (start + len < |u| && IsCont(u[start + len])))
  }

  /** A slice taken is a run of whole characters. */
  lemma TakenIsCharacters(cs: seq<Char32>, start: int, len: int) returns (i: nat, j: nat)
    requires SliceTaken(Encode(cs), start, len)
    ensures i <= j <= |cs| && start == |Encode(cs[..i])| && len == |Encode(cs[i..j])|
    ensures Encode(cs)[start..start + len] == Encode(cs[i..j])
  {
    hide IsCont, Encode;
    i := BoundaryIsPrefix(cs, start);
    j := BoundaryIsPrefix(cs, start + len);
    assert Boundary(Encode(cs), start) && Boundary(Encode(cs), start + len);
    if j < i {
      PrefixGrows(cs, j + 1, i);
      assert false;
    }
    SliceOctets(cs, i, j);
  }

  lemma CharactersAreTaken(cs: seq<Char32>, i: nat, j: nat)
    requires i <= j <= |cs|
    ensures SliceTaken(Encode(cs), |Encode(cs[..i])|, |Encode(cs[i..j])|)
  {
    hide IsCont, Encode;
    SliceOctets(cs, i, j);
    PrefixIsBoundary(cs, i);
    PrefixIsBoundary(cs, j);
  }

  /** A slice is taken exactly when it is a run of whole characters, and then it is
      well formed and holds those characters. */
  lemma SliceIsCharacters(cs: seq<Char32>, start: int, len: int)
    requires AllScalar(cs)
    ensures SliceTaken(Encode(cs), start, len)
            <==> exists i, j :: 0 <= i <= j <= |cs| && start == |Encode(cs[..i])|
                                && len == |Encode(cs[i..j])|
    ensures SliceTaken(Encode(cs), start, len) ==>
              exists i, j :: 0 <= i <= j <= |cs| && Encode(cs)[start..start + len] == Encode(cs[i..j])
                             && Decode(Encode(cs)[start..start + len]) == cs[i..j]
    ensures SliceTaken(Encode(cs), start, len) ==> WellFormed(Encode(cs)[start..start + len])
  {
    if SliceTaken(Encode(cs), start, len) {
      hide Encode, Decode;
      var i, j := TakenIsCharacters(cs, start, len);
      assert AllScalar(cs[i..j]);
      DecodeUnique(cs[i..j], Encode(cs[i..j]));
    }
    forall i, j | 0 <= i <= j <= |cs| && start == |Encode(cs[..i])| && len == |Encode(cs[i..j])|
      ensures SliceTaken(Encode(cs), start, len)
    {
      CharactersAreTaken(cs, i, j);
    }
  }

  lemma SliceOctets(cs: seq<Char32>, i: nat, j: nat)
    requires i <= j <= |cs|
    ensures |Encode(cs[..i])| <= |Encode(cs[..j])| <= |Encode(cs)|
    ensures |Encode(cs[..j])| == |Encode(cs[..i])| + |Encode(cs[i..j])|
    ensures Encode(cs)[|Encode(cs[..i])|..|Encode(cs[..j])|] == Encode(cs[i..j])
  {
    EncodeSplit(cs, j);
    EncodeSplit(cs[..j], i);
    assert cs[..j][..i] == cs[..i] && cs[..j][i..] == cs[i..j];
  }

  lemma PrefixGrows(cs: seq<Char32>, i: nat, j: nat)
    requires i <= j <= |cs|
    ensures |Encode(cs[..i])| <= |Encode(cs[..j])|
  {
    SliceOctets(cs, i, j);
  }

  lemma PrefixIsBoundary(cs: seq<Char32>, i: nat)
    requires i <= |cs|
    ensures Boundary(Encode(cs), |Encode(cs[..i])|)
  {
    EncodeSplit(cs, i);
    if i < |cs| {
      PutConts(cs[i], 0);
      assert Encode(cs[i..]) == Put(cs[i]) + Encode(cs[i..][1..]);
      assert Encode(cs)[|Encode(cs[..i])|] == Put(cs[i])[0];
    }
  }
}
