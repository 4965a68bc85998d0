/**
 * The fast number scanner: sign, digits with at most one point, exponent. It stops where strtod
 * stops and decides nothing about hexadecimal, about more than nineteen significant digits, or
 * about a text without digits.
 */
module DecimalScan {
  import opened Arith
  import opened DecimalText

  /**
   * A scanned number: the value is w * 10^q, `stop` is the first character not read.
   * A text whose digits are all zero answers a signed zero whatever its exponent says.
   */
  datatype Scanned = Undecided | Zero(neg: bool, stop: nat) | Number(neg: bool, w: nat, q: int, stop: nat)

  /** The exponent's digits, added up only while the sum is below 100000. */
  function Saturated(s: string): nat
    requires AllDigits(s)
  {
    if s == [] then 0
    else
      var e := Saturated(s[..|s| - 1]);
      if e < 100000 then e * 10 + DigitValue(s[|s| - 1]) else e
  }

  /** Saturation loses nothing below a million, and never brings a larger exponent below 100000. */
  lemma {:induction false} SaturatedMeaning(s: string)
    requires AllDigits(s)
    ensures Int(s) < 1000000 ==> Saturated(s) == Int(s)
    ensures Int(s) >= 1000000 ==> 100000 <= Saturated(s) < 1000000
  {
    if s != [] {
      SaturatedMeaning(s[..|s| - 1]);
    }
  }

  predicate Sign(c: char) {
    c == '-' || c == '+'
  }

  predicate Hexadecimal(s: string, i: nat) {
    At(s, i) == '0' && (At(s, i + 1) == 'x' || At(s, i + 1) == 'X')
  }

  /** The exponent at i, and where the number then ends; no digits, no exponent. */
  function ExponentAt(s: string, i: nat): (r: (int, nat))
    requires i <= |s|
  {
    if At(s, i) != 'e' && At(s, i) != 'E' then (0, i)
    else
      var from := if Sign(At(s, i + 1)) then i + 2 else i + 1;
      var to := RunEnd(s, from);
      if to == from then (0, i)
      else
        var e: int := Saturated(s[from..to]);
        (if At(s, i + 1) == '-' then -e else e, to)
  }

  /** What the digits, the point and the exponent of a text mean. */
  function Meaning(s: string): Scanned {
    var from := if Sign(At(s, 0)) then 1 else 0;
    var dot := RunEnd(s, from);
    var frac := if At(s, dot) == '.' then dot + 1 else dot;
    var end := if At(s, dot) == '.' then RunEnd(s, frac) else dot;
    var digits := s[from..dot] + s[frac..end];
    var (e, stop) := ExponentAt(s, end);
    if Hexadecimal(s, from) || digits == [] || Significant(digits) > 19 then Undecided
    else if Significant(digits) == 0 then Zero(At(s, 0) == '-', stop)
    else Number(At(s, 0) == '-', Int(digits), e - (end - frac), stop)
  }

  lemma DigitsFit(digits: string)
    requires AllDigits(digits) && 0 < Significant(digits) <= 19
    ensures 0 < Int(digits) < 0x1_0000_0000_0000_0000
  {
    hide Int, Pow10, Significant;
    SignificantBounds(digits);
    Pow10Add(Significant(digits), 19 - Significant(digits));
    MulAtLeast(Pow10(19 - Significant(digits)), Pow10(Significant(digits)));
    TenToNineteen();
  }

  /** A scanned significand is not zero and fits a 64-bit word: it never wraps. */
  lemma MeaningFits(s: string)
    ensures Meaning(s).Number? ==> 0 < Meaning(s).w < 0x1_0000_0000_0000_0000
  {
    hide Int, Pow10, Significant, RunEnd, ExponentAt;
    var from := if Sign(At(s, 0)) then 1 else 0;
    var dot := RunEnd(s, from);
    var frac := if At(s, dot) == '.' then dot + 1 else dot;
    var end := if At(s, dot) == '.' then RunEnd(s, frac) else dot;
    if Meaning(s).Number? {
      DigitsFit(s[from..dot] + s[frac..end]);
    }
  }

  lemma TenToNineteen()
    ensures Pow10(19) < 0x1_0000_0000_0000_0000
  {
    assert Pow10(5) == 100000;
    assert Pow10(10) == 10000000000;
    assert Pow10(15) == 1000000000000000;
  }

  /** One run of digits read into the sum: w and nd as the loop has them. */
  ghost predicate Read(digits: string, w: nat, nd: nat) {
    AllDigits(digits) && w == Int(digits) && nd == Significant(digits) && nd <= 19
  }

  lemma ReadMore(digits: string, c: char, w: nat, nd: nat)
    requires Read(digits, w, nd) && IsDigit(c)
    ensures nd < 19 && (nd > 0 || c != '0') ==> Read(digits + [c], w * 10 + DigitValue(c), nd + 1)
    ensures nd == 0 && c == '0' ==> Read(digits + [c], w, 0)
  {
    hide Int, Significant, Pow10;
    IntSnoc(digits, c);
    SignificantSnoc(digits, c);
    SignificantBounds(digits);
    assert Pow10(0) == 1 by { TenToZero(); }
  }

  lemma TenToZero()
    ensures Pow10(0) == 1
  {}

  lemma ReadOne(s: string, from: nat, dot: nat, frac: nat, p: nat, w: nat, nd: nat)
    requires from <= dot <= frac <= p < |s| && IsDigit(s[p])
    requires Read(s[from..dot] + s[frac..p], w, nd)
    ensures nd < 19 && (nd > 0 || s[p] != '0') ==>
              Read(s[from..dot] + s[frac..p + 1], w * 10 + DigitValue(s[p]), nd + 1)
    ensures nd == 0 && s[p] == '0' ==> Read(s[from..dot] + s[frac..p + 1], w, 0)
  {
    hide Read;
    var digits := s[from..dot] + s[frac..p];
    ReadMore(digits, s[p], w, nd);
    assert s[from..dot] + s[frac..p + 1] == digits + [s[p]];
  }

  /** Digits past the nineteenth significant one: the whole run has too many. */
  lemma TooMany(s: string, from: nat, dot: nat, frac: nat, p: nat, end: nat, w: nat)
    requires from <= dot <= frac <= p < end <= |s|
    requires Read(s[from..dot] + s[frac..p], w, 19)
    ensures Significant(s[from..dot] + s[frac..end]) > 19
  {
    hide Int, Significant;
    var digits := s[from..dot] + s[frac..p];
    SignificantSnoc(digits, s[p]);
    SignificantGrows(digits + [s[p]], s[p + 1..end]);
    assert s[from..dot] + s[frac..end] == digits + [s[p]] + s[p + 1..end];
  }

  lemma OneMoreDigit(s: string, i: nat, p: nat)
    requires i <= p < |s| && AllDigits(s[i..p]) && IsDigit(s[p])
    ensures AllDigits(s[i..p + 1])
  {
    assert s[i..p + 1] == s[i..p] + [s[p]];
  }

  lemma SaturatedStep(s: string, i: nat, p: nat)
    requires i <= p < |s| && AllDigits(s[i..p]) && IsDigit(s[p])
    ensures AllDigits(s[i..p + 1])
    ensures Saturated(s[i..p + 1]) ==
            var e := Saturated(s[i..p]); if e < 100000 then e * 10 + DigitValue(s[p]) else e
  {
    OneMoreDigit(s, i, p);
    assert s[i..p + 1][..p - i] == s[i..p];
  }

  /** One step past the digits read so far, or the discovery that there are too many. */
  method ScanDigits(s: string, ghost from: nat, ghost dot: nat, frac: nat, w0: nat, nd0: nat)
    returns (ok: bool, w: nat, nd: nat, p: nat)
    requires from <= dot <= frac <= |s| && Read(s[from..dot], w0, nd0)
    ensures ok <==> Significant(s[from..dot] + s[frac..RunEnd(s, frac)]) <= 19
    ensures ok ==> p == RunEnd(s, frac) && Read(s[from..dot] + s[frac..p], w, nd)
  {
    hide Int, Significant;
    w, nd, p := w0, nd0, frac;
    ghost var end := RunEnd(s, frac);
    assert s[from..dot] + s[frac..frac] == s[from..dot];
    if nd == 0 {
      while At(s, p) == '0'
        invariant frac <= p <= |s| && nd == 0
        invariant AllDigits(s[frac..p]) && Read(s[from..dot] + s[frac..p], w, 0)
        decreases |s| - p
      {
        ReadOne(s, from, dot, frac, p, w, nd);
        OneMoreDigit(s, frac, p);
        p := p + 1;
      }
    }
    while IsDigit(At(s, p))
      invariant frac <= p <= |s| && AllDigits(s[frac..p])
      invariant At(s, p) == '0' ==> nd > 0
      invariant Read(s[from..dot] + s[frac..p], w, nd)
      decreases |s| - p
    {
      ReadOne(s, from, dot, frac, p, w, nd);
      OneMoreDigit(s, frac, p);
      if nd < 19 {
        w := w * 10 + DigitValue(s[p]);
        nd := nd + 1;
      } else {
        RunGoesOn(s, frac, p);
        TooMany(s, from, dot, frac, p, end, w);
        return false, 0, 0, 0;
      }
      p := p + 1;
    }
    RunEndUnique(s, frac, p);
    ok := true;
  }

  lemma {:induction false} RunGoesOn(s: string, i: nat, p: nat)
    requires i <= p < |s| && AllDigits(s[i..p]) && IsDigit(s[p])
    ensures RunEnd(s, i) > p
    decreases p - i
  {
    if i < p {
      assert s[i] == s[i..p][0];
      assert s[i + 1..p] == s[i..p][1..];
      RunGoesOn(s, i + 1, p);
    }
  }

  lemma EmptySum()
    ensures Saturated([]) == 0
  {}

  method ScanExponent(s: string, p: nat) returns (e: int, stop: nat)
    requires p <= |s|
    ensures (e, stop) == ExponentAt(s, p)
  {
    hide Saturated, RunEnd;
    assert Saturated([]) == 0 by { EmptySum(); }
    e, stop := 0, p;
    if At(s, p) == 'e' || At(s, p) == 'E' {
      var x := p + 1;
      var eneg := false;
      if At(s, x) == '-' {
        eneg := true;
        x := x + 1;
      } else if At(s, x) == '+' {
        x := x + 1;
      }
      var from := x;
      var sum: int := 0;
      while IsDigit(At(s, x))
        invariant from <= x <= |s| && AllDigits(s[from..x]) && sum == Saturated(s[from..x])
        decreases |s| - x
      {
        SaturatedStep(s, from, x);
        if sum < 100000 {
          sum := sum * 10 + DigitValue(s[x]);
        }
        x := x + 1;
      }
      RunEndUnique(s, from, x);
      if x != from {
        e, stop := if eneg then -sum else sum, x;
      }
    }
  }

  /** Where a text's digits, point, fraction and end are. */
  predicate Laid(s: string, from: nat, dot: nat, frac: nat, end: nat) {
    && from == (if Sign(At(s, 0)) then 1 else 0) && dot == RunEnd(s, from)
    && frac == (if At(s, dot) == '.' then dot + 1 else dot)
    && end == (if At(s, dot) == '.' then RunEnd(s, frac) else dot)
  }

  lemma MeaningIs(s: string, from: nat, dot: nat, frac: nat, end: nat)
    requires Laid(s, from, dot, frac, end)
    ensures from <= dot <= frac <= end <= |s|
    ensures var digits := s[from..dot] + s[frac..end];
            var (e, stop) := ExponentAt(s, end);
            Meaning(s) ==
            if Hexadecimal(s, from) || digits == [] || Significant(digits) > 19 then Undecided
            else if Significant(digits) == 0 then Zero(At(s, 0) == '-', stop)
            else Number(At(s, 0) == '-', Int(digits), e - (end - frac), stop)
  {
    hide Int, Significant, RunEnd, ExponentAt, Hexadecimal;
  }


  /** The scanner answers what the text means. */
  method Scan(s: string) returns (r: Scanned)
    ensures r == Meaning(s)
  {
    hide Int, Significant, RunEnd, ExponentAt, Read, Meaning, Hexadecimal;
    var p: nat, neg, w: nat, nd: nat, ok := 0, false, 0, 0, true;
    if At(s, p) == '-' {
      neg := true;
      p := p + 1;
    } else if At(s, p) == '+' {
      p := p + 1;
    }
    var d0 := p;
    ghost var dot := RunEnd(s, d0);
    ghost var frac := if At(s, dot) == '.' then dot + 1 else dot;
    ghost var end := if At(s, dot) == '.' then RunEnd(s, frac) else dot;
    MeaningIs(s, d0, dot, frac, end);
    if Hexadecimal(s, p) {
      return Undecided;
    }
    NothingRead(s, d0);
    ok, w, nd, p := ScanDigits(s, d0, d0, d0, 0, 0);
    assert s[d0..d0] + s[d0..dot] == s[d0..dot];
    if !ok {
      SignificantGrows(s[d0..dot], s[frac..end]);
      return Undecided;
    }
    var f0, q: int := p, 0;
    if At(s, p) == '.' {
      f0 := p + 1;
      ok, w, nd, p := ScanDigits(s, d0, dot, f0, w, nd);
      if !ok {
        return Undecided;
      }
      q := -(p - f0);
    }
    assert f0 == frac && p == end && q == -(end - frac);
    assert s[d0..dot] + s[dot..dot] == s[d0..dot];
    ReadMeans(s[d0..dot] + s[frac..end], w, nd);
    if p == d0 || (p == d0 + 1 && At(s, d0) == '.' && p == f0) {
      return Undecided;
    }
    var e, stop := ScanExponent(s, p);
    if nd == 0 {
      return Zero(neg, stop);
    }
    return Number(neg, w, q + e, stop);
  }

  lemma NothingRead(s: string, i: nat)
    requires i <= |s|
    ensures Read(s[i..i], 0, 0)
  {}

  lemma ReadMeans(digits: string, w: nat, nd: nat)
    requires Read(digits, w, nd)
    ensures AllDigits(digits) && w == Int(digits) && nd == Significant(digits) <= 19
  {}
}
