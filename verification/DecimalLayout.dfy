/**
 * The shortest-form number printer's layout: fixed notation while the point stays near the
 * digits, scientific beyond. What it lays out, the scanner reads back whole.
 */
module DecimalLayout {
  import opened Arith
  import opened DecimalText
  import opened DecimalScan

  /** Trailing zeros moved from the significand into the exponent. */
  function Stripped(sig: nat, exp: int): (r: (nat, int))
    requires sig > 0
    ensures r.0 > 0 && r.0 % 10 != 0 && r.1 >= exp && r.0 <= sig
    ensures sig == r.0 * Pow10(r.1 - exp)
  {
    if sig % 10 == 0 then
      var (s, e) := Stripped(sig / 10, exp + 1);
      Associate(10, s, Pow10(e - exp - 1));
      Associate(s, 10, Pow10(e - exp - 1));
      (s, e)
    else (sig, exp)
  }

  /** An exponent in two digits, or three from 100 on. */
  function TwoDigits(x: nat): (s: string)
    requires x < 1000
    ensures AllDigits(s) && 2 <= |s| <= 3
  {
    var low := [DigitChar((x / 10) % 10), DigitChar(x % 10)];
    if x >= 100 then [DigitChar(x / 100)] + low else low
  }

  lemma HundredsTensOnes(x: nat)
    ensures x == (x / 100) * 100 + ((x / 10) % 10) * 10 + x % 10
    ensures x < 100 ==> x / 100 == 0
  {
    DivModUnique(x, 100, (x / 10) / 10, ((x / 10) % 10) * 10 + x % 10);
  }

  lemma IntOfTwoDigits(x: nat)
    requires x < 1000
    ensures Int(TwoDigits(x)) == x
  {
    hide Int, Pow10, DigitChar, AllDigits;
    var h, c, d := x / 100, (x / 10) % 10, x % 10;
    HundredsTensOnes(x);
    IntOfTwo(c, d);
    if x >= 100 {
      IntOfThree(h, c, d);
    }
  }

  lemma IntOfThree(h: nat, c: nat, d: nat)
    requires h < 10 && c < 10 && d < 10
    ensures Int([DigitChar(h)] + [DigitChar(c), DigitChar(d)]) == h * 100 + c * 10 + d
  {
    hide Int, Pow10;
    IntOfOne(h);
    IntOfTwo(c, d);
    IntConcat([DigitChar(h)], [DigitChar(c), DigitChar(d)]);
    assert Pow10(2) == 100 by { TenSquared(); }
  }

  lemma TenSquared()
    ensures Pow10(2) == 100
  {}

  lemma IntOfOne(d: nat)
    requires d < 10
    ensures Int([DigitChar(d)]) == d
  {
    IntSnoc([], DigitChar(d));
    assert [] + [DigitChar(d)] == [DigitChar(d)];
  }

  lemma IntOfTwo(c: nat, d: nat)
    requires c < 10 && d < 10
    ensures Int([DigitChar(c), DigitChar(d)]) == c * 10 + d
  {
    IntOfOne(c);
    IntSnoc([DigitChar(c)], DigitChar(d));
    assert [DigitChar(c)] + [DigitChar(d)] == [DigitChar(c), DigitChar(d)];
  }

  /** The scientific exponents the three exponent digits can write. */
  predicate Writable(sig: nat, exp: int) {
    0 < sig < Pow10(17) && sig % 10 != 0 && -999 <= exp + |Dec(sig)| - 1 <= 999
  }

  function Minus(neg: bool): string {
    if neg then "-" else ""
  }

  /** The digits ds placed for the value 0.ds * 10^k. */
  function Placed(ds: string, k: int): string
    requires ds != [] && -999 <= k - 1 <= 999
  {
    if -4 <= k - 1 < 16 then Fixed(ds, k) else Leading(ds) + ExponentText(k - 1)
  }

  function Fixed(ds: string, k: int): string {
    if k <= 0 then "0." + Zeros(-k) + ds
    else if k >= |ds| then ds + Zeros(k - |ds|) + ".0"
    else ds[..k] + "." + ds[k..]
  }

  function Leading(ds: string): string
    requires ds != []
  {
    ds[..1] + if |ds| > 1 then "." + ds[1..] else ""
  }

  function ExponentText(x: int): (t: string)
    requires -999 <= x <= 999
    ensures |t| <= 5
  {
    if x < 0 then "e-" + TwoDigits(-x) else "e+" + TwoDigits(x)
  }

  /** The text of sig * 10^exp. */
  function Layout(neg: bool, sig: nat, exp: int): string
    requires Writable(sig, exp)
  {
    Minus(neg) + Placed(Dec(sig), exp + |Dec(sig)|)
  }

  /** The exponent part of a text: none, or a letter, a sign and digits. */
  ghost predicate Exponent(tail: string, e: int) {
    || (tail == "" && e == 0)
    || (-999 <= e < 0 && tail == "e-" + TwoDigits(-e))
    || (0 <= e <= 999 && tail == "e+" + TwoDigits(e))
  }

  lemma ExponentRead(t: string, i: nat, tail: string, e: int)
    requires i <= |t| && t[i..] == tail && Exponent(tail, e)
    ensures ExponentAt(t, i) == (e, |t|)
    ensures !IsDigit(At(t, i)) && At(t, i) != '.' && At(t, i) != 'x' && At(t, i) != 'X'
  {
    hide TwoDigits, Saturated, Int, RunEnd;
    if tail != "" {
      var x := if e < 0 then -e else e;
      var ds := TwoDigits(x);
      assert t[i] == tail[0] && t[i + 1] == tail[1];
      assert t[i + 2..|t|] == tail[2..] == ds;
      IntOfTwoDigits(x);
      SaturatedMeaning(ds);
      RunEndUnique(t, i + 2, |t|);
    }
  }

  /** How a text made of digits, maybe a point and more digits, and maybe an exponent, is read. */
  lemma PartsRead(t: string, neg: bool, a: string, dotted: bool, b: string, tail: string, e: int)
    requires a != "" && AllDigits(a) && AllDigits(b) && (!dotted ==> b == "")
    requires 0 < Significant(a + b) <= 19 && Exponent(tail, e)
    requires t == Minus(neg) + a + (if dotted then "." + b else "") + tail
    requires a[0] == '0' ==> dotted && |a| == 1
    ensures Meaning(t) == Number(neg, Int(a + b), e - |b|, |t|)
  {
    hide Significant, Int, RunEnd, ExponentAt, Exponent;
    var from := if neg then 1 else 0;
    var dot := from + |a|;
    var frac := if dotted then dot + 1 else dot;
    var end := frac + |b|;
    assert t[from..dot] == a;
    assert t[frac..end] == b;
    assert t[end..] == tail;
    assert At(t, from) == a[0];
    ExponentRead(t, end, tail, e);
    RunEndUnique(t, from, dot);
    if dotted {
      assert t[dot] == '.';
      RunEndUnique(t, frac, end);
    }
  }

  /** The digits of a number without trailing zeros: no leading zero, at most seventeen. */
  lemma DigitsOf(sig: nat, exp: int)
    requires Writable(sig, exp)
    ensures var ds := Dec(sig); |ds| <= 17 && Significant(ds) == |ds| && Int(ds) == sig
  {
    IntOfDec(sig);
    DecLength(sig, 17);
  }

  lemma Point(ds: string, k: int)
    requires ds != [] && AllDigits(ds) && ds[0] != '0' && |ds| <= 17 && -4 <= k - 1 < 16
    ensures k <= 0 ==> Int("0" + (Zeros(-k) + ds)) == Int(ds) && Significant("0" + (Zeros(-k) + ds)) == |ds|
    ensures k >= |ds| ==>
              && Int(ds + Zeros(k - |ds|) + "0") == Int(ds) * Pow10(k - |ds| + 1)
              && Significant(ds + Zeros(k - |ds|) + "0") == k + 1
  {
    hide Int, Pow10, Significant;
    if k <= 0 {
      assert "0" + (Zeros(-k) + ds) == Zeros(1 - k) + ds;
      IntConcat(Zeros(1 - k), ds);
      IntZeros(1 - k);
      NoLeadingZero(1 - k, ds);
    }
    if k >= |ds| {
      assert ds + Zeros(k - |ds|) + "0" == ds + Zeros(k - |ds| + 1);
      IntConcat(ds, Zeros(k - |ds| + 1));
      IntZeros(k - |ds| + 1);
      NoLeadingZero(0, ds + Zeros(k - |ds| + 1));
      assert Zeros(0) + (ds + Zeros(k - |ds| + 1)) == ds + Zeros(k - |ds| + 1);
    }
  }

  lemma NoLeadingZero(n: nat, ds: string)
    requires ds != [] && ds[0] != '0'
    ensures Significant(Zeros(n) + ds) == |ds|
  {
    LeadingZerosUnique(Zeros(n) + ds, n);
  }

  ghost predicate Digits(ds: string) {
    ds != [] && AllDigits(ds) && ds[0] != '0' && |ds| <= 17 && Significant(ds) == |ds|
  }

  lemma SmallRead(neg: bool, ds: string, k: int)
    requires Digits(ds) && -3 <= k <= 0
    ensures Meaning(Minus(neg) + Placed(ds, k)) == Number(neg, Int(ds), k - |ds|, |Minus(neg) + Placed(ds, k)|)
  {
    hide Int, Significant, Meaning, TwoDigits;
    var t := Minus(neg) + Placed(ds, k);
    Point(ds, k);
    assert t == Minus(neg) + "0" + ("." + (Zeros(-k) + ds)) + "";
    PartsRead(t, neg, "0", true, Zeros(-k) + ds, "", 0);
  }

  lemma WholeRead(neg: bool, ds: string, k: int)
    requires Digits(ds) && |ds| <= k <= 16
    ensures Meaning(Minus(neg) + Placed(ds, k)) ==
            Number(neg, Int(ds) * Pow10(k - |ds| + 1), -1, |Minus(neg) + Placed(ds, k)|)
  {
    hide Int, Significant, Meaning, Pow10, TwoDigits;
    var t := Minus(neg) + Placed(ds, k);
    Point(ds, k);
    assert t == Minus(neg) + (ds + Zeros(k - |ds|)) + ("." + "0") + "";
    PartsRead(t, neg, ds + Zeros(k - |ds|), true, "0", "", 0);
  }

  lemma SplitRead(neg: bool, ds: string, k: int)
    requires Digits(ds) && 0 < k < |ds| && k <= 16
    ensures Meaning(Minus(neg) + Placed(ds, k)) == Number(neg, Int(ds), k - |ds|, |Minus(neg) + Placed(ds, k)|)
  {
    hide Int, Significant, Meaning, TwoDigits;
    var t := Minus(neg) + Placed(ds, k);
    assert ds[..k] + ds[k..] == ds;
    assert t == Minus(neg) + ds[..k] + ("." + ds[k..]) + "";
    PartsRead(t, neg, ds[..k], true, ds[k..], "", 0);
  }

  lemma SameText(a: string, b: string, c: string, d: string)
    ensures a + ((b + c) + d) == a + b + c + d
  {}

  lemma ExponentWritten(x: int)
    requires -999 <= x <= 999
    ensures Exponent(ExponentText(x), x)
  {}

  lemma ScientificRead(neg: bool, ds: string, k: int)
    requires Digits(ds) && -999 <= k - 1 <= 999 && !(-4 <= k - 1 < 16)
    ensures Meaning(Minus(neg) + Placed(ds, k)) == Number(neg, Int(ds), k - |ds|, |Minus(neg) + Placed(ds, k)|)
  {
    hide Int, Significant, Meaning, TwoDigits, ExponentText, Exponent;
    assert Exponent(ExponentText(k - 1), k - 1) by { ExponentWritten(k - 1); }
    var t, nd, x := Minus(neg) + Placed(ds, k), |ds|, k - 1;
    assert ds[..1] + ds[1..] == ds;
    SameText(Minus(neg), ds[..1], if nd > 1 then "." + ds[1..] else "", ExponentText(x));
    PartsRead(t, neg, ds[..1], nd > 1, ds[1..], ExponentText(x), x);
  }

  lemma PlacedLength(ds: string, k: int)
    requires ds != [] && |ds| <= 17 && -999 <= k - 1 <= 999
    ensures |Placed(ds, k)| <= 23
  {
    hide TwoDigits, ExponentText;
  }

  /**
   * Printer and scanner undo each other: the whole text is read, and what is read is the printed
   * value, exactly.
   */
  lemma LayoutIsRead(neg: bool, sig: nat, exp: int)
    requires Writable(sig, exp)
    ensures var t := Layout(neg, sig, exp);
            var r := Meaning(t);
            && r.Number? && r.neg == neg && r.stop == |t| <= 24
            && r.q <= exp && r.w == sig * Pow10(exp - r.q)
  {
    hide Int, Significant, Meaning, Placed, Pow10, Dec;
    var ds := Dec(sig);
    var k := exp + |ds|;
    DigitsOf(sig, exp);
    PlacedLength(ds, k);
    assert Pow10(0) == 1 by { TenToZero(); }
    if !(-4 <= k - 1 < 16) {
      ScientificRead(neg, ds, k);
    } else if k <= 0 {
      SmallRead(neg, ds, k);
    } else if k >= |ds| {
      WholeRead(neg, ds, k);
    } else {
      SplitRead(neg, ds, k);
    }
  }

  function Reversed(s: string): (r: string)
    ensures |r| == |s| && forall i :: 0 <= i < |s| ==> r[i] == s[|s| - 1 - i]
  {
    if s == [] then [] else [s[|s| - 1]] + Reversed(s[..|s| - 1])
  }

  method WriteLowFirst(ds: array<char>, sig: nat) returns (nd: nat)
    requires sig > 0 && |Dec(sig)| <= ds.Length
    modifies ds
    ensures nd <= ds.Length && Reversed(ds[..nd]) == Dec(sig)
  {
    nd := 0;
    var m := sig;
    while m != 0
      invariant nd <= ds.Length
      invariant (if m == 0 then "" else Dec(m)) + Reversed(ds[..nd]) == Dec(sig)
      decreases m
    {
      ghost var high := if m < 10 then "" else Dec(m / 10);
      assert Dec(m) == high + [DigitChar(m % 10)];
      ghost var was := ds[..nd];
      ds[nd] := DigitChar(m % 10);
      nd := nd + 1;
      assert ds[..nd] == was + [DigitChar(m % 10)];
      assert (was + [DigitChar(m % 10)])[..|was|] == was;
      assert Reversed(ds[..nd]) == [DigitChar(m % 10)] + Reversed(was);
      assert high + ([DigitChar(m % 10)] + Reversed(was)) == Dec(m) + Reversed(was);
      m := m / 10;
    }
  }

  method ReverseInPlace(ds: array<char>, nd: nat)
    requires nd <= ds.Length
    modifies ds
    ensures ds[..nd] == Reversed(old(ds[..nd]))
  {
    ghost var low := ds[..nd];
    var i := 0;
    while i < nd / 2
      invariant 0 <= i <= nd / 2
      invariant forall j :: 0 <= j < i ==> ds[j] == low[nd - 1 - j] && ds[nd - 1 - j] == low[j]
      invariant forall j :: i <= j < nd - i ==> ds[j] == low[j]
    {
      ds[i], ds[nd - 1 - i] := ds[nd - 1 - i], ds[i];
      i := i + 1;
    }
    assert forall j :: 0 <= j < nd ==> ds[j] == low[nd - 1 - j];
  }

  /** The digits of sig, written lowest first and then turned round in place. */
  method WriteDigits(ds: array<char>, sig: nat) returns (nd: nat)
    requires 0 < sig < Pow10(17) && ds.Length >= 17
    modifies ds
    ensures nd <= 17 && ds[..nd] == Dec(sig)
  {
    hide Pow10, Dec;
    DecLength(sig, 17);
    nd := WriteLowFirst(ds, sig);
    ReverseInPlace(ds, nd);
  }

  /** Characters copied to the end of what the buffer holds. */
  method Put(b: array<char>, o: nat, text: string) returns (p: nat)
    requires o + |text| <= b.Length
    modifies b
    ensures p == o + |text| && b[..p] == old(b[..o]) + text
  {
    for i := 0 to |text|
      invariant b[..o] == old(b[..o])
      invariant b[o..o + i] == text[..i]
    {
      b[o + i] := text[i];
      assert b[o..o + i + 1] == b[o..o + i] + [text[i]];
      assert text[..i + 1] == text[..i] + [text[i]];
    }
    p := o + |text|;
    assert b[..p] == b[..o] + b[o..p];
  }

  /** The printer's last part: trailing zeros out, digits, layout; the buffer is never overrun. */
  method Print(b: array<char>, neg: bool, sig0: nat, exp0: int) returns (o: nat)
    requires b.Length >= 32 && 0 < sig0 < Pow10(17)
    requires Writable(Stripped(sig0, exp0).0, Stripped(sig0, exp0).1)
    modifies b
    ensures o <= 24
    ensures b[..o] == Layout(neg, Stripped(sig0, exp0).0, Stripped(sig0, exp0).1)
  {
    hide Pow10, Dec;
    o := 0;
    if neg {
      o := Put(b, o, "-");
    }
    var sig, exp := sig0, exp0;
    while sig % 10 == 0
      invariant 0 < sig <= sig0
      invariant Stripped(sig, exp) == Stripped(sig0, exp0)
      decreases sig
    {
      sig, exp := sig / 10, exp + 1;
    }
    assert b[..o] == Minus(neg);
    var digits := new char[24];
    var nd := WriteDigits(digits, sig);
    var ds := digits[..nd];
    var k := exp + nd;
    PlacedLength(ds, k);
    o := Place(b, o, ds, k);
  }

  method Place(b: array<char>, o0: nat, ds: string, k: int) returns (o: nat)
    requires ds != [] && |ds| <= 17 && -999 <= k - 1 <= 999 && o0 + 23 <= b.Length
    modifies b
    ensures o == o0 + |Placed(ds, k)| <= b.Length && b[..o] == old(b[..o0]) + Placed(ds, k)
  {
    hide Fixed, ExponentText, Leading;
    PlacedLength(ds, k);
    var x := k - 1;
    if -4 <= x < 16 {
      o := PlaceFixed(b, o0, ds, k);
    } else {
      o := PlaceLeading(b, o0, ds);
      o := PlaceExponent(b, o, x);
    }
  }

  method PutZeros(b: array<char>, o: nat, n: nat) returns (p: nat)
    requires o + n <= b.Length
    modifies b
    ensures p == o + n && b[..p] == old(b[..o]) + Zeros(n)
  {
    p := o;
    for i := 0 to n
      invariant p == o + i && b[..p] == old(b[..o]) + Zeros(i)
    {
      p := Put(b, p, "0");
      assert Zeros(i) + "0" == Zeros(i + 1);
    }
  }

  method PlaceSmall(b: array<char>, o0: nat, ds: string, k: int) returns (o: nat)
    requires k <= 0 && o0 + 2 - k + |ds| <= b.Length
    modifies b
    ensures o == o0 + |"0." + Zeros(-k) + ds| && b[..o] == old(b[..o0]) + ("0." + Zeros(-k) + ds)
  {
    o := Put(b, o0, "0.");
    o := PutZeros(b, o, -k);
    o := Put(b, o, ds);
  }

  method PlaceWhole(b: array<char>, o0: nat, ds: string, k: int) returns (o: nat)
    requires k >= |ds| && o0 + k + 2 <= b.Length
    modifies b
    ensures o == o0 + k + 2 && b[..o] == old(b[..o0]) + (ds + Zeros(k - |ds|) + ".0")
  {
    o := Put(b, o0, ds);
    o := PutZeros(b, o, k - |ds|);
    o := Put(b, o, ".0");
  }

  method PlaceFixed(b: array<char>, o0: nat, ds: string, k: int) returns (o: nat)
    requires o0 + |Fixed(ds, k)| <= b.Length
    modifies b
    ensures o == o0 + |Fixed(ds, k)| && b[..o] == old(b[..o0]) + Fixed(ds, k)
  {
    if k <= 0 {
      o := PlaceSmall(b, o0, ds, k);
    } else if k >= |ds| {
      o := PlaceWhole(b, o0, ds, k);
    } else {
      o := Put(b, o0, ds[..k]);
      o := Put(b, o, ".");
      o := Put(b, o, ds[k..]);
    }
  }

  method PlaceLeading(b: array<char>, o0: nat, ds: string) returns (o: nat)
    requires ds != [] && o0 + |Leading(ds)| <= b.Length
    modifies b
    ensures o == o0 + |Leading(ds)| && b[..o] == old(b[..o0]) + Leading(ds)
  {
    o := Put(b, o0, ds[..1]);
    if |ds| > 1 {
      o := Put(b, o, ".");
      o := Put(b, o, ds[1..]);
    }
  }

  method PlaceExponent(b: array<char>, o0: nat, x0: int) returns (o: nat)
    requires -999 <= x0 <= 999 && o0 + |ExponentText(x0)| <= b.Length
    modifies b
    ensures o == o0 + |ExponentText(x0)| && b[..o] == old(b[..o0]) + ExponentText(x0)
  {
    var x := x0;
    o := Put(b, o0, "e");
    if x < 0 {
      o := Put(b, o, "-");
      x := -x;
    } else {
      o := Put(b, o, "+");
    }
    o := PutTwoDigits(b, o, x);
  }

  method PutTwoDigits(b: array<char>, o0: nat, x: nat) returns (o: nat)
    requires x < 1000 && o0 + |TwoDigits(x)| <= b.Length
    modifies b
    ensures o == o0 + |TwoDigits(x)| && b[..o] == old(b[..o0]) + TwoDigits(x)
  {
    o := o0;
    if x >= 100 {
      o := Put(b, o, [DigitChar(x / 100)]);
    }
    o := Put(b, o, [DigitChar((x / 10) % 10)]);
    o := Put(b, o, [DigitChar(x % 10)]);
  }
}
