/** Decimal text: what a run of digits means, and where it ends. */
module DecimalText {
  import opened Arith

  predicate IsDigit(c: char) {
    '0' <= c <= '9'
  }

  predicate AllDigits(s: string) {
    forall i :: 0 <= i < |s| ==> IsDigit(s[i])
  }

  function DigitValue(c: char): (d: nat)
    requires IsDigit(c)
    ensures d < 10
  {
    c as int - '0' as int
  }

  function DigitChar(d: nat): (c: char)
    requires d < 10
    ensures IsDigit(c) && DigitValue(c) == d
  {
    ('0' as int + d) as char
  }

  /** The number a run of digits writes; the empty run writes 0. */
  function Int(s: string): nat
    requires AllDigits(s)
  {
    if s == [] then 0 else Int(s[..|s| - 1]) * 10 + DigitValue(s[|s| - 1])
  }

  /** The text at i, NUL past the end. */
  function At(s: string, i: nat): char {
    if i < |s| then s[i] else '\0'
  }

  /** Where the run of digits from i ends. */
  function RunEnd(s: string, i: nat): (j: nat)
    ensures i <= j && (i <= |s| ==> j <= |s|)
    ensures i <= |s| ==> AllDigits(s[i..j])
    ensures !IsDigit(At(s, j))
    decreases |s| - i
  {
    if i < |s| && IsDigit(s[i]) then
      var j := RunEnd(s, i + 1);
      assert forall k :: i < k < j ==> s[k] == s[i + 1..j][k - i - 1];
      j
    else i
  }

  lemma {:induction false} RunEndUnique(s: string, i: nat, j: nat)
    requires i <= j <= |s| && AllDigits(s[i..j]) && !IsDigit(At(s, j))
    ensures RunEnd(s, i) == j
    decreases j - i
  {
    if i < j {
      assert s[i] == s[i..j][0];
      assert s[i + 1..j] == s[i..j][1..];
      RunEndUnique(s, i + 1, j);
    }
  }

  lemma IntSnoc(s: string, c: char)
    requires AllDigits(s) && IsDigit(c)
    ensures AllDigits(s + [c]) && Int(s + [c]) == Int(s) * 10 + DigitValue(c)
  {
    assert (s + [c])[..|s|] == s;
  }

  lemma {:induction false} IntConcat(s: string, t: string)
    requires AllDigits(s) && AllDigits(t)
    ensures AllDigits(s + t) && Int(s + t) == Int(s) * Pow10(|t|) + Int(t)
  {
    if t == [] {
      assert s + t == s;
    } else {
      var t', c := t[..|t| - 1], t[|t| - 1];
      IntConcat(s, t');
      IntSnoc(s + t', c);
      assert s + t == s + t' + [c];
      Associate(Int(s), Pow10(|t'|), 10);
      Pow10Add(|t'|, 1);
      assert Pow10(1) == 10;
    }
  }

  function Zeros(n: nat): (s: string)
    ensures |s| == n && AllDigits(s) && forall i :: 0 <= i < n ==> s[i] == '0'
  {
    seq(n, _ => '0')
  }

  lemma {:induction false} IntZeros(n: nat)
    ensures Int(Zeros(n)) == 0
  {
    if n > 0 {
      assert Zeros(n)[..n - 1] == Zeros(n - 1);
      IntZeros(n - 1);
    }
  }

  /** Where the leading zeros end. */
  function LeadingZeros(s: string): (n: nat)
    ensures n <= |s| && (n < |s| ==> s[n] != '0')
    ensures forall i :: 0 <= i < n ==> s[i] == '0'
  {
    if s != [] && s[0] == '0' then 1 + LeadingZeros(s[1..]) else 0
  }

  /** How many digits count. */
  function Significant(s: string): nat {
    |s| - LeadingZeros(s)
  }

  /** The decimal digits of a number, the highest first. */
  function Dec(n: nat): (s: string)
    ensures |s| > 0 && AllDigits(s)
    ensures n > 0 ==> s[0] != '0'
  {
    if n < 10 then [DigitChar(n)] else Dec(n / 10) + [DigitChar(n % 10)]
  }

  lemma {:induction false} IntOfDec(n: nat)
    ensures Int(Dec(n)) == n
  {
    if n < 10 {
      assert Dec(n) == [] + [DigitChar(n)];
      IntSnoc([], DigitChar(n));
    } else {
      IntOfDec(n / 10);
      IntSnoc(Dec(n / 10), DigitChar(n % 10));
    }
  }

  lemma {:induction false} DecLength(n: nat, k: nat)
    requires k > 0 && n < Pow10(k)
    ensures |Dec(n)| <= k
    decreases n
  {
    assert Pow10(1) == 10;
    if n >= 10 {
      DecLength(n / 10, k - 1);
    }
  }

  lemma SignificantSnoc(s: string, c: char)
    ensures Significant(s + [c]) == if Significant(s) > 0 || c != '0' then Significant(s) + 1 else 0
  {
    LeadingZerosUnique(s + [c],
      if Significant(s) > 0 || c != '0' then LeadingZeros(s) else |s| + 1);
  }

  lemma {:induction false} LeadingZerosUnique(s: string, n: nat)
    requires n <= |s| && (n < |s| ==> s[n] != '0')
    requires forall i :: 0 <= i < n ==> s[i] == '0'
    ensures LeadingZeros(s) == n
  {
    if n > 0 {
      LeadingZerosUnique(s[1..], n - 1);
    }
  }

  lemma {:induction false} SignificantGrows(s: string, t: string)
    ensures Significant(s) <= Significant(s + t)
  {
    if t == [] {
      assert s + t == s;
    } else {
      var t' := t[..|t| - 1];
      SignificantGrows(s, t');
      SignificantSnoc(s + t', t[|t| - 1]);
      assert s + t == s + t' + [t[|t| - 1]];
    }
  }

  /** The significant digits bound the number on both sides. */
  lemma {:induction false} SignificantBounds(s: string)
    requires AllDigits(s)
    ensures Int(s) < Pow10(Significant(s))
    ensures Significant(s) > 0 ==> Int(s) >= Pow10(Significant(s) - 1)
  {
    if s != [] {
      var s', c := s[..|s| - 1], s[|s| - 1];
      SignificantBounds(s');
      assert s == s' + [c];
      SignificantSnoc(s', c);
      if Significant(s') == 0 {
        assert Pow10(1) == 10;
      }
    }
  }
}
