/**
 * Octets on Arrow's wire: numbers written low octet first in two's complement and read back, and
 * what it means for one run of octets to lie inside another.
 */
module ArrowBytes {
  import opened Arith

  type Byte = x: int | 0 <= x < 256

  /** The source's exceptions. Compressed stands for a body this model does not read. */
  datatype Error = IndexError | ValueRange | BadArg | OutOfMemory | Compressed

  datatype Read<+T> = Ok(value: T) | Err(error: Error) {
    predicate IsFailure() {
      Err?
    }

    function PropagateFailure<U>(): Read<U>
      requires Err?
    {
      Err(error)
    }

    function Extract(): T
      requires Ok?
    {
      value
    }
  }

  function Zeros(n: nat): (z: seq<Byte>)
    ensures |z| == n && forall i :: 0 <= i < n ==> z[i] == 0
  {
    seq(n, _ => 0)
  }

  /** What is left of v when k octets have been written. */
  function Left(v: int, k: nat): int
    decreases k
  {
    if k == 0 then v else Left(v / 256, k - 1)
  }

  /** The k octets of a number's two's complement pattern. */
  function Little(v: int, k: nat): (s: seq<Byte>)
    ensures |s| == k
  {
    seq(k, i requires 0 <= i < k => Left(v, i) % 256)
  }

  lemma LittleStep(v: int, k: nat)
    requires k > 0
    ensures Little(v, k) == [v % 256] + Little(v / 256, k - 1)
  {
    forall i | 0 <= i < k ensures Little(v, k)[i] == ([v % 256] + Little(v / 256, k - 1))[i] {
      assert Left(v, i) == if i == 0 then v else Left(v / 256, i - 1);
    }
  }

  function Unsigned(s: seq<Byte>): (v: nat)
    ensures v < Pow256(|s|)
  {
    if s == [] then 0 else s[0] + 256 * Unsigned(s[1..])
  }

  /** The number of a two's complement pattern. */
  function Signed(s: seq<Byte>): int
    requires s != []
  {
    if s[|s| - 1] >= 128 then Unsigned(s) - Pow256(|s|) else Unsigned(s)
  }

  lemma {:induction false} LittleIsUnsigned(v: int, k: nat)
    ensures Unsigned(Little(v, k)) == v % Pow256(k)
    decreases k
  {
    hide Little;
    if k > 0 {
      LittleStep(v, k);
      LittleIsUnsigned(v / 256, k - 1);
      var p := Pow256(k - 1);
      DivMod(v / 256, p);
      DivMod(v, 256);
      Associate(v / 256 / p, 256, p);
      DivModUnique(v, 256 * p, v / 256 / p, v / 256 % p * 256 + v % 256);
    }
  }

  lemma {:induction false} TopOctet(s: seq<Byte>)
    requires s != []
    ensures s[|s| - 1] >= 128 <==> 2 * Unsigned(s) >= Pow256(|s|)
  {
    if |s| == 1 {
      assert s[1..] == [];
    } else {
      TopOctet(s[1..]);
      assert s[1..][|s| - 2] == s[|s| - 1];
    }
  }

  /** v has a two's complement pattern of k octets. */
  predicate Fits(v: int, k: nat) {
    k > 0 && 0 <= 2 * v + Pow256(k) && 2 * v < Pow256(k)
  }

  /** A number in range is read back from its pattern, unsigned and signed. */
  lemma LittleIsRead(v: int, k: nat)
    ensures 0 <= v < Pow256(k) ==> Unsigned(Little(v, k)) == v
    ensures Fits(v, k) ==> Signed(Little(v, k)) == v
  {
    LittleIsUnsigned(v, k);
    hide Little, Unsigned, Pow256;
    var p, s := Pow256(k), Little(v, k);
    if 0 <= v < p {
      DivModUnique(v, p, 0, v);
    }
    if Fits(v, k) {
      TopOctet(s);
      if v < 0 {
        DivModUnique(v, p, -1, v + p);
      } else {
        DivModUnique(v, p, 0, v);
      }
    }
  }

  // ---- reading ----

  /** k octets at an offset, signed or not; an eight-octet number is always signed. */
  function GetLE(b: seq<Byte>, at: int, k: nat, signed: bool): Read<int>
    requires k > 0
  {
    if at < 0 || at + k > |b| then Err(IndexError)
    else if signed || k == 8 then Ok(Signed(b[at..at + k]))
    else Ok(Unsigned(b[at..at + k]))
  }

  /** m lies in w at offset d. */
  predicate Sits(m: seq<Byte>, w: seq<Byte>, d: nat) {
    d + |m| <= |w| && w[d..d + |m|] == m
  }

  lemma SitsTransitive(m: seq<Byte>, w: seq<Byte>, x: seq<Byte>, d: nat, e: nat)
    requires Sits(m, w, d) && Sits(w, x, e)
    ensures Sits(m, x, d + e)
  {
    SliceOfSlice(x, e, |w|, d, d + |m|);
  }

  lemma SliceOfSlice(w: seq<Byte>, d: nat, n: nat, i: nat, j: nat)
    requires d + n <= |w| && i <= j <= n
    ensures w[d..d + n][i..j] == w[d + i..d + j]
  {
    var a, b := w[d..d + n][i..j], w[d + i..d + j];
    assert |a| == |b| && forall x :: 0 <= x < |a| ==> a[x] == b[x];
  }

  /** What is read of a run of octets is read of any octets it lies in. */
  lemma GetThere(m: seq<Byte>, w: seq<Byte>, d: nat, at: int, k: nat, signed: bool)
    requires Sits(m, w, d) && k > 0 && GetLE(m, at, k, signed).Ok?
    ensures GetLE(w, at + d, k, signed) == GetLE(m, at, k, signed)
  {
    SliceOfSlice(w, d, |m|, at, at + k);
  }

  /** A number stands at an offset. */
  lemma GetWritten(m: seq<Byte>, at: nat, k: nat, signed: bool, v: int)
    requires k > 0 && at + k <= |m| && m[at..at + k] == Little(v, k)
    requires if signed || k == 8 then Fits(v, k) else 0 <= v < Pow256(k)
    ensures GetLE(m, at, k, signed) == Ok(v)
  {
    LittleIsRead(v, k);
  }

  // ---- the loops ----

  lemma LittleSnoc(v: int, k: nat)
    ensures Little(v, k + 1) == Little(v, k) + [Left(v, k) % 256]
  {}

  lemma {:induction false} LeftStep(v: int, k: nat)
    ensures Left(v, k + 1) == Left(v, k) / 256
    decreases k
  {
    if k > 0 {
      LeftStep(v / 256, k - 1);
    }
  }

  /** The source's MOD and DIV, which truncate. */
  function Rem(x: int, n: int): int
    requires n > 0
  {
    if x >= 0 then x % n else -(-x % n)
  }

  function Quo(x: int, n: int): int
    requires n > 0
  {
    if x >= 0 then x / n else -(-x / n)
  }

  lemma LowOctet(x: int)
    ensures var r := Rem(x, 256); var m := if r < 0 then r + 256 else r;
            m == x % 256 && Quo(x - m, 256) == x / 256
  {}

  method PutLE(u: array<Byte>, at: nat, v: int, k: nat)
    requires at + k <= u.Length
    modifies u
    ensures u[..at] == old(u[..at]) && u[at..at + k] == Little(v, k) && u[at + k..] == old(u[at + k..])
  {
    hide Little;
    var x := v;
    NoOctets(v);
    for i := 0 to k
      invariant x == Left(v, i)
      invariant u[..at] == old(u[..at]) && u[at..at + i] == Little(v, i) && u[at + k..] == old(u[at + k..])
    {
      var m := Rem(x, 256);
      if m < 0 {
        m := m + 256;
      }
      LowOctet(x);
      LittleSnoc(v, i);
      LeftStep(v, i);
      u[at + i] := m;
      assert u[at..at + i + 1] == u[at..at + i] + [u[at + i]];
      x := Quo(x - m, 256);
    }
  }

  lemma NoOctets(v: int)
    ensures Little(v, 0) == []
  {}

  function Flip(s: seq<Byte>): (t: seq<Byte>)
    ensures |t| == |s|
  {
    if s == [] then [] else [255 - s[0]] + Flip(s[1..])
  }

  lemma {:induction false} FlipIsComplement(s: seq<Byte>)
    ensures Unsigned(Flip(s)) == Pow256(|s|) - 1 - Unsigned(s)
  {
    if s != [] {
      FlipIsComplement(s[1..]);
      assert Flip(s)[1..] == Flip(s[1..]);
    }
  }

  lemma UnsignedStep(s: seq<Byte>, i: nat)
    requires i < |s|
    ensures Unsigned(s[i..]) == s[i] + 256 * Unsigned(s[i + 1..])
    ensures Unsigned(Flip(s[i..])) == 255 - s[i] + 256 * Unsigned(Flip(s[i + 1..]))
  {
    assert s[i..][1..] == s[i + 1..];
    assert Flip(s[i..])[1..] == Flip(s[i + 1..]);
  }

  /** The reader's loop, high octet first. */
  method ReadUp(s: seq<Byte>) returns (v: int)
    ensures v == Unsigned(s)
  {
    v := 0;
    var i := |s|;
    while i > 0
      invariant 0 <= i <= |s| && v == Unsigned(s[i..])
    {
      i := i - 1;
      UnsignedStep(s, i);
      v := v * 256 + s[i];
    }
    assert s[0..] == s;
  }

  /** The one for a negative number, which sums the complement. */
  method ReadDown(s: seq<Byte>) returns (v: int)
    ensures v == Pow256(|s|) - 1 - Unsigned(s)
  {
    v := 0;
    var i := |s|;
    while i > 0
      invariant 0 <= i <= |s| && v == Unsigned(Flip(s[i..]))
    {
      i := i - 1;
      UnsignedStep(s, i);
      v := v * 256 + (255 - s[i]);
    }
    assert s[0..] == s;
    FlipIsComplement(s);
  }

  method ReadLE(b: seq<Byte>, at: int, k: nat, signed: bool) returns (r: Read<int>)
    requires k > 0
    ensures r == GetLE(b, at, k, signed)
  {
    if at < 0 || at + k > |b| {
      return Err(IndexError);
    }
    if (signed || k == 8) && b[at + k - 1] >= 128 {
      var v := ReadDown(b[at..at + k]);
      return Ok(-v - 1);
    }
    var v := ReadUp(b[at..at + k]);
    return Ok(v);
  }
}
