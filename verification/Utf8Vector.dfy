/** The vector validator: sixteen octets at a time, three nibble tables and a saturating
    subtract.  It is modelled lane by lane; its answer is the sequence loop's. */
module Utf8Vector {
  import opened Utf8
  import opened Utf8Text

  // ---- error bits and tables (runtime/m9rt.c:792-831) ----

  const TOO_SHORT: Octet := 0x01
  const TOO_LONG: Octet := 0x02
  const OVERLONG_3: Octet := 0x04
  const TOO_LARGE: Octet := 0x08
  const SURROGATE: Octet := 0x10
  const OVERLONG_2: Octet := 0x20
  const TOO_LARGE_1000: Octet := 0x40
  const OVERLONG_4: Octet := 0x40
  const TWO_CONTS: Octet := 0x80
  const CARRY: Octet := TOO_SHORT | TOO_LONG | TWO_CONTS
  const LARGE1: Octet := CARRY | TOO_LARGE | TOO_LARGE_1000

  /** By the high nibble of the octet before. */
  function Table1High(n: bv8): Octet {
    if n < 0x8 then TOO_LONG
    else if n < 0xC then TWO_CONTS
    else if n == 0xC then TOO_SHORT | OVERLONG_2
    else if n == 0xD then TOO_SHORT
    else if n == 0xE then TOO_SHORT | OVERLONG_3 | SURROGATE
    else TOO_SHORT | TOO_LARGE | TOO_LARGE_1000 | OVERLONG_4
  }

  /** By the low nibble of the octet before. */
  function Table1Low(n: bv8): Octet {
    if n == 0x0 then CARRY | OVERLONG_3 | OVERLONG_2 | OVERLONG_4
    else if n == 0x1 then CARRY | OVERLONG_2
    else if n < 0x4 then CARRY
    else if n == 0x4 then CARRY | TOO_LARGE
    else if n == 0xD then LARGE1 | SURROGATE
    else LARGE1
  }

  /** By the high nibble of this octet. */
  function Table2High(n: bv8): Octet {
    if n < 0x8 then TOO_SHORT
    else if n == 0x8 then TOO_LONG | OVERLONG_2 | TWO_CONTS | OVERLONG_3 | TOO_LARGE_1000 | OVERLONG_4
    else if n == 0x9 then TOO_LONG | OVERLONG_2 | TWO_CONTS | OVERLONG_3 | TOO_LARGE
    else if n < 0xC then TOO_LONG | OVERLONG_2 | TWO_CONTS | SURROGATE | TOO_LARGE
    else TOO_SHORT
  }

  function SatSub(a: Octet, b: Octet): Octet {
    if a < b then 0 else a - b
  }

  /** The error bits of one lane: the pair classified, against the positions that must
      be continuations. */
  function Special(p1: Octet, b: Octet): Octet {
    Table1High(p1 >> 4) & Table1Low(p1 & 0x0F) & Table2High(b >> 4)
  }

  function Must(p3: Octet, p2: Octet): Octet {
    (SatSub(p2, 0xE0 - 0x80) | SatSub(p3, 0xF0 - 0x80)) & 0x80
  }

  function LaneError(p3: Octet, p2: Octet, p1: Octet, b: Octet): Octet {
    Must(p3, p2) ^ Special(p1, b)
  }

  // ---- the stream of octets, zero before the text and after it ----

  function At(u: Text, k: int): Octet {
    if 0 <= k < |u| then u[k] else 0
  }

  function ErrorAt(u: Text, k: int): Octet {
    LaneError(At(u, k - 3), At(u, k - 2), At(u, k - 1), At(u, k))
  }

  /** No sequence begun before position i still lacks octets. */
  predicate Complete3(p3: Octet, p2: Octet, p1: Octet) {
    p1 < 0xC0 && p2 < 0xE0 && p3 < 0xF0
  }

  predicate Complete(u: Text, i: int) {
    Complete3(At(u, i - 3), At(u, i - 2), At(u, i - 1))
  }

  predicate CleanBetween(u: Text, i: int, j: int) {
    forall k :: i <= k < j ==> ErrorAt(u, k) == 0
  }

  /** The sequence loop's test on four octets, where a zero octet stands for none. */
  function Seq4(c0: Octet, c1: Octet, c2: Octet, c3: Octet): nat {
    if c0 < 0x80 then 1
    else if 0xC2 <= c0 <= 0xDF then if IsCont(c1) then 2 else 0
    else if 0xE0 <= c0 <= 0xEF then
      if IsCont(c1) && IsCont(c2) && (c0 == 0xE0 ==> c1 >= 0xA0) && (c0 == 0xED ==> c1 < 0xA0) then 3 else 0
    else if 0xF0 <= c0 <= 0xF4 then
      if IsCont(c1) && IsCont(c2) && IsCont(c3) && (c0 == 0xF0 ==> c1 >= 0x90) && (c0 == 0xF4 ==> c1 < 0x90)
      then 4 else 0
    else 0
  }

  lemma SeqIsSeq4(u: Text, i: nat)
    requires i < |u|
    ensures Seq(u[i..]) == Seq4(At(u, i), At(u, i + 1), At(u, i + 2), At(u, i + 3))
  {}

  // ---- seven octets: what the lanes say of one sequence, by cases on its lead ----

  lemma WindowOne(b3: Octet, b2: Octet, b1: Octet, c0: Octet)
    requires Complete3(b3, b2, b1)
    ensures LaneError(b3, b2, b1, c0) == 0 <==> !IsCont(c0)
  {}

  lemma WindowTwo(b2: Octet, b1: Octet, c0: Octet, c1: Octet)
    requires b1 < 0xC0 && b2 < 0xE0 && !IsCont(c0)
    ensures c0 < 0xC0 ==> (LaneError(b2, b1, c0, c1) == 0 <==> !IsCont(c1))
    ensures c0 >= 0xC0 ==>
              (LaneError(b2, b1, c0, c1) == 0 <==>
               0xC2 <= c0 <= 0xF4 && IsCont(c1)
               && (c0 == 0xE0 ==> c1 >= 0xA0) && (c0 == 0xED ==> c1 < 0xA0)
               && (c0 == 0xF0 ==> c1 >= 0x90) && (c0 == 0xF4 ==> c1 < 0x90))
  {}

  lemma WindowThree(b1: Octet, c0: Octet, c1: Octet, c2: Octet)
    requires b1 < 0xC0 && c0 >= 0xC0 && IsCont(c1)
    ensures LaneError(b1, c0, c1, c2) == 0 <==> (IsCont(c2) <==> c0 >= 0xE0)
  {}

  lemma WindowFour(c0: Octet, c1: Octet, c2: Octet, c3: Octet)
    requires c0 >= 0xE0 && IsCont(c1) && IsCont(c2)
    ensures LaneError(c0, c1, c2, c3) == 0 <==> (IsCont(c3) <==> c0 >= 0xF0)
  {}

  /** At a sequence's start the lanes are clean over the sequence and leave nothing
      incomplete, or one of its four positions is in error. */
  lemma OneSequence(u: Text, i: nat)
    requires i < |u| && Complete(u, i)
    ensures var k := Seq(u[i..]);
            if k != 0 then CleanBetween(u, i, i + k) && Complete(u, i + k)
            else !CleanBetween(u, i, i + 4)
  {
    SeqIsSeq4(u, i);
    var c0, c1, c2, c3 := At(u, i), At(u, i + 1), At(u, i + 2), At(u, i + 3);
    var b1, b2, b3 := At(u, i - 1), At(u, i - 2), At(u, i - 3);
    assert ErrorAt(u, i) == LaneError(b3, b2, b1, c0);
    assert ErrorAt(u, i + 1) == LaneError(b2, b1, c0, c1);
    assert ErrorAt(u, i + 2) == LaneError(b1, c0, c1, c2);
    assert ErrorAt(u, i + 3) == LaneError(c0, c1, c2, c3);
    WindowOne(b3, b2, b1, c0);
    if !IsCont(c0) {
      WindowTwo(b2, b1, c0, c1);
      if c0 >= 0xC0 && IsCont(c1) {
        WindowThree(b1, c0, c1, c2);
        if c0 >= 0xE0 && IsCont(c2) {
          WindowFour(c0, c1, c2, c3);
        }
      }
    }
  }

  lemma PastTheEnd(u: Text, k: int)
    requires k >= |u| + 3
    ensures ErrorAt(u, k) == 0
  {
    assert LaneError(0, 0, 0, 0) == 0;
  }

  /** Over octets below 0x80 the lanes say only whether something was incomplete. */
  lemma AsciiLanes(p3: Octet, p2: Octet, p1: Octet, b: Octet)
    requires b < 0x80
    ensures LaneError(p3, p2, p1, b) == 0 <==> Complete3(p3, p2, p1)
  {}

  lemma AsciiRun(u: Text, i: int, j: int)
    requires i < j && forall k :: i <= k < j ==> At(u, k) < 0x80
    ensures CleanBetween(u, i, j) <==> Complete(u, i)
  {
    AsciiLanes(At(u, i - 3), At(u, i - 2), At(u, i - 1), At(u, i));
    assert ErrorAt(u, i) == 0 <==> Complete(u, i);
    if Complete(u, i) {
      forall k | i <= k < j ensures ErrorAt(u, k) == 0 {
        AsciiLanes(At(u, k - 3), At(u, k - 2), At(u, k - 1), At(u, k));
      }
    }
  }

  // ---- the lanes agree with the sequence loop on the whole text ----

  lemma {:induction false} CleanIffAccepted(u: Text, i: nat)
    requires i <= |u| && Complete(u, i)
    ensures CleanBetween(u, i, |u| + 3) <==> Accepts(u[i..])
    decreases |u| - i
  {
    if i == |u| {
      AsciiRun(u, i, |u| + 3);
    } else {
      OneSequence(u, i);
      var k := Seq(u[i..]);
      if k == 0 {
        assert exists j :: i <= j < i + 4 && ErrorAt(u, j) != 0;
      } else {
        CleanIffAccepted(u, i + k);
        assert u[i..][k..] == u[i + k..];
      }
    }
  }

  // ---- sixteen lanes ----

  type Vector = v: seq<Octet> | |v| == 16 witness seq(16, _ => 0)

  const ZERO: Vector := seq(16, _ => 0)

  function Or(a: Vector, b: Vector): Vector {
    seq(16, j requires 0 <= j < 16 => a[j] | b[j])
  }

  predicate AllZero(v: Vector) {
    forall j :: 0 <= j < 16 ==> v[j] == 0
  }

  predicate AllAscii(v: Vector) {
    forall j :: 0 <= j < 16 ==> v[j] < 0x80
  }

  /** The last lanes of the block before, moved in front of this block's first. */
  function Shifted(prev: Vector, block: Vector, lanes: nat): Vector
    requires lanes <= 16
  {
    (prev + block)[16 - lanes..32 - lanes]
  }

  function LaneErrors(prev: Vector, block: Vector): Vector {
    var p1, p2, p3 := Shifted(prev, block, 1), Shifted(prev, block, 2), Shifted(prev, block, 3);
    seq(16, j requires 0 <= j < 16 => LaneError(p3[j], p2[j], p1[j], block[j]))
  }

  /** The leads in the last three lanes that want octets of the next block. */
  function Incomplete(block: Vector): Vector {
    seq(16, j requires 0 <= j < 16 =>
      if block[j] > (if j == 13 then 0xF0 - 1 else if j == 14 then 0xE0 - 1 else if j == 15 then 0xC0 - 1 else 255)
      then 0xFF else 0)
  }

  predicate IsBlock(u: Text, i: int, block: Vector) {
    forall j :: 0 <= j < 16 ==> block[j] == At(u, i + j)
  }

  /** The sixteen octets at i, zero-padded past the end. */
  function Load(u: Text, i: nat): (block: Vector)
    ensures IsBlock(u, i, block)
  {
    seq(16, j requires 0 <= j < 16 => At(u, i + j))
  }

  lemma OrZero(a: Vector, b: Vector)
    ensures AllZero(Or(a, b)) <==> AllZero(a) && AllZero(b)
  {
    forall j | 0 <= j < 16 ensures Or(a, b)[j] == 0 <==> a[j] == 0 && b[j] == 0 {
      OrOctets(a[j], b[j]);
    }
  }

  lemma OrOctets(a: Octet, b: Octet)
    ensures a | b == 0 <==> a == 0 && b == 0
  {}

  lemma LaneErrorsAt(u: Text, i: int, prev: Vector, block: Vector)
    requires IsBlock(u, i - 16, prev) && IsBlock(u, i, block)
    ensures AllZero(LaneErrors(prev, block)) <==> CleanBetween(u, i, i + 16)
  {
    var e := LaneErrors(prev, block);
    forall j | 0 <= j < 16 ensures e[j] == ErrorAt(u, i + j) {
      LaneInputs(u, i, prev, block, j);
    }
    if AllZero(e) {
      forall k | i <= k < i + 16 ensures ErrorAt(u, k) == 0 {
        assert e[k - i] == ErrorAt(u, i + (k - i));
      }
    }
  }

  lemma LaneInputs(u: Text, i: int, prev: Vector, block: Vector, j: nat)
    requires j < 16 && IsBlock(u, i - 16, prev) && IsBlock(u, i, block)
    ensures Shifted(prev, block, 1)[j] == At(u, i + j - 1)
    ensures Shifted(prev, block, 2)[j] == At(u, i + j - 2)
    ensures Shifted(prev, block, 3)[j] == At(u, i + j - 3)
    ensures block[j] == At(u, i + j)
  {}

  lemma IncompleteAt(u: Text, i: int, block: Vector)
    requires IsBlock(u, i, block)
    ensures AllZero(Incomplete(block)) <==> Complete(u, i + 16)
  {
    var v := Incomplete(block);
    assert v[13] == 0 <==> At(u, i + 13) < 0xF0;
    assert v[14] == 0 <==> At(u, i + 14) < 0xE0;
    assert v[15] == 0 <==> At(u, i + 15) < 0xC0;
    assert forall j :: 0 <= j < 13 ==> v[j] == 0;
  }

  /** m9_utf_simd_valid. */
  method Valid(u: Text) returns (ok: bool)
    ensures ok <==> WellFormed(u)
  {
    var prev, errv, inc := ZERO, ZERO, ZERO;
    var i := 0;
    while i < |u|
      invariant 0 <= i && i % 16 == 0
      invariant IsBlock(u, i - 16, prev)
      invariant AllZero(errv) <==> CleanBetween(u, 0, i)
      invariant AllZero(inc) <==> Complete(u, i)
      decreases |u| - i
    {
      var block := Load(u, i);
      if AllAscii(block) {
        AsciiBlock(u, i, block);
        OrZero(errv, inc);
        errv := Or(errv, inc);
        inc := ZERO;
      } else {
        LaneErrorsAt(u, i, prev, block);
        OrZero(errv, LaneErrors(prev, block));
        errv := Or(errv, LaneErrors(prev, block));
        IncompleteAt(u, i, block);
        inc := Incomplete(block);
      }
      CleanJoin(u, 0, i, i + 16);
      prev := block;
      i := i + 16;
    }
    OrZero(errv, inc);
    errv := Or(errv, inc);
    ok := AllZero(errv);
    AtTheEnd(u, i);
    AcceptsIffWellFormed(u);
  }

  lemma CleanJoin(u: Text, i: int, j: int, k: int)
    requires i <= j <= k
    ensures CleanBetween(u, i, k) <==> CleanBetween(u, i, j) && CleanBetween(u, j, k)
  {}

  lemma AsciiBlock(u: Text, i: nat, block: Vector)
    requires IsBlock(u, i, block) && AllAscii(block)
    ensures CleanBetween(u, i, i + 16) <==> Complete(u, i)
    ensures Complete(u, i + 16)
  {
    assert forall k :: i <= k < i + 16 ==> At(u, k) == block[k - i];
    AsciiRun(u, i, i + 16);
  }

  /** The last test stands for one more block of zeros. */
  lemma AtTheEnd(u: Text, i: int)
    requires |u| <= i
    ensures CleanBetween(u, 0, i) && Complete(u, i) <==> Accepts(u)
  {
    assert Complete(u, 0);
    CleanIffAccepted(u, 0);
    assert u[0..] == u;
    AsciiRun(u, i, i + 3);
    CleanJoin(u, 0, i, i + 3);
    CleanJoin(u, 0, |u| + 3, i + 3);
    forall k | |u| + 3 <= k < i + 3 ensures ErrorAt(u, k) == 0 {
      PastTheEnd(u, k);
    }
  }
}
