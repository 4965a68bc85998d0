/** The LSD radix sort: eight counting passes over 64-bit keys, with or without a payload beside
    each (runtime/m9rt.c:1074-1096).  A pass is specified by the buckets it lays end to end. */
module RadixSort {
  import opened Arith

  /** A key and what rides with it. */
  datatype Entry = Entry(key: nat, payload: int)

  const KEY_LIMIT: nat := 0x1_0000_0000_0000_0000

  /** (key >> 8 * pass) & 255 */
  function Digit(key: nat, pass: nat): (d: nat)
    ensures d < 256
  {
    key / Pow256(pass) % 256
  }

  function Zip(keys: seq<nat>, payloads: seq<int>): (z: seq<Entry>)
    requires |keys| == |payloads|
    ensures |z| == |keys|
    ensures forall i :: 0 <= i < |z| ==> z[i] == Entry(keys[i], payloads[i])
  {
    seq(|keys|, i requires 0 <= i < |keys| => Entry(keys[i], payloads[i]))
  }

  /** The entries of one digit, in the order they had. */
  function Bucket(z: seq<Entry>, pass: nat, d: nat): seq<Entry> {
    if z == [] then []
    else
      var last := z[|z| - 1];
      Bucket(z[..|z| - 1], pass, d) + (if Digit(last.key, pass) == d then [last] else [])
  }

  /** The buckets of the digits below n, end to end. */
  function Buckets(z: seq<Entry>, pass: nat, n: nat): seq<Entry> {
    if n == 0 then [] else Buckets(z, pass, n - 1) + Bucket(z, pass, n - 1)
  }

  lemma BucketSnoc(z: seq<Entry>, pass: nat, d: nat, i: nat)
    requires i < |z|
    ensures Bucket(z[..i + 1], pass, d)
            == Bucket(z[..i], pass, d) + (if Digit(z[i].key, pass) == d then [z[i]] else [])
  {
    assert z[..i + 1][..i] == z[..i];
  }

  lemma {:induction false} BucketGrows(z: seq<Entry>, pass: nat, d: nat, i: nat)
    requires i <= |z|
    ensures |Bucket(z[..i], pass, d)| <= |Bucket(z, pass, d)|
    decreases |z| - i
  {
    if i < |z| {
      BucketSnoc(z, pass, d, i);
      BucketGrows(z, pass, d, i + 1);
    } else {
      assert z[..i] == z;
    }
  }

  lemma {:induction false} BucketsGrow(z: seq<Entry>, pass: nat, m: nat, n: nat)
    requires m <= n
    ensures |Buckets(z, pass, m)| <= |Buckets(z, pass, n)|
    decreases n - m
  {
    if m < n {
      BucketsGrow(z, pass, m + 1, n);
    }
  }

  // ---- a pass loses nothing ----

  function One(e: Entry, there: bool): multiset<Entry> {
    if there then multiset{e} else multiset{}
  }

  lemma BucketSplit(z: seq<Entry>, pass: nat, d: nat)
    requires z != []
    ensures var e := z[|z| - 1];
            multiset(Bucket(z, pass, d))
            == multiset(Bucket(z[..|z| - 1], pass, d)) + One(e, Digit(e.key, pass) == d)
  {}

  lemma {:induction false} BucketsSnoc(z: seq<Entry>, pass: nat, n: nat)
    requires z != []
    ensures var e := z[|z| - 1];
            multiset(Buckets(z, pass, n))
            == multiset(Buckets(z[..|z| - 1], pass, n)) + One(e, Digit(e.key, pass) < n)
  {
    hide Digit, Bucket;
    if n > 0 {
      var e, before := z[|z| - 1], z[..|z| - 1];
      BucketsSnoc(z, pass, n - 1);
      BucketSplit(z, pass, n - 1);
      JoinOne(Buckets(z, pass, n - 1), Bucket(z, pass, n - 1), Buckets(before, pass, n - 1),
          Bucket(before, pass, n - 1),
              e, Digit(e.key, pass) < n - 1, Digit(e.key, pass) == n - 1);
    }
  }

  lemma JoinOne(a: seq<Entry>, b: seq<Entry>, a0: seq<Entry>, b0: seq<Entry>, e: Entry, inA: bool, inB: bool)
    requires !(inA && inB)
    requires multiset(a) == multiset(a0) + One(e, inA) && multiset(b) == multiset(b0) + One(e, inB)
    ensures multiset(a + b) == multiset(a0 + b0) + One(e, inA || inB)
  {
    assert multiset(a + b) == multiset(a) + multiset(b) && multiset(a0 + b0) == multiset(a0) + multiset(b0);
  }

  lemma {:induction false} BucketsPermute(z: seq<Entry>, pass: nat)
    ensures multiset(Buckets(z, pass, 256)) == multiset(z)
  {
    hide Digit, Bucket, Buckets;
    if z == [] {
      BucketsOfNothing(pass, 256);
    } else {
      BucketsSnoc(z, pass, 256);
      BucketsPermute(z[..|z| - 1], pass);
      assert z == z[..|z| - 1] + [z[|z| - 1]];
    }
  }

  lemma {:induction false} BucketsOfNothing(pass: nat, n: nat)
    ensures Buckets([], pass, n) == []
  {
    if n > 0 {
      BucketsOfNothing(pass, n - 1);
    }
  }

  lemma BucketsLength(z: seq<Entry>, pass: nat)
    ensures |Buckets(z, pass, 256)| == |z|
  {
    BucketsPermute(z, pass);
    assert |multiset(Buckets(z, pass, 256))| == |multiset(z)|;
  }

  // ---- a pass is stable: the entries of one key stay in the order they had ----

  /** The entries of one key, in the order they stand. */
  function WithKey(z: seq<Entry>, k: nat): (v: seq<Entry>)
    ensures |v| <= |z|
  {
    if z == [] then []
    else
      var last := z[|z| - 1];
      WithKey(z[..|z| - 1], k) + (if last.key == k then [last] else [])
  }

  lemma WithKeyOfOne(e: Entry, k: nat)
    ensures WithKey([], k) == [] && WithKey([e], k) == if e.key == k then [e] else []
  {
    assert [e][..0] == [];
  }

  lemma {:induction false} WithKeyOfTwo(a: seq<Entry>, b: seq<Entry>, k: nat)
    ensures WithKey(a + b, k) == WithKey(a, k) + WithKey(b, k)
  {
    if b == [] {
      assert a + b == a;
    } else {
      assert (a + b)[..|a + b| - 1] == a + b[..|b| - 1];
      WithKeyOfTwo(a, b[..|b| - 1], k);
    }
  }

  lemma {:induction false} BucketKeepsKey(z: seq<Entry>, pass: nat, d: nat, k: nat)
    ensures WithKey(Bucket(z, pass, d), k) == if Digit(k, pass) == d then WithKey(z, k) else []
  {
    hide Digit;
    if z != [] {
      var last, front := z[|z| - 1], z[..|z| - 1];
      BucketKeepsKey(front, pass, d, k);
      if Digit(last.key, pass) == d {
        var b := Bucket(front, pass, d);
        WithKeyOfTwo(b, [last], k);
        WithKeyOfOne(last, k);
        assert Bucket(z, pass, d) == b + [last] && WithKey(b, k) + [] == WithKey(b, k);
      } else {
        assert Bucket(z, pass, d) == Bucket(front, pass, d);
        assert Digit(k, pass) == d ==> WithKey(z, k) == WithKey(front, k);
      }
    }
  }

  lemma {:induction false} BucketsKeepKey(z: seq<Entry>, pass: nat, n: nat, k: nat)
    ensures WithKey(Buckets(z, pass, n), k) == if Digit(k, pass) < n then WithKey(z, k) else []
  {
    hide Digit, Bucket, WithKey;
    if n == 0 {
      WithKeyOfOne(Entry(0, 0), k);
    } else {
      BucketsKeepKey(z, pass, n - 1, k);
      BucketKeepsKey(z, pass, n - 1, k);
      WithKeyOfTwo(Buckets(z, pass, n - 1), Bucket(z, pass, n - 1), k);
    }
  }

  /** Whole passes of this kind never change which entries a key has, or their order. */
  ghost predicate SameByKey(z: seq<Entry>, z0: seq<Entry>) {
    forall k: nat :: WithKey(z, k) == WithKey(z0, k)
  }

  lemma PassIsStable(z: seq<Entry>, pass: nat)
    ensures SameByKey(Buckets(z, pass, 256), z)
  {
    forall k: nat ensures WithKey(Buckets(z, pass, 256), k) == WithKey(z, k) {
      BucketsKeepKey(z, pass, 256, k);
    }
  }

  // ---- a pass extends the sorted digits by one ----

  /** Order by the lowest `digits' digits. */
  predicate Before(e: Entry, f: Entry, digits: nat) {
    e.key % Pow256(digits) <= f.key % Pow256(digits)
  }

  predicate Ordered(z: seq<Entry>, digits: nat) {
    forall i, j :: 0 <= i < j < |z| ==> Before(z[i], z[j], digits)
  }

  lemma ModSplit(k: nat, m: nat)
    requires m > 0
    ensures k % (256 * m) == (k / m % 256) * m + k % m
  {
    var q, r := k / m, k % m;
    var h, d := q / 256, q % 256;
    DivMod(k, m);
    Distribute(h * 256, d, m);
    Associate(h, 256, m);
    MulMonotone(d, 255, m);
    DivModUnique(k, 256 * m, h, d * m + r);
  }

  lemma DigitDecides(d: nat, d': nat, m: nat, r: nat, r': nat)
    requires d < d' && r < m
    ensures d * m + r < d' * m + r'
  {
    MulMonotoneStrict(d, d', m);
  }

  lemma NextDigit(e: Entry, f: Entry, pass: nat)
    ensures Digit(e.key, pass) < Digit(f.key, pass) ==> Before(e, f, pass + 1)
    ensures Digit(e.key, pass) == Digit(f.key, pass) && Before(e, f, pass) ==> Before(e, f, pass + 1)
  {
    var m := Pow256(pass);
    ModSplit(e.key, m);
    ModSplit(f.key, m);
    var d, d' := Digit(e.key, pass), Digit(f.key, pass);
    if d < d' {
      DigitDecides(d, d', m, e.key % m, f.key % m);
    }
  }

  lemma {:induction false} BucketMembers(z: seq<Entry>, pass: nat, d: nat)
    ensures forall e :: e in Bucket(z, pass, d) ==> e in z && Digit(e.key, pass) == d
  {
    if z != [] {
      BucketMembers(z[..|z| - 1], pass, d);
    }
  }

  lemma {:induction false} BucketOrdered(z: seq<Entry>, pass: nat, d: nat)
    requires Ordered(z, pass)
    ensures Ordered(Bucket(z, pass, d), pass + 1)
  {
    if z != [] {
      var last, front := z[|z| - 1], z[..|z| - 1];
      BucketOrdered(front, pass, d);
      BucketMembers(front, pass, d);
      if Digit(last.key, pass) == d {
        var b := Bucket(front, pass, d);
        forall i | 0 <= i < |b| ensures Before(b[i], last, pass + 1) {
          assert b[i] in front;
          var k :| 0 <= k < |front| && front[k] == b[i];
          assert Before(z[k], z[|z| - 1], pass);
          NextDigit(b[i], last, pass);
        }
      }
    }
  }

  lemma {:induction false} BucketsMembers(z: seq<Entry>, pass: nat, n: nat)
    ensures forall e :: e in Buckets(z, pass, n) ==> Digit(e.key, pass) < n
  {
    hide Digit, Bucket;
    if n > 0 {
      BucketsMembers(z, pass, n - 1);
      BucketMembers(z, pass, n - 1);
    }
  }

  lemma {:induction false} PassOrders(z: seq<Entry>, pass: nat, n: nat)
    requires Ordered(z, pass)
    ensures Ordered(Buckets(z, pass, n), pass + 1)
  {
    hide Digit, Bucket, Before;
    if n > 0 {
      PassOrders(z, pass, n - 1);
      BucketOrdered(z, pass, n - 1);
      BucketsMembers(z, pass, n - 1);
      BucketMembers(z, pass, n - 1);
      var a, b := Buckets(z, pass, n - 1), Bucket(z, pass, n - 1);
      forall i, j | 0 <= i < |a| && 0 <= j < |b| ensures Before(a[i], b[j], pass + 1) {
        assert a[i] in a && b[j] in b;
        NextDigit(a[i], b[j], pass);
      }
    }
  }

  // ---- a pass every key shares a digit in moves nothing ----

  lemma {:induction false} OneBucket(z: seq<Entry>, pass: nat, d: nat, n: nat)
    requires d < n && |Bucket(z, pass, d)| == |z|
    ensures Buckets(z, pass, n) == z
  {
    hide Digit, Bucket;
    WholeBucket(z, pass, d);
    if n - 1 == d {
      NoBuckets(z, pass, d, n - 1);
      assert Buckets(z, pass, n) == [] + z;
    } else {
      OneBucket(z, pass, d, n - 1);
      EmptyBucket(z, pass, d, n - 1);
    }
  }

  lemma {:induction false} BucketShort(z: seq<Entry>, pass: nat, d: nat)
    ensures |Bucket(z, pass, d)| <= |z|
  {
    if z != [] {
      BucketShort(z[..|z| - 1], pass, d);
    }
  }

  lemma {:induction false} WholeBucket(z: seq<Entry>, pass: nat, d: nat)
    requires |Bucket(z, pass, d)| == |z|
    ensures Bucket(z, pass, d) == z
    ensures forall i :: 0 <= i < |z| ==> Digit(z[i].key, pass) == d
  {
    if z != [] {
      BucketShort(z[..|z| - 1], pass, d);
      WholeBucket(z[..|z| - 1], pass, d);
      assert z == z[..|z| - 1] + [z[|z| - 1]];
    }
  }

  lemma {:induction false} EmptyBucket(z: seq<Entry>, pass: nat, d: nat, n: nat)
    requires n != d && forall i :: 0 <= i < |z| ==> Digit(z[i].key, pass) == d
    ensures Bucket(z, pass, n) == []
  {
    if z != [] {
      EmptyBucket(z[..|z| - 1], pass, d, n);
    }
  }

  lemma {:induction false} NoBuckets(z: seq<Entry>, pass: nat, d: nat, n: nat)
    requires n <= d && forall i :: 0 <= i < |z| ==> Digit(z[i].key, pass) == d
    ensures Buckets(z, pass, n) == []
  {
    if n > 0 {
      NoBuckets(z, pass, d, n - 1);
      EmptyBucket(z, pass, d, n - 1);
    }
  }

  // ---- the scatter: each bucket fills its own stretch of the other buffer ----

  /** Where a digit's stretch begins. */
  function Start(z: seq<Entry>, pass: nat, d: nat): nat {
    |Buckets(z, pass, d)|
  }

  lemma Stretches(z: seq<Entry>, pass: nat, d: nat, i: nat)
    requires d < 256 && i <= |z|
    ensures Start(z, pass, d) + |Bucket(z[..i], pass, d)| <= Start(z, pass, d + 1) <= |z|
  {
    BucketGrows(z, pass, d, i);
    BucketsGrow(z, pass, d + 1, 256);
    BucketsLength(z, pass);
  }

  /** Of the first i entries, those of digit d stand in their stretch. */
  predicate Placed(tz: seq<Entry>, z: seq<Entry>, pass: nat, i: nat, d: nat)
    requires i <= |z|
  {
    var b := Bucket(z[..i], pass, d);
    var s := Start(z, pass, d);
    s + |b| <= |tz| && tz[s..s + |b|] == b
  }

  lemma PlaceStep(tz: seq<Entry>, z: seq<Entry>, pass: nat, i: nat, d: nat)
    requires |tz| == |z| && i < |z| && d < 256
    requires Placed(tz, z, pass, i, d)
    ensures var d0 := Digit(z[i].key, pass);
            var at := Start(z, pass, d0) + |Bucket(z[..i], pass, d0)|;
            at < |z| && Placed(tz[at := z[i]], z, pass, i + 1, d)
  {
    hide Digit, Bucket, Buckets;
    var d0 := Digit(z[i].key, pass);
    BucketSnoc(z, pass, d, i);
    BucketSnoc(z, pass, d0, i);
    Stretches(z, pass, d, i);
    Stretches(z, pass, d0, i + 1);
    if d < d0 {
      BucketsGrow(z, pass, d + 1, d0);
    } else if d > d0 {
      BucketsGrow(z, pass, d0 + 1, d);
    }
  }

  lemma {:induction false} AllPlaced(tz: seq<Entry>, z: seq<Entry>, pass: nat, n: nat)
    requires |tz| == |z| && n <= 256
    requires forall d :: 0 <= d < n ==> Placed(tz, z, pass, |z|, d)
    ensures Start(z, pass, n) <= |z| && tz[..Start(z, pass, n)] == Buckets(z, pass, n)
  {
    if n > 0 {
      AllPlaced(tz, z, pass, n - 1);
      assert Placed(tz, z, pass, |z|, n - 1);
      assert z[..|z|] == z;
    }
  }

  // ---- the code ----

  method CountDigits(a: array<nat>, pass: nat, count: array<int>, ghost z: seq<Entry>)
    requires count.Length == 256 && |z| == a.Length
    requires forall i :: 0 <= i < a.Length ==> z[i].key == a[i]
    requires a as object != count
    requires forall d :: 0 <= d < 256 ==> count[d] == 0
    modifies count
    ensures forall d :: 0 <= d < 256 ==> count[d] == |Bucket(z, pass, d)|
  {
    hide Digit, Bucket;
    assert forall d :: Bucket(z[..0], pass, d) == [] by { EmptyBuckets(z, pass); }
    for i := 0 to a.Length
      invariant forall d :: 0 <= d < 256 ==> count[d] == |Bucket(z[..i], pass, d)|
    {
      forall d | 0 <= d < 256
        ensures |Bucket(z[..i + 1], pass, d)| == |Bucket(z[..i], pass, d)| + (if Digit(a[i], pass) == d then 1 else 0)
      {
        BucketSnoc(z, pass, d, i);
      }
      var d0 := Digit(a[i], pass);
      count[d0] := count[d0] + 1;
    }
    assert z[..a.Length] == z;
  }

  lemma EmptyBuckets(z: seq<Entry>, pass: nat)
    ensures forall d :: Bucket(z[..0], pass, d) == []
  {}

  /** The counts become the starts of the stretches. */
  method CountsToStarts(count: array<int>, ghost z: seq<Entry>, pass: nat)
    requires count.Length == 256
    requires forall d :: 0 <= d < 256 ==> count[d] == |Bucket(z, pass, d)|
    modifies count
    ensures forall d :: 0 <= d < 256 ==> count[d] == Start(z, pass, d)
  {
    var sum := 0;
    for b := 0 to 256
      invariant sum == Start(z, pass, b)
      invariant forall d :: 0 <= d < b ==> count[d] == Start(z, pass, d)
      invariant forall d :: b <= d < 256 ==> count[d] == |Bucket(z, pass, d)|
    {
      var c := count[b];
      count[b] := sum;
      sum := sum + c;
    }
  }

  /** What rides beside n keys: the payloads, or nothing. */
  function Riders(pa: array?<int>, n: nat): (p: seq<int>)
    requires pa != null ==> pa.Length == n
    reads pa
    ensures |p| == n
  {
    if pa == null then seq(n, _ => 0) else pa[..]
  }

  method Scatter(a: array<nat>, pa: array?<int>, t: array<nat>, pt: array?<int>, count: array<int>, pass: nat)
    requires a.Length == t.Length && count.Length == 256 && a != t && (pa == null <==> pt == null)
    requires pa != null ==> pa.Length == pt.Length == a.Length && pa != pt && pa != count && pt != count
    requires forall d :: 0 <= d < 256 ==> count[d] == Start(Zip(a[..], Riders(pa, a.Length)), pass, d)
    modifies t, pt, count
    ensures Zip(t[..], Riders(pt, a.Length)) == Buckets(old(Zip(a[..], Riders(pa, a.Length))), pass, 256)
    ensures a[..] == old(a[..]) && Riders(pa, a.Length) == old(Riders(pa, a.Length))
  {
    hide Digit, Bucket, Buckets, Placed, Start;
    ghost var n := a.Length;
    ghost var z := Zip(a[..], Riders(pa, n));
    NothingPlaced(Zip(t[..], Riders(pt, n)), z, pass);
    for i := 0 to a.Length
      invariant a[..] == old(a[..]) && Riders(pa, n) == old(Riders(pa, n))
      invariant forall d :: 0 <= d < 256 ==> count[d] == Start(z, pass, d) + |Bucket(z[..i], pass, d)|
      invariant forall d :: 0 <= d < 256 ==> Placed(Zip(t[..], Riders(pt, n)), z, pass, i, d)
    {
      assert a[i] == a[..][i] == z[i].key && Riders(pa, n)[i] == z[i].payload;
      ghost var tz := Zip(t[..], Riders(pt, n));
      PlaceStep(tz, z, pass, i, 0);
      var d0 := Digit(a[i], pass);
      var at := count[d0];
      ghost var tz', next := tz[at := z[i]], i + 1;
      forall d | 0 <= d < 256 ensures Placed(tz', z, pass, next, d) {
        PlaceStep(tz, z, pass, i, d);
      }
      forall d | 0 <= d < 256
        ensures |Bucket(z[..i + 1], pass, d)| == |Bucket(z[..i], pass, d)| + (if d0 == d then 1 else 0)
      {
        BucketSnoc(z, pass, d, i);
      }
      count[d0] := count[d0] + 1;
      t[at] := a[i];
      if pa != null {
        pt[at] := pa[i];
      }
      assert Zip(t[..], Riders(pt, n)) == tz';
    }
    ghost var tz := Zip(t[..], Riders(pt, n));
    AllPlaced(tz, z, pass, 256);
    StartAtEnd(z, pass);
    assert tz[..|z|] == tz;
  }

  lemma NothingPlaced(tz: seq<Entry>, z: seq<Entry>, pass: nat)
    requires |tz| == |z|
    ensures forall d :: 0 <= d < 256 ==> Placed(tz, z, pass, 0, d) && |Bucket(z[..0], pass, d)| == 0
  {
    forall d | 0 <= d < 256 ensures Placed(tz, z, pass, 0, d) && |Bucket(z[..0], pass, d)| == 0 {
      Stretches(z, pass, d, 0);
    }
  }

  lemma StartAtEnd(z: seq<Entry>, pass: nat)
    ensures Start(z, pass, 256) == |z|
  {
    BucketsLength(z, pass);
  }

  /** One pass; it answers whether anything moved. */
  method Pass(a: array<nat>, pa: array?<int>, t: array<nat>, pt: array?<int>, pass: nat) returns (moved: bool)
    requires a.Length == t.Length && a != t && (pa == null <==> pt == null)
    requires pa != null ==> pa.Length == pt.Length == a.Length && pa != pt
    modifies t, pt
    ensures a[..] == old(a[..]) && Riders(pa, a.Length) == old(Riders(pa, a.Length))
    ensures (if moved then Zip(t[..], Riders(pt, a.Length)) else Zip(a[..], Riders(pa, a.Length)))
            == Buckets(old(Zip(a[..], Riders(pa, a.Length))), pass, 256)
  {
    ghost var z := Zip(a[..], Riders(pa, a.Length));
    var count := new int[256](_ => 0);
    CountDigits(a, pass, count, z);
    var b := 0;
    while b < 256 && count[b] != a.Length
      invariant 0 <= b <= 256
      invariant forall d :: 0 <= d < b ==> count[d] != a.Length
    {
      b := b + 1;
    }
    if b < 256 {
      OneBucket(z, pass, b, 256);
      return false;
    }
    CountsToStarts(count, z, pass);
    Scatter(a, pa, t, pt, count, pass);
    return true;
  }

  predicate KeysAscend(z: seq<Entry>) {
    forall i, j :: 0 <= i < j < |z| ==> z[i].key <= z[j].key
  }

  /** The same entries by ascending key, those of each key in the order they had. */
  ghost predicate StablySorted(z: seq<Entry>, z0: seq<Entry>) {
    multiset(z) == multiset(z0) && KeysAscend(z) && SameByKey(z, z0)
  }

  /** The whole sort; it answers which buffers hold the result. */
  method Sort(a0: array<nat>, p0: array?<int>, t0: array<nat>, q0: array?<int>) returns (inScratch: bool)
    requires a0.Length == t0.Length && a0 != t0 && (p0 == null <==> q0 == null)
    requires p0 != null ==> p0.Length == q0.Length == a0.Length && p0 != q0
    requires forall i :: 0 <= i < a0.Length ==> a0[i] < KEY_LIMIT
    modifies a0, p0, t0, q0
    ensures StablySorted(
              if inScratch then Zip(t0[..], Riders(q0, a0.Length)) else Zip(a0[..], Riders(p0, a0.Length)),
              old(Zip(a0[..], Riders(p0, a0.Length))))
  {
    hide Ordered, Buckets, SameByKey, Zip;
    var a, p, t, q := a0, p0, t0, q0;
    ghost var n := a0.Length;
    ghost var z0 := Zip(a[..], Riders(p, n));
    SmallKeys(a[..], Riders(p, n));
    inScratch := false;
    OrderedAtFirst(z0);
    for pass := 0 to 8
      invariant (if inScratch then a == t0 && t == a0 && p == q0 && q == p0
                 else a == a0 && t == t0 && p == p0 && q == q0)
      invariant multiset(Zip(a[..], Riders(p, n))) == multiset(z0)
      invariant Ordered(Zip(a[..], Riders(p, n)), pass) && SameByKey(Zip(a[..], Riders(p, n)), z0)
    {
      ghost var z := Zip(a[..], Riders(p, n));
      PassOrders(z, pass, 256);
      PassIsStable(z, pass);
      BucketsPermute(z, pass);
      SameTwice(Buckets(z, pass, 256), z, z0);
      var moved := Pass(a, p, t, q, pass);
      if moved {
        a, t := t, a;
        p, q := q, p;
        inScratch := !inScratch;
      }
    }
    OrderedAtLast(Zip(a[..], Riders(p, n)), z0);
  }

  lemma RidersAre(pa: array<int>)
    ensures Riders(pa, pa.Length) == pa[..]
  {}

  lemma SmallKeys(keys: seq<nat>, payloads: seq<int>)
    requires |keys| == |payloads| && forall i :: 0 <= i < |keys| ==> keys[i] < KEY_LIMIT
    ensures forall i :: 0 <= i < |Zip(keys, payloads)| ==> Zip(keys, payloads)[i].key < KEY_LIMIT
  {}

  lemma SameTwice(z2: seq<Entry>, z1: seq<Entry>, z0: seq<Entry>)
    requires SameByKey(z2, z1) && SameByKey(z1, z0)
    ensures SameByKey(z2, z0)
  {}

  lemma OrderedAtFirst(z: seq<Entry>)
    ensures Ordered(z, 0) && SameByKey(z, z)
  {}

  lemma Pow256Eight()
    ensures Pow256(8) == KEY_LIMIT
  {
    assert Pow256(4) == 0x1_0000_0000;
  }

  lemma OrderedAtLast(z: seq<Entry>, z0: seq<Entry>)
    requires Ordered(z, 8) && multiset(z) == multiset(z0)
    requires forall i :: 0 <= i < |z0| ==> z0[i].key < KEY_LIMIT
    ensures KeysAscend(z)
  {
    Pow256Eight();
    forall i | 0 <= i < |z| ensures z[i].key % Pow256(8) == z[i].key {
      assert z[i] in multiset(z0);
    }
    forall i, j | 0 <= i < j < |z| ensures z[i].key <= z[j].key {
      assert Before(z[i], z[j], 8);
    }
  }

  // ---- payloads that ascend, as an index does, are in order among equal keys ----

  predicate PayloadsAscend(z: seq<Entry>) {
    forall i, j :: 0 <= i < j < |z| ==> z[i].payload < z[j].payload
  }

  /** By the key, and among equal keys by the payload. */
  predicate InKeyOrder(z: seq<Entry>) {
    forall i, j :: 0 <= i < j < |z| ==>
      z[i].key < z[j].key || (z[i].key == z[j].key && z[i].payload < z[j].payload)
  }

  lemma {:induction false} WithKeyAscends(z: seq<Entry>, k: nat)
    requires PayloadsAscend(z)
    ensures PayloadsAscend(WithKey(z, k)) && forall e :: e in WithKey(z, k) ==> e in z
  {
    if z != [] {
      var last, front := z[|z| - 1], z[..|z| - 1];
      WithKeyAscends(front, k);
      forall e | e in front ensures e.payload < last.payload {
        var i :| 0 <= i < |front| && front[i] == e;
        assert z[i] == e;
      }
    }
  }

  /** Two entries of one key stand in the same order among the entries of that key. */
  lemma WithKeyHas(z: seq<Entry>, i: nat, j: nat)
    requires i < j < |z| && z[i].key == z[j].key
    ensures exists p, q :: 0 <= p < q < |WithKey(z, z[i].key)|
                           && WithKey(z, z[i].key)[p] == z[i] && WithKey(z, z[i].key)[q] == z[j]
  {
    var k := z[i].key;
    var a, b, c := z[..i], z[i + 1..j], z[j + 1..];
    assert z == a + ([z[i]] + (b + ([z[j]] + c)));
    WithKeyOfTwo(a, [z[i]] + (b + ([z[j]] + c)), k);
    WithKeyOfTwo([z[i]], b + ([z[j]] + c), k);
    WithKeyOfTwo(b, [z[j]] + c, k);
    WithKeyOfTwo([z[j]], c, k);
    WithKeyOfOne(z[i], k);
    WithKeyOfOne(z[j], k);
    var p := |WithKey(a, k)|;
    var q := p + 1 + |WithKey(b, k)|;
    assert WithKey(z, k)[p] == z[i] && WithKey(z, k)[q] == z[j];
  }

  lemma StableOrder(z: seq<Entry>, z0: seq<Entry>)
    requires StablySorted(z, z0) && PayloadsAscend(z0)
    ensures InKeyOrder(z)
  {
    hide WithKey;
    forall i, j | 0 <= i < j < |z| && z[i].key == z[j].key ensures z[i].payload < z[j].payload {
      var k := z[i].key;
      WithKeyHas(z, i, j);
      WithKeyAscends(z0, k);
      assert WithKey(z, k) == WithKey(z0, k);
    }
  }
}
