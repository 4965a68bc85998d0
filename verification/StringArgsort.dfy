/** m9_argsort_utf: keys, radix, and the whole compare over each run of equal keys
    (runtime/m9rt.c:1196-1202, 1234-1257). */
module StringArgsort {
  import opened Arith
  import opened Utf8
  import opened Utf8Text
  import opened TextOrder
  import opened RadixSort
  import opened StringSort

  // ---- the key: the first octets, big-endian, zero-padded ----

  function KeyOf(s: Text, n: nat): nat {
    if n == 0 then 0
    else if s == [] then 0
    else (s[0] as int) * Pow256(n - 1) + KeyOf(s[1..], n - 1)
  }

  function Key(s: Text): nat {
    KeyOf(s, 8)
  }

  lemma {:induction false} KeyBounded(s: Text, n: nat)
    ensures KeyOf(s, n) < Pow256(n)
  {
    if n > 0 && s != [] {
      KeyBounded(s[1..], n - 1);
      MulMonotone(s[0] as int, 255, Pow256(n - 1));
    }
  }

  lemma KeyLimit(s: Text)
    ensures Key(s) < KEY_LIMIT
  {
    KeyBounded(s, 8);
    Pow256Eight();
  }

  lemma OctetOrder(a: Octet, b: Octet)
    ensures a < b <==> (a as int) < (b as int)
  {}

  /** The key never contradicts the compare. */
  lemma {:induction false} KeyAgrees(a: Text, b: Text, n: nat)
    ensures KeyOf(a, n) < KeyOf(b, n) ==> Cmp(a, b) < 0
  {
    hide Cmp;
    if n == 0 || b == [] {
    } else if a == [] {
      CmpShort(b);
    } else {
      CmpStep(a, b);
      OctetOrder(a[0], b[0]);
      OctetOrder(b[0], a[0]);
      KeyBounded(b[1..], n - 1);
      if b[0] < a[0] {
        MulMonotoneStrict(b[0] as int, a[0] as int, Pow256(n - 1));
      } else if a[0] < b[0] {
      } else {
        KeyAgrees(a[1..], b[1..], n - 1);
      }
    }
  }

  lemma CmpShort(b: Text)
    requires b != []
    ensures Cmp([], b) < 0
  {}

  lemma {:induction false} KeyUpTo(s: Text, n: nat, i: nat)
    requires i < |s| && i < n
    ensures KeyOf(s[..i + 1], n) == KeyOf(s[..i], n) + (s[i] as int) * Pow256(n - 1 - i)
  {
    if i == 0 {
      assert s[..1] == [s[0]] && s[..1][1..] == [];
    } else {
      assert s[..i + 1][1..] == s[1..][..i] && s[..i][1..] == s[1..][..i - 1];
      KeyUpTo(s[1..], n - 1, i - 1);
    }
  }

  lemma {:induction false} KeyPrefix(s: Text, n: nat)
    requires n <= |s|
    ensures KeyOf(s[..n], n) == KeyOf(s, n)
  {
    if n > 0 {
      assert s[..n][1..] == s[1..][..n - 1];
      KeyPrefix(s[1..], n - 1);
    }
  }

  /** m9_utf_key; or-ing an octet into its own empty place adds it. */
  method ComputeKey(s: Text) returns (k: nat)
    ensures k == Key(s) && k < KEY_LIMIT
  {
    k := 0;
    var m := if |s| < 8 then |s| else 8;
    for i := 0 to m
      invariant k == KeyOf(s[..i], 8)
    {
      KeyUpTo(s, 8, i);
      k := k + (s[i] as int) * Pow256(7 - i);
    }
    if |s| < 8 {
      assert s[..m] == s;
    } else {
      KeyPrefix(s, 8);
    }
    KeyLimit(s);
  }

  // ---- the runs of equal keys ----

  /** Index order after the radix: by key, and within a key by index. */
  predicate ByKey(v: seq<Text>, keys: seq<nat>, r: seq<int>) {
    |keys| == |r| && Indices(v, r)
    && (forall i :: 0 <= i < |r| ==> keys[i] == Key(v[r[i]]))
    && forall i, j :: 0 <= i < j < |r| ==> keys[i] < keys[j] || (keys[i] == keys[j] && r[i] < r[j])
  }

  /** The first i places are sorted for good, and end where a run ends. */
  predicate SortedSoFar(v: seq<Text>, keys: seq<nat>, r: seq<int>, now: seq<int>, i: nat) {
    |now| == |r| == |keys| && i <= |r|
    && Sorted(v, now[..i]) && multiset(now[..i]) == multiset(r[..i]) && now[i..] == r[i..]
    && (0 < i < |r| ==> keys[i - 1] < keys[i])
  }

  lemma RunArrives(v: seq<Text>, keys: seq<nat>, r: seq<int>, i: nat, j: nat)
    requires ByKey(v, keys, r) && i <= j <= |r|
    requires forall k :: i <= k < j ==> keys[k] == keys[i]
    ensures Indices(v, r[i..j]) && Ascending(r[i..j])
  {
    var run := r[i..j];
    forall a, b | 0 <= a < b < |run| ensures run[a] < run[b] {
      assert keys[i + a] == keys[i + b];
      assert run[a] == r[i + a] && run[b] == r[i + b];
    }
  }

  lemma LowerKeysCome(v: seq<Text>, keys: seq<nat>, r: seq<int>, i: nat, j: nat, s: seq<int>, t: seq<int>)
    requires ByKey(v, keys, r) && i <= j <= |r| && (0 < i < |r| ==> keys[i - 1] < keys[i])
    requires multiset(s) == multiset(r[..i]) && multiset(t) == multiset(r[i..j])
    requires Indices(v, s) && Indices(v, t)
    ensures AllCome(v, s, t)
  {
    hide Cmp, KeyOf;
    forall a, b | 0 <= a < |s| && 0 <= b < |t| ensures Comes(v, s[a], t[b]) {
      assert s[a] in multiset(r[..i]) && t[b] in multiset(r[i..j]);
      var x :| 0 <= x < i && r[..i][x] == s[a];
      var y :| 0 <= y < j - i && r[i..j][y] == t[b];
      assert r[x] == s[a] && r[i + y] == t[b];
      assert keys[x] < keys[i + y] by {
        assert keys[x] <= keys[i - 1] && keys[i] <= keys[i + y];
      }
      KeyAgrees(v[s[a]], v[t[b]], 8);
    }
  }

  lemma JoinSorted(v: seq<Text>, s: seq<int>, t: seq<int>)
    requires Sorted(v, s) && Sorted(v, t) && AllCome(v, s, t)
    ensures Sorted(v, s + t)
  {
    hide Comes;
  }

  /** One more run sorted. */
  lemma RunSorted(v: seq<Text>, keys: seq<nat>, r: seq<int>, was: seq<int>, now: seq<int>, i: nat, j: nat)
    requires ByKey(v, keys, r) && SortedSoFar(v, keys, r, was, i) && i <= j <= |r| == |now|
    requires j < |r| ==> 0 < j && keys[j - 1] < keys[j]
    requires now[..i] == was[..i] && now[j..] == was[j..]
    requires multiset(now[i..j]) == multiset(was[i..j]) && Sorted(v, now[i..j])
    ensures SortedSoFar(v, keys, r, now, j)
  {
    hide Sorted, AllCome, ByKey;
    assert was[i..j] == was[i..][..j - i] && r[i..j] == r[i..][..j - i];
    assert was[j..] == was[i..][j - i..] && r[j..] == r[i..][j - i..];
    SortedIndices(v, now[..i]);
    SortedIndices(v, now[i..j]);
    LowerKeysCome(v, keys, r, i, j, now[..i], now[i..j]);
    JoinSorted(v, now[..i], now[i..j]);
    assert now[..j] == now[..i] + now[i..j];
    assert r[..j] == r[..i] + r[i..j];
  }

  /** Where the run of equal keys from i ends. */
  method RunEnd(keys: array<nat>, i: nat) returns (j: nat)
    requires i < keys.Length
    ensures i < j <= keys.Length
    ensures forall k :: i <= k < j ==> keys[k] == keys[i]
    ensures j < keys.Length ==> keys[j] != keys[i]
  {
    j := i + 1;
    while j < keys.Length && keys[j] == keys[i]
      invariant i < j <= keys.Length
      invariant forall k :: i <= k < j ==> keys[k] == keys[i]
    {
      j := j + 1;
    }
  }

  method SortRuns(v: seq<Text>, keys: array<nat>, idx: array<int>, t: array<int>)
    requires idx != t && keys.Length == idx.Length <= t.Length
    requires ByKey(v, keys[..], idx[..])
    modifies idx, t
    ensures multiset(idx[..]) == old(multiset(idx[..])) && Sorted(v, idx[..])
  {
    hide *;
    ghost var r, ks := idx[..], keys[..];
    RunsStart(v, ks, r);
    var i := 0;
    while i < idx.Length
      invariant i <= idx.Length && keys[..] == ks
      invariant SortedSoFar(v, ks, r, idx[..], i)
    {
      var j := RunEnd(keys, i);
      ghost var was := idx[..];
      assert forall k :: i <= k < j ==> ks[k] == ks[i] == keys[i];
      RunArrives(v, ks, r, i, j);
      SoFarRest(v, ks, r, was, i, j);
      if j - i > 1 {
        MergeRun(v, idx, t, i, j);
      } else {
        SingleSorted(v, idx[i..j]);
      }
      NextRun(v, ks, r, i, j);
      RunSorted(v, ks, r, was, idx[..], i, j);
      i := j;
    }
    RunsEnd(v, ks, r, idx[..]);
  }

  lemma RunsStart(v: seq<Text>, keys: seq<nat>, r: seq<int>)
    requires ByKey(v, keys, r)
    ensures SortedSoFar(v, keys, r, r, 0)
  {}

  lemma SoFarRest(v: seq<Text>, keys: seq<nat>, r: seq<int>, now: seq<int>, i: nat, j: nat)
    requires SortedSoFar(v, keys, r, now, i) && i <= j <= |r|
    ensures |now| == |r| && now[i..j] == r[i..j]
  {
    assert now[i..j] == now[i..][..j - i] && r[i..j] == r[i..][..j - i];
  }

  lemma SingleSorted(v: seq<Text>, s: seq<int>)
    requires |s| == 1 && Indices(v, s)
    ensures Sorted(v, s)
  {}

  lemma NextRun(v: seq<Text>, keys: seq<nat>, r: seq<int>, i: nat, j: nat)
    requires ByKey(v, keys, r) && i < j <= |r| && keys[j - 1] == keys[i]
    requires j < |r| ==> keys[j] != keys[i]
    ensures j < |r| ==> keys[j - 1] < keys[j]
  {}

  lemma RunsEnd(v: seq<Text>, keys: seq<nat>, r: seq<int>, now: seq<int>)
    requires SortedSoFar(v, keys, r, now, |r|)
    ensures multiset(now) == multiset(r) && Sorted(v, now)
  {
    assert now[..|r|] == now && r[..|r|] == r;
  }

  // ---- the whole ----

  function Identity(n: nat): (s: seq<int>)
    ensures |s| == n && forall i :: 0 <= i < n ==> s[i] == i
  {
    seq(n, i => i)
  }

  /** m9_argsort_utf. */
  method ArgsortUtf(v: seq<Text>, idx: array<int>)
    requires idx.Length == |v|
    modifies idx
    ensures multiset(idx[..]) == multiset(Identity(|v|))
    ensures Sorted(v, idx[..])
  {
    hide *;
    var n := |v|;
    for i := 0 to n
      invariant forall k :: 0 <= k < i ==> idx[k] == k
    {
      idx[i] := i;
    }
    IdentityFacts(v, idx[..]);
    if n < 64 {
      assert idx[0..n] == idx[..];
      Insert(v, idx, 0, n);
      assert idx[0..n] == idx[..];
      return;
    }
    var k, t, p := new nat[n], new nat[n], new int[n];
    for i := 0 to n
      invariant forall j :: 0 <= j < i ==> k[j] == Key(v[j]) && k[j] < KEY_LIMIT
      invariant forall j :: 0 <= j < n ==> idx[j] == j
    {
      k[i] := ComputeKey(v[i]);
    }
    ghost var z0 := Zip(k[..], idx[..]);
    RidersAre(idx);
    var inScratch := Sort(k, idx, t, p);
    RidersAre(if inScratch then p else idx);
    if inScratch {
      RadixGives(v, z0, t[..], p[..]);
      CopyBack(idx, p, 0, n);
      assert idx[..] == idx[0..n] == p[..n] == p[..];
      SortRuns(v, t, idx, p);
    } else {
      RadixGives(v, z0, k[..], idx[..]);
      SortRuns(v, k, idx, p);
    }
  }

  lemma IdentityFacts(v: seq<Text>, s: seq<int>)
    requires |s| == |v| && forall k :: 0 <= k < |s| ==> s[k] == k
    ensures Indices(v, s) && Ascending(s) && s == Identity(|v|)
  {}

  /** What the radix leaves is by key, and is a permutation. */
  lemma RadixGives(v: seq<Text>, z0: seq<Entry>, keys: seq<nat>, r: seq<int>)
    requires |z0| == |v| && |keys| == |r|
    requires forall i :: 0 <= i < |v| ==> z0[i] == Entry(Key(v[i]), i)
    requires StablySorted(Zip(keys, r), z0)
    ensures ByKey(v, keys, r) && multiset(r) == multiset(Identity(|v|))
  {
    hide KeyOf, SameByKey, WithKey;
    var z := Zip(keys, r);
    StableOrder(z, z0);
    forall i | 0 <= i < |r| ensures 0 <= r[i] < |v| && keys[i] == Key(v[r[i]]) {
      assert z[i] in multiset(z0);
    }
    forall i, j | 0 <= i < j < |r|
      ensures keys[i] < keys[j] || (keys[i] == keys[j] && r[i] < r[j])
    {
      assert z[i].key < z[j].key || (z[i].key == z[j].key && z[i].payload < z[j].payload);
    }
    PayloadsKept(z, z0);
    assert Payloads(z) == r && Payloads(z0) == Identity(|v|);
  }

  function Payloads(z: seq<Entry>): (s: seq<int>)
    ensures |s| == |z| && forall i :: 0 <= i < |z| ==> s[i] == z[i].payload
  {
    seq(|z|, i requires 0 <= i < |z| => z[i].payload)
  }

  lemma Cancel<T>(x: T, a: multiset<T>, b: multiset<T>)
    requires multiset{x} + a == multiset{x} + b
    ensures a == b
  {
    assert a == multiset{x} + a - multiset{x};
    assert b == multiset{x} + b - multiset{x};
  }

  lemma PayloadsConcat(y: seq<Entry>, z: seq<Entry>)
    ensures Payloads(y + z) == Payloads(y) + Payloads(z)
  {}

  lemma Without(z: seq<Entry>, k: nat)
    requires k < |z|
    ensures var rest := z[..k] + z[k + 1..];
            multiset(z) == multiset{z[k]} + multiset(rest)
            && multiset(Payloads(z)) == multiset{z[k].payload} + multiset(Payloads(rest))
  {
    var a, e, b := z[..k], [z[k]], z[k + 1..];
    assert z == a + e + b;
    PayloadsConcat(a, e);
    PayloadsConcat(a + e, b);
    PayloadsConcat(a, b);
    assert Payloads(e) == [z[k].payload];
  }

  lemma {:induction false} PayloadsKept(z: seq<Entry>, z0: seq<Entry>)
    requires multiset(z) == multiset(z0)
    ensures multiset(Payloads(z)) == multiset(Payloads(z0))
    decreases |z|
  {
    assert |z| == |multiset(z)| == |z0|;
    if z == [] {
      assert Payloads(z) == Payloads(z0);
    } else {
      assert z[0] in multiset(z0);
      var k :| 0 <= k < |z0| && z0[k] == z[0];
      var y, y0 := z[..0] + z[1..], z0[..k] + z0[k + 1..];
      Without(z, 0);
      Without(z0, k);
      hide Payloads;
      Cancel(z[0], multiset(y), multiset(y0));
      PayloadsKept(y, y0);
    }
  }

  /** For well-formed texts the order is the characters', and stable. */
  lemma SortedByCharacters(v: seq<Text>, s: seq<int>)
    requires forall i :: 0 <= i < |v| ==> WellFormed(v[i])
    requires Sorted(v, s)
    ensures forall a, b :: 0 <= a < b < |s| ==>
              var c := CharCmp(Decode(v[s[a]]), Decode(v[s[b]]));
              c < 0 || (c == 0 && s[a] < s[b])
  {
    forall a, b | 0 <= a < b < |s|
      ensures var c := CharCmp(Decode(v[s[a]]), Decode(v[s[b]])); c < 0 || (c == 0 && s[a] < s[b])
    {
      hide Cmp, CharCmp, Decode, Encode;
      var x, y := v[s[a]], v[s[b]];
      assert WellFormed(x) && WellFormed(y);
      AcceptsIffWellFormed(x);
      AcceptsIffWellFormed(y);
      EncodeOfDecode(x);
      EncodeOfDecode(y);
      OctetOrderIsCharOrder(Decode(x), Decode(y));
      assert Comes(v, s[a], s[b]);
    }
  }

  lemma FirstsEqual(v: seq<Text>, s: seq<int>, t: seq<int>)
    requires Sorted(v, s) && Sorted(v, t) && multiset(s) == multiset(t) && s != [] && t != []
    ensures s[0] == t[0]
  {
    hide Comes;
    assert s[0] in multiset(t) && t[0] in multiset(s);
    var k :| 0 <= k < |t| && t[k] == s[0];
    var j :| 0 <= j < |s| && s[j] == t[0];
    if k > 0 && j > 0 {
      assert Comes(v, t[0], t[k]) && Comes(v, s[0], s[j]);
      ComesOneWay(v, s[0], t[0]);
    }
  }

  lemma ComesOneWay(v: seq<Text>, i: int, j: int)
    requires 0 <= i < |v| && 0 <= j < |v|
    ensures !(Comes(v, i, j) && Comes(v, j, i))
  {
    CmpSame(v[i], v[j]);
  }

  /** There is only one such permutation. */
  lemma {:induction false} SortedUnique(v: seq<Text>, s: seq<int>, t: seq<int>)
    requires Sorted(v, s) && Sorted(v, t) && multiset(s) == multiset(t)
    ensures s == t
    decreases |s|
  {
    assert |s| == |multiset(s)| == |t|;
    if s != [] {
      FirstsEqual(v, s, t);
      assert s == [s[0]] + s[1..] && t == [t[0]] + t[1..];
      assert multiset(s) == multiset{s[0]} + multiset(s[1..]);
      assert multiset(t) == multiset{s[0]} + multiset(t[1..]);
      Cancel(s[0], multiset(s[1..]), multiset(t[1..]));
      hide Comes;
      SortedUnique(v, s[1..], t[1..]);
    }
  }
}
