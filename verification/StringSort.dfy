/** The string argsort: keys of the first eight octets by radix, then each run of equal
    keys by the whole compare (runtime/m9rt.c:1171-1257). */
module StringSort {
  import opened Utf8
  import opened TextOrder

  // ---- the stable order of indices ----

  /** Index i comes before j: its text is less, or the texts are equal and i is first. */
  predicate Comes(v: seq<Text>, i: int, j: int)
    requires 0 <= i < |v| && 0 <= j < |v|
  {
    Cmp(v[i], v[j]) < 0 || (Cmp(v[i], v[j]) == 0 && i < j)
  }

  predicate Indices(v: seq<Text>, s: seq<int>) {
    forall k :: 0 <= k < |s| ==> 0 <= s[k] < |v|
  }

  predicate Sorted(v: seq<Text>, s: seq<int>) {
    Indices(v, s) && forall a, b :: 0 <= a < b < |s| ==> Comes(v, s[a], s[b])
  }

  predicate Ascending(s: seq<int>) {
    forall a, b :: 0 <= a < b < |s| ==> s[a] < s[b]
  }

  /** Every index of s is below every index of t. */
  predicate AllBelow(s: seq<int>, t: seq<int>) {
    forall a, b :: 0 <= a < |s| && 0 <= b < |t| ==> s[a] < t[b]
  }

  predicate AllCome(v: seq<Text>, s: seq<int>, t: seq<int>) {
    Indices(v, s) && Indices(v, t)
    && forall a, b :: 0 <= a < |s| && 0 <= b < |t| ==> Comes(v, s[a], t[b])
  }

  lemma ComesTransitive(v: seq<Text>, i: int, j: int, k: int)
    requires 0 <= i < |v| && 0 <= j < |v| && 0 <= k < |v|
    requires Comes(v, i, j) && Comes(v, j, k)
    ensures Comes(v, i, k)
  {
    CmpSame(v[i], v[j]);
    CmpSame(v[j], v[k]);
    if Cmp(v[i], v[j]) < 0 && Cmp(v[j], v[k]) < 0 {
      CmpTransitive(v[i], v[j], v[k]);
    }
  }

  // ---- the insertion sort under 32 ----

  /** m9_utf_insert on idx[lo..hi], whose indices arrive ascending. */
  method Insert(v: seq<Text>, idx: array<int>, lo: nat, hi: nat)
    requires lo <= hi <= idx.Length
    requires Indices(v, idx[lo..hi]) && Ascending(idx[lo..hi])
    modifies idx
    ensures idx[..lo] == old(idx[..lo]) && idx[hi..] == old(idx[hi..])
    ensures multiset(idx[lo..hi]) == old(multiset(idx[lo..hi]))
    ensures Sorted(v, idx[lo..hi])
  {
    hide Cmp, Comes;
    var i := lo;
    while i < hi
      invariant lo <= i <= hi
      invariant idx[..lo] == old(idx[..lo]) && idx[hi..] == old(idx[hi..])
      invariant multiset(idx[lo..hi]) == old(multiset(idx[lo..hi]))
      invariant Sorted(v, idx[lo..i])
      invariant Indices(v, idx[i..hi]) && Ascending(idx[i..hi]) && AllBelow(idx[lo..i], idx[i..hi])
    {
      InsertOne(v, idx, lo, i, hi);
      i := i + 1;
    }
    if lo == hi {
      assert idx[lo..hi] == [];
    }
  }

  /** The inner loop: the index at i goes down into the sorted part. */
  method InsertOne(v: seq<Text>, idx: array<int>, lo: nat, i: nat, hi: nat)
    requires lo <= i < hi <= idx.Length
    requires Sorted(v, idx[lo..i])
    requires Indices(v, idx[i..hi]) && Ascending(idx[i..hi]) && AllBelow(idx[lo..i], idx[i..hi])
    modifies idx
    ensures idx[..lo] == old(idx[..lo]) && idx[hi..] == old(idx[hi..])
    ensures multiset(idx[lo..hi]) == old(multiset(idx[lo..hi]))
    ensures Sorted(v, idx[lo..i + 1])
    ensures Indices(v, idx[i + 1..hi]) && Ascending(idx[i + 1..hi]) && AllBelow(idx[lo..i + 1], idx[i + 1..hi])
  {
    hide *;
    ghost var was := idx[..];
    InRange(v, was, lo, i, hi);
    var j := Shift(v, idx, lo, i);
    InsertedOne(v, was, idx[..], lo, i, j, hi);
  }

  lemma InRange(v: seq<Text>, was: seq<int>, lo: nat, i: nat, hi: nat)
    requires lo <= i < hi <= |was| && Sorted(v, was[lo..i]) && Indices(v, was[i..hi])
    ensures forall k :: lo <= k <= i ==> 0 <= was[k] < |v|
  {
    forall k | lo <= k <= i ensures 0 <= was[k] < |v| {
      if k < i {
        assert was[k] == was[lo..i][k - lo];
      } else {
        assert was[k] == was[i..hi][0];
      }
    }
  }

  lemma InsertedOne(v: seq<Text>, was: seq<int>, now: seq<int>, lo: nat, i: nat, j: nat, hi: nat)
    requires lo <= j <= i < hi <= |was| && Moved(was, now, i, j)
    requires Sorted(v, was[lo..i]) && Indices(v, was[i..hi])
    requires Ascending(was[i..hi]) && AllBelow(was[lo..i], was[i..hi])
    requires forall k :: lo <= k <= i ==> 0 <= was[k] < |v|
    requires forall k :: j <= k < i ==> Cmp(v[was[k]], v[was[i]]) > 0
    requires j > lo ==> Cmp(v[was[j - 1]], v[was[i]]) <= 0
    ensures now[..lo] == was[..lo] && now[hi..] == was[hi..]
    ensures multiset(now[lo..hi]) == multiset(was[lo..hi])
    ensures Sorted(v, now[lo..i + 1])
    ensures Indices(v, now[i + 1..hi]) && Ascending(now[i + 1..hi]) && AllBelow(now[lo..i + 1], now[i + 1..hi])
  {
    hide *;
    MovedLength(was, now, i, j);
    MovedSlices(was, now, lo, i, j, hi);
    WasSlices(was, lo, i, hi);
    WasCompared(v, was, lo, i, j);
    InsertedParts(v, was[lo..i], was[i], was[i + 1..hi], was[i..hi], j - lo,
                  now[lo..i + 1], was[lo..hi], now[lo..hi]);
  }

  lemma WasSlices(was: seq<int>, lo: nat, i: nat, hi: nat)
    requires lo <= i < hi <= |was|
    ensures was[i..hi] == [was[i]] + was[i + 1..hi]
    ensures was[lo..hi] == was[lo..i] + was[i..hi]
  {}

  lemma WasCompared(v: seq<Text>, was: seq<int>, lo: nat, i: nat, j: nat)
    requires lo <= j <= i < |was|
    requires forall k :: lo <= k <= i ==> 0 <= was[k] < |v|
    requires forall k :: j <= k < i ==> Cmp(v[was[k]], v[was[i]]) > 0
    requires j > lo ==> Cmp(v[was[j - 1]], v[was[i]]) <= 0
    ensures var s := was[lo..i];
            (forall k :: 0 <= k < |s| ==> 0 <= s[k] < |v|)
            && (forall k :: j - lo <= k < |s| ==> Cmp(v[s[k]], v[was[i]]) > 0)
            && (j > lo ==> Cmp(v[s[j - lo - 1]], v[was[i]]) <= 0)
  {
    hide *;
  }

  lemma InsertedParts(v: seq<Text>, s: seq<int>, x: int, rest: seq<int>, xs: seq<int>, j: nat,
                      r: seq<int>, whole: seq<int>, whole': seq<int>)
    requires xs == [x] + rest && whole == s + xs && whole' == r + rest
    requires Sorted(v, s) && Indices(v, xs) && Ascending(xs) && AllBelow(s, xs)
    requires j <= |s| && r == s[..j] + [x] + s[j..]
    requires 0 <= x < |v| && forall k :: 0 <= k < |s| ==> 0 <= s[k] < |v|
    requires forall k :: j <= k < |s| ==> Cmp(v[s[k]], v[x]) > 0
    requires j > 0 ==> Cmp(v[s[j - 1]], v[x]) <= 0
    ensures multiset(whole') == multiset(whole)
    ensures Sorted(v, r) && Indices(v, rest) && Ascending(rest) && AllBelow(r, rest)
  {
    hide *;
    SortedIndices(v, s);
    RunFacts(v, s, x, rest);
    InsertedSorted(v, s, x, j, r);
    assert whole == s + [x] + rest;
    InsertedKept(whole, s, x, j, rest, r);
    InsertedBelow(s, x, j, rest, r);
  }

  lemma SortedIndices(v: seq<Text>, s: seq<int>)
    requires Sorted(v, s)
    ensures Indices(v, s)
  {}

  lemma RunFacts(v: seq<Text>, s: seq<int>, x: int, rest: seq<int>)
    requires Indices(v, s) && Indices(v, [x] + rest)
    requires Ascending([x] + rest) && AllBelow(s, [x] + rest)
    ensures 0 <= x < |v| && forall k :: 0 <= k < |s| ==> 0 <= s[k] < |v| && s[k] < x
    ensures Indices(v, rest) && Ascending(rest)
  {
    var xs := [x] + rest;
    assert xs[0] == x;
    assert forall k :: 0 <= k < |rest| ==> rest[k] == xs[k + 1];
  }

  /** now is was with the element at i moved down to j. */
  predicate Moved(was: seq<int>, now: seq<int>, i: nat, j: nat)
    requires j <= i < |was|
  {
    |now| == |was| && now[j] == was[i]
    && (forall k :: 0 <= k < j ==> now[k] == was[k])
    && (forall k :: j < k <= i ==> now[k] == was[k - 1])
    && (forall k :: i < k < |was| ==> now[k] == was[k])
  }

  lemma MovedLength(was: seq<int>, now: seq<int>, i: nat, j: nat)
    requires j <= i < |was| && Moved(was, now, i, j)
    ensures |now| == |was|
  {}

  lemma MovedSlices(was: seq<int>, now: seq<int>, lo: nat, i: nat, j: nat, hi: nat)
    requires lo <= j <= i < hi <= |was| && Moved(was, now, i, j)
    ensures now[..lo] == was[..lo] && now[hi..] == was[hi..]
    ensures now[i + 1..hi] == was[i + 1..hi]
    ensures now[lo..i + 1] == was[lo..i][..j - lo] + [was[i]] + was[lo..i][j - lo..]
    ensures now[lo..hi] == now[lo..i + 1] + now[i + 1..hi]
  {}

  /** The shifting: the index at i moves down to j, those between up by one. */
  method Shift(v: seq<Text>, idx: array<int>, lo: nat, i: nat) returns (j: nat)
    requires lo <= i < idx.Length
    requires forall k :: lo <= k <= i ==> 0 <= idx[k] < |v|
    modifies idx
    ensures lo <= j <= i
    ensures Moved(old(idx[..]), idx[..], i, j)
    ensures forall k :: j <= k < i ==> Cmp(v[old(idx[k])], v[old(idx[i])]) > 0
    ensures j > lo ==> Cmp(v[old(idx[j - 1])], v[old(idx[i])]) <= 0
  {
    hide Cmp, Moved;
    ghost var was := idx[..];
    var x := idx[i];
    j := i;
    while j > lo && Cmp(v[idx[j - 1]], v[x]) > 0
      invariant lo <= j <= i
      invariant forall k :: 0 <= k < j ==> idx[k] == was[k]
      invariant forall k :: j < k <= i ==> idx[k] == was[k - 1]
      invariant forall k :: i < k < idx.Length ==> idx[k] == was[k]
      invariant forall k :: j <= k < i ==> Cmp(v[was[k]], v[x]) > 0
    {
      idx[j] := idx[j - 1];
      j := j - 1;
    }
    idx[j] := x;
    MovedByElements(was, idx[..], i, j);
  }

  lemma MovedByElements(was: seq<int>, now: seq<int>, i: nat, j: nat)
    requires j <= i < |was| == |now| && now[j] == was[i]
    requires forall k :: 0 <= k < j ==> now[k] == was[k]
    requires forall k :: j < k <= i ==> now[k] == was[k - 1]
    requires forall k :: i < k < |was| ==> now[k] == was[k]
    ensures Moved(was, now, i, j)
  {}

  lemma InsertedKept(whole: seq<int>, s: seq<int>, x: int, j: nat, rest: seq<int>, r: seq<int>)
    requires j <= |s| && whole == s + [x] + rest && r == s[..j] + [x] + s[j..]
    ensures multiset(r + rest) == multiset(whole)
  {
    assert s == s[..j] + s[j..];
  }

  lemma InsertedBelow(s: seq<int>, x: int, j: nat, rest: seq<int>, r: seq<int>)
    requires j <= |s| && AllBelow(s, [x] + rest) && Ascending([x] + rest)
    requires r == s[..j] + [x] + s[j..]
    ensures AllBelow(r, rest)
  {
    var xs := [x] + rest;
    forall a, b | 0 <= a < |r| && 0 <= b < |rest| ensures r[a] < rest[b] {
      assert rest[b] == xs[b + 1] && xs[0] < xs[b + 1];
      assert r[a] == x || r[a] == s[if a < j then a else a - 1];
    }
  }

  lemma InsertedSorted(v: seq<Text>, s: seq<int>, x: int, j: nat, r: seq<int>)
    requires Sorted(v, s) && 0 <= x < |v| && j <= |s| && r == s[..j] + [x] + s[j..]
    requires forall k :: 0 <= k < |s| ==> s[k] < x
    requires forall k :: j <= k < |s| ==> Cmp(v[s[k]], v[x]) > 0
    requires j > 0 ==> Cmp(v[s[j - 1]], v[x]) <= 0
    ensures Sorted(v, r)
  {
    hide Cmp;
    forall k | 0 <= k < j ensures Comes(v, s[k], x) {
      assert Comes(v, s[j - 1], x);
      if k < j - 1 {
        assert Comes(v, s[k], s[j - 1]);
        ComesTransitive(v, s[k], s[j - 1], x);
      }
    }
    forall k | j <= k < |s| ensures Comes(v, x, s[k]) {
      CmpSame(v[s[k]], v[x]);
    }
    SplicedSorted(v, s[..j], x, s[j..]);
  }

  lemma SplicedSorted(v: seq<Text>, s: seq<int>, x: int, t: seq<int>)
    requires Sorted(v, s + t) && 0 <= x < |v|
    requires AllCome(v, s, [x]) && AllCome(v, [x], t)
    ensures Sorted(v, s + [x] + t)
  {
    hide Comes;
    var r, st := s + [x] + t, s + t;
    forall a, b | 0 <= a < b < |r| ensures Comes(v, r[a], r[b]) {
      if a == |s| {
        assert Comes(v, [x][0], t[b - |s| - 1]);
      } else if b == |s| {
        assert Comes(v, s[a], [x][0]);
      } else {
        assert r[a] == st[if a < |s| then a else a - 1] && r[b] == st[if b < |s| then b else b - 1];
      }
    }
  }

  // ---- the merge sort above ----

  /** The run so far in the scratch, and what is left of the two halves. */
  predicate Merging(v: seq<Text>, done: seq<int>, left: seq<int>, right: seq<int>) {
    Sorted(v, done) && Sorted(v, left) && Sorted(v, right)
    && AllCome(v, done, left) && AllCome(v, done, right) && AllBelow(left, right)
  }

  lemma TakeLeft(v: seq<Text>, done: seq<int>, left: seq<int>, right: seq<int>)
    requires Merging(v, done, left, right) && left != []
    requires right != [] ==> Cmp(v[right[0]], v[left[0]]) >= 0
    ensures Merging(v, done + [left[0]], left[1..], right)
  {
    hide Cmp;
    var x := left[0];
    forall b | 0 <= b < |right| ensures Comes(v, x, right[b]) {
      CmpSame(v[right[0]], v[x]);
      assert Comes(v, x, right[0]);
      if b > 0 {
        ComesTransitive(v, x, right[0], right[b]);
      }
    }
    SnocSorted(v, done, x);
  }

  lemma TakeRight(v: seq<Text>, done: seq<int>, left: seq<int>, right: seq<int>)
    requires Merging(v, done, left, right) && right != []
    requires left != [] ==> Cmp(v[right[0]], v[left[0]]) < 0
    ensures Merging(v, done + [right[0]], left, right[1..])
  {
    hide Cmp;
    var x := right[0];
    forall b | 0 <= b < |left| ensures Comes(v, x, left[b]) {
      assert Comes(v, x, left[0]);
      if b > 0 {
        ComesTransitive(v, x, left[0], left[b]);
      }
    }
    SnocSorted(v, done, x);
  }

  lemma SnocSorted(v: seq<Text>, done: seq<int>, x: int)
    requires Sorted(v, done) && AllCome(v, done, [x])
    ensures Sorted(v, done + [x])
  {
    hide Comes;
    var r := done + [x];
    forall a, b | 0 <= a < b < |r| ensures Comes(v, r[a], r[b]) {
      if b == |done| {
        assert Comes(v, done[a], [x][0]);
      }
    }
  }

  lemma HalvesMeet(v: seq<Text>, left: seq<int>, right: seq<int>, all: seq<int>)
    requires all == left + right && Sorted(v, left) && Sorted(v, right) && AllBelow(left, right)
    requires left != [] && right != [] && Cmp(v[left[|left| - 1]], v[right[0]]) <= 0
    ensures Sorted(v, all)
  {
    hide Cmp;
    var x, y := left[|left| - 1], right[0];
    assert Comes(v, x, y);
    forall a, b | 0 <= a < |left| && 0 <= b < |right| ensures Comes(v, left[a], right[b]) {
      if a < |left| - 1 {
        ComesTransitive(v, left[a], x, y);
      }
      if b > 0 {
        ComesTransitive(v, left[a], y, right[b]);
      }
    }
  }

  lemma HalvesKept(v: seq<Text>, s: seq<int>, mid: nat, left: seq<int>, right: seq<int>)
    requires mid <= |s| && Indices(v, s) && Ascending(s)
    requires multiset(left) == multiset(s[..mid]) && multiset(right) == multiset(s[mid..])
    ensures AllBelow(left, right)
    ensures multiset(left + right) == multiset(s)
  {
    forall a, b | 0 <= a < |left| && 0 <= b < |right| ensures left[a] < right[b] {
      assert left[a] in multiset(s[..mid]) && right[b] in multiset(s[mid..]);
    }
    assert s == s[..mid] + s[mid..];
  }

  predicate Kept(done: seq<int>, left: seq<int>, right: seq<int>, all: seq<int>) {
    multiset(done) + multiset(left) + multiset(right) == multiset(all)
  }

  lemma KeptLeft(done: seq<int>, left: seq<int>, right: seq<int>, all: seq<int>)
    requires left != [] && Kept(done, left, right, all)
    ensures Kept(done + [left[0]], left[1..], right, all)
  {
    assert left == [left[0]] + left[1..];
  }

  lemma KeptRight(done: seq<int>, left: seq<int>, right: seq<int>, all: seq<int>)
    requires right != [] && Kept(done, left, right, all)
    ensures Kept(done + [right[0]], left, right[1..], all)
  {
    assert right == [right[0]] + right[1..];
  }

  lemma MergingIndices(v: seq<Text>, done: seq<int>, left: seq<int>, right: seq<int>)
    requires Merging(v, done, left, right)
    ensures Indices(v, left) && Indices(v, right)
  {}

  /** What stands in the scratch after i of the left half and c of the right. */
  predicate Merged(v: seq<Text>, done: seq<int>, left: seq<int>, right: seq<int>, i: nat, c: nat, all: seq<int>)
    requires i <= |left| && c <= |right|
  {
    Merging(v, done, left[i..], right[c..]) && Kept(done, left[i..], right[c..], all)
  }

  lemma MergedTakes(v: seq<Text>, done: seq<int>, left: seq<int>, right: seq<int>, i: nat, c: nat, all: seq<int>)
    requires i < |left| && c < |right| && Merged(v, done, left, right, i, c, all)
    ensures 0 <= left[i] < |v| && 0 <= right[c] < |v|
    ensures if Cmp(v[right[c]], v[left[i]]) < 0 then Merged(v, done + [right[c]], left, right, i, c + 1, all)
            else Merged(v, done + [left[i]], left, right, i + 1, c, all)
  {
    hide Merging, Kept, Indices, Cmp;
    var l, r := left[i..], right[c..];
    assert l[1..] == left[i + 1..] && r[1..] == right[c + 1..];
    MergingIndices(v, done, l, r);
    IndexAt(v, l);
    IndexAt(v, r);
    if Cmp(v[right[c]], v[left[i]]) < 0 {
      TakeRight(v, done, l, r);
      KeptRight(done, l, r, all);
    } else {
      TakeLeft(v, done, l, r);
      KeptLeft(done, l, r, all);
    }
  }

  /** The next of the two halves goes to the scratch: the right one's only if it is less. */
  method TakeNext(v: seq<Text>, t: array<int>, k: nat, x: int, y: int,
                  ghost left: seq<int>, ghost right: seq<int>, ghost i: nat, ghost c: nat, ghost all: seq<int>)
    returns (fromRight: bool)
    requires k < t.Length && i < |left| && c < |right| && x == left[i] && y == right[c]
    requires Merged(v, t[..k], left, right, i, c, all)
    modifies t
    ensures if fromRight then Merged(v, t[..k + 1], left, right, i, c + 1, all)
            else Merged(v, t[..k + 1], left, right, i + 1, c, all)
  {
    hide *;
    ghost var done := t[..k];
    MergedTakes(v, done, left, right, i, c, all);
    fromRight := Cmp(v[y], v[x]) < 0;
    t[k] := if fromRight then y else x;
    assert t[..k + 1] == done + [t[k]];
  }

  lemma IndexAt(v: seq<Text>, s: seq<int>)
    requires Indices(v, s) && s != []
    ensures 0 <= s[0] < |v|
  {}

  /** The first loop: until one half is used up. */
  method MergeLoop(v: seq<Text>, idx: array<int>, t: array<int>, lo: nat, mid: nat, n: nat,
                   ghost left: seq<int>, ghost right: seq<int>, ghost all: seq<int>)
    returns (i: nat, j: nat)
    requires mid == |left| <= n == mid + |right| <= t.Length && lo + n <= idx.Length && idx != t
    requires forall a :: 0 <= a < mid ==> left[a] == idx[lo + a]
    requires forall b :: 0 <= b < n - mid ==> right[b] == idx[lo + mid + b]
    requires Merged(v, [], left, right, 0, 0, all)
    modifies t
    ensures i <= mid <= j <= n && (i == mid || j == n)
    ensures Merged(v, t[..i + (j - mid)], left, right, i, j - mid, all)
  {
    hide *;
    i, j := 0, mid;
    var k := 0;
    assert t[..0] == [];
    while i < mid && j < n
      invariant i <= mid <= j <= n && k == i + (j - mid)
      invariant Merged(v, t[..k], left, right, i, j - mid, all)
    {
      assert idx[lo + mid + (j - mid)] == right[j - mid];
      var fromRight := TakeNext(v, t, k, idx[lo + i], idx[lo + j], left, right, i, j - mid, all);
      if fromRight {
        j := j + 1;
      } else {
        i := i + 1;
      }
      k := k + 1;
    }
  }

  /** The second loop and the third: what is left of one half. */
  method Drain(v: seq<Text>, idx: array<int>, t: array<int>, lo: nat, k: nat, m: nat,
               ghost left: seq<int>, ghost right: seq<int>, ghost all: seq<int>)
    requires m == |left| + |right| && k + m <= t.Length && lo + m <= idx.Length && idx != t
    requires left == [] || right == []
    requires forall a :: 0 <= a < m ==> (left + right)[a] == idx[lo + a]
    requires Merging(v, t[..k], left, right) && Kept(t[..k], left, right, all)
    modifies t
    ensures Sorted(v, t[..k + m]) && multiset(t[..k + m]) == multiset(all)
  {
    hide *;
    ghost var done, rest := t[..k], left + right;
    for i := 0 to m
      invariant t[..k + i] == done + rest[..i]
    {
      t[k + i] := idx[lo + i];
      assert t[..k + (i + 1)] == t[..k + i] + [rest[i]];
    }
    assert rest[..m] == rest;
    DrainLeft(v, done, left, right, all);
  }

  /** Moving all that is left keeps the order, one index at a time. */
  lemma {:induction false} DrainLeft(v: seq<Text>, done: seq<int>, left: seq<int>, right: seq<int>, all: seq<int>)
    requires left == [] || right == []
    requires Merging(v, done, left, right) && Kept(done, left, right, all)
    ensures Sorted(v, done + (left + right)) && multiset(done + (left + right)) == multiset(all)
    decreases |left| + |right|
  {
    hide *;
    if left != [] {
      KeptLeft(done, left, right, all);
      TakeLeft(v, done, left, right);
      DrainLeft(v, done + [left[0]], left[1..], right, all);
      assert done + [left[0]] + (left[1..] + right) == done + (left + right);
    } else if right != [] {
      KeptRight(done, left, right, all);
      TakeRight(v, done, left, right);
      DrainLeft(v, done + [right[0]], left, right[1..], all);
      assert done + [right[0]] + (left + right[1..]) == done + (left + right);
    } else {
      MergeEnd(v, done, left, right, all);
      assert done + (left + right) == done;
    }
  }

  /** The two sorted halves of idx[lo..lo + n], merged into t[..n]. */
  method MergeHalves(v: seq<Text>, idx: array<int>, t: array<int>, lo: nat, mid: nat, n: nat,
                     ghost left: seq<int>, ghost right: seq<int>, ghost all: seq<int>)
    requires all == left + right
    requires mid == |left| <= n == mid + |right| <= t.Length && lo + n <= idx.Length && idx != t
    requires forall a :: 0 <= a < mid ==> left[a] == idx[lo + a]
    requires forall b :: 0 <= b < n - mid ==> right[b] == idx[lo + mid + b]
    requires Sorted(v, left) && Sorted(v, right) && AllBelow(left, right)
    modifies t
    ensures Sorted(v, t[..n]) && multiset(t[..n]) == multiset(all)
  {
    hide *;
    MergeStart(v, left, right, all);
    var i, j := MergeLoop(v, idx, t, lo, mid, n, left, right, all);
    MergedMeans(v, t[..i + (j - mid)], left, right, i, j - mid, all);
    if i < mid {
      assert right[j - mid..] == [];
      assert forall a :: 0 <= a < mid - i ==> (left[i..] + [])[a] == left[i + a] == idx[lo + i + a];
      Drain(v, idx, t, lo + i, i + (j - mid), mid - i, left[i..], right[j - mid..], all);
    } else {
      assert left[i..] == [];
      ghost var rest := left[i..] + right[j - mid..];
      forall a | 0 <= a < n - j ensures rest[a] == idx[lo + j + a] {
        assert rest[a] == right[j - mid + a] == idx[lo + mid + (j - mid + a)];
      }
      Drain(v, idx, t, lo + j, i + (j - mid), n - j, left[i..], right[j - mid..], all);
    }
  }

  lemma MergeStart(v: seq<Text>, left: seq<int>, right: seq<int>, all: seq<int>)
    requires Sorted(v, left) && Sorted(v, right) && AllBelow(left, right) && all == left + right
    ensures Merged(v, [], left, right, 0, 0, all)
  {
    assert left[0..] == left && right[0..] == right;
  }

  lemma MergedMeans(v: seq<Text>, done: seq<int>, left: seq<int>, right: seq<int>, i: nat, c: nat, all: seq<int>)
    requires i <= |left| && c <= |right| && Merged(v, done, left, right, i, c, all)
    ensures Merging(v, done, left[i..], right[c..]) && Kept(done, left[i..], right[c..], all)
  {}

  lemma MergeEnd(v: seq<Text>, done: seq<int>, left: seq<int>, right: seq<int>, all: seq<int>)
    requires Merging(v, done, left, right) && Kept(done, left, right, all) && left == [] && right == []
    ensures Sorted(v, done) && multiset(done) == multiset(all)
  {}

  /** m9_utf_merge on idx[lo..hi], with t as scratch. */
  method MergeRun(v: seq<Text>, idx: array<int>, t: array<int>, lo: nat, hi: nat)
    requires lo <= hi <= idx.Length && hi - lo <= t.Length && idx != t
    requires Indices(v, idx[lo..hi]) && Ascending(idx[lo..hi])
    modifies idx, t
    ensures idx[..lo] == old(idx[..lo]) && idx[hi..] == old(idx[hi..])
    ensures multiset(idx[lo..hi]) == old(multiset(idx[lo..hi]))
    ensures Sorted(v, idx[lo..hi])
    decreases hi - lo
  {
    hide *;
    if hi - lo < 32 {
      Insert(v, idx, lo, hi);
      return;
    }
    var mid := lo + (hi - lo) / 2;
    ghost var w0 := idx[..];
    HalvesArrive(v, w0, lo, mid, hi);
    MergeRun(v, idx, t, lo, mid);
    ghost var w1 := idx[..];
    SliceFrame(w0, w1, mid, hi);
    MergeRun(v, idx, t, mid, hi);
    HalvesSorted(v, w0, w1, idx[..], lo, mid, hi);
    JoinHalves(v, idx, t, lo, mid, hi);
  }

  /** The rest of m9_utf_merge, once both halves are sorted. */
  method JoinHalves(v: seq<Text>, idx: array<int>, t: array<int>, lo: nat, mid: nat, hi: nat)
    requires lo < mid < hi <= idx.Length && hi - lo <= t.Length && idx != t
    requires Sorted(v, idx[lo..mid]) && Sorted(v, idx[mid..hi]) && AllBelow(idx[lo..mid], idx[mid..hi])
    modifies idx, t
    ensures idx[..lo] == old(idx[..lo]) && idx[hi..] == old(idx[hi..])
    ensures multiset(idx[lo..hi]) == old(multiset(idx[lo..hi]))
    ensures Sorted(v, idx[lo..hi])
  {
    hide *;
    ghost var left, right, all := idx[lo..mid], idx[mid..hi], idx[lo..hi];
    SortedIndices(v, left);
    SortedIndices(v, right);
    LastAndFirst(v, left, right);
    assert all == left + right;
    assert idx[mid - 1] == left[|left| - 1] && idx[mid] == right[0];
    if Cmp(v[idx[mid - 1]], v[idx[mid]]) <= 0 {
      HalvesMeet(v, left, right, all);
    } else {
      MergeAndCopy(v, idx, t, lo, mid, hi, left, right, all);
    }
  }

  method MergeAndCopy(v: seq<Text>, idx: array<int>, t: array<int>, lo: nat, mid: nat, hi: nat,
                      ghost left: seq<int>, ghost right: seq<int>, ghost all: seq<int>)
    requires lo <= mid <= hi <= idx.Length && hi - lo <= t.Length && idx != t
    requires left == idx[lo..mid] && right == idx[mid..hi] && all == left + right
    requires Sorted(v, left) && Sorted(v, right) && AllBelow(left, right)
    modifies idx, t
    ensures idx[..lo] == old(idx[..lo]) && idx[hi..] == old(idx[hi..])
    ensures multiset(idx[lo..hi]) == multiset(all)
    ensures Sorted(v, idx[lo..hi])
  {
    hide *;
    assert forall b :: 0 <= b < |right| ==> right[b] == idx[mid + b];
    ghost var w := idx[..];
    MergeHalves(v, idx, t, lo, mid - lo, hi - lo, left, right, all);
    assert idx[..] == w;
    CopyBack(idx, t, lo, hi);
  }

  lemma SliceFrame(w: seq<int>, w': seq<int>, a: nat, b: nat)
    requires a <= b <= |w| == |w'| && w[a..] == w'[a..]
    ensures w[a..b] == w'[a..b] && w[b..] == w'[b..]
  {
    assert w[a..b] == w[a..][..b - a] && w'[a..b] == w'[a..][..b - a];
    assert w[b..] == w[a..][b - a..] && w'[b..] == w'[a..][b - a..];
  }

  lemma SliceFrontFrame(w: seq<int>, w': seq<int>, a: nat, b: nat)
    requires a <= b <= |w| == |w'| && w[..b] == w'[..b]
    ensures w[a..b] == w'[a..b] && w[..a] == w'[..a]
  {
    assert w[a..b] == w[..b][a..] && w'[a..b] == w'[..b][a..];
    assert w[..a] == w[..b][..a] && w'[..a] == w'[..b][..a];
  }

  /** What the two recursive calls leave. */
  lemma HalvesSorted(v: seq<Text>, w0: seq<int>, w1: seq<int>, w2: seq<int>, lo: nat, mid: nat, hi: nat)
    requires lo <= mid <= hi <= |w0| == |w1| == |w2|
    requires Indices(v, w0[lo..hi]) && Ascending(w0[lo..hi])
    requires w1[..lo] == w0[..lo] && w1[mid..] == w0[mid..]
    requires multiset(w1[lo..mid]) == multiset(w0[lo..mid]) && Sorted(v, w1[lo..mid])
    requires w2[..mid] == w1[..mid] && w2[hi..] == w1[hi..]
    requires multiset(w2[mid..hi]) == multiset(w1[mid..hi]) && Sorted(v, w2[mid..hi])
    ensures w2[..lo] == w0[..lo] && w2[hi..] == w0[hi..]
    ensures Sorted(v, w2[lo..mid]) && Sorted(v, w2[mid..hi]) && AllBelow(w2[lo..mid], w2[mid..hi])
    ensures multiset(w2[lo..hi]) == multiset(w0[lo..hi])
  {
    hide *;
    SliceFrame(w0, w1, mid, hi);
    SliceFrontFrame(w1, w2, lo, mid);
    var s := w0[lo..hi];
    assert s[..mid - lo] == w0[lo..mid] && s[mid - lo..] == w0[mid..hi];
    assert w2[lo..hi] == w2[lo..mid] + w2[mid..hi];
    HalvesKept(v, s, mid - lo, w2[lo..mid], w2[mid..hi]);
  }

  lemma LastAndFirst(v: seq<Text>, left: seq<int>, right: seq<int>)
    requires Indices(v, left) && Indices(v, right) && left != [] && right != []
    ensures 0 <= left[|left| - 1] < |v| && 0 <= right[0] < |v|
  {}

  lemma HalvesArrive(v: seq<Text>, w: seq<int>, lo: nat, mid: nat, hi: nat)
    requires lo <= mid <= hi <= |w| && Indices(v, w[lo..hi]) && Ascending(w[lo..hi])
    ensures Indices(v, w[lo..mid]) && Ascending(w[lo..mid])
    ensures Indices(v, w[mid..hi]) && Ascending(w[mid..hi])
  {
    var s := w[lo..hi];
    assert w[lo..mid] == s[..mid - lo] && w[mid..hi] == s[mid - lo..];
  }

  method CopyBack(idx: array<int>, t: array<int>, lo: nat, hi: nat)
    requires lo <= hi <= idx.Length && hi - lo <= t.Length && idx != t
    modifies idx
    ensures idx[..lo] == old(idx[..lo]) && idx[hi..] == old(idx[hi..])
    ensures idx[lo..hi] == t[..hi - lo]
  {
    forall k | 0 <= k < hi - lo {
      idx[lo + k] := t[k];
    }
  }
}
