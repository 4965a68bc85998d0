/**
 * Pancake flips and the order in which the benchmark goes through all permutations.
 */
module Fannkuch {
  import opened Arith

  type Deck = seq<nat>

  /** Each of 0 .. n - 1 once. */
  predicate Permutation(p: Deck) {
    (forall i :: 0 <= i < |p| ==> p[i] < |p|) && forall i, j :: 0 <= i < j < |p| ==> p[i] != p[j]
  }

  // Flips: the cards up to the first one's number are turned over until 0 comes first.

  function Flip(p: Deck): (q: Deck)
    requires Permutation(p) && p != []
    ensures |q| == |p| && Permutation(q) && q[p[0]] == p[0]
    ensures forall i :: 0 <= i < |p| ==> q[i] == if i <= p[0] then p[p[0] - i] else p[i]
  {
    seq(|p|, i requires 0 <= i < |p| => if i <= p[0] then p[p[0] - i] else p[i])
  }

  /** The sum of 2^i over the cards below m that lie at their own place. */
  function Weight(p: Deck, m: nat): (w: nat)
    requires m <= |p|
    ensures w < Pow2(m)
  {
    if m == 0 then 0 else Weight(p, m - 1) + if p[m - 1] == m - 1 then Pow2(m - 1) else 0
  }

  lemma {:induction false} WeightGrows(p: Deck, q: Deck, k: nat, m: nat)
    requires k < m <= |p| == |q| && p[k] != k && q[k] == k
    requires forall i :: k < i < |p| ==> q[i] == p[i]
    ensures Weight(q, m) > Weight(p, m)
    decreases m
  {
    if m > k + 1 {
      WeightGrows(p, q, k, m - 1);
    }
  }

  /** Each flip puts a card in its place for good measure: the weight strictly grows. */
  lemma FlipGrows(p: Deck)
    requires Permutation(p) && p != [] && p[0] != 0
    ensures Weight(Flip(p), |p|) > Weight(p, |p|)
  {
    WeightGrows(p, Flip(p), p[0], |p|);
  }

  /** How many flips until 0 comes first. */
  function Flips(p: Deck): nat
    requires Permutation(p) && p != []
    decreases Pow2(|p|) - Weight(p, |p|)
  {
    if p[0] == 0 then 0 else FlipGrows(p); 1 + Flips(Flip(p))
  }

  // The order of the permutations.

  /** The first m cards moved one to the left, the first of them to the m-th place. */
  function Rot(p: Deck, m: nat): (q: Deck)
    requires 0 < m <= |p|
    ensures |q| == |p| && q[m..] == p[m..]
    ensures forall i :: 0 <= i < m ==> q[i] == p[if i + 1 < m then i + 1 else 0]
  {
    p[1..m] + [p[0]] + p[m..]
  }

  function RotN(p: Deck, m: nat, j: nat): (q: Deck)
    requires 0 < m <= |p|
    ensures |q| == |p|
    decreases j
  {
    if j == 0 then p else RotN(Rot(p, m), m, j - 1)
  }

  lemma {:induction false} RotNAt(p: Deck, m: nat, j: nat)
    requires 0 < m <= |p| && j <= m
    ensures forall i :: 0 <= i < m ==> RotN(p, m, j)[i] == p[if i + j < m then i + j else i + j - m]
    ensures RotN(p, m, j)[m..] == p[m..]
    decreases j
  {
    if j > 0 {
      RotNAt(Rot(p, m), m, j - 1);
    }
  }

  lemma FullTurn(p: Deck, m: nat)
    requires 0 < m <= |p|
    ensures RotN(p, m, m) == p
  {
    RotNAt(p, m, m);
    var q := RotN(p, m, m);
    assert forall i :: m <= i < |p| ==> q[i] == q[m..][i - m] && p[i] == p[m..][i - m];
  }

  /** All arrangements of the first m cards, in the order they are visited. */
  function Visits(m: nat, p: Deck): seq<Deck>
    requires 0 < m <= |p|
    decreases m, 0, 0
  {
    if m == 1 then [p] else Cycle(m, p, m)
  }

  /** The arrangements of the first m - 1 cards, for k turns of the first m. */
  function Cycle(m: nat, p: Deck, k: nat): seq<Deck>
    requires 1 < m <= |p|
    decreases m - 1, 1, k
  {
    if k == 0 then [] else Visits(m - 1, p) + Cycle(m, Rot(p, m), k - 1)
  }

  function Factorial(n: nat): (f: nat)
    ensures f > 0
  {
    if n == 0 then 1 else n * Factorial(n - 1)
  }

  lemma {:induction false} VisitsCount(m: nat, p: Deck)
    requires 0 < m <= |p|
    ensures |Visits(m, p)| == Factorial(m)
    decreases m, 0, 0
  {
    if m > 1 {
      CycleCount(m, p, m);
    } else {
      assert Factorial(1) == 1;
    }
  }

  lemma {:induction false} CycleCount(m: nat, p: Deck, k: nat)
    requires 1 < m <= |p|
    ensures |Cycle(m, p, k)| == k * Factorial(m - 1)
    decreases m - 1, 1, k
  {
    if k > 0 {
      VisitsCount(m - 1, p);
      CycleCount(m, Rot(p, m), k - 1);
      Distribute(k, 1, Factorial(m - 1));
    }
  }

  predicate NoTwice<T(==)>(p: seq<T>) {
    forall i, j :: 0 <= i < j < |p| ==> p[i] != p[j]
  }

  ghost function Cards(p: Deck): set<nat> {
    set x | x in p
  }

  /** What is visited keeps the cards from m on, and has the same cards before. */
  lemma {:induction false} VisitsShape(m: nat, p: Deck, v: Deck)
    requires 0 < m <= |p| && NoTwice(p) && v in Visits(m, p)
    ensures |v| == |p| && v[m..] == p[m..] && NoTwice(v) && Cards(v) == Cards(p)
    decreases m, 0, 0
  {
    if m > 1 {
      CycleShape(m, p, m, v);
    }
  }

  lemma {:induction false} CycleShape(m: nat, p: Deck, k: nat, v: Deck)
    requires 1 < m <= |p| && NoTwice(p) && v in Cycle(m, p, k)
    ensures |v| == |p| && v[m..] == p[m..] && NoTwice(v) && Cards(v) == Cards(p)
    decreases m - 1, 1, k
  {
    if v in Visits(m - 1, p) {
      VisitsShape(m - 1, p, v);
      assert v[m..] == v[m - 1..][1..] && p[m..] == p[m - 1..][1..];
    } else {
      RotCards(p, m);
      CycleShape(m, Rot(p, m), k - 1, v);
    }
  }

  lemma RotCards(p: Deck, m: nat)
    requires 0 < m <= |p| && NoTwice(p)
    ensures NoTwice(Rot(p, m)) && Cards(Rot(p, m)) == Cards(p)
  {
    var q := Rot(p, m);
    assert p == [p[0]] + p[1..m] + p[m..];
    assert forall i :: m <= i < |p| ==> q[i] == q[m..][i - m] && p[i] == p[m..][i - m];
  }

  lemma {:induction false} CycleHas(m: nat, p: Deck, k: nat, j: nat, v: Deck)
    requires 1 < m <= |p| && j < k && v in Visits(m - 1, RotN(p, m, j))
    ensures v in Cycle(m, p, k)
    decreases j
  {
    if j > 0 {
      CycleHas(m, Rot(p, m), k - 1, j - 1, v);
    }
  }

  lemma CycleFrom(m: nat, p: Deck, k: nat, v: Deck) returns (j: nat)
    requires 1 < m <= |p| && v in Cycle(m, p, k)
    ensures j < k && v in Visits(m - 1, RotN(p, m, j))
    decreases k
  {
    if v in Visits(m - 1, p) {
      j := 0;
    } else {
      var i := CycleFrom(m, Rot(p, m), k - 1, v);
      j := i + 1;
    }
  }

  lemma {:induction false} RotNCards(p: Deck, m: nat, j: nat)
    requires 0 < m <= |p| && NoTwice(p)
    ensures NoTwice(RotN(p, m, j)) && Cards(RotN(p, m, j)) == Cards(p)
    decreases j
  {
    if j > 0 {
      RotCards(p, m);
      RotNCards(Rot(p, m), m, j - 1);
    }
  }

  /** Every arrangement of the first m cards is visited. */
  lemma {:induction false} AllVisited(m: nat, p: Deck, q: Deck)
    requires 0 < m <= |p| == |q| && NoTwice(p) && NoTwice(q) && Cards(p) == Cards(q) && p[m..] == q[m..]
    ensures q in Visits(m, p)
    decreases m
  {
    if m == 1 {
      OneLeft(p, q);
    } else {
      var i := Found(p, q, m);
      var j := if i + 1 < m then i + 1 else 0;
      RotNAt(p, m, j);
      RotNCards(p, m, j);
      var r := RotN(p, m, j);
      assert r[m - 1] == p[i] == q[m - 1];
      assert r[m - 1..] == [r[m - 1]] + r[m..] && q[m - 1..] == [q[m - 1]] + q[m..];
      AllVisited(m - 1, r, q);
      CycleHas(m, p, m, j, q);
    }
  }

  /** The m-th card of one is among the first m of the other, when they agree from there on. */
  lemma Found(p: Deck, q: Deck, m: nat) returns (i: nat)
    requires 0 < m <= |p| == |q| && NoTwice(q) && Cards(p) == Cards(q) && p[m..] == q[m..]
    ensures i < m && p[i] == q[m - 1]
  {
    assert q[m - 1] in Cards(p);
    assert forall k :: m <= k < |p| ==> p[k] == p[m..][k - m] && q[k] == q[m..][k - m];
    i :| 0 <= i < |p| && p[i] == q[m - 1];
  }

  lemma OneLeft(p: Deck, q: Deck)
    requires 0 < |p| == |q| && NoTwice(p) && NoTwice(q) && Cards(p) == Cards(q) && p[1..] == q[1..]
    ensures p == q
  {
    var i := Found(p, q, 1);
    assert p == [p[0]] + p[1..] && q == [q[0]] + q[1..];
  }

  /** Nothing is visited twice. */
  lemma {:induction false} VisitedOnce(m: nat, p: Deck)
    requires 0 < m <= |p| && NoTwice(p)
    ensures NoTwice(Visits(m, p))
    decreases m, 0, 0
  {
    if m > 1 {
      CycleOnce(m, p, m);
    }
  }

  lemma {:induction false} CycleOnce(m: nat, p: Deck, k: nat)
    requires 1 < m <= |p| && NoTwice(p) && k <= m
    ensures NoTwice(Cycle(m, p, k))
    decreases m - 1, 1, k
  {
    if k > 0 {
      var a, b := Visits(m - 1, p), Cycle(m, Rot(p, m), k - 1);
      VisitedOnce(m - 1, p);
      RotCards(p, m);
      CycleOnce(m, Rot(p, m), k - 1);
      forall x, y | x in a && y in b ensures x != y {
        VisitsShape(m - 1, p, x);
        var j := CycleFrom(m, Rot(p, m), k - 1, y);
        var r := RotN(Rot(p, m), m, j);
        RotNCards(Rot(p, m), m, j);
        VisitsShape(m - 1, r, y);
        RotNAt(p, m, j + 1);
        assert x[m - 1] == x[m - 1..][0] == p[m - 1];
        assert y[m - 1] == y[m - 1..][0] == r[m - 1] == p[j];
      }
      assert forall i :: 0 <= i < |a| ==> a[i] in a;
      assert forall i :: 0 <= i < |b| ==> b[i] in b;
    }
  }

  function Identity(n: nat): (p: Deck)
    ensures |p| == n && Permutation(p) && forall i :: 0 <= i < n ==> p[i] == i
  {
    seq(n, i => i)
  }

  lemma {:induction false} CardsCount(p: Deck)
    requires NoTwice(p)
    ensures |Cards(p)| == |p|
  {
    if p != [] {
      var q := p[..|p| - 1];
      CardsCount(q);
      assert p == q + [p[|p| - 1]];
      assert Cards(p) == Cards(q) + {p[|p| - 1]};
    }
  }

  lemma SameSize(a: set<nat>, b: set<nat>)
    requires a <= b && |a| == |b|
    ensures a == b
  {
    assert |b - a| == |b| - |a|;
  }

  lemma PermutationCards(p: Deck)
    requires Permutation(p)
    ensures Cards(p) == Cards(Identity(|p|))
  {
    CardsCount(p);
    CardsCount(Identity(|p|));
    forall x | x in Cards(p) ensures x in Cards(Identity(|p|)) {
      assert Identity(|p|)[x] == x;
    }
    SameSize(Cards(p), Cards(Identity(|p|)));
  }

  /** The whole visit: each permutation of 0 .. n - 1 exactly once, n! in all. */
  lemma EachPermutationOnce(n: nat, q: Deck)
    requires n > 0
    ensures |Visits(n, Identity(n))| == Factorial(n) && NoTwice(Visits(n, Identity(n)))
    ensures q in Visits(n, Identity(n)) <==> |q| == n && Permutation(q)
  {
    var p := Identity(n);
    VisitsCount(n, p);
    VisitedOnce(n, p);
    if |q| == n && Permutation(q) {
      PermutationCards(q);
      assert p[n..] == q[n..];
      AllVisited(n, p, q);
    }
    if q in Visits(n, p) {
      VisitsShape(n, p, q);
      CardsInRange(q, n);
    }
  }

  lemma CardsInRange(q: Deck, n: nat)
    requires NoTwice(q) && |q| == n && Cards(q) == Cards(Identity(n))
    ensures Permutation(q)
  {
    forall i | 0 <= i < |q| ensures q[i] < |q| {
      assert q[i] in Cards(Identity(n));
    }
  }

  // What is still to be visited, from the counters.

  /** A counter i above r says how many more turns of the first i + 1 cards are to be made. */
  predicate Counters(r: nat, count: seq<int>) {
    forall i :: r <= i < |count| ==> 1 <= count[i] <= i + 1
  }

  function Rest(r: nat, p: Deck, count: seq<int>): seq<Deck>
    requires 0 < r <= |p| == |count| && Counters(r, count)
    decreases |p| - r, if r < |p| then count[r] else 0
  {
    if r == |p| then []
    else
      var q := Rot(p, r + 1);
      if count[r] > 1 then Visits(r, q) + Rest(r, q, count[r := count[r] - 1]) else Rest(r + 1, q, count)
  }

  lemma {:induction false} RestIgnores(r: nat, p: Deck, a: seq<int>, b: seq<int>)
    requires 0 < r <= |p| == |a| == |b| && Counters(r, a) && Counters(r, b)
    requires forall i :: r <= i < |a| ==> a[i] == b[i]
    ensures Rest(r, p, a) == Rest(r, p, b)
    decreases |p| - r, if r < |p| then a[r] else 0
  {
    if r < |p| {
      var q := Rot(p, r + 1);
      if a[r] > 1 {
        RestIgnores(r, q, a[r := a[r] - 1], b[r := b[r] - 1]);
      } else {
        RestIgnores(r + 1, q, a, b);
      }
    }
  }

  lemma {:induction false} RestIsCycle(r: nat, p: Deck, count: seq<int>)
    requires 0 < r < |p| == |count| && Counters(r, count)
    ensures Rest(r, p, count) == Cycle(r + 1, Rot(p, r + 1), count[r] - 1)
            + Rest(r + 1, RotN(p, r + 1, count[r]), count)
    decreases count[r]
  {
    var q := Rot(p, r + 1);
    if count[r] > 1 {
      var fewer := count[r := count[r] - 1];
      RestIsCycle(r, q, fewer);
      RestIgnores(r + 1, RotN(q, r + 1, count[r] - 1), fewer, count);
      assert Visits(r, q) + (Cycle(r + 1, Rot(q, r + 1), count[r] - 2)
             + Rest(r + 1, RotN(q, r + 1, count[r] - 1), count))
          == Visits(r, q) + Cycle(r + 1, Rot(q, r + 1), count[r] - 2)
              + Rest(r + 1, RotN(q, r + 1, count[r] - 1), count);
    } else {
      assert RotN(p, r + 1, 1) == RotN(q, r + 1, 0) == q;
      assert [] + Rest(r + 1, q, count) == Rest(r + 1, q, count);
    }
  }

  /** A full counter: visiting its level from here is visiting the lower level and what it still counts. */
  lemma FullCounter(r: nat, p: Deck, count: seq<int>)
    requires 0 < r < |p| == |count| && Counters(r, count) && count[r] == r + 1
    ensures Visits(r, p) + Rest(r, p, count) == Visits(r + 1, p) + Rest(r + 1, p, count)
  {
    RestIsCycle(r, p, count);
    FullTurn(p, r + 1);
    assert Visits(r, p) + (Cycle(r + 1, Rot(p, r + 1), r) + Rest(r + 1, p, count))
        == Visits(r, p) + Cycle(r + 1, Rot(p, r + 1), r) + Rest(r + 1, p, count);
  }

  // The benchmark.

  function FlipsOf(p: Deck): nat {
    if Permutation(p) && p != [] then Flips(p) else 0
  }

  function MaxFlips(t: seq<Deck>): nat {
    if t == [] then 0
    else
      var m, f := MaxFlips(t[..|t| - 1]), FlipsOf(t[|t| - 1]);
      if f > m then f else m
  }

  function Checksum(t: seq<Deck>): int {
    if t == [] then 0
    else
      var f: int := FlipsOf(t[|t| - 1]);
      Checksum(t[..|t| - 1]) + if (|t| - 1) % 2 == 0 then f else -f
  }

  lemma {:induction false} MaxIsGreatest(t: seq<Deck>)
    ensures forall p :: p in t ==> FlipsOf(p) <= MaxFlips(t)
    ensures t != [] ==> exists p :: p in t && FlipsOf(p) == MaxFlips(t)
  {
    if t != [] {
      var u := t[..|t| - 1];
      MaxIsGreatest(u);
      assert t == u + [t[|t| - 1]];
      assert t[|t| - 1] in t;
    }
  }

  /** The first cards, up to the one the first names, turned over in place. */
  method FlipInPlace(perm: array<nat>)
    requires perm.Length > 0 && Permutation(perm[..])
    modifies perm
    ensures perm[..] == Flip(old(perm[..]))
  {
    ghost var p := perm[..];
    var i, j := 0, perm[0];
    while i < j
      invariant 0 <= i <= j + 1 <= p[0] + 1 && i + j == p[0] && p[0] < perm.Length
      invariant forall k :: 0 <= k < i ==> perm[k] == p[p[0] - k]
      invariant forall k :: j < k <= p[0] ==> perm[k] == p[p[0] - k]
      invariant forall k :: i <= k <= j || p[0] < k < perm.Length ==> perm[k] == p[k]
    {
      perm[i], perm[j] := perm[j], perm[i];
      i, j := i + 1, j - 1;
    }
    assert perm[..] == Flip(p);
  }

  /** The flip loop: it ends on every permutation. */
  method CountFlips(perm: array<nat>) returns (flips: nat)
    requires perm.Length > 0 && Permutation(perm[..])
    modifies perm
    ensures flips == Flips(old(perm[..]))
  {
    flips := 0;
    while perm[0] != 0
      invariant Permutation(perm[..]) && flips + Flips(perm[..]) == Flips(old(perm[..]))
      decreases Pow2(perm.Length) - Weight(perm[..], perm.Length)
    {
      FlipGrows(perm[..]);
      FlipInPlace(perm);
      flips := flips + 1;
    }
  }

  method Rotate(perm1: array<nat>, r: nat)
    requires r < perm1.Length
    modifies perm1
    ensures perm1[..] == Rot(old(perm1[..]), r + 1)
  {
    ghost var p := perm1[..];
    var p0 := perm1[0];
    for i := 0 to r
      invariant forall k :: 0 <= k < i ==> perm1[k] == p[k + 1]
      invariant forall k :: i <= k < perm1.Length ==> perm1[k] == p[k]
    {
      perm1[i] := perm1[i + 1];
    }
    perm1[r] := p0;
    assert perm1[..] == Rot(p, r + 1);
  }

  /** The counters below r are filled again. */
  method Refill(count: array<int>, r0: nat, ghost p: Deck)
    requires 0 < r0 <= |p| == count.Length && Counters(r0, count[..])
    modifies count
    ensures Counters(1, count[..])
    ensures [p] + Rest(1, p, count[..]) == Visits(r0, p) + Rest(r0, p, old(count[..]))
  {
    var r := r0;
    while r != 1
      invariant 1 <= r <= r0 && Counters(r, count[..])
      invariant Visits(r, p) + Rest(r, p, count[..]) == Visits(r0, p) + Rest(r0, p, old(count[..]))
      decreases r
    {
      ghost var was := count[..];
      count[r - 1] := r;
      r := r - 1;
      RestIgnores(r + 1, p, was, count[..]);
      FullCounter(r, p, count[..]);
    }
  }

  /** The next permutation, or the end: r is where the counters stopped. */
  method Advance(perm1: array<nat>, count: array<int>) returns (r: nat)
    requires 0 < perm1.Length == count.Length && Counters(1, count[..]) && NoTwice(perm1[..])
    modifies perm1, count
    ensures 0 < r <= perm1.Length && Counters(r, count[..])
    ensures NoTwice(perm1[..]) && Cards(perm1[..]) == Cards(old(perm1[..]))
    ensures Rest(1, old(perm1[..]), old(count[..])) ==
            if r == perm1.Length then [] else Visits(r, perm1[..]) + Rest(r, perm1[..], count[..])
  {
    r := 1;
    while true
      invariant 0 < r <= perm1.Length && Counters(r, count[..])
      invariant NoTwice(perm1[..]) && Cards(perm1[..]) == Cards(old(perm1[..]))
      invariant Rest(r, perm1[..], count[..]) == Rest(1, old(perm1[..]), old(count[..]))
      decreases perm1.Length - r
    {
      if r == perm1.Length {
        return;
      }
      ghost var p, c := perm1[..], count[..];
      RotCards(p, r + 1);
      Rotate(perm1, r);
      count[r] := count[r] - 1;
      if count[r] > 0 {
        assert count[..] == c[r := c[r] - 1];
        return;
      }
      RestIgnores(r + 1, perm1[..], c, count[..]);
      r := r + 1;
    }
  }

  lemma OneMoreVisit(t: seq<Deck>, p: Deck)
    ensures MaxFlips(t + [p]) == if FlipsOf(p) > MaxFlips(t) then FlipsOf(p) else MaxFlips(t)
    ensures Checksum(t + [p]) == Checksum(t) + if |t| % 2 == 0 then FlipsOf(p) as int else -(FlipsOf(p) as int)
  {
    assert (t + [p])[..|t|] == t;
  }

  /** The flips of a copy of the permutation. */
  method FlipsOfCopy(perm1: array<nat>, perm: array<nat>) returns (flips: nat)
    requires 0 < perm.Length == perm1.Length && perm != perm1 && Permutation(perm1[..])
    modifies perm
    ensures flips == FlipsOf(perm1[..])
  {
    forall i | 0 <= i < perm.Length {
      perm[i] := perm1[i];
    }
    assert perm[..] == perm1[..];
    flips := CountFlips(perm);
  }

  /** What has been visited and what is left, from the counters at r, are the whole visit. */
  ghost predicate Covers(t: seq<Deck>, r: nat, p: Deck, count: seq<int>, total: seq<Deck>) {
    0 < r <= |p| == |count| && Counters(r, count) && t + (Visits(r, p) + Rest(r, p, count)) == total
  }

  lemma AllAhead(n: nat, count: seq<int>)
    requires n > 0 && |count| == n
    ensures Covers([], n, Identity(n), count, Visits(n, Identity(n)))
  {
    assert [] + (Visits(n, Identity(n)) + []) == Visits(n, Identity(n));
  }

  lemma VisitOne(t: seq<Deck>, p: Deck, rest: seq<Deck>, total: seq<Deck>)
    requires t + ([p] + rest) == total
    ensures t + [p] + rest == total && |t| < |total|
    ensures rest == [] ==> t + [p] == total
  {
    assert t + ([p] + rest) == t + [p] + rest;
    assert t + [p] + [] == t + [p];
  }

  /** One round: the counters are filled, the permutation counted, and the next one found. */
  method Round(perm: array<nat>, perm1: array<nat>, count: array<int>, r0: nat, ghost t: seq<Deck>,
      ghost total: seq<Deck>)
    returns (flips: nat, r: nat, ghost p: Deck)
    requires 0 < perm.Length == perm1.Length == count.Length && perm != perm1
    requires Covers(t, r0, perm1[..], count[..], total)
    requires NoTwice(perm1[..]) && Cards(perm1[..]) == Cards(Identity(perm1.Length))
    modifies perm, perm1, count
    ensures p == old(perm1[..]) && flips == FlipsOf(p) && |t| < |total|
    ensures NoTwice(perm1[..]) && Cards(perm1[..]) == Cards(Identity(perm1.Length))
    ensures if r == perm1.Length then t + [p] == total else Covers(t + [p], r, perm1[..], count[..], total)
  {
    hide Visits, Rest, Flips, Cards, NoTwice, FlipsOf, Permutation;
    p := perm1[..];
    Refill(count, r0, p);
    CardsInRange(p, perm1.Length);
    flips := FlipsOfCopy(perm1, perm);
    VisitOne(t, p, Rest(1, p, count[..]), total);
    r := Advance(perm1, count);
  }

  /** The benchmark's loop: it visits every permutation once, and answers for all of them. */
  method Run(n: nat) returns (maxFlips: nat, checksum: int, ghost trace: seq<Deck>)
    requires n > 0
    ensures trace == Visits(n, Identity(n))
    ensures maxFlips == MaxFlips(Visits(n, Identity(n))) && checksum == Checksum(Visits(n, Identity(n)))
  {
    var perm, perm1, count := new nat[n], new nat[n](i => i), new int[n];
    assert perm1[..] == Identity(n);
    var permCount, r := 0, n;
    maxFlips, checksum, trace := 0, 0, [];
    AllAhead(n, count[..]);
    hide Covers, FlipsOf, Visits, Rest, Cards;
    while true
      invariant NoTwice(perm1[..]) && Cards(perm1[..]) == Cards(Identity(n))
      invariant Covers(trace, r, perm1[..], count[..], Visits(n, Identity(n)))
      invariant permCount == |trace| && maxFlips == MaxFlips(trace) && checksum == Checksum(trace)
      decreases |Visits(n, Identity(n))| - |trace|
    {
      var flips;
      ghost var p;
      flips, r, p := Round(perm, perm1, count, r, trace, Visits(n, Identity(n)));
      OneMoreVisit(trace, p);
      if flips > maxFlips {
        maxFlips := flips;
      }
      checksum := if permCount % 2 == 0 then checksum + flips else checksum - flips;
      permCount := permCount + 1;
      trace := trace + [p];
      if r == n {
        return;
      }
    }
  }

  /** So the answer is the greatest flip count of all permutations of 0 .. n - 1. */
  lemma AnswerIsGreatest(n: nat, p: Deck)
    requires n > 0
    ensures |p| == n && Permutation(p) ==> Flips(p) <= MaxFlips(Visits(n, Identity(n)))
    ensures exists q :: q in Visits(n, Identity(n)) && FlipsOf(q) == MaxFlips(Visits(n, Identity(n)))
  {
    MaxIsGreatest(Visits(n, Identity(n)));
    EachPermutationOnce(n, p);
    VisitsCount(n, Identity(n));
    if |p| == n && Permutation(p) {
      assert FlipsOf(p) == Flips(p);
    }
  }
}
