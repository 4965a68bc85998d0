/**
 * Queues of process numbers, seen against a table that gives each process one place. A list is
 * right when it holds, once each, exactly the processes whose place it is.
 */
module Queues {
  predicate Within(list: seq<nat>, n: nat) {
    forall i :: 0 <= i < |list| ==> list[i] < n
  }

  predicate Distinct(list: seq<nat>) {
    forall i, j :: 0 <= i < j < |list| ==> list[i] != list[j]
  }

  predicate At<P(==)>(list: seq<nat>, w: seq<P>, at: P) {
    Distinct(list) && Within(list, |w|) && forall q :: 0 <= q < |w| ==> (q in list <==> w[q] == at)
  }

  lemma Elsewhere<P>(list: seq<nat>, w: seq<P>, q: nat, to: P, at: P)
    requires At(list, w, at) && q < |w| && w[q] != at && to != at
    ensures At(list, w[q := to], at)
  {}

  lemma Joined<P>(list: seq<nat>, w: seq<P>, q: nat, at: P)
    requires At(list, w, at) && q < |w| && w[q] != at
    ensures At(list + [q], w[q := at], at) && At([q] + list, w[q := at], at)
  {}

  lemma HeadTaken<P>(list: seq<nat>, w: seq<P>, to: P, at: P)
    requires At(list, w, at) && list != [] && to != at
    ensures list[0] < |w| && w[list[0]] == at && At(list[1..], w[list[0] := to], at)
  {
    var rest := list[1..];
    assert list == [list[0]] + rest;
  }

  lemma TailTaken<P>(list: seq<nat>, w: seq<P>, to: P, at: P)
    requires At(list, w, at) && list != [] && to != at
    ensures list[|list| - 1] < |w| && w[list[|list| - 1]] == at
    ensures At(list[..|list| - 1], w[list[|list| - 1] := to], at)
  {
    var rest := list[..|list| - 1];
    assert list == rest + [list[|list| - 1]];
  }

  lemma AtWithin<P>(list: seq<nat>, w: seq<P>, at: P)
    requires At(list, w, at)
    ensures forall i :: 0 <= i < |list| ==> list[i] < |w|
  {}

  lemma AtDistinct<P>(list: seq<nat>, w: seq<P>, at: P)
    requires At(list, w, at)
    ensures Distinct(list)
  {}

  lemma AtMeans<P>(list: seq<nat>, w: seq<P>, at: P, q: nat)
    requires At(list, w, at) && q < |w|
    ensures q in list <==> w[q] == at
  {}

  function Renamed<P(==)>(w: seq<P>, from: P, to: P): (v: seq<P>)
    ensures |v| == |w|
    ensures forall i :: 0 <= i < |w| ==> v[i] == if w[i] == from then to else w[i]
  {
    seq(|w|, i requires 0 <= i < |w| => if w[i] == from then to else w[i])
  }

  lemma RenamedAt<P>(list: seq<nat>, w: seq<P>, from: P, to: P, at: P)
    requires At(list, w, at) && from != to && At([], w, to)
    ensures at == from ==> At(list, Renamed(w, from, to), to)
    ensures at != from && at != to ==> At(list, Renamed(w, from, to), at)
    ensures At([], Renamed(w, from, to), from)
  {}
}
