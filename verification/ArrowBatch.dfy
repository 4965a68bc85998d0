/**
 * The record batch: its message, a vector of structs for the columns and one for the buffers of the
 * body, and what the reader takes from both.
 */
module ArrowBatch {
  import opened ArrowBytes
  import opened ArrowTables
  import opened ArrowBuild
  import opened ArrowMessage

  /** A struct of two numbers of eight octets: a column's length and null count, or a buffer's offset and length. */
  datatype Two = Two(first: int, second: int)

  predicate TwoFits(s: Two) {
    Fits(s.first, 8) && Fits(s.second, 8)
  }

  predicate AllFit(s: seq<Two>) {
    forall i :: 0 <= i < |s| ==> TwoFits(s[i])
  }

  // ---- writing ----

  function StructEach(u: seq<Byte>, s: seq<Two>): (w: seq<Byte>)
    ensures Ext(u, w)
  {
    hide Put, Little;
    if s == [] then u
    else
      var rest := StructEach(u, s[1..]);
      var second := Put(rest, s[0].second, 8);
      ExtTransitive(u, rest, second);
      ExtTransitive(u, second, Put(second, s[0].first, 8));
      Put(second, s[0].first, 8)
  }

  /** The elements of a vector of structs, the last first. */
  function Structs(u: seq<Byte>, s: seq<Two>): (w: seq<Byte>)
    ensures Ext(u, w)
  {
    StructEach(u, s)
  }

  function StructVector(u: seq<Byte>, s: seq<Two>): (w: seq<Byte>) {
    Put(Structs(Padded(Padded(u, 4, 16 * |s|), 8, 16 * |s|), s), |s|, 4)
  }

  function Nodes(rows: int, n: nat): (s: seq<Two>)
    ensures |s| == n && forall i :: 0 <= i < n ==> s[i] == Two(rows, 0)
  {
    seq(n, _ => Two(rows, 0))
  }

  /** The octets in use after each step of the batch table. */
  datatype BatchParts = BatchParts(nodes: seq<Byte>, bufs: seq<Byte>, toBufs: seq<Byte>, toNodes: seq<Byte>,
      rows: seq<Byte>)

  function BatchPartsOf(rows: int, n: nat, bufs: seq<Two>): BatchParts {
    hide StructVector, Ref, Put;
    var a := StructVector([], Nodes(rows, n));
    var b := StructVector(a, bufs);
    var c := Ref(b, |b|);
    var d := Ref(c, |a|);
    BatchParts(a, b, c, d, Put(d, rows, 8))
  }

  function BatchSlots(p: BatchParts): seq<nat> {
    [|p.rows|, |p.toNodes|, |p.toBufs|]
  }

  function BatchTable(rows: int, n: nat, bufs: seq<Two>): Built {
    var p := BatchPartsOf(rows, n, bufs);
    Close(p.rows, BatchSlots(p), |p.bufs|)
  }

  function BatchMsg(rows: int, n: nat, bufs: seq<Two>, bodyLen: int): Built {
    Root(BatchTable(rows, n, bufs), 3, Just(bodyLen))
  }

  // ---- a vector of structs is read ----

  predicate StructAt(m: seq<Byte>, at: int, s: Two) {
    GetLE(m, at, 8, true) == Ok(s.first) && GetLE(m, at + 8, 8, true) == Ok(s.second)
  }

  predicate StructsAt(m: seq<Byte>, at: int, s: seq<Two>) {
    forall i :: 0 <= i < |s| ==> StructAt(m, at + 16 * i, s[i])
  }

  lemma StructThere(m: seq<Byte>, w: seq<Byte>, d: nat, at: int, s: Two)
    requires Sits(m, w, d) && StructAt(m, at, s)
    ensures StructAt(w, at + d, s)
  {
    hide GetLE, Sits;
    GetThere(m, w, d, at, 8, true);
    GetThere(m, w, d, at + 8, 8, true);
  }

  lemma StructsThere(m: seq<Byte>, w: seq<Byte>, d: nat, at: int, s: seq<Two>)
    requires Sits(m, w, d) && StructsAt(m, at, s)
    ensures StructsAt(w, at + d, s)
  {
    hide StructAt, Sits;
    forall i | 0 <= i < |s| ensures StructAt(w, at + d + 16 * i, s[i]) {
      StructThere(m, w, d, at + 16 * i, s[i]);
    }
  }

  lemma {:induction false} FewerEights(n: nat, k: nat)
    requires Whole(n + 16 * k, 8)
    ensures Whole(n, 8)
  {
    if k > 0 {
      assert Over(n + 16 * k, 8) == Over(n + 16 * k - 8, 8);
      assert Over(n + 16 * k - 8, 8) == Over(n + 16 * (k - 1), 8);
      FewerEights(n, k - 1);
    }
  }

  lemma {:induction false} EightsAreFours(n: nat)
    requires Whole(n, 8)
    ensures Whole(n, 4)
  {
    if n >= 8 {
      EightsAreFours(n - 8);
      assert Over(n, 4) == Over(n - 4, 4) == Over(n - 8, 4);
    }
  }

  lemma TwoPut(u: seq<Byte>, s: Two)
    requires Whole(|u|, 8)
    ensures Put(Put(u, s.second, 8), s.first, 8) == Little(s.first, 8) + (Little(s.second, 8) + u)
    ensures Whole(|u| + 16, 8)
  {
    PutWhole(u, s.second, 8);
    OneSizeMore(|u|, 8);
    OneSizeMore(|u| + 8, 8);
    hide Put, Little;
    PutWhole(Put(u, s.second, 8), s.first, 8);
  }

  /** One struct in front. */
  predicate Fronted(w: seq<Byte>, s: Two, rest: seq<Byte>) {
    w == Little(s.first, 8) + (Little(s.second, 8) + rest)
  }

  lemma FrontIsRead(w: seq<Byte>, s: Two, rest: seq<Byte>)
    requires Fronted(w, s, rest) && TwoFits(s)
    ensures StructAt(w, 0, s) && Sits(rest, w, 16) && |w| == |rest| + 16
  {
    hide Little, GetLE, Fits;
    assert w[0..8] == Little(s.first, 8) && w[8..16] == Little(s.second, 8) && w[16..16 + |rest|] == rest;
    GetWritten(w, 0, 8, true, s.first);
    GetWritten(w, 8, 8, true, s.second);
  }

  lemma StructEachStep(u: seq<Byte>, s: seq<Two>)
    requires s != [] && Whole(|StructEach(u, s[1..])|, 8)
    ensures Fronted(StructEach(u, s), s[0], StructEach(u, s[1..])) && Whole(|StructEach(u, s[1..])| + 16, 8)
  {
    hide Put, Little, Whole;
    TwoPut(StructEach(u, s[1..]), s[0]);
  }

  lemma {:induction false} StructEachIsRead(u: seq<Byte>, s: seq<Two>)
    requires Whole(|u|, 8) && AllFit(s)
    ensures StructsAt(StructEach(u, s), 0, s) && |StructEach(u, s)| == |u| + 16 * |s| && Whole(|StructEach(u, s)|, 8)
  {
    hide Whole, Over, StructAt, TwoFits, Fronted, Put, Sits, Little, GetLE, Ext;
    if s != [] {
      var rest, w := StructEach(u, s[1..]), StructEach(u, s);
      StructEachIsRead(u, s[1..]);
      StructEachStep(u, s);
      FrontIsRead(w, s[0], rest);
      StructsThere(rest, w, 16, 0, s[1..]);
      forall i | 0 <= i < |s| ensures StructAt(w, 16 * i, s[i]) {
        if i > 0 {
          assert StructAt(w, 16 + 16 * (i - 1), s[1..][i - 1]);
        }
      }
    }
  }

  predicate StructVectorStands(w: seq<Byte>, u: seq<Byte>, s: seq<Two>) {
    && Ext(u, w) && |u| + 16 * |s| + 4 <= |w| < |u| + 16 * |s| + 16 && w[..4] == Little(|s|, 4) && StructsAt(w, 4, s)
  }

  lemma StructVectorIsRead(u: seq<Byte>, s: seq<Two>)
    requires AllFit(s)
    ensures StructVectorStands(StructVector(u, s), u, s)
  {
    hide Little, StructEach, StructAt, TwoFits, Ext, Put, Padded, Over, Sits;
    var p := Padded(u, 4, 16 * |s|);
    var q := Padded(p, 8, 16 * |s|);
    var e := Structs(q, s);
    var w := StructVector(u, s);
    ExtTransitive(u, p, q);
    ExtTransitive(u, q, e);
    FewerEights(|q|, |s|);
    StructEachIsRead(q, s);
    EightsAreFours(|e|);
    PutWhole(e, |s|, 4);
    ExtTransitive(u, e, w);
    ExtSits(e, w);
    StructsThere(e, w, 4, 0, s);
    PaddedTwice(u, 16 * |s|);
  }

  lemma PaddedTwice(u: seq<Byte>, add: nat)
    ensures |Padded(Padded(u, 4, add), 8, add)| < |u| + 11 && |u| <= |Padded(Padded(u, 4, add), 8, add)|
  {
    hide Over;
  }

  // ---- the batch table is read ----

  predicate BatchSteps(p: BatchParts, rows: int, n: nat, bufs: seq<Two>) {
    && StructVectorStands(p.nodes, [], Nodes(rows, n)) && StructVectorStands(p.bufs, p.nodes, bufs)
    && Ext(p.nodes, p.bufs) && Ext(p.bufs, p.toBufs) && Ext(p.toBufs, p.toNodes) && Ext(p.toNodes, p.rows)
    && 4 <= |p.nodes| && 4 <= |p.bufs| && |p.nodes| < |p.bufs| && |p.bufs| + 4 <= |p.toBufs| < |p.bufs| + 8
    && |p.toBufs| + 4 <= |p.toNodes| < |p.toBufs| + 8 && |p.toNodes| + 8 <= |p.rows| < |p.toNodes| + 16
    && p.toBufs[..4] == Little(|p.toBufs| - |p.bufs|, 4) && p.toNodes[..4] == Little(|p.toNodes| - |p.nodes|, 4)
    && p.rows[..8] == Little(rows, 8)
    && |p.nodes| < 16 * n + 16 && |p.bufs| < |p.nodes| + 16 * |bufs| + 16
  }

  lemma BatchStepsHold(rows: int, n: nat, bufs: seq<Two>)
    requires Fits(rows, 8) && AllFit(bufs)
    ensures BatchSteps(BatchPartsOf(rows, n, bufs), rows, n, bufs)
  {
    hide StructVector, Ref, Put, Little, StructsAt, Over;
    NodesFit(rows, n);
    StructVectorIsRead([], Nodes(rows, n));
    StructVectorIsRead(StructVector([], Nodes(rows, n)), bufs);
  }

  lemma NodesFit(rows: int, n: nat)
    requires Fits(rows, 8)
    ensures AllFit(Nodes(rows, n))
  {
    Small(0, 8);
  }

  lemma BatchNear(p: BatchParts, rows: int, n: nat, bufs: seq<Two>)
    requires BatchSteps(p, rows, n, bufs)
    ensures Near(p.rows, BatchSlots(p))
  {
    hide StructVectorStands, Ext, Little;
  }

  /** What the reader takes from a batch table, before it looks at the columns. */
  datatype Head = Head(rows: int, nodes: (int, int), bufs: (int, int))

  function HeadAt(m: seq<Byte>, rb: int): Read<Head> {
    var rows :- FbInt(m, rb, 0, 8, true, 0);
    var nodes :- FbVec(m, rb, 1);
    var bufs :- FbVec(m, rb, 2);
    var comp :- FbField(m, rb, 3);
    if comp >= 0 then
      var at :- FbRef(m, comp);
      var codec :- FbInt(m, at, 0, 1, true, 0);
      if codec == 1 then Err(Compressed) else Err(BadArg)
    else Ok(Head(rows, nodes, bufs))
  }

  /** The head, and both vectors where it says they are. */
  predicate BatchStands(m: seq<Byte>, rb: int, rows: int, n: nat, bufs: seq<Two>) {
    && HeadAt(m, rb).Ok?
    && var h := HeadAt(m, rb).value;
       h.rows == rows && h.nodes.1 == n && h.bufs.1 == |bufs| && h.nodes.0 >= 0 && h.bufs.0 >= 0
       && StructsAt(m, h.nodes.0, Nodes(rows, n)) && StructsAt(m, h.bufs.0, bufs)
  }

  predicate BatchBuilt(b: Built, rows: int, n: nat, bufs: seq<Two>) {
    BatchStands(b.w, |b.w| - b.at, rows, n, bufs) && 0 < b.at <= |b.w| < 16 * n + 16 * |bufs| + 90
  }

  lemma BatchStay(p: BatchParts, rows: int, n: nat, bufs: seq<Two>)
    requires BatchSteps(p, rows, n, bufs)
    ensures Ext(p.toBufs, p.rows) && Ext(p.bufs, p.rows) && Ext(p.nodes, p.rows) && Ext(p.nodes, p.toNodes)
  {
    hide StructVectorStands, Ext, Little;
    ExtTransitive(p.toBufs, p.toNodes, p.rows);
    ExtTransitive(p.bufs, p.toBufs, p.rows);
    ExtTransitive(p.nodes, p.bufs, p.toBufs);
    ExtTransitive(p.nodes, p.toBufs, p.toNodes);
    ExtTransitive(p.nodes, p.toNodes, p.rows);
  }

  lemma StructsStay(v: seq<Byte>, w: seq<Byte>, s: seq<Two>)
    requires Ext(v, w) && StructsAt(v, 4, s)
    ensures StructsAt(w, |w| - |v| + 4, s)
  {
    hide StructAt;
    ExtSits(v, w);
    StructsThere(v, w, |w| - |v|, 4, s);
  }

  /** The table's numbers. */
  predicate BatchNumbers(b: Built, rows: int) {
    FbInt(b.w, |b.w| - b.at, 0, 8, true, 0) == Ok(rows) && FbField(b.w, |b.w| - b.at, 3) == Ok(-1)
  }

  /** A link to a vector of n elements whose first octets stood when v was all there was. */
  predicate BatchLink(b: Built, v: seq<Byte>, n: nat, id: nat) {
    FbVec(b.w, |b.w| - b.at, id) == Ok((|b.w| - |v| + 4, n)) && Ext(v, b.w)
  }

  predicate BatchLinks(b: Built, p: BatchParts, n: nat, bufs: seq<Two>) {
    BatchLink(b, p.nodes, n, 1) && BatchLink(b, p.bufs, |bufs|, 2)
  }

  lemma BatchNumbersHold(rows: int, n: nat, bufs: seq<Two>)
    requires Fits(rows, 8) && AllFit(bufs)
    ensures BatchNumbers(BatchTable(rows, n, bufs), rows)
  {
    hide BatchPartsOf, StructVectorStands, Close, Little, Ext, FbVec, FbInt, FbField, Near, Fits, AllFit, StructsAt,
         GetLE;
    var p := BatchPartsOf(rows, n, bufs);
    BatchStepsHold(rows, n, bufs);
    BatchNear(p, rows, n, bufs);
    ExtSelf(p.rows);
    ScalarField(p.rows, p.rows, BatchSlots(p), |p.bufs|, 0, 8, true, rows, 0);
    AbsentField(p.rows, BatchSlots(p), |p.bufs|, 3);
  }

  lemma BatchLinksHold(rows: int, n: nat, bufs: seq<Two>)
    requires Fits(rows, 8) && AllFit(bufs) && 16 * n + 16 * |bufs| < 0x4000_0000
    ensures BatchLinks(BatchTable(rows, n, bufs), BatchPartsOf(rows, n, bufs), n, bufs)
  {
    hide BatchPartsOf, StructVectorStands, Close, Little, Ext, FbVec, FbInt, FbField, Near, Fits, AllFit, StructsAt,
         GetLE;
    var p := BatchPartsOf(rows, n, bufs);
    BatchStepsHold(rows, n, bufs);
    BatchNear(p, rows, n, bufs);
    BatchStay(p, rows, n, bufs);
    FirstWord(p.nodes, [], Nodes(rows, n));
    FirstWord(p.bufs, p.nodes, bufs);
    VectorField(p.nodes, n, p.toNodes, p.rows, BatchSlots(p), |p.bufs|, 1);
    VectorField(p.bufs, |bufs|, p.toBufs, p.rows, BatchSlots(p), |p.bufs|, 2);
  }

  lemma FirstWord(w: seq<Byte>, u: seq<Byte>, s: seq<Two>)
    requires StructVectorStands(w, u, s)
    ensures 4 <= |w| && w[..4] == Little(|s|, 4) && StructsAt(w, 4, s)
  {
    hide StructsAt, Ext, Little;
  }

  lemma BatchIsRead(rows: int, n: nat, bufs: seq<Two>)
    requires Fits(rows, 8) && AllFit(bufs) && 16 * n + 16 * |bufs| < 0x4000_0000
    ensures BatchBuilt(BatchTable(rows, n, bufs), rows, n, bufs)
  {
    hide BatchPartsOf, StructVectorStands, Close, Little, Ext, FbVec, FbInt, FbField, Near, Fits, AllFit, StructsAt;
    var p := BatchPartsOf(rows, n, bufs);
    BatchStepsHold(rows, n, bufs);
    BatchNumbersHold(rows, n, bufs);
    BatchLinksHold(rows, n, bufs);
    var b := BatchTable(rows, n, bufs);
    FirstWord(p.nodes, [], Nodes(rows, n));
    FirstWord(p.bufs, p.nodes, bufs);
    StructsStay(p.nodes, b.w, Nodes(rows, n));
    StructsStay(p.bufs, b.w, bufs);
    ExtSelf(p.rows);
    CloseShape(p.rows, p.rows, BatchSlots(p), |p.bufs|);
    ExtShorter(p.nodes, b.w);
    ExtShorter(p.bufs, b.w);
  }

  lemma BatchThere(m: seq<Byte>, w: seq<Byte>, d: nat, rb: int, rows: int, n: nat, bufs: seq<Two>)
    requires Sits(m, w, d) && BatchStands(m, rb, rows, n, bufs)
    ensures BatchStands(w, rb + d, rows, n, bufs)
  {
    hide FbVec, FbInt, FbField, FbRef, StructsAt, Sits;
    IntThere(m, w, d, rb, 0, 8, true, 0);
    VecThere(m, w, d, rb, 1);
    VecThere(m, w, d, rb, 2);
    FieldThere(m, w, d, rb, 3);
    var h := HeadAt(m, rb).value;
    StructsThere(m, w, d, h.nodes.0, Nodes(rows, n));
    StructsThere(m, w, d, h.bufs.0, bufs);
  }
}
