/** The stream's octets in one array: the two messages, the end marker, and the body in between. */
module ArrowFrames {
  import opened Arith
  import opened ArrowBytes
  import opened ArrowTables
  import opened ArrowSchema
  import opened ArrowBatch
  import opened ArrowBody
  import opened ArrowStream
  import opened ArrowValues
  import opened ArrowTable

  // ---- the body's layout ----

  lemma LayoutSnoc(bs: seq<seq<Byte>>, b: seq<Byte>)
    ensures Layout(bs + [b]) == Layout(bs) + [Two(|Body(bs)|, |b|)] && |Body(bs + [b])| == |Body(bs)| + Pad8(|b|)
    ensures Body(bs + [b]) == Body(bs) + Padded8(b)
  {
    hide Body, Padded8;
    var all := bs + [b];
    assert all[..|bs|] == bs && all[..|bs| + 1] == all;
    BodySnoc(all, |bs|);
    forall i | 0 <= i < |bs| ensures Layout(all)[i] == Layout(bs)[i] {
      assert all[..i] == bs[..i];
    }
  }

  lemma LaidMore(layout: seq<Two>, at: nat, bs: seq<seq<Byte>>, b: seq<Byte>)
    requires LaidOut(layout, at, bs)
    ensures LaidOut(layout + [Two(at, |b|)], at + Pad8(|b|), bs + [b])
  {
    hide Layout, Body, Pad8;
    LayoutSnoc(bs, b);
  }

  lemma NothingLaid()
    ensures LaidOut([], 0, [])
  {
    assert Layout([]) == [];
  }

  /** A column's octets of values, or of offsets. */
  function Length1(c: Col, rows: int): int {
    if c.data.Strings? then 4 * (rows + 1) else Width(c.ty) * rows
  }

  lemma BufferLengths(c: Col, rows: int)
    requires Suits(c, rows)
    ensures var b := BuffersOf(c);
            && b[0] == [] && |b[1]| == Length1(c, rows) && (c.data.Strings? ==> |b[2]| == |c.data.sdata|)
            && (if c.data.Strings? then b == [b[0]] + [b[1]] + [b[2]] else b == [b[0]] + [b[1]])
  {
    hide IntsFit, PatternsFit;
  }

  /** Offsets and lengths of every buffer, before anything is written. */
  method LayOut(rows: int, cols: seq<Col>) returns (layout: seq<Two>, at: nat)
    requires forall i :: 0 <= i < |cols| ==> Suits(cols[i], rows)
    ensures LaidOut(layout, at, Buffers(cols))
  {
    hide LaidOut, BuffersOf, Pad8, Suits, Buffers;
    layout, at := [], 0;
    NoBuffers();
    NothingLaid();
    assert cols[..0] == [];
    for i := 0 to |cols|
      invariant LaidOut(layout, at, Buffers(cols[..i]))
    {
      var c := cols[i];
      ghost var bs, b := Buffers(cols[..i]), BuffersOf(c);
      BufferLengths(c, rows);
      BuffersSnoc(cols, i);
      ColumnLaid(layout, at, bs, b, c, rows);
      var n := if c.data.Strings? then 4 * (rows + 1) else Width(c.ty) * rows;
      layout := layout + [Two(at, 0)] + [Two(at, n)];
      at := at + Pad8(n);
      if c.data.Strings? {
        layout := layout + [Two(at, |c.data.sdata|)];
        at := at + Pad8(|c.data.sdata|);
      }
    }
    assert cols[..|cols|] == cols;
  }

  lemma ColumnLaid(layout: seq<Two>, at: nat, bs: seq<seq<Byte>>, b: seq<seq<Byte>>, c: Col, rows: int)
    requires LaidOut(layout, at, bs) && Suits(c, rows) && b == BuffersOf(c)
    ensures var (n, l) := (Length1(c, rows), layout + [Two(at, 0)] + [Two(at, Length1(c, rows))]);
            n >= 0 && if c.data.Strings?
            then LaidOut(l + [Two(at + Pad8(n), |c.data.sdata|)], at + Pad8(n) + Pad8(|c.data.sdata|), bs + b)
            else LaidOut(l, at + Pad8(n), bs + b)
  {
    hide LaidOut, BuffersOf, Suits;
    BufferLengths(c, rows);
    LaidMore(layout, at, bs, b[0]);
    LaidMore(layout + [Two(at, 0)], at, bs + [b[0]], b[1]);
    if c.data.Strings? {
      LaidMore(layout + [Two(at, 0)] + [Two(at, |b[1]|)], at + Pad8(|b[1]|), bs + [b[0]] + [b[1]], b[2]);
      assert bs + [b[0]] + [b[1]] + [b[2]] == bs + b;
    } else {
      assert bs + [b[0]] + [b[1]] == bs + b;
    }
  }

  // ---- one array, filled from the front ----

  /** What is written, zeros still to be written over, and what is written already behind them. */
  predicate Filling(s: seq<Byte>, done: seq<Byte>, n: nat, tail: seq<Byte>) {
    s == done + Zeros(n) + tail
  }

  lemma FilledMore(s: seq<Byte>, s': seq<Byte>, done: seq<Byte>, n: nat, tail: seq<Byte>, x: seq<Byte>)
    requires Filling(s, done, n, tail) && |x| <= n
    requires |s'| == |s| && s'[..|done|] == s[..|done|] && s'[|done|..|done| + |x|] == x
             && s'[|done| + |x|..] == s[|done| + |x|..]
    ensures Filling(s', done + x, n - |x|, tail)
  {
    assert s[..|done|] == done;
    assert s[|done| + |x|..] == Zeros(n - |x|) + tail;
    assert s' == s'[..|done|] + s'[|done|..|done| + |x|] + s'[|done| + |x|..];
    assert done + x + (Zeros(n - |x|) + tail) == done + x + Zeros(n - |x|) + tail;
  }

  lemma Skipped(s: seq<Byte>, done: seq<Byte>, n: nat, tail: seq<Byte>, k: nat)
    requires Filling(s, done, n, tail) && k <= n
    ensures Filling(s, done + Zeros(k), n - k, tail)
  {
    assert Zeros(n) == Zeros(k) + Zeros(n - k);
  }

  method WriteOctets(u: array<Byte>, ghost done: seq<Byte>, ghost n: nat, ghost tail: seq<Byte>, at: nat, x: seq<Byte>)
    requires Filling(u[..], done, n, tail) && at == |done| && |x| <= n
    modifies u
    ensures Filling(u[..], done + x, n - |x|, tail)
  {
    ghost var s := u[..];
    assert |s| == |done| + n + |tail|;
    hide Filling;
    CopyAt(u, at, x);
    FilledMore(s, u[..], done, n, tail, x);
  }

  method WriteNumber(u: array<Byte>, ghost done: seq<Byte>, ghost n: nat, ghost tail: seq<Byte>, at: nat, v: int,
      k: nat)
    requires Filling(u[..], done, n, tail) && at == |done| && k <= n
    modifies u
    ensures Filling(u[..], done + Little(v, k), n - k, tail)
  {
    hide Little;
    ghost var s := u[..];
    assert |s| == |done| + n + |tail|;
    hide Filling;
    PutLE(u, at, v, k);
    assert u[..][..at] == s[..at] && u[..][at..at + k] == Little(v, k) && u[..][at + k..] == s[at + k..];
    FilledMore(s, u[..], done, n, tail, Little(v, k));
  }

  method WriteNumbers(u: array<Byte>, ghost done: seq<Byte>, ghost n: nat, ghost tail: seq<Byte>, at: nat,
      v: seq<int>, k: nat)
    requires Filling(u[..], done, n, tail) && at == |done| && k * |v| <= n
    modifies u
    ensures Filling(u[..], done + Packed(v, k), n - k * |v|, tail)
  {
    hide Little, Filling, Packed;
    NonePacked(done, v, k);
    for i := 0 to |v|
      invariant k * i <= k * |v| && Filling(u[..], done + Packed(v[..i], k), n - k * i, tail)
    {
      PackedSnoc(v, k, i);
      Distribute(i + 1, i, k);
      MulMonotone(i + 1, |v|, k);
      assert done + Packed(v[..i + 1], k) == done + Packed(v[..i], k) + Little(v[i], k);
      WriteNumber(u, done + Packed(v[..i], k), n - k * i, tail, at + k * i, v[i], k);
    }
    assert v[..|v|] == v;
  }

  lemma NonePacked(done: seq<Byte>, v: seq<int>, k: nat)
    ensures done + Packed(v[..0], k) == done
  {
    assert v[..0] == [] && Packed([], k) == [];
  }

  /** The octets before a message's metadata. */
  method WriteMark(u: array<Byte>, ghost done: seq<Byte>, ghost n: nat, ghost tail: seq<Byte>, at: nat, len: int)
    requires Filling(u[..], done, n, tail) && at == |done| && 8 <= n
    modifies u
    ensures Filling(u[..], done + Mark(len), n - 8, tail)
  {
    hide Little, Filling;
    WriteNumber(u, done, n, tail, at, 4294967295, 4);
    WriteNumber(u, done + Little(4294967295, 4), n - 4, tail, at + 4, len, 4);
    assert done + Little(4294967295, 4) + Little(len, 4) == done + Mark(len);
  }

  /** A message with its mark and padding. */
  method WriteFramed(u: array<Byte>, ghost done: seq<Byte>, ghost n: nat, ghost tail: seq<Byte>, at: nat, w: seq<Byte>)
    requires Filling(u[..], done, n, tail) && at == |done| && 8 + Pad8(|w|) <= n
    modifies u
    ensures Filling(u[..], done + Framed(w), n - 8 - Pad8(|w|), tail)
  {
    hide Filling, Mark, Pad8;
    WriteMark(u, done, n, tail, at, Pad8(|w|));
    ghost var d1 := done + Mark(Pad8(|w|));
    WriteOctets(u, d1, n - 8, tail, at + 8, w);
    Skipped(u[..], d1 + w, n - 8 - |w|, tail, Pad8(|w|) - |w|);
    assert d1 + w + Zeros(Pad8(|w|) - |w|) == done + Framed(w);
  }

  // ---- the body ----

  /** Some octets and the zeros after them. */
  lemma PaddedOn(s: seq<Byte>, done: seq<Byte>, x: seq<Byte>, n: nat, tail: seq<Byte>)
    requires Filling(s, done + x, n, tail) && Pad8(|x|) - |x| <= n
    ensures Filling(s, done + Padded8(x), n + |x| - Pad8(|x|), tail)
  {
    hide Filling, Pad8;
    Skipped(s, done + x, n, tail, Pad8(|x|) - |x|);
    assert done + x + Zeros(Pad8(|x|) - |x|) == done + Padded8(x);
  }

  /** A column's values, or a string column's offsets. */
  method WriteValues(u: array<Byte>, ghost done: seq<Byte>, ghost n: nat, ghost tail: seq<Byte>, at: nat, c: Col,
      ghost rows: int)
    requires Suits(c, rows) && Filling(u[..], done, n, tail) && at == |done| && Pad8(|BuffersOf(c)[1]|) <= n
    modifies u
    ensures Filling(u[..], done + Padded8(BuffersOf(c)[1]), n - Pad8(|BuffersOf(c)[1]|), tail)
  {
    hide Filling, Pad8, Packed, Padded8, IntsFit, PatternsFit;
    ghost var x := BuffersOf(c)[1];
    match c.data {
      case Ints(iv) =>
        assert x == Packed(iv, Width(c.ty));
        WriteNumbers(u, done, n, tail, at, iv, Width(c.ty));
      case Singles(f4) =>
        assert x == Packed(f4, 4);
        WriteNumbers(u, done, n, tail, at, f4, 4);
      case Doubles(f8) =>
        assert x == Packed(f8, 8);
        WriteNumbers(u, done, n, tail, at, f8, 8);
      case Strings(soff, _) =>
        assert x == Packed(soff, 4);
        WriteNumbers(u, done, n, tail, at, soff, 4);
    }
    assert Filling(u[..], done + x, n - |x|, tail);
    PaddedOn(u[..], done, x, n - |x|, tail);
  }

  /** One column's buffers, each at the place the layout gives it. */
  method WriteColumn(u: array<Byte>, ghost done: seq<Byte>, ghost n: nat, ghost tail: seq<Byte>, at: nat, next: nat,
      c: Col, ghost rows: int,
                     ghost bs: seq<seq<Byte>>)
    requires Suits(c, rows) && Filling(u[..], done + Body(bs), n, tail) && at == |done| + |Body(bs)|
    requires |Body(bs)| + n >= |Body(bs + BuffersOf(c))|
    requires c.data.Strings? ==> next == at + Pad8(|BuffersOf(c)[1]|)
    modifies u
    ensures |Body(bs)| + n >= |Body(bs + BuffersOf(c))|
    ensures Filling(u[..], done + Body(bs + BuffersOf(c)), |Body(bs)| + n - |Body(bs + BuffersOf(c))|, tail)
  {
    hide Filling, Pad8, Padded8, Body, BuffersOf, Suits;
    ghost var b := BuffersOf(c);
    BufferLengths(c, rows);
    ColumnBody(bs, c);
    WriteValues(u, done + Body(bs), n, tail, at, c, rows);
    ghost var m := n - Pad8(|b[1]|);
    ghost var d1 := done + Body(bs) + Padded8(b[1]);
    if c.data.Strings? {
      WriteOctets(u, d1, m, tail, next, c.data.sdata);
      PaddedOn(u[..], d1, b[2], m - |b[2]|, tail);
      assert d1 + Padded8(b[2]) == done + (Body(bs) + Padded8(b[1]) + Padded8(b[2]));
    } else {
      assert d1 == done + (Body(bs) + Padded8(b[1]));
    }
  }

  /** The body of a column more. */
  lemma ColumnBody(bs: seq<seq<Byte>>, c: Col)
    ensures var b := BuffersOf(c);
            && (c.data.Strings? ==> b[2] == c.data.sdata && Body(bs + b) == Body(bs) + Padded8(b[1]) + Padded8(b[2]))
            && (!c.data.Strings? ==> Body(bs + b) == Body(bs) + Padded8(b[1]))
  {
    hide Body, Packed;
    var b := BuffersOf(c);
    LayoutSnoc(bs, b[0]);
    LayoutSnoc(bs + [b[0]], b[1]);
    assert Body(bs) + Padded8(b[0]) == Body(bs);
    if c.data.Strings? {
      LayoutSnoc(bs + [b[0]] + [b[1]], b[2]);
      assert bs + [b[0]] + [b[1]] + [b[2]] == bs + b;
    } else {
      assert bs + [b[0]] + [b[1]] == bs + b;
    }
  }

  /** Where the layout puts a column's values, and a string's octets. */
  lemma ColumnPlaces(cols: seq<Col>, i: nat)
    requires i < |cols|
    ensures var (bs, k, l) := (Buffers(cols), |Buffers(cols[..i])|, Layout(Buffers(cols)));
            && k + |BuffersOf(cols[i])| <= |bs| && l[k + 1].first == |Body(Buffers(cols[..i]))|
            && (cols[i].data.Strings? ==> l[k + 2].first == |Body(Buffers(cols[..i]))| + Pad8(|BuffersOf(cols[i])[1]|))
            && |Body(Buffers(cols[..i]) + BuffersOf(cols[i]))| <= |Body(bs)|
  {
    hide Body, Buffers, BuffersOf;
    var (bs, b) := (Buffers(cols), BuffersOf(cols[i]));
    var before := Buffers(cols[..i]);
    var k := |before|;
    BuffersPrefix(cols, i + 1);
    BuffersSnoc(cols, i);
    NoValidity(cols[i]);
    assert bs[..k] == bs[..k + |b|][..k] == before;
    assert bs[..k + 1] == bs[..k + |b|][..k + 1] == before + [b[0]];
    LayoutSnoc(before, b[0]);
    BodyPrefix(bs, k + |b|);
    if cols[i].data.Strings? {
      assert bs[..k + 2] == bs[..k + |b|][..k + 2] == before + [b[0]] + [b[1]];
      LayoutSnoc(before + [b[0]], b[1]);
    }
  }

  /** The body, column by column, in the room left for it. */
  method WriteBody(u: array<Byte>, ghost done: seq<Byte>, ghost tail: seq<Byte>, pos: nat, rows: int, cols: seq<Col>,
      layout: seq<Two>)
    requires forall i :: 0 <= i < |cols| ==> Suits(cols[i], rows)
    requires layout == Layout(Buffers(cols)) && Filling(u[..], done, |Body(Buffers(cols))|, tail) && pos == |done|
    modifies u
    ensures Filling(u[..], done + Body(Buffers(cols)), 0, tail)
  {
    hide Filling, Pad8, Padded8, Body, BuffersOf, Suits, Buffers;
    ghost var total := |Body(Buffers(cols))|;
    var k := 0;
    NoBody(done, cols);
    for i := 0 to |cols|
      invariant k == |Buffers(cols[..i])| && |Body(Buffers(cols[..i]))| <= total
      invariant Filling(u[..], done + Body(Buffers(cols[..i])), total - |Body(Buffers(cols[..i]))|, tail)
    {
      ColumnPlaces(cols, i);
      BuffersSnoc(cols, i);
      var c := cols[i];
      assert |BuffersOf(c)| == if c.data.Strings? then 3 else 2;
      var at := pos + layout[k + 1].first;
      var next := if c.data.Strings? then pos + layout[k + 2].first else 0;
      WriteColumn(u, done, total - |Body(Buffers(cols[..i]))|, tail, at, next, c, rows, Buffers(cols[..i]));
      k := k + if c.data.Strings? then 3 else 2;
    }
    assert cols[..|cols|] == cols;
  }

  lemma NoBody(done: seq<Byte>, cols: seq<Col>)
    ensures Buffers(cols[..0]) == [] && Body(Buffers(cols[..0])) == [] && done + [] == done
  {
    assert cols[..0] == [];
  }

  // ---- the stream ----

  /** The array the stream is written in: zeros, before anything else. */
  lemma ZerosFill(s: seq<Byte>)
    requires forall i :: 0 <= i < |s| ==> s[i] == 0
    ensures Filling(s, [], |s|, [])
  {
    assert s == [] + Zeros(|s|) + [];
  }

  lemma MarkBehind(s: seq<Byte>, done: seq<Byte>, n: nat, m: seq<Byte>)
    requires Filling(s, done + Zeros(n) + m, 0, [])
    ensures Filling(s, done, n, m)
  {
    assert done + Zeros(n) + m + Zeros(0) + [] == done + Zeros(n) + m;
  }

  /** The whole stream but its body, which is left zero, from pos on. */
  method Frame(schema: seq<Byte>, batch: seq<Byte>, bodyLen: nat) returns (u: array<Byte>, pos: nat)
    ensures fresh(u) && pos == |Framed(schema) + Framed(batch)|
    ensures Filling(u[..], Framed(schema) + Framed(batch), bodyLen, Mark(0))
  {
    hide Filling, Mark, Framed, Pad8;
    FramedLength(schema);
    FramedLength(batch);
    var (s, b) := (8 + Pad8(|schema|), 8 + Pad8(|batch|));
    u := new Byte[s + b + bodyLen + 8](_ => 0);
    ZerosFill(u[..]);
    WriteFramed(u, [], u.Length, [], 0, schema);
    assert [] + Framed(schema) == Framed(schema);
    WriteFramed(u, Framed(schema), u.Length - s, [], s, batch);
    pos := s + b;
    ghost var h := Framed(schema) + Framed(batch);
    Skipped(u[..], h, bodyLen + 8, [], bodyLen);
    WriteMark(u, h + Zeros(bodyLen), 8, [], pos + bodyLen, 0);
    MarkBehind(u[..], h, bodyLen, Mark(0));
  }

  lemma FramedLength(w: seq<Byte>)
    ensures |Framed(w)| == 8 + Pad8(|w|)
  {
    hide Mark;
  }

  lemma FilledStream(s: seq<Byte>, h: seq<Byte>, d: seq<Byte>, m: seq<Byte>)
    requires Filling(s, h + d, 0, m)
    ensures s == h + d + m
  {
    assert h + d + Zeros(0) + m == h + d + m;
  }

  /** The stream of a table; or its metadata outgrew the room, which never happens when the format can carry it. */
  method WriteStream(t: Table) returns (r: Read<array<Byte>>)
    requires t.Valid()
    ensures r.Ok? ==> fresh(r.value) && r.value[..] == Stream(t.rows, t.cols, t.meta)
    ensures r.Err? ==> r.error == BadArg
    ensures Carried(t.rows, t.cols, t.meta) ==> r.Ok?
  {
    hide Framed, Filling, Mark, SchemaOctets, BatchOctets, Buffers, Body, Described, Carried, Suits, Texts, IsStr;
    var layout, bodyLen := LayOut(t.rows, t.cols);
    var ok, schema, batch := Messages(t.rows, t.cols, t.meta, layout, bodyLen);
    if !ok {
      return Err(BadArg);
    }
    var u, pos := Frame(schema, batch, bodyLen);
    ghost var h := Framed(schema) + Framed(batch);
    WriteBody(u, h, Mark(0), pos, t.rows, t.cols, layout);
    FilledStream(u[..], h, Body(Buffers(t.cols)), Mark(0));
    return Ok(u);
  }
}
