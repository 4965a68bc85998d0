/** The stream reader: opened on a stream, stepped batch by batch, asked for values. */
module ArrowReader {
  import opened ArrowBytes
  import opened ArrowTables
  import opened ArrowSchema
  import opened ArrowMessage
  import opened ArrowBatch
  import opened ArrowBody
  import opened ArrowStream
  import opened ArrowValues
  import opened ArrowTable
  import ArrowFrames

  // ---- the loops over a vector ----

  lemma {:induction false} FailsOn(m: seq<Byte>, at: int, i: nat, n: nat)
    requires i <= n && EachRead(m, at, i).Err?
    ensures EachRead(m, at, n) == Err(EachRead(m, at, i).error)
    decreases n
  {
    hide SchemaField, FbRef;
    if i < n {
      FailsOn(m, at, i, n - 1);
    }
  }

  lemma {:induction false} PairFailsOn(m: seq<Byte>, at: int, i: nat, n: nat)
    requires i <= n && EachPair(m, at, i).Err?
    ensures EachPair(m, at, n) == Err(EachPair(m, at, i).error)
    decreases n
  {
    hide KvAt, FbRef;
    if i < n {
      PairFailsOn(m, at, i, n - 1);
    }
  }

  method ReadFields(m: seq<Byte>, at: int, n: int) returns (r: Read<seq<Field>>)
    ensures r == FieldsRead(m, at, n)
  {
    hide SchemaField, FbRef;
    if n <= 0 {
      return Ok([]);
    }
    var fields := [];
    for i := 0 to n
      invariant EachRead(m, at, i) == Ok(fields)
    {
      var f := FbRef(m, at + 4 * i);
      if f.Err? {
        FailsOn(m, at, i + 1, n);
        return Err(f.error);
      }
      var field := SchemaField(m, f.value);
      if field.Err? {
        FailsOn(m, at, i + 1, n);
        return Err(field.error);
      }
      fields := fields + [field.value];
    }
    return Ok(fields);
  }

  method ReadPairs(m: seq<Byte>, at: int, n: int) returns (r: Read<seq<Pair>>)
    ensures r == PairsRead(m, at, n)
  {
    hide KvAt, FbRef;
    if n <= 0 {
      return Ok([]);
    }
    var pairs := [];
    for i := 0 to n
      invariant EachPair(m, at, i) == Ok(pairs)
    {
      var kv := FbRef(m, at + 4 * i);
      if kv.Err? {
        PairFailsOn(m, at, i + 1, n);
        return Err(kv.error);
      }
      var pair := KvAt(m, kv.value);
      if pair.Err? {
        PairFailsOn(m, at, i + 1, n);
        return Err(pair.error);
      }
      pairs := pairs + [pair.value];
    }
    return Ok(pairs);
  }

  method ReadSchema(m: seq<Byte>, sc: int) returns (r: Read<Schema>)
    ensures r == SchemaAt(m, sc)
  {
    hide FieldsRead, PairsRead, FbInt, FbVec;
    var endian := FbInt(m, sc, 0, 2, true, 0);
    if endian.Err? {
      return Err(endian.error);
    }
    if endian.value != 0 {
      return Err(BadArg);
    }
    var fv := FbVec(m, sc, 1);
    if fv.Err? {
      return Err(fv.error);
    }
    var fields := ReadFields(m, fv.value.0, fv.value.1);
    if fields.Err? {
      return Err(fields.error);
    }
    var mv := FbVec(m, sc, 2);
    if mv.Err? {
      return Err(mv.error);
    }
    var pairs := ReadPairs(m, mv.value.0, mv.value.1);
    if pairs.Err? {
      return Err(pairs.error);
    }
    return Ok(Schema(fields.value, pairs.value));
  }

  lemma {:induction false} ColumnFailsOn(m: seq<Byte>, h: Head, body: seq<Byte>, tys: seq<int>, i: nat, n: nat)
    requires i <= n <= |tys| && EachColumn(m, h, body, tys, i).Err?
    ensures EachColumn(m, h, body, tys, n) == Err(EachColumn(m, h, body, tys, i).error)
    decreases n
  {
    hide ColumnAt, BufferCount;
    if i < n {
      ColumnFailsOn(m, h, body, tys, i, n - 1);
    }
  }

  /** The batch's columns, each with the buffers after those of the columns before it. */
  method ReadColumns(m: seq<Byte>, h: Head, body: seq<Byte>, tys: seq<int>) returns (r: Read<seq<Cells>>)
    ensures r == Columns(m, h, body, tys)
  {
    hide ColumnAt, BufferCount;
    var cols := [];
    var b := 0;
    NothingCounted(tys);
    for j := 0 to |tys|
      invariant EachColumn(m, h, body, tys, j) == Ok(cols) && b == BufferCount(tys[..j])
    {
      var c := ColumnAt(m, h, body, tys[j], j, b);
      if c.Err? {
        ColumnFailsOn(m, h, body, tys, j + 1, |tys|);
        return Err(c.error);
      }
      CountSnoc(tys, j);
      cols := cols + [c.value];
      b := b + if tys[j] == STR then 3 else 2;
    }
    return Ok(cols);
  }

  lemma NothingCounted(tys: seq<int>)
    ensures BufferCount(tys[..0]) == 0
  {}

  /** How many buffers a batch of these types has. */
  method CountBuffers(tys: seq<int>) returns (n: nat)
    ensures n == BufferCount(tys)
  {
    hide BufferCount;
    n := 0;
    NothingCounted(tys);
    for j := 0 to |tys|
      invariant n == BufferCount(tys[..j])
    {
      CountSnoc(tys, j);
      n := n + if tys[j] == STR then 3 else 2;
    }
    assert tys[..|tys|] == tys;
  }

  method ReadBatch(m: seq<Byte>, body: seq<Byte>, tys: seq<int>) returns (r: Read<Batch>)
    ensures r == BatchOf(m, body, tys)
  {
    hide Columns, Header, HeadAt, BufferCount;
    var rb := Header(m);
    if rb.Err? {
      return Err(rb.error);
    }
    var h := HeadAt(m, rb.value);
    if h.Err? {
      return Err(h.error);
    }
    var nbuf := CountBuffers(tys);
    if h.value.nodes.1 != |tys| || h.value.bufs.1 != nbuf {
      return Err(BadArg);
    }
    var cols := ReadColumns(m, h.value, body, tys);
    if cols.Err? {
      return Err(cols.error);
    }
    return Ok(Batch(h.value.rows, cols.value));
  }

  function TypesOf(fields: seq<Field>): (tys: seq<int>)
    ensures |tys| == |fields|
  {
    seq(|fields|, i requires 0 <= i < |fields| => fields[i].ty)
  }

  class Reader {
    const src: seq<Byte>
    var pos: nat
    var fields: seq<Field>
    var pairs: seq<Pair>
    var batch: Batch
    var ended: bool

    constructor (s: seq<Byte>, o: Opened)
      ensures src == s && pos == o.pos && fields == o.schema.fields && pairs == o.schema.pairs
      ensures batch == Batch(0, []) && !ended
    {
      src, pos, fields, pairs, batch, ended := s, o.pos, o.schema.fields, o.schema.pairs, Batch(0, []), false;
    }

    /** Reads the schema, the stream's first message. */
    static method Open(s: seq<Byte>) returns (r: Read<Reader>)
      ensures var o := ArrowStream.Open(s);
              if o.Err? then r == Err(o.error)
              else r.Ok? && fresh(r.value) && r.value.src == s && r.value.pos == o.value.pos && !r.value.ended
                   && r.value.fields == o.value.schema.fields && r.value.pairs == o.value.schema.pairs
    {
      hide NextMsg, Header, SchemaAt;
      var m := NextMsg(s, 0);
      if m.Err? {
        return Err(m.error);
      }
      if m.value.End? || m.value.kind != MSG_SCHEMA {
        return Err(BadArg);
      }
      var sc := Header(m.value.meta);
      if sc.Err? {
        return Err(Caught(sc).error);
      }
      var schema := ReadSchema(m.value.meta, sc.value);
      if schema.Err? {
        return Err(Caught(schema).error);
      }
      var reader := new Reader(s, Opened(schema.value, m.value.pos));
      return Ok(reader);
    }

    /** Reads the next batch; false at the stream's end, and from then on. */
    method Next() returns (r: Read<bool>)
      modifies this`pos, this`batch, this`ended
      ensures old(ended) ==> r == Ok(false) && ended && batch == old(batch)
      ensures !old(ended) ==>
              var n := NextBatch(src, old(pos), TypesOf(fields));
              if n.Err? then r == Err(n.error)
              else if n.value.Ended? then r == Ok(false) && ended && batch.rows == 0
              else r == Ok(true) && !ended && pos == n.value.pos && batch == n.value.batch
    {
      hide NextMsg, BatchOf;
      if ended {
        return Ok(false);
      }
      var m := NextMsg(src, pos);
      if m.Err? {
        return Err(m.error);
      }
      pos := m.value.pos;
      if m.value.End? {
        ended, batch := true, batch.(rows := 0);
        return Ok(false);
      }
      if m.value.kind != MSG_BATCH {
        return Err(BadArg);
      }
      var b := ReadBatch(m.value.meta, m.value.body, TypesOf(fields));
      if b.Err? {
        return Err(Caught(b).error);
      }
      batch := b.value;
      return Ok(true);
    }

    /** The value of the first pair with that key, or nothing. */
    method MetaOf(key: Str) returns (v: Str)
      ensures (exists i :: 0 <= i < |pairs| && pairs[i].key == key && pairs[i].val == v
                           && forall j :: 0 <= j < i ==> pairs[j].key != key)
              || (v == [] && forall j :: 0 <= j < |pairs| ==> pairs[j].key != key)
    {
      for i := 0 to |pairs|
        invariant forall j :: 0 <= j < i ==> pairs[j].key != key
      {
        if pairs[i].key == key {
          return pairs[i].val;
        }
      }
      return [];
    }

    /** An integer or timestamp column of the batch, a null as 0. */
    method Integers(i: int) returns (r: Read<seq<int>>)
      ensures r == GetI64(batch, TypesOf(fields), i)
    {
      hide I64At;
      if i < 0 || i >= |fields| {
        return Err(IndexError);
      }
      var ty := fields[i].ty;
      if IntWidth(ty) == 0 {
        return Err(BadArg);
      }
      if batch.rows < 0 {
        return Err(OutOfMemory);
      }
      var out := [];
      for k := 0 to batch.rows
        invariant EachI64(batch, ty, i, k) == Ok(out)
      {
        var v := I64At(batch, ty, i, k);
        if v.Err? {
          IntegersFail(batch, ty, i, k + 1, batch.rows);
          return Err(v.error);
        }
        out := out + [v.value];
      }
      return Ok(out);
    }

    /** A float column of the batch, a null as NaN. */
    method Floats(i: int) returns (r: Read<seq<Float>>)
      ensures r == GetF64(batch, TypesOf(fields), i)
    {
      hide F64At;
      if i < 0 || i >= |fields| {
        return Err(IndexError);
      }
      var ty := fields[i].ty;
      if ty != F64 && ty != F32 {
        return Err(BadArg);
      }
      if batch.rows < 0 {
        return Err(OutOfMemory);
      }
      var out := [];
      for k := 0 to batch.rows
        invariant EachF64(batch, ty, i, k) == Ok(out)
      {
        var v := F64At(batch, ty, i, k);
        if v.Err? {
          FloatsFail(batch, ty, i, k + 1, batch.rows);
          return Err(v.error);
        }
        out := out + [v.value];
      }
      return Ok(out);
    }
  }

  lemma {:induction false} IntegersFail(b: Batch, ty: int, i: nat, k: nat, n: nat)
    requires k <= n && EachI64(b, ty, i, k).Err?
    ensures EachI64(b, ty, i, n) == Err(EachI64(b, ty, i, k).error)
    decreases n
  {
    hide I64At;
    if k < n {
      IntegersFail(b, ty, i, k, n - 1);
    }
  }

  lemma {:induction false} FloatsFail(b: Batch, ty: int, i: nat, k: nat, n: nat)
    requires k <= n && EachF64(b, ty, i, k).Err?
    ensures EachF64(b, ty, i, n) == Err(EachF64(b, ty, i, k).error)
    decreases n
  {
    hide F64At;
    if k < n {
      FloatsFail(b, ty, i, k, n - 1);
    }
  }

  // ---- a table, written and read ----

  /** What a reader holds of a table's schema: every name and type, no time zone, and the metadata. */
  predicate SchemaBack(fields: seq<Field>, pairs: seq<Pair>, cols: seq<Col>, kvs: seq<Pair>) {
    && |fields| == |cols| && pairs == kvs
    && forall i :: 0 <= i < |cols| ==> fields[i] == Field(cols[i].name, ReadBack(cols[i].ty), [])
  }

  lemma FieldsAre(cols: seq<Col>)
    ensures SchemaBack(FieldsOf(Described(cols)), [], cols, []) && TypesOf(FieldsOf(Described(cols))) == Types(cols)
  {
    forall i | 0 <= i < |cols|
      ensures FieldsOf(Described(cols))[i] == Field(cols[i].name, ReadBack(cols[i].ty), [])
    {
      assert Described(cols)[i] == ArrowSchema.Column(cols[i].name, cols[i].ty);
    }
  }

  /** A column of the strings v, each text, their octets fewer than 2^31. */
  predicate HoldsStrings(c: Col, v: seq<Str>) {
    c.data == Strings(Offsets(v), Joined(v)) && |Joined(v)| < 0x8000_0000 && forall i :: 0 <= i < |v| ==> IsStr(v[i])
  }

  /** Column i is got back whole by the getter of its type. */
  ghost predicate ColumnBack(b: Batch, tys: seq<int>, c: Col, i: nat, rows: int) {
    && (c.data.Ints? ==> GetI64(b, tys, i) == Ok(c.data.iv))
    && (c.data.Singles? || c.data.Doubles? ==> FloatsFit(c.data, rows) && GetF64(b, tys, i) == Ok(FloatsOf(c.data)))
    && (forall v, row :: HoldsStrings(c, v) && 0 <= row < |v| ==> GetStr(b, tys, i, row) == Ok(v[row]))
  }

  ghost predicate ValuesBack(b: Batch, tys: seq<int>, cols: seq<Col>, rows: int) {
    forall i :: 0 <= i < |cols| ==> ColumnBack(b, tys, cols[i], i, rows)
  }

  lemma EveryColumnBack(rows: int, cols: seq<Col>)
    requires forall i :: 0 <= i < |cols| ==> Suits(cols[i], rows)
    ensures ValuesBack(WrittenBatch(rows, cols), Types(cols), cols, rows)
  {
    hide WrittenBatch, Types, GetI64, GetF64, GetStr, IsStr, Joined, Offsets;
    forall i | 0 <= i < |cols| ensures ColumnBack(WrittenBatch(rows, cols), Types(cols), cols[i], i, rows) {
      assert Suits(cols[i], rows);
      match cols[i].data
      case Ints(_) => IntsAreRead(rows, cols, i);
      case Strings(_, _) =>
        forall v, row | HoldsStrings(cols[i], v) && 0 <= row < |v|
          ensures GetStr(WrittenBatch(rows, cols), Types(cols), i, row) == Ok(v[row])
        {
          StringIsRead(rows, cols, i, v, row);
        }
      case _ => FloatsAreRead(rows, cols, i);
    }
  }

  /**
   * A table with metadata, written and opened: the names, types and metadata come back, one batch is
   * read that holds what was written, and then there is no more.
   */
  method RoundTrip(t: Table) returns (reader: Reader)
    requires t.Valid() && Carried(t.rows, t.cols, t.meta) && t.meta != []
    ensures fresh(reader) && SchemaBack(reader.fields, reader.pairs, t.cols, t.meta)
    ensures TypesOf(reader.fields) == Types(t.cols)
    ensures reader.batch == WrittenBatch(t.rows, t.cols) && !reader.ended
    ensures NextBatch(reader.src, reader.pos, TypesOf(reader.fields)) == Ok(Ended)
    ensures ValuesBack(reader.batch, TypesOf(reader.fields), t.cols, t.rows)
  {
    hide ValuesBack, ArrowStream.Open, Stream, NextBatch, Carried, WrittenBatch, TypesOf, SchemaBack, SchemaEnd,
         BatchEnd, Suits, Texts, IsStr, Fits;
    var u := ArrowFrames.WriteStream(t);
    var s := u.value[..];
    ghost var fields := FieldsOf(Described(t.cols));
    StreamReads(t.rows, t.cols, t.meta);
    var r := Reader.Open(s);
    reader := r.value;
    var more := reader.Next();
    assert more == Ok(true);
  }

  /** What reading such a table's stream comes to. */
  ghost predicate Reads(s: seq<Byte>, fields: seq<Field>, rows: int, cols: seq<Col>, kvs: seq<Pair>) {
    && ArrowStream.Open(s) == Ok(Opened(Schema(fields, kvs), SchemaEnd(cols, kvs)))
    && NextBatch(s, SchemaEnd(cols, kvs), TypesOf(fields))
       == Ok(Got(WrittenBatch(rows, cols), BatchEnd(rows, cols, kvs)))
    && NextBatch(s, BatchEnd(rows, cols, kvs), TypesOf(fields)) == Ok(Ended)
    && SchemaBack(fields, kvs, cols, kvs) && TypesOf(fields) == Types(cols)
    && ValuesBack(WrittenBatch(rows, cols), TypesOf(fields), cols, rows)
  }

  lemma StreamReads(rows: int, cols: seq<Col>, kvs: seq<Pair>)
    requires Carried(rows, cols, kvs) && kvs != [] && forall i :: 0 <= i < |cols| ==> Suits(cols[i], rows)
    ensures Reads(Stream(rows, cols, kvs), FieldsOf(Described(cols)), rows, cols, kvs)
  {
    hide ArrowStream.Open, Stream, NextBatch, Carried, WrittenBatch, SchemaEnd, BatchEnd, Described, FieldsOf, Types,
         TypesOf,
         ValuesBack, Suits;
    EveryColumnBack(rows, cols);
    OpenIsRead(rows, cols, kvs);
    NextBatchIsRead(rows, cols, kvs);
    FieldsAre(cols);
  }
}
