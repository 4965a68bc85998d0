/**
 * The stream: the octets a table is written as, what the reader takes from a stream message by
 * message, and that it takes the table back.
 */
module ArrowStream {
  import opened ArrowBytes
  import opened ArrowTables
  import opened ArrowBuild
  import opened ArrowSchema
  import opened ArrowMessage
  import opened ArrowMisread
  import opened ArrowBatch
  import opened ArrowBody

  // ---- reading ----

  /** IndexError becomes BadArg. */
  function Caught<T>(r: Read<T>): Read<T> {
    if r == Err(IndexError) then Err(BadArg) else r
  }

  /** What the next message of a stream is: its end, or metadata, body and kind, and where the one after it starts. */
  datatype Next = End(pos: nat) | Message(meta: seq<Byte>, body: seq<Byte>, kind: int, pos: nat)

  /** A message whose metadata starts at `at` and has `len` octets. */
  function MessageAt(src: seq<Byte>, at: nat, len: nat): Read<Next>
    requires at + len <= |src|
  {
    var meta := src[at..at + len];
    var root :- GetLE(meta, 0, 4, false);
    var kind :- FbInt(meta, root, 1, 1, false, 0);
    var blen :- FbInt(meta, root, 3, 8, true, 0);
    if blen < 0 || at + len + blen > |src| then Err(BadArg)
    else
      var hdr :- FbField(meta, root, 2);
      if hdr < 0 then Err(BadArg) else Ok(Message(meta, src[at + len..at + len + blen], kind, at + len + blen))
  }

  /** The message after its length word. */
  function Sized(src: seq<Byte>, pos: nat, len: int): Read<Next> {
    if len == 0 then Ok(End(pos))
    else if len < 0 || pos + len > |src| then Err(BadArg)
    else Caught(MessageAt(src, pos, len))
  }

  function NextMsg(src: seq<Byte>, pos: nat): Read<Next> {
    if pos + 4 > |src| then Ok(End(pos))
    else
      var len :- GetLE(src, pos, 4, true);
      if len != -1 then Sized(src, pos + 4, len)
      else if pos + 8 > |src| then Ok(End(pos + 4))
      else
        var again :- GetLE(src, pos + 4, 4, true);
        Sized(src, pos + 8, again)
  }

  const MSG_SCHEMA := 1
  const MSG_BATCH := 3

  /** A reader just opened: the schema, and where the messages after it start. */
  datatype Opened = Opened(schema: Schema, pos: nat)

  function Open(src: seq<Byte>): Read<Opened> {
    var m :- NextMsg(src, 0);
    if m.End? || m.kind != MSG_SCHEMA then Err(BadArg)
    else
      var sc :- Caught(Header(m.meta));
      var s :- Caught(SchemaAt(m.meta, sc));
      Ok(Opened(s, m.pos))
  }

  /** One column of a batch. */
  datatype Cells = Cells(nulls: int, valid: seq<Byte>, offs: seq<Byte>, data: seq<Byte>)

  datatype Batch = Batch(rows: int, cols: seq<Cells>)

  function Buf(body: seq<Byte>, off: int, len: int): Read<seq<Byte>> {
    if len == 0 then Ok([])
    else if off < 0 || len < 0 || off + len > |body| then Err(BadArg)
    else Ok(body[off..off + len])
  }

  /** The b-th buffer the batch names. */
  function BufferAt(m: seq<Byte>, bufs: int, b: nat, body: seq<Byte>): Read<seq<Byte>> {
    var off :- GetLE(m, bufs + 16 * b, 8, true);
    var len :- GetLE(m, bufs + 16 * b + 8, 8, true);
    Buf(body, off, len)
  }

  function BuffersBefore(tys: seq<int>): nat {
    if tys == [] then 0 else BuffersBefore(tys[..|tys| - 1]) + (if tys[|tys| - 1] == STR then 3 else 2)
  }

  function BufferCount(tys: seq<int>): nat {
    BuffersBefore(tys)
  }

  /** Column j of type ty, whose first buffer is the b-th. */
  function ColumnAt(m: seq<Byte>, h: Head, body: seq<Byte>, ty: int, j: nat, b: nat): Read<Cells> {
    var len :- GetLE(m, h.nodes.0 + 16 * j, 8, true);
    if len != h.rows then Err(BadArg)
    else
      var nulls :- GetLE(m, h.nodes.0 + 16 * j + 8, 8, true);
      var valid :- BufferAt(m, h.bufs.0, b, body);
      var one :- BufferAt(m, h.bufs.0, b + 1, body);
      if ty != STR then Ok(Cells(nulls, valid, [], one))
      else
        var two :- BufferAt(m, h.bufs.0, b + 2, body);
        Ok(Cells(nulls, valid, one, two))
  }

  function EachColumn(m: seq<Byte>, h: Head, body: seq<Byte>, tys: seq<int>, n: nat): Read<seq<Cells>>
    requires n <= |tys|
  {
    if n == 0 then Ok([])
    else
      var before :- EachColumn(m, h, body, tys, n - 1);
      var c :- ColumnAt(m, h, body, tys[n - 1], n - 1, BufferCount(tys[..n - 1]));
      Ok(before + [c])
  }

  /** The columns of a batch. */
  function Columns(m: seq<Byte>, h: Head, body: seq<Byte>, tys: seq<int>): Read<seq<Cells>> {
    EachColumn(m, h, body, tys, |tys|)
  }

  function BatchOf(m: seq<Byte>, body: seq<Byte>, tys: seq<int>): Read<Batch> {
    var rb :- Header(m);
    var h :- HeadAt(m, rb);
    if h.nodes.1 != |tys| || h.bufs.1 != BufferCount(tys) then Err(BadArg)
    else
      var cols :- Columns(m, h, body, tys);
      Ok(Batch(h.rows, cols))
  }

  /** The next record batch and where the message after it starts, or the stream's end. */
  datatype Step = Ended | Got(batch: Batch, pos: nat)

  function NextBatch(src: seq<Byte>, pos: nat, tys: seq<int>): Read<Step> {
    var m :- NextMsg(src, pos);
    if m.End? then Ok(Ended)
    else if m.kind != MSG_BATCH then Err(BadArg)
    else
      var b :- Caught(BatchOf(m.meta, m.body, tys));
      Ok(Got(b, m.pos))
  }

  // ---- writing ----

  /** A message's metadata with its padding, as it stands in the stream. */
  function Meta(w: seq<Byte>): (m: seq<Byte>)
    ensures |m| == Pad8(|w|) && Sits(w, m, 0)
  {
    assert (w + Zeros(Pad8(|w|) - |w|))[0..|w|] == w;
    w + Zeros(Pad8(|w|) - |w|)
  }

  function Mark(len: int): (s: seq<Byte>)
    ensures |s| == 8
  {
    Little(4294967295, 4) + Little(len, 4)
  }

  function Framed(w: seq<Byte>): seq<Byte> {
    Mark(Pad8(|w|)) + Meta(w)
  }

  /** A header, its root and the link to that. */
  function FinishedRoot(header: Built, kind: nat, bodyLen: Wrapped, align: nat): seq<Byte>
    requires Size(align)
  {
    var b := Root(header, kind, bodyLen);
    Finish(b.w, align, b.at)
  }

  function SchemaOctets(cols: seq<ArrowSchema.Column>, kvs: seq<Pair>): seq<Byte> {
    hide FinishedRoot, SchemaPartsOf;
    FinishedRoot(SchemaPartsOf(cols, kvs).sc, 1, Nothing, 4)
  }

  function BatchOctets(rows: int, n: nat, bs: seq<seq<Byte>>): seq<Byte> {
    hide FinishedRoot, BatchTable, Layout, Body;
    FinishedRoot(BatchTable(rows, n, Layout(bs)), 3, Just(|Body(bs)|), 8)
  }

  /** The names and types of columns. */
  function Described(cols: seq<Col>): (d: seq<ArrowSchema.Column>)
    ensures |d| == |cols|
  {
    seq(|cols|, i requires 0 <= i < |cols| => ArrowSchema.Column(cols[i].name, cols[i].ty))
  }

  /** What a table is written as. */
  function Stream(rows: int, cols: seq<Col>, kvs: seq<Pair>): seq<Byte> {
    Framed(SchemaOctets(Described(cols), kvs)) + Framed(BatchOctets(rows, |cols|, Buffers(cols)))
        + Body(Buffers(cols)) + Mark(0)
  }

  /** A table the format can carry. */
  predicate Carried(rows: int, cols: seq<Col>, kvs: seq<Pair>) {
    && Sound(Described(cols), kvs) && Fits(rows, 8) && |Body(Buffers(cols))| < 0x4000_0000_0000_0000
    && forall i :: 0 <= i < |cols| ==> Kind(cols[i])
  }

  /** A column's values are of its type. */
  predicate Kind(c: Col) {
    match c.data
    case Ints(_) => c.ty != F32 && c.ty != F64 && c.ty != STR
    case Singles(_) => c.ty == F32
    case Doubles(_) => c.ty == F64
    case Strings(_, _) => c.ty == STR
  }

  // ---- a finished message is read ----

  /** A message's metadata: its root, and what that says. */
  predicate MessageStands(m: seq<Byte>, kind: nat, len: int, header: int) {
    GetLE(m, 0, 4, false).Ok? && RootStands(m, GetLE(m, 0, 4, false).value, kind, len, header)
  }

  /** A header's octets finished into metadata. */
  predicate Finished(w: seq<Byte>, header: Built, kind: nat, len: int) {
    && MessageStands(Meta(w), kind, len, |w| - header.at)
    && |header.w| <= |w| < |header.w| + 76 && Sits(header.w, Meta(w), |w| - |header.w|)
  }

  lemma FinishedIsRead(header: Built, kind: nat, bodyLen: Wrapped, align: nat)
    requires Size(align) && kind < 128 && Fits(LengthOf(bodyLen), 8) && header.at <= |header.w| < 0x7FFF_F000
    ensures Finished(FinishedRoot(header, kind, bodyLen, align), header, kind, LengthOf(bodyLen))
  {
    hide Root, RootStands, Ext, Meta, GetLE, Finish, Fits;
    var b := Root(header, kind, bodyLen);
    RootIsRead(header, kind, bodyLen);
    FinishIsRead(b, align);
    var w := FinishedRoot(header, kind, bodyLen, align);
    var m := Meta(w);
    ExtSits(b.w, w);
    SitsTransitive(b.w, w, m, |w| - |b.w|, 0);
    RootThere(b.w, m, |w| - |b.w|, |b.w| - b.at, kind, LengthOf(bodyLen), |b.w| - header.at);
    GetThere(w, m, 0, 0, 4, false);
    ExtShorter(header.w, b.w);
    ExtSits(header.w, b.w);
    SitsTransitive(header.w, b.w, m, |b.w| - |header.w|, |w| - |b.w|);
  }

  // ---- a framed message is found ----

  lemma HeaderIsRead(m: seq<Byte>, kind: nat, len: int, header: int)
    requires MessageStands(m, kind, len, header)
    ensures Header(m) == Ok(header)
  {
    hide FbInt, FbField, FbRef, GetLE;
  }

  lemma MessageAtIsRead(src: seq<Byte>, at: nat, m: seq<Byte>, body: seq<Byte>, kind: nat, header: int)
    requires Sits(m, src, at) && Sits(body, src, at + |m|) && MessageStands(m, kind, |body|, header)
    ensures MessageAt(src, at, |m|) == Ok(Message(m, body, kind, at + |m| + |body|))
  {
    hide FbInt, FbField, FbRef, GetLE;
  }

  lemma MarkIsRead(src: seq<Byte>, pos: nat, len: int)
    requires Sits(Mark(len), src, pos) && 0 <= len < 0x8000_0000
    ensures GetLE(src, pos, 4, true) == Ok(-1) && GetLE(src, pos + 4, 4, true) == Ok(len)
  {
    hide GetLE, Little;
    Powers();
    var a, b := Little(4294967295, 4), Little(len, 4);
    assert Mark(len)[0..4] == a && Mark(len)[4..8] == b;
    AllOnes();
    GetWritten(Mark(len), 0, 4, true, -1);
    GetWritten(Mark(len), 4, 4, true, len);
    GetThere(Mark(len), src, pos, 0, 4, true);
    GetThere(Mark(len), src, pos, 4, 4, true);
  }

  /** The continuation marker is -1 in four octets. */
  lemma AllOnes()
    ensures Little(4294967295, 4) == Little(-1, 4)
  {
    forall i | 0 <= i < 4 ensures Little(4294967295, 4)[i] == Little(-1, 4)[i] {
      assert Left(4294967295, 0) % 256 == 255 && Left(4294967295, 1) == 16777215 && Left(4294967295, 2) == 65535;
      assert Left(4294967295, 3) == 255;
      assert Left(-1, 0) == -1 && Left(-1, 1) == -1 && Left(-1, 2) == -1 && Left(-1, 3) == -1;
    }
  }

  /** The reader steps over a marked message with its body. */
  lemma NextIsRead(src: seq<Byte>, pos: nat, m: seq<Byte>, body: seq<Byte>, kind: nat, header: int)
    requires Sits(Mark(|m|), src, pos) && Sits(m, src, pos + 8) && Sits(body, src, pos + 8 + |m|)
    requires 0 < |m| < 0x8000_0000 && MessageStands(m, kind, |body|, header)
    ensures NextMsg(src, pos) == Ok(Message(m, body, kind, pos + 8 + |m| + |body|))
  {
    hide GetLE, Mark, MessageAt, MessageStands;
    MarkIsRead(src, pos, |m|);
    MessageAtIsRead(src, pos + 8, m, body, kind, header);
  }

  lemma EndIsRead(src: seq<Byte>, pos: nat)
    requires Sits(Mark(0), src, pos)
    ensures NextMsg(src, pos) == Ok(End(pos + 8))
  {
    hide GetLE, Mark, MessageAt;
    MarkIsRead(src, pos, 0);
  }

  // ---- the stream's messages stand in it ----

  function StreamParts(x: seq<Byte>, y: seq<Byte>, d: seq<Byte>): (s: seq<Byte>)
    ensures |s| == |x| + |y| + |d| + 24
  {
    (Mark(|x|) + x) + (Mark(|y|) + y) + d + Mark(0)
  }

  predicate PartsSit(s: seq<Byte>, x: seq<Byte>, y: seq<Byte>, d: seq<Byte>) {
    && Sits(Mark(|x|), s, 0) && Sits(x, s, 8) && Sits([], s, 8 + |x|)
    && Sits(Mark(|y|), s, 8 + |x|) && Sits(y, s, 16 + |x|) && Sits(d, s, 16 + |x| + |y|)
    && Sits(Mark(0), s, 16 + |x| + |y| + |d|)
  }

  lemma PartsSitThere(x: seq<Byte>, y: seq<Byte>, d: seq<Byte>)
    ensures PartsSit(StreamParts(x, y, d), x, y, d)
  {
    hide Mark;
    var s := StreamParts(x, y, d);
    assert s[0..8] == Mark(|x|);
    assert s[8..8 + |x|] == x;
    assert s[8 + |x|..16 + |x|] == Mark(|y|);
    assert s[16 + |x|..16 + |x| + |y|] == y;
    assert s[16 + |x| + |y|..16 + |x| + |y| + |d|] == d;
    assert s[16 + |x| + |y| + |d|..24 + |x| + |y| + |d|] == Mark(0);
  }

  lemma StreamIsParts(rows: int, cols: seq<Col>, kvs: seq<Pair>)
    ensures Stream(rows, cols, kvs) ==
            StreamParts(Meta(SchemaOctets(Described(cols), kvs)), Meta(BatchOctets(rows, |cols|, Buffers(cols))),
                Body(Buffers(cols)))
  {
    hide SchemaOctets, BatchOctets, Body, Buffers, Meta, Mark, Described;
  }

  // ---- the schema comes back ----

  lemma SchemaFits(cols: seq<ArrowSchema.Column>, kvs: seq<Pair>)
    requires Sound(cols, kvs)
    ensures var p := SchemaPartsOf(cols, kvs); 0 < p.sc.at <= |p.sc.w| && |p.sc.w| + 8000 < RoomFor(cols, kvs)
  {
    hide SchemaPartsOf, Ext;
    SchemaSizeHolds(cols, kvs);
  }

  /** The schema message's metadata: one schema message, its table at that place. */
  predicate SchemaMeta(m: seq<Byte>, w: seq<Byte>, p: SchemaParts, cols: seq<ArrowSchema.Column>, kvs: seq<Pair>) {
    && MessageStands(m, 1, 0, |w| - p.sc.at) && 0 < |m| < 0x8000_0000 && p.sc.at <= |p.sc.w| <= |w|
    && Sits(p.sc.w, m, |w| - |p.sc.w|)
  }

  lemma SchemaMetaHolds(cols: seq<ArrowSchema.Column>, kvs: seq<Pair>)
    requires Sound(cols, kvs)
    ensures SchemaMeta(Meta(SchemaOctets(cols, kvs)), SchemaOctets(cols, kvs), SchemaPartsOf(cols, kvs), cols, kvs)
  {
    hide SchemaPartsOf, FinishedRoot, MessageStands, Fits, Sits;
    var p := SchemaPartsOf(cols, kvs);
    SchemaFits(cols, kvs);
    Small(0, 8);
    FinishedIsRead(p.sc, 1, Nothing, 4);
  }

  lemma OpensAt(src: seq<Byte>, m: seq<Byte>, w: seq<Byte>, p: SchemaParts, cols: seq<ArrowSchema.Column>,
      kvs: seq<Pair>, s: Schema)
    requires SchemaMeta(m, w, p, cols, kvs) && Sits(Mark(|m|), src, 0) && Sits(m, src, 8) && Sits([], src, 8 + |m|)
    requires SchemaAt(p.sc.w, |p.sc.w| - p.sc.at) == Ok(s)
    ensures Open(src) == Ok(Opened(s, 8 + |m|))
  {
    hide MessageStands, SchemaAt, Header, NextMsg, Sits, Mark;
    NextIsRead(src, 0, m, [], 1, |w| - p.sc.at);
    HeaderIsRead(m, 1, 0, |w| - p.sc.at);
    SchemaThere(p.sc.w, m, |w| - |p.sc.w|, |p.sc.w| - p.sc.at);
  }

  function SchemaEnd(cols: seq<Col>, kvs: seq<Pair>): nat {
    8 + |Meta(SchemaOctets(Described(cols), kvs))|
  }

  /** Opening the stream of a table with metadata gives its names, types and metadata back. */
  lemma OpenIsRead(rows: int, cols: seq<Col>, kvs: seq<Pair>)
    requires Carried(rows, cols, kvs) && kvs != []
    ensures Open(Stream(rows, cols, kvs)) == Ok(Opened(Schema(FieldsOf(Described(cols)), kvs), SchemaEnd(cols, kvs)))
  {
    hide SchemaPartsOf, SchemaOctets, BatchOctets, Body, Buffers, Meta, SchemaMeta, Sound, Open, Stream, StreamParts,
         Described, SchemaAt;
    var d := Described(cols);
    StreamIsParts(rows, cols, kvs);
    PartsSitThere(Meta(SchemaOctets(d, kvs)), Meta(BatchOctets(rows, |cols|, Buffers(cols))), Body(Buffers(cols)));
    SchemaMetaHolds(d, kvs);
    SchemaIsRead(d, kvs);
    OpensAt(Stream(rows, cols, kvs), Meta(SchemaOctets(d, kvs)), SchemaOctets(d, kvs), SchemaPartsOf(d, kvs), d, kvs,
            Schema(FieldsOf(d), kvs));
  }

  // ---- the batch comes back ----

  /** What the reader holds of a column once its batch is read. */
  function CellsOf(c: Col): Cells {
    var b := BuffersOf(c);
    if c.data.Strings? then Cells(0, [], b[1], b[2]) else Cells(0, [], [], b[1])
  }

  function AllCells(cols: seq<Col>): (s: seq<Cells>)
    ensures |s| == |cols|
  {
    seq(|cols|, i requires 0 <= i < |cols| => CellsOf(cols[i]))
  }

  function Types(cols: seq<Col>): (s: seq<int>)
    ensures |s| == |cols|
  {
    seq(|cols|, i requires 0 <= i < |cols| => ReadBack(cols[i].ty))
  }

  lemma BuffersSnoc(cols: seq<Col>, j: nat)
    requires j < |cols|
    ensures Buffers(cols[..j + 1]) == Buffers(cols[..j]) + BuffersOf(cols[j])
  {
    hide BuffersOf;
    assert cols[..j + 1][..j] == cols[..j];
  }

  lemma {:induction false} BuffersPrefix(cols: seq<Col>, j: nat)
    requires j <= |cols|
    ensures |Buffers(cols[..j])| <= |Buffers(cols)| && Buffers(cols)[..|Buffers(cols[..j])|] == Buffers(cols[..j])
    decreases |cols| - j
  {
    hide Buffers, BuffersOf;
    if j == |cols| {
      assert cols[..j] == cols;
    } else {
      BuffersPrefix(cols, j + 1);
      BuffersSnoc(cols, j);
      var a := Buffers(cols[..j]);
      assert Buffers(cols)[..|a|] == Buffers(cols)[..|a + BuffersOf(cols[j])|][..|a|];
    }
  }

  /** The buffers of column j, among all. */
  lemma ColumnBuffers(cols: seq<Col>, j: nat, k: nat)
    requires j < |cols| && k < |BuffersOf(cols[j])|
    ensures var b := |Buffers(cols[..j])|; b + k < |Buffers(cols)| && Buffers(cols)[b + k] == BuffersOf(cols[j])[k]
  {
    hide Buffers, BuffersOf;
    BuffersPrefix(cols, j + 1);
    BuffersSnoc(cols, j);
    var a := Buffers(cols[..j]);
    assert Buffers(cols)[..|a + BuffersOf(cols[j])|][|a| + k] == BuffersOf(cols[j])[k];
  }

  lemma CountSnoc(tys: seq<int>, j: nat)
    requires j < |tys|
    ensures BufferCount(tys[..j + 1]) == BufferCount(tys[..j]) + (if tys[j] == STR then 3 else 2)
  {
    assert tys[..j + 1][..j] == tys[..j];
  }

  lemma {:induction false} CountIsBuffers(cols: seq<Col>, j: nat)
    requires j <= |cols| && forall i :: 0 <= i < |cols| ==> Kind(cols[i])
    ensures BufferCount(Types(cols)[..j]) == |Buffers(cols[..j])|
  {
    hide BufferCount, Buffers;
    if j == 0 {
      NoBuffers();
      assert Types(cols)[..0] == [] && cols[..0] == [];
    } else {
      CountIsBuffers(cols, j - 1);
      CountSnoc(Types(cols), j - 1);
      BuffersSnoc(cols, j - 1);
      assert Kind(cols[j - 1]);
    }
  }

  lemma NoBuffers()
    ensures BufferCount([]) == 0 && Buffers([]) == []
  {}

  /** A buffer is read by its number. */
  lemma BufferIsRead(m: seq<Byte>, at: int, b: nat, bs: seq<seq<Byte>>)
    requires b < |bs| && StructsAt(m, at, Layout(bs))
    ensures BufferAt(m, at, b, Body(bs)) == Ok(bs[b])
  {
    hide GetLE, Body;
    assert StructAt(m, at + 16 * b, Layout(bs)[b]);
    BufferStands(bs, b);
  }

  /** One column of the batch is read. */
  lemma ColumnIsRead(m: seq<Byte>, h: Head, rows: int, cols: seq<Col>, j: nat)
    requires j < |cols| && h.rows == rows && forall i :: 0 <= i < |cols| ==> Kind(cols[i])
    requires StructsAt(m, h.nodes.0, Nodes(rows, |cols|)) && StructsAt(m, h.bufs.0, Layout(Buffers(cols)))
    ensures ColumnAt(m, h, Body(Buffers(cols)), Types(cols)[j], j, BufferCount(Types(cols)[..j]))
            == Ok(CellsOf(cols[j]))
  {
    hide GetLE, Body, Buffers, BufferCount, BufferAt, Layout, BuffersOf;
    var bs := Buffers(cols);
    assert Kind(cols[j]) && StructAt(m, h.nodes.0 + 16 * j, Nodes(rows, |cols|)[j]);
    CountIsBuffers(cols, j);
    var b := |Buffers(cols[..j])|;
    ColumnBuffers(cols, j, 0);
    ColumnBuffers(cols, j, 1);
    BufferIsRead(m, h.bufs.0, b, bs);
    BufferIsRead(m, h.bufs.0, b + 1, bs);
    NoValidity(cols[j]);
    if cols[j].data.Strings? {
      ColumnBuffers(cols, j, 2);
      BufferIsRead(m, h.bufs.0, b + 2, bs);
    }
  }

  lemma NoValidity(c: Col)
    ensures BuffersOf(c)[0] == []
  {}

  lemma {:induction false} EachColumnIsRead(m: seq<Byte>, h: Head, rows: int, cols: seq<Col>, n: nat)
    requires n <= |cols| && h.rows == rows && forall i :: 0 <= i < |cols| ==> Kind(cols[i])
    requires StructsAt(m, h.nodes.0, Nodes(rows, |cols|)) && StructsAt(m, h.bufs.0, Layout(Buffers(cols)))
    ensures EachColumn(m, h, Body(Buffers(cols)), Types(cols), n) == Ok(AllCells(cols)[..n])
  {
    hide GetLE, Body, Buffers, BufferCount, BufferAt, Layout, BuffersOf, ColumnAt, CellsOf, StructsAt, Kind;
    if n > 0 {
      EachColumnIsRead(m, h, rows, cols, n - 1);
      ColumnIsRead(m, h, rows, cols, n - 1);
      assert AllCells(cols)[..n] == AllCells(cols)[..n - 1] + [AllCells(cols)[n - 1]];
    }
  }

  lemma ColumnsAreRead(m: seq<Byte>, h: Head, rows: int, cols: seq<Col>)
    requires h.rows == rows && forall i :: 0 <= i < |cols| ==> Kind(cols[i])
    requires StructsAt(m, h.nodes.0, Nodes(rows, |cols|)) && StructsAt(m, h.bufs.0, Layout(Buffers(cols)))
    ensures Columns(m, h, Body(Buffers(cols)), Types(cols)) == Ok(AllCells(cols))
  {
    hide Body, Buffers, Layout, StructsAt, Kind;
    EachColumnIsRead(m, h, rows, cols, |cols|);
    assert AllCells(cols)[..|cols|] == AllCells(cols);
  }

  /** What is written of a table as one batch. */
  function WrittenBatch(rows: int, cols: seq<Col>): Batch {
    Batch(rows, AllCells(cols))
  }

  lemma BatchOfIsRead(m: seq<Byte>, rb: int, len: int, rows: int, cols: seq<Col>)
    requires MessageStands(m, 3, len, rb) && BatchStands(m, rb, rows, |cols|, Layout(Buffers(cols)))
    requires forall i :: 0 <= i < |cols| ==> Kind(cols[i])
    ensures BatchOf(m, Body(Buffers(cols)), Types(cols)) == Ok(WrittenBatch(rows, cols))
  {
    hide MessageStands, Header, HeadAt, Body, Buffers, Layout, StructsAt, Kind, BufferCount, Columns;
    HeaderIsRead(m, 3, len, rb);
    CountIsBuffers(cols, |cols|);
    assert Types(cols)[..|cols|] == Types(cols) && cols[..|cols|] == cols;
    ColumnsAreRead(m, HeadAt(m, rb).value, rows, cols);
  }

  /** The batch message's metadata. */
  predicate BatchMeta(m: seq<Byte>, w: seq<Byte>, b: Built, rows: int, n: nat, bs: seq<seq<Byte>>) {
    && MessageStands(m, 3, |Body(bs)|, |w| - b.at) && 0 < |m| < 0x8000_0000
    && BatchStands(m, |w| - b.at, rows, n, Layout(bs))
  }

  lemma BatchMetaHolds(rows: int, n: nat, bs: seq<seq<Byte>>)
    requires Fits(rows, 8) && |Body(bs)| < 0x4000_0000_0000_0000 && |bs| <= 3 * n && n < 0x40_0000
    ensures var w := BatchOctets(rows, n, bs); BatchMeta(Meta(w), w, BatchTable(rows, n, Layout(bs)), rows, n, bs)
  {
    hide BatchTable, FinishedRoot, MessageStands, BatchStands, Fits, Sits, Body, AllFit;
    var b := BatchTable(rows, n, Layout(bs));
    LayoutFits(bs);
    BatchIsRead(rows, n, Layout(bs));
    LengthFits(|Body(bs)|);
    FinishedIsRead(b, 3, Just(|Body(bs)|), 8);
    var w := BatchOctets(rows, n, bs);
    BatchThere(b.w, Meta(w), |w| - |b.w|, |b.w| - b.at, rows, n, Layout(bs));
  }

  lemma LengthFits(n: nat)
    requires n < 0x4000_0000_0000_0000
    ensures Fits(n, 8)
  {
    Powers();
  }

  lemma {:induction false} BuffersFew(cols: seq<Col>)
    ensures |Buffers(cols)| <= 3 * |cols|
  {
    if cols != [] {
      BuffersFew(cols[..|cols| - 1]);
    }
  }

  function BatchEnd(rows: int, cols: seq<Col>, kvs: seq<Pair>): nat {
    hide BatchOctets, Body, Buffers;
    SchemaEnd(cols, kvs) + 8 + |Meta(BatchOctets(rows, |cols|, Buffers(cols)))| + |Body(Buffers(cols))|
  }

  lemma NextAtIsRead(src: seq<Byte>, pos: nat, m: seq<Byte>, w: seq<Byte>, b: Built, rows: int, cols: seq<Col>)
    requires BatchMeta(m, w, b, rows, |cols|, Buffers(cols)) && forall i :: 0 <= i < |cols| ==> Kind(cols[i])
    requires Sits(Mark(|m|), src, pos) && Sits(m, src, pos + 8) && Sits(Body(Buffers(cols)), src, pos + 8 + |m|)
    ensures NextBatch(src, pos, Types(cols)) == Ok(Got(WrittenBatch(rows, cols), pos + 8 + |m| + |Body(Buffers(cols))|))
  {
    hide MessageStands, BatchStands, BatchOf, NextMsg, Sits, Mark, Body, Buffers, Kind;
    NextIsRead(src, pos, m, Body(Buffers(cols)), 3, |w| - b.at);
    BatchOfIsRead(m, |w| - b.at, |Body(Buffers(cols))|, rows, cols);
  }

  lemma FewColumns(cols: seq<Col>, kvs: seq<Pair>)
    requires Sound(Described(cols), kvs)
    ensures |cols| < 0x40_0000
  {
    hide Names, Texts, MetaBytes, NameBytes;
  }

  /** From pos the stream holds that one batch, and from `end` nothing more. */
  predicate BatchOnce(s: seq<Byte>, pos: nat, end: nat, rows: int, cols: seq<Col>) {
    NextBatch(s, pos, Types(cols)) == Ok(Got(WrittenBatch(rows, cols), end))
        && NextBatch(s, end, Types(cols)) == Ok(Ended)
  }

  lemma OnceHolds(src: seq<Byte>, x: seq<Byte>, y: seq<Byte>, w: seq<Byte>, b: Built, rows: int, cols: seq<Col>)
    requires PartsSit(src, x, y, Body(Buffers(cols))) && BatchMeta(y, w, b, rows, |cols|, Buffers(cols))
    requires forall i :: 0 <= i < |cols| ==> Kind(cols[i])
    ensures BatchOnce(src, 8 + |x|, 16 + |x| + |y| + |Body(Buffers(cols))|, rows, cols)
  {
    hide Body, Buffers, BatchMeta, Sits, Mark, Kind, NextMsg, WrittenBatch, NextBatch, Types;
    NextAtIsRead(src, 8 + |x|, y, w, b, rows, cols);
    NothingMore(src, 16 + |x| + |y| + |Body(Buffers(cols))|, Types(cols));
  }

  lemma NothingMore(src: seq<Byte>, pos: nat, tys: seq<int>)
    requires Sits(Mark(0), src, pos)
    ensures NextBatch(src, pos, tys) == Ok(Ended)
  {
    hide NextMsg, Mark, Sits;
    EndIsRead(src, pos);
  }

  lemma BatchEndIs(rows: int, cols: seq<Col>, kvs: seq<Pair>)
    ensures SchemaEnd(cols, kvs) == 8 + |Meta(SchemaOctets(Described(cols), kvs))|
    ensures BatchEnd(rows, cols, kvs) == 16 + |Meta(SchemaOctets(Described(cols), kvs))|
                                         + |Meta(BatchOctets(rows, |cols|, Buffers(cols)))| + |Body(Buffers(cols))|
  {
    hide SchemaOctets, BatchOctets, Body, Buffers, Meta, Described;
  }

  predicate BatchMetaStands(rows: int, cols: seq<Col>, bs: seq<seq<Byte>>) {
    hide BatchOctets, Meta, BatchTable, BatchMeta, Layout;
    var w := BatchOctets(rows, |cols|, bs);
    BatchMeta(Meta(w), w, BatchTable(rows, |cols|, Layout(bs)), rows, |cols|, bs)
  }

  lemma BatchMetaOf(rows: int, cols: seq<Col>, kvs: seq<Pair>)
    requires Carried(rows, cols, kvs)
    ensures BatchMetaStands(rows, cols, Buffers(cols))
  {
    hide BatchOctets, Body, Buffers, Meta, Sound, Described, BatchMeta, BatchTable, Fits, Kind, Layout;
    FewColumns(cols, kvs);
    BuffersFew(cols);
    BatchMetaHolds(rows, |cols|, Buffers(cols));
  }

  /** The batch message gives every column back; then the stream is at its end. */
  lemma NextBatchIsRead(rows: int, cols: seq<Col>, kvs: seq<Pair>)
    requires Carried(rows, cols, kvs)
    ensures BatchOnce(Stream(rows, cols, kvs), SchemaEnd(cols, kvs), BatchEnd(rows, cols, kvs), rows, cols)
  {
    hide SchemaOctets, BatchOctets, Body, Buffers, Meta, Sound, Stream, StreamParts, Described, BatchMeta, BatchTable,
         Fits, Kind, Layout,
         PartsSit, BatchOnce, SchemaEnd, BatchEnd;
    StreamIsParts(rows, cols, kvs);
    BatchMetaOf(rows, cols, kvs);
    BatchEndIs(rows, cols, kvs);
    var (x, y) := (Meta(SchemaOctets(Described(cols), kvs)), Meta(BatchOctets(rows, |cols|, Buffers(cols))));
    PartsSitThere(x, y, Body(Buffers(cols)));
    OnceHolds(Stream(rows, cols, kvs), x, y, BatchOctets(rows, |cols|, Buffers(cols)),
              BatchTable(rows, |cols|, Layout(Buffers(cols))), rows, cols);
  }

  // ---- a table without metadata ----

  lemma LinkThere(m: seq<Byte>, w: seq<Byte>, d: nat, sc: int, at: int, n: Read<int>)
    requires Sits(m, w, d) && MisreadLink(m, sc, at, n) && at >= 0
    ensures MisreadLink(w, sc + d, at + d, n)
  {
    hide FbVec, Sits;
    VecThere(m, w, d, sc, 2);
  }

  /** What opening takes from metadata whose pairs are linked so. */
  lemma PairsOfSchema(m: seq<Byte>, sc: int, at: int, n: Read<int>)
    requires MisreadLink(m, sc, at, n) && SchemaAt(m, sc).Ok?
    ensures |SchemaAt(m, sc).value.pairs| == n.value && (n.value > 0 ==> at + 4 + 4 * n.value <= |m|)
  {
    hide FbInt, FbVec, EachRead, EachPair;
    PairsHaveRoom(m, at + 4, n.value);
  }

  lemma MisreadHere(cols: seq<ArrowSchema.Column>)
    requires Sound(cols, [])
    ensures var (w, p) := (SchemaOctets(cols, []), SchemaPartsOf(cols, []));
            SchemaMeta(Meta(w), w, p, cols, []) && |p.fv| <= |w|
            && MisreadLink(Meta(w), |w| - p.sc.at, |w| - |p.fv| + |cols|, Misread(cols))
  {
    hide SchemaPartsOf, SchemaOctets, Meta, Misread, MisreadLink, Sits, MessageStands, Ext, FieldsStand, VectorStands;
    SchemaMetaHolds(cols, []);
    MisreadIsLinked(cols);
    SchemaPrefix(cols);
    var (w, p) := (SchemaOctets(cols, []), SchemaPartsOf(cols, []));
    ExtShorter(p.fv, p.sc.w);
    LinkThere(p.sc.w, Meta(w), |w| - |p.sc.w|, |p.sc.w| - p.sc.at, |p.sc.w| - |p.fv| + |cols|, Misread(cols));
  }

  /** Opened, the pairs are as many as was misread. */
  lemma OpenedPairs(src: seq<Byte>, m: seq<Byte>, w: seq<Byte>, p: SchemaParts, cols: seq<ArrowSchema.Column>,
      at: int, n: Read<int>)
    requires SchemaMeta(m, w, p, cols, []) && Sits(Mark(|m|), src, 0) && Sits(m, src, 8) && Sits([], src, 8 + |m|)
    requires MisreadLink(m, |w| - p.sc.at, at, n) && at >= 0 && Open(src).Ok?
    ensures |Open(src).value.schema.pairs| == n.value && (n.value > 0 ==> 4 * n.value <= |m|)
  {
    hide MessageStands, SchemaAt, Header, NextMsg, Sits, Mark, MisreadLink;
    NextIsRead(src, 0, m, [], 1, |w| - p.sc.at);
    HeaderIsRead(m, 1, 0, |w| - p.sc.at);
    MisreadCounts(m, |w| - p.sc.at, at, n);
    PairsOfSchema(m, |w| - p.sc.at, at, n);
  }

  lemma MisreadCounts(m: seq<Byte>, sc: int, at: int, n: Read<int>)
    requires MisreadLink(m, sc, at, n)
    ensures n.Ok? && n.value >= 0
  {}

  predicate ComesBack(rows: int, cols: seq<Col>, kvs: seq<Pair>) {
    Open(Stream(rows, cols, kvs)) == Ok(Opened(Schema(FieldsOf(Described(cols)), kvs), SchemaEnd(cols, kvs)))
  }

  /**
   * A table without metadata comes back if and only if the reader does not notice: it has no columns,
   * or two or three and the low octets of the first one's distance are 0. Opening it otherwise fails
   * or answers pairs that were never written.
   */
  lemma OpenWithoutPairs(rows: int, cols: seq<Col>)
    requires Carried(rows, cols, [])
    ensures ComesBack(rows, cols, []) <==> Unnoticed(Described(cols))
  {
    hide SchemaPartsOf, SchemaOctets, BatchOctets, Body, Buffers, Meta, SchemaMeta, Sound, Open, Stream, StreamParts,
         Described, SchemaAt,
         Misread, MisreadLink, Sits, Mark, Unnoticed;
    var d := Described(cols);
    MisreadIsNothing(d);
    var (w, p, src) := (SchemaOctets(d, []), SchemaPartsOf(d, []), Stream(rows, cols, []));
    StreamIsParts(rows, cols, []);
    PartsSitThere(Meta(w), Meta(BatchOctets(rows, |cols|, Buffers(cols))), Body(Buffers(cols)));
    MisreadHere(d);
    SchemaWithoutPairs(d);
    MisreadCounts(Meta(w), |w| - p.sc.at, |w| - |p.fv| + |d|, Misread(d));
    if Misread(d) == Ok(0) {
      OpensAt(src, Meta(w), w, p, d, [], Schema(FieldsOf(d), []));
    } else if Open(src).Ok? {
      OpenedPairs(src, Meta(w), w, p, d, |w| - |p.fv| + |d|, Misread(d));
    }
  }

  /** A table of one column and no metadata is refused: the reader looks for over three hundred million pairs. */
  lemma OneColumnRefused(rows: int, c: Col)
    requires Carried(rows, [c], []) && RoomFor(Described([c]), []) < 0x4000_0000
    ensures Open(Stream(rows, [c], [])).Err?
  {
    hide SchemaPartsOf, SchemaOctets, BatchOctets, Body, Buffers, Meta, SchemaMeta, Sound, Open, Stream, StreamParts,
         Described, SchemaAt,
         Misread, MisreadLink, Sits, Mark, RoomFor;
    var d := Described([c]);
    var (w, p, src) := (SchemaOctets(d, []), SchemaPartsOf(d, []), Stream(rows, [c], []));
    StreamIsParts(rows, [c], []);
    PartsSitThere(Meta(w), Meta(BatchOctets(rows, 1, Buffers([c]))), Body(Buffers([c])));
    MisreadHere(d);
    OneDescribed(c);
    OneColumnNoPairs(d[0]);
    SchemaMetaSmall(d);
    if Open(src).Ok? {
      OpenedPairs(src, Meta(w), w, p, d, |w| - |p.fv| + |d|, Misread(d));
    }
  }

  lemma OneDescribed(c: Col)
    ensures |Described([c])| == 1 && Described([c]) == [Described([c])[0]]
  {}

  lemma SchemaMetaSmall(cols: seq<ArrowSchema.Column>)
    requires Sound(cols, [])
    ensures |Meta(SchemaOctets(cols, []))| < RoomFor(cols, [])
  {
    hide SchemaPartsOf, FinishedRoot, MessageStands, Fits, Sits, RoomFor;
    SchemaFits(cols, []);
    Small(0, 8);
    SoundRoom(cols);
    FinishedIsRead(SchemaPartsOf(cols, []).sc, 1, Nothing, 4);
  }

  lemma SoundRoom(cols: seq<ArrowSchema.Column>)
    requires Sound(cols, [])
    ensures RoomFor(cols, []) < 0x8000_0000
  {}
}
