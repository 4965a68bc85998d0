/**
 * Whole messages: the schema message with its root table, how a message is finished, and what the
 * reader makes of its header.
 */
module ArrowMessage {
  import opened ArrowBytes
  import opened ArrowTables
  import opened ArrowBuild
  import opened ArrowSchema

  datatype Schema = Schema(fields: seq<Field>, pairs: seq<Pair>)

  // ---- reading a schema table ----

  function EachRead(m: seq<Byte>, at: int, n: int): Read<seq<Field>>
    decreases n
  {
    if n <= 0 then Ok([])
    else
      var before :- EachRead(m, at, n - 1);
      var f :- FbRef(m, at + 4 * (n - 1));
      var field :- SchemaField(m, f);
      Ok(before + [field])
  }

  function EachPair(m: seq<Byte>, at: int, n: int): Read<seq<Pair>>
    decreases n
  {
    if n <= 0 then Ok([])
    else
      var before :- EachPair(m, at, n - 1);
      var kv :- FbRef(m, at + 4 * (n - 1));
      var pair :- KvAt(m, kv);
      Ok(before + [pair])
  }

  /** The first n fields of a vector of field tables. */
  function FieldsRead(m: seq<Byte>, at: int, n: int): Read<seq<Field>> {
    EachRead(m, at, n)
  }

  function PairsRead(m: seq<Byte>, at: int, n: int): Read<seq<Pair>> {
    EachPair(m, at, n)
  }

  /** The schema table at sc, or what is wrong with it. */
  function SchemaAt(m: seq<Byte>, sc: int): Read<Schema> {
    var endian :- FbInt(m, sc, 0, 2, true, 0);
    if endian != 0 then Err(BadArg)
    else
      var fv :- FbVec(m, sc, 1);
      var fields :- FieldsRead(m, fv.0, fv.1);
      var mv :- FbVec(m, sc, 2);
      var pairs :- PairsRead(m, mv.0, mv.1);
      Ok(Schema(fields, pairs))
  }

  /** Where a message's header table stands. */
  function Header(m: seq<Byte>): Read<int> {
    var root :- GetLE(m, 0, 4, false);
    var at :- FbField(m, root, 2);
    FbRef(m, at)
  }

  // ---- the same, wherever the message lies ----

  lemma {:induction false} EachReadThere(m: seq<Byte>, w: seq<Byte>, d: nat, at: int, n: int)
    requires Sits(m, w, d) && EachRead(m, at, n).Ok?
    ensures EachRead(w, at + d, n) == EachRead(m, at, n)
    decreases n
  {
    hide FbRef, SchemaField, Sits;
    if n > 0 {
      EachReadThere(m, w, d, at, n - 1);
      RefThere(m, w, d, at + 4 * (n - 1));
      SchemaFieldThere(m, w, d, FbRef(m, at + 4 * (n - 1)).value);
    }
  }

  lemma {:induction false} EachPairThere(m: seq<Byte>, w: seq<Byte>, d: nat, at: int, n: int)
    requires Sits(m, w, d) && EachPair(m, at, n).Ok?
    ensures EachPair(w, at + d, n) == EachPair(m, at, n)
    decreases n
  {
    hide FbRef, KvAt, Sits;
    if n > 0 {
      EachPairThere(m, w, d, at, n - 1);
      RefThere(m, w, d, at + 4 * (n - 1));
      KvThere(m, w, d, FbRef(m, at + 4 * (n - 1)).value);
    }
  }

  lemma {:induction false} NothingRead(m: seq<Byte>, n: int)
    requires n <= 0
    ensures FieldsRead(m, -1, n) == Ok([]) && PairsRead(m, -1, n) == Ok([])
  {}

  lemma SchemaThere(m: seq<Byte>, w: seq<Byte>, d: nat, sc: int)
    requires Sits(m, w, d) && SchemaAt(m, sc).Ok?
    ensures SchemaAt(w, sc + d) == SchemaAt(m, sc)
  {
    hide FbInt, FbVec, EachRead, EachPair, Sits;
    IntThere(m, w, d, sc, 0, 2, true, 0);
    VecThere(m, w, d, sc, 1);
    VecThere(m, w, d, sc, 2);
    var fv, mv := FbVec(m, sc, 1).value, FbVec(m, sc, 2).value;
    VecShape(m, sc, 1);
    VecShape(m, sc, 2);
    if fv.0 >= 0 {
      EachReadThere(m, w, d, fv.0, fv.1);
    } else {
      NothingRead(m, fv.1);
      NothingRead(w, fv.1);
    }
    if mv.0 >= 0 {
      EachPairThere(m, w, d, mv.0, mv.1);
    } else {
      NothingRead(m, mv.1);
      NothingRead(w, mv.1);
    }
  }

  lemma VecShape(m: seq<Byte>, tbl: int, id: nat)
    requires FbVec(m, tbl, id).Ok?
    ensures var (at, n) := FbVec(m, tbl, id).value; at >= -1 && (at < 0 ==> n == 0)
  {
    hide FbField;
    if FbField(m, tbl, id).value >= 0 {
      var at := FbField(m, tbl, id).value;
      GotInside(m, FbRef(m, at).value, 4, false);
    }
  }

  // ---- the schema message ----

  /** The octets in use after each step of the schema message. */
  datatype SchemaParts = SchemaParts(fields: Several, fv: seq<Byte>, kvs: Several, mv: seq<Byte>,
                                     toMeta: seq<Byte>, toFields: seq<Byte>, sc: Built)

  function SchemaPartsOf(cols: seq<Column>, kvs: seq<Pair>): SchemaParts {
    hide Fields, Kvs, Vector, Ref;
    var f := Fields([], cols);
    var fv := Vector(f.w, f.ats);
    var k := if kvs == [] then Several(fv, []) else Kvs(fv, kvs);
    var mv := if kvs == [] then fv else Vector(k.w, k.ats);
    var toMeta := if kvs == [] then mv else Ref(mv, |mv|);
    var toFields := Ref(toMeta, |fv|);
    SchemaParts(f, fv, k, mv, toMeta, toFields, Close(toFields, [0, |toFields|, |toMeta|], |mv|))
  }

  /** A message's root table: its version, kind, header and, if it is not 0, body length. */
  datatype RootParts = RootParts(len: seq<Byte>, toHeader: seq<Byte>, kind: seq<Byte>, version: seq<Byte>)

  function RootPartsOf(header: Built, kind: nat, bodyLen: Wrapped): RootParts {
    hide Put, Ref;
    var l := if bodyLen.Just? then Put(header.w, bodyLen.len, 8) else header.w;
    var h := Ref(l, header.at);
    var k := Put(h, kind, 1);
    RootParts(l, h, k, Put(k, 4, 2))
  }

  /** The body length field: only a batch writes one. */
  datatype Wrapped = Nothing | Just(len: int)

  function Root(header: Built, kind: nat, bodyLen: Wrapped): Built {
    var p := RootPartsOf(header, kind, bodyLen);
    Close(p.version, [|p.version|, |p.kind|, |p.toHeader|, if bodyLen.Just? then |p.len| else 0], |header.w|)
  }

  function SchemaMsg(cols: seq<Column>, kvs: seq<Pair>): Built {
    Root(SchemaPartsOf(cols, kvs).sc, 1, Nothing)
  }

  /** The message's first word, an offset to its root. */
  function Finish(u: seq<Byte>, align: nat, root: nat): (w: seq<Byte>)
    requires Size(align)
  {
    Ref(Padded(u, align, 4), root)
  }

  // ---- a message's root is read ----

  /** A field links to a place. */
  predicate LinkTo(m: seq<Byte>, tbl: int, id: nat, to: int) {
    FbField(m, tbl, id).Ok? && FbField(m, tbl, id).value >= 0 && FbRef(m, FbField(m, tbl, id).value) == Ok(to)
  }

  /** The root table at b says so: this kind, this body length, its header there. */
  predicate RootStands(m: seq<Byte>, root: int, kind: nat, len: int, header: int) {
    && FbInt(m, root, 1, 1, false, 0) == Ok(kind) && FbInt(m, root, 3, 8, true, 0) == Ok(len)
    && LinkTo(m, root, 2, header)
  }

  function LengthOf(bodyLen: Wrapped): int {
    if bodyLen.Just? then bodyLen.len else 0
  }

  function RootSlots(p: RootParts, bodyLen: Wrapped): seq<nat> {
    [|p.version|, |p.kind|, |p.toHeader|, if bodyLen.Just? then |p.len| else 0]
  }

  predicate RootSteps(p: RootParts, header: Built, kind: nat, bodyLen: Wrapped) {
    && Ext(header.w, p.len) && Ext(p.len, p.toHeader) && Ext(p.toHeader, p.kind) && Ext(p.kind, p.version)
    && |header.w| <= |p.len| < |header.w| + 16 && |p.len| + 4 <= |p.toHeader| < |p.len| + 8
    && |p.kind| == |p.toHeader| + 1 && |p.kind| + 2 <= |p.version| < |p.kind| + 4
    && (bodyLen.Just? ==> 8 <= |p.len| && p.len[..8] == Little(bodyLen.len, 8))
    && p.toHeader[..4] == Little(|p.toHeader| - header.at, 4) && p.kind[..1] == Little(kind, 1)
  }

  lemma RootChain(header: Built, kind: nat, bodyLen: Wrapped)
    ensures RootSteps(RootPartsOf(header, kind, bodyLen), header, kind, bodyLen)
  {
    hide Put, Ref, Little, Over, Whole;
    ExtSelf(header.w);
  }

  lemma RootNear(p: RootParts, header: Built, kind: nat, bodyLen: Wrapped)
    requires RootSteps(p, header, kind, bodyLen)
    ensures Near(p.version, RootSlots(p, bodyLen))
  {
    hide Little, Ext;
  }

  lemma RootStay(header: Built, kind: nat, bodyLen: Wrapped)
    ensures var p := RootPartsOf(header, kind, bodyLen);
            Ext(header.w, p.version) && Ext(p.len, p.version) && Ext(p.toHeader, p.version) && Ext(p.kind, p.version)
  {
    hide RootPartsOf, Ext, Near, Little, RootSlots;
    RootChain(header, kind, bodyLen);
    var p := RootPartsOf(header, kind, bodyLen);
    assert RootSteps(p, header, kind, bodyLen);
    ExtTransitive(p.toHeader, p.kind, p.version);
    ExtTransitive(p.len, p.toHeader, p.version);
    ExtTransitive(header.w, p.len, p.version);
  }

  /** The root of a message stands, with its header as it was. */
  predicate RootBuilt(b: Built, header: Built, kind: nat, len: int) {
    && RootStands(b.w, |b.w| - b.at, kind, len, |b.w| - header.at)
    && Grown(header.w, b, 0, 60)
  }

  predicate LengthStands(b: Built, len: int) {
    FbInt(b.w, |b.w| - b.at, 3, 8, true, 0) == Ok(len)
  }

  lemma LengthIsRead(header: Built, kind: nat, bodyLen: Wrapped)
    requires Fits(LengthOf(bodyLen), 8)
    ensures LengthStands(Root(header, kind, bodyLen), LengthOf(bodyLen))
  {
    hide RootPartsOf, Ext, Near, Little, Close, FbInt, FbField, Fits, GetLE;
    RootChain(header, kind, bodyLen);
    RootStay(header, kind, bodyLen);
    var p := RootPartsOf(header, kind, bodyLen);
    RootNear(p, header, kind, bodyLen);
    if bodyLen.Just? {
      ScalarField(p.len, p.version, RootSlots(p, bodyLen), |header.w|, 3, 8, true, bodyLen.len, 0);
    } else {
      AbsentField(p.version, RootSlots(p, bodyLen), |header.w|, 3);
      AbsentInt(Root(header, kind, bodyLen), 3, 8, true, 0);
    }
  }

  lemma AbsentInt(b: Built, id: nat, k: nat, signed: bool, otherwise: int)
    requires k > 0 && FbField(b.w, |b.w| - b.at, id) == Ok(-1)
    ensures FbInt(b.w, |b.w| - b.at, id, k, signed, otherwise) == Ok(otherwise)
  {
    hide FbField;
  }

  lemma RootIsRead(header: Built, kind: nat, bodyLen: Wrapped)
    requires kind < 128 && Fits(LengthOf(bodyLen), 8) && header.at <= |header.w| < 0x8000_0000
    ensures RootBuilt(Root(header, kind, bodyLen), header, kind, LengthOf(bodyLen))
  {
    hide RootPartsOf, Ext, Near, Little, Close, FbInt, FbField, FbRef, Fits;
    RootChain(header, kind, bodyLen);
    RootStay(header, kind, bodyLen);
    LengthIsRead(header, kind, bodyLen);
    var p := RootPartsOf(header, kind, bodyLen);
    RootNear(p, header, kind, bodyLen);
    Small(kind, 1);
    ScalarField(p.kind, p.version, RootSlots(p, bodyLen), |header.w|, 1, 1, false, kind, 0);
    LinkField(p.toHeader, p.version, RootSlots(p, bodyLen), |header.w|, 2, header.at);
    CloseShape(header.w, p.version, RootSlots(p, bodyLen), |header.w|);
    ExtShorter(p.toHeader, Root(header, kind, bodyLen).w);
  }

  lemma ExtShorter(u: seq<Byte>, w: seq<Byte>)
    requires Ext(u, w)
    ensures |u| <= |w|
  {}

  lemma RootThere(m: seq<Byte>, w: seq<Byte>, d: nat, root: int, kind: nat, len: int, header: int)
    requires Sits(m, w, d) && RootStands(m, root, kind, len, header)
    ensures RootStands(w, root + d, kind, len, header + d)
  {
    hide FbInt, FbField, FbRef, Sits;
    IntThere(m, w, d, root, 1, 1, false, 0);
    IntThere(m, w, d, root, 3, 8, true, 0);
    FieldThere(m, w, d, root, 2);
    RefThere(m, w, d, FbField(m, root, 2).value);
  }

  lemma FinishIsRead(b: Built, align: nat)
    requires Size(align) && b.at <= |b.w| < 0x8000_0000
    ensures var w := Finish(b.w, align, b.at);
            Ext(b.w, w) && |b.w| + 4 <= |w| < |b.w| + 16 && GetLE(w, 0, 4, false) == Ok(|w| - b.at)
  {
    hide Little, GetLE, Ext, Ref, Padded;
    var p := Padded(b.w, align, 4);
    var w := Finish(b.w, align, b.at);
    ExtTransitive(b.w, p, w);
    ExtShorter(b.w, p);
    Powers();
    assert w[0..4] == w[..4];
    GetWritten(w, 0, 4, false, |w| - b.at);
  }

  // ---- the schema table is read ----

  function FieldsOf(cols: seq<Column>): (f: seq<Field>)
    ensures |f| == |cols|
  {
    seq(|cols|, i requires 0 <= i < |cols| => ArrowSchema.FieldOf(cols[i]))
  }

  lemma {:induction false} EachIsRead(w: seq<Byte>, v: nat, ats: seq<nat>, cols: seq<Column>, i: nat)
    requires i <= |cols| && VectorStands(w, v, ats) && FieldsStand(w, ats, cols)
    ensures EachRead(w, |w| - v + 4, i) == Ok(FieldsOf(cols[..i]))
  {
    hide FbRef, SchemaField, GetLE;
    if i > 0 {
      EachIsRead(w, v, ats, cols, i - 1);
      assert LinkStands(w, v, i - 1, ats[i - 1]) && FieldStands(w, ats[i - 1], cols[i - 1]);
      assert FieldsOf(cols[..i]) == FieldsOf(cols[..i - 1]) + [ArrowSchema.FieldOf(cols[i - 1])];
    }
  }

  lemma {:induction false} EachPairIsRead(w: seq<Byte>, v: nat, ats: seq<nat>, kvs: seq<Pair>, i: nat)
    requires i <= |kvs| && VectorStands(w, v, ats) && KvsStand(w, ats, kvs)
    ensures EachPair(w, |w| - v + 4, i) == Ok(kvs[..i])
  {
    hide FbRef, KvAt, GetLE;
    if i > 0 {
      EachPairIsRead(w, v, ats, kvs, i - 1);
      assert LinkStands(w, v, i - 1, ats[i - 1]) && KvStands(w, ats[i - 1], kvs[i - 1]);
      assert kvs[..i] == kvs[..i - 1] + [kvs[i - 1]];
    }
  }

  /** The room the writer takes for the metadata of a table. */
  function RoomFor(cols: seq<Column>, kvs: seq<Pair>): nat {
    8192 + 512 * (|cols| + 1) + MetaBytes(kvs) + NameBytes(cols)
  }

  /** A table the format can carry: its strings are text, and offsets of four octets reach all of the metadata. */
  predicate Sound(cols: seq<Column>, kvs: seq<Pair>) {
    Names(cols) && Texts(kvs) && RoomFor(cols, kvs) < 0x8000_0000
  }

  predicate FieldSteps(p: SchemaParts, cols: seq<Column>) {
    && |p.fields.w| <= NameBytes(cols) + 88 * |cols| && FieldsStand(p.fields.w, p.fields.ats, cols)
       && Ext(p.fields.w, p.fv)
    && VectorStands(p.fv, |p.fv|, p.fields.ats) && 4 <= |p.fv| && p.fv[..4] == Little(|cols|, 4)
    && |p.fv| < |p.fields.w| + 4 * |cols| + 8 && |p.fv| > |p.fields.w|
  }

  predicate KvSteps(p: SchemaParts, kvs: seq<Pair>) {
    && |p.kvs.w| + 4 * |kvs| <= |p.fv| + MetaBytes(kvs) && KvsStand(p.kvs.w, p.kvs.ats, kvs)
    && Ext(p.fv, p.kvs.w) && Ext(p.kvs.w, p.mv)
    && VectorStands(p.mv, |p.mv|, p.kvs.ats) && 4 <= |p.mv| && p.mv[..4] == Little(|kvs|, 4)
    && |p.mv| < |p.kvs.w| + 4 * |kvs| + 8
  }

  predicate LinkSteps(p: SchemaParts, kvs: seq<Pair>) {
    && Ext(p.mv, p.toMeta) && Ext(p.toMeta, p.toFields) && 4 <= |p.toFields| && |p.toFields| < |p.toMeta| + 8
    && p.toFields[..4] == Little(|p.toFields| - |p.fv|, 4) && |p.mv| <= |p.toMeta| < |p.toFields|
    && (kvs != [] ==>
          && 4 <= |p.toMeta| && p.toMeta[..4] == Little(|p.toMeta| - |p.mv|, 4)
          && |p.mv| < |p.toMeta| < |p.mv| + 8)
    && (kvs == [] ==> p.toMeta == p.mv == p.fv)
  }

  lemma FieldStepsHold(cols: seq<Column>, kvs: seq<Pair>)
    requires Sound(cols, kvs)
    ensures FieldSteps(SchemaPartsOf(cols, kvs), cols)
  {
    hide Vector, Ref, Close, Kvs, FieldsStand, VectorStands, Little, Ext, IsStr;
    EachFieldStands([], cols);
    var f := Fields([], cols);
    FieldsInside(f.w, f.ats, cols);
    VectorIsRead(f.w, f.ats);
  }

  lemma FieldsInside(w: seq<Byte>, ats: seq<nat>, cols: seq<Column>)
    requires FieldsStand(w, ats, cols)
    ensures |ats| == |cols| && forall i :: 0 <= i < |ats| ==> ats[i] <= |w|
  {
    hide SchemaField;
    forall i | 0 <= i < |ats| ensures ats[i] <= |w| {
      assert FieldStands(w, ats[i], cols[i]);
    }
  }

  lemma KvsInside(w: seq<Byte>, ats: seq<nat>, kvs: seq<Pair>)
    requires KvsStand(w, ats, kvs)
    ensures |ats| == |kvs| && forall i :: 0 <= i < |ats| ==> ats[i] <= |w|
  {
    hide KvAt;
    forall i | 0 <= i < |ats| ensures ats[i] <= |w| {
      assert KvStands(w, ats[i], kvs[i]);
    }
  }

  lemma KvStepsHold(cols: seq<Column>, kvs: seq<Pair>)
    requires Sound(cols, kvs) && kvs != []
    ensures KvSteps(SchemaPartsOf(cols, kvs), kvs)
  {
    hide Vector, Ref, Close, Fields, KvsStand, FieldsStand, VectorStands, Little, Ext, IsStr;
    FieldStepsHold(cols, kvs);
    var p := SchemaPartsOf(cols, kvs);
    EachKvStands(p.fv, kvs);
    KvsInside(p.kvs.w, p.kvs.ats, kvs);
    VectorIsRead(p.kvs.w, p.kvs.ats);
  }

  lemma LinkStepsHold(cols: seq<Column>, kvs: seq<Pair>)
    ensures LinkSteps(SchemaPartsOf(cols, kvs), kvs)
  {
    hide Vector, Ref, Close, Fields, Kvs, Little;
    var p := SchemaPartsOf(cols, kvs);
    ExtSelf(p.mv);
  }

  function SchemaSlots(p: SchemaParts): seq<nat> {
    [0, |p.toFields|, |p.toMeta|]
  }

  /** Everything the schema table links to stands in it. */
  predicate SchemaStands(p: SchemaParts, cols: seq<Column>, kvs: seq<Pair>) {
    && FieldsStand(p.sc.w, p.fields.ats, cols) && VectorStands(p.sc.w, |p.fv|, p.fields.ats)
    && (kvs != [] ==> KvsStand(p.sc.w, p.kvs.ats, kvs) && VectorStands(p.sc.w, |p.mv|, p.kvs.ats))
  }

  /** The schema table's own fields. */
  predicate SchemaLinks(p: SchemaParts, cols: seq<Column>, kvs: seq<Pair>) {
    var sc := |p.sc.w| - p.sc.at;
    && FbInt(p.sc.w, sc, 0, 2, true, 0) == Ok(0)
    && FbVec(p.sc.w, sc, 1) == Ok((|p.sc.w| - |p.fv| + 4, |cols|))
    && (kvs != [] ==> FbVec(p.sc.w, sc, 2) == Ok((|p.sc.w| - |p.mv| + 4, |kvs|)))
  }

  lemma ScIs(cols: seq<Column>, kvs: seq<Pair>)
    ensures var p := SchemaPartsOf(cols, kvs); p.sc == Close(p.toFields, SchemaSlots(p), |p.mv|)
  {
    hide Vector, Ref, Close, Fields, Kvs;
  }

  /** The octets of the schema table in all. */
  predicate SchemaSize(p: SchemaParts, cols: seq<Column>, kvs: seq<Pair>) {
    && |p.fv| <= |p.mv| <= |p.toMeta| < |p.toFields| < p.sc.at <= |p.sc.w|
    && |p.sc.w| < NameBytes(cols) + 92 * |cols| + MetaBytes(kvs) + 60
    && Ext(p.fv, p.mv) && Ext(p.mv, p.toMeta) && Ext(p.toMeta, p.toFields) && Ext(p.toFields, p.sc.w)
  }

  lemma SchemaSizeHolds(cols: seq<Column>, kvs: seq<Pair>)
    requires Sound(cols, kvs)
    ensures SchemaSize(SchemaPartsOf(cols, kvs), cols, kvs)
  {
    hide SchemaPartsOf, Close, FieldsStand, KvsStand, VectorStands, Little, Ext, IsStr;
    var p := SchemaPartsOf(cols, kvs);
    FieldStepsHold(cols, kvs);
    LinkStepsHold(cols, kvs);
    if kvs != [] {
      KvStepsHold(cols, kvs);
      ExtShorter(p.fv, p.kvs.w);
      ExtShorter(p.kvs.w, p.mv);
      ExtTransitive(p.fv, p.kvs.w, p.mv);
    } else {
      ExtSelf(p.fv);
    }
    ScIs(cols, kvs);
    ExtSelf(p.toFields);
    CloseShape(p.toFields, p.toFields, SchemaSlots(p), |p.mv|);
  }

  lemma SchemaStandsThere(cols: seq<Column>, kvs: seq<Pair>)
    requires Sound(cols, kvs)
    ensures SchemaStands(SchemaPartsOf(cols, kvs), cols, kvs)
  {
    hide SchemaPartsOf, Close, FieldsStand, KvsStand, VectorStands, Little, Ext, IsStr;
    var p := SchemaPartsOf(cols, kvs);
    FieldStepsHold(cols, kvs);
    SchemaSizeHolds(cols, kvs);
    ExtTransitive(p.mv, p.toMeta, p.toFields);
    ExtTransitive(p.mv, p.toFields, p.sc.w);
    ExtTransitive(p.fv, p.mv, p.sc.w);
    ExtTransitive(p.fields.w, p.fv, p.sc.w);
    FieldsThere(p.fields.w, p.sc.w, p.fields.ats, cols);
    VectorThere(p.fv, p.sc.w, |p.fv|, p.fields.ats);
    if kvs != [] {
      KvStepsHold(cols, kvs);
      ExtTransitive(p.kvs.w, p.mv, p.sc.w);
      KvsThere(p.kvs.w, p.sc.w, p.kvs.ats, kvs);
      VectorThere(p.mv, p.sc.w, |p.mv|, p.kvs.ats);
    }
  }

  lemma SchemaLinksHold(cols: seq<Column>, kvs: seq<Pair>)
    requires Sound(cols, kvs)
    ensures SchemaLinks(SchemaPartsOf(cols, kvs), cols, kvs)
  {
    hide SchemaPartsOf, Close, FieldsStand, KvsStand, VectorStands, Little, Ext, IsStr, FbVec, FbInt, FbField, Near;
    var p := SchemaPartsOf(cols, kvs);
    var s := SchemaSlots(p);
    FieldStepsHold(cols, kvs);
    LinkStepsHold(cols, kvs);
    SchemaSizeHolds(cols, kvs);
    ScIs(cols, kvs);
    NearThree(p.toFields, |p.toFields|, |p.toMeta|);
    AbsentField(p.toFields, s, |p.mv|, 0);
    AbsentInt(p.sc, 0, 2, true, 0);
    ExtTransitive(p.fv, p.mv, p.toMeta);
    ExtTransitive(p.fv, p.toMeta, p.toFields);
    ExtSelf(p.toFields);
    VectorField(p.fv, |cols|, p.toFields, p.toFields, s, |p.mv|, 1);
    if kvs != [] {
      KvStepsHold(cols, kvs);
      PairCount(kvs);
      VectorField(p.mv, |kvs|, p.toMeta, p.toFields, s, |p.mv|, 2);
    }
  }

  lemma {:induction false} PairCount(kvs: seq<Pair>)
    ensures 64 * |kvs| <= MetaBytes(kvs)
  {
    if kvs != [] {
      PairCount(kvs[..|kvs| - 1]);
    }
  }

  lemma NearThree(u: seq<Byte>, a: nat, b: nat)
    requires a <= |u| < a + 60000 && b <= |u| < b + 60000
    ensures Near(u, [0, a, b])
  {}

  lemma WholeCols(cols: seq<Column>, kvs: seq<Pair>)
    ensures cols[..|cols|] == cols && kvs[..|kvs|] == kvs
  {}

  /** The schema table reads back as the columns' names and types and the metadata, if there is any metadata. */
  lemma SchemaIsRead(cols: seq<Column>, kvs: seq<Pair>)
    requires Sound(cols, kvs) && kvs != []
    ensures var sc := SchemaPartsOf(cols, kvs).sc; SchemaAt(sc.w, |sc.w| - sc.at) == Ok(Schema(FieldsOf(cols), kvs))
  {
    hide SchemaPartsOf, FieldsStand, KvsStand, VectorStands, FbVec, FbInt, EachRead, EachPair;
    var p := SchemaPartsOf(cols, kvs);
    SchemaLinksHold(cols, kvs);
    SchemaStandsThere(cols, kvs);
    EachIsRead(p.sc.w, |p.fv|, p.fields.ats, cols, |cols|);
    EachPairIsRead(p.sc.w, |p.mv|, p.kvs.ats, kvs, |kvs|);
    WholeCols(cols, kvs);
  }

  // ---- a table without metadata ----

  /**
   * What the reader takes for the number of pairs when none was written: the writer still records the
   * metadata slot, which then points at the fields' length word, and the reader follows that word as
   * an offset.
   */
  function Misread(cols: seq<Column>): Read<int> {
    hide SchemaPartsOf;
    var p := SchemaPartsOf(cols, []);
    GetLE(p.sc.w, |p.sc.w| - |p.fv| + |cols|, 4, false)
  }

  predicate MisreadLink(w: seq<Byte>, sc: int, at: int, n: Read<int>) {
    n.Ok? && n.value >= 0 && FbVec(w, sc, 2) == Ok((at + 4, n.value))
  }

  lemma MisreadIsLinked(cols: seq<Column>)
    requires Sound(cols, [])
    ensures var p := SchemaPartsOf(cols, []);
            MisreadLink(p.sc.w, |p.sc.w| - p.sc.at, |p.sc.w| - |p.fv| + |cols|, Misread(cols))
  {
    hide SchemaPartsOf, Close, FieldsStand, KvsStand, VectorStands, Little, Ext, IsStr, FbField, Near, FbInt, Signed;
    var p := SchemaPartsOf(cols, []);
    var s := SchemaSlots(p);
    FieldStepsHold(cols, []);
    LinkStepsHold(cols, []);
    SchemaSizeHolds(cols, []);
    ScIs(cols, []);
    NearThree(p.toFields, |p.toFields|, |p.toMeta|);
    ArrowBuild.FieldOf(p.toMeta, p.toFields, s, |p.mv|, 2);
    SchemaPrefix(cols);
    Powers();
    NumberIsRead(p.fv, p.sc.w, 4, false, |cols|);
  }

  lemma SchemaPrefix(cols: seq<Column>)
    requires Sound(cols, [])
    ensures var p := SchemaPartsOf(cols, []);
            Ext(p.fv, p.sc.w) && 4 + 4 * |cols| <= |p.fv| && |cols| < 0x40_0000
  {
    hide SchemaPartsOf, Close, FieldsStand, KvsStand, VectorStands, Little, Ext, IsStr;
    var p := SchemaPartsOf(cols, []);
    FieldStepsHold(cols, []);
    LinkStepsHold(cols, []);
    SchemaSizeHolds(cols, []);
    ExtTransitive(p.fv, p.toFields, p.sc.w);
    VectorLength(cols);
  }

  lemma VectorLength(cols: seq<Column>)
    requires Sound(cols, [])
    ensures 4 + 4 * |cols| <= |SchemaPartsOf(cols, []).fv|
  {
    hide Vector, Ref, Close, Kvs, FieldsStand, VectorStands, Little, Ext, IsStr;
    EachFieldStands([], cols);
    var f := Fields([], cols);
    FieldsInside(f.w, f.ats, cols);
    VectorIsRead(f.w, f.ats);
  }

  lemma {:induction false} PairsHaveRoom(m: seq<Byte>, at: int, n: int)
    requires EachPair(m, at, n).Ok?
    ensures |EachPair(m, at, n).value| == if n <= 0 then 0 else n
    ensures n > 0 ==> 0 <= at && at + 4 * n <= |m|
    decreases n
  {
    hide KvAt;
    if n > 0 {
      PairsHaveRoom(m, at, n - 1);
    }
  }

  /** Without metadata the schema reads back if and only if what is misread as the number of pairs is 0. */
  lemma SchemaWithoutPairs(cols: seq<Column>)
    requires Sound(cols, [])
    ensures var sc := SchemaPartsOf(cols, []).sc;
            SchemaAt(sc.w, |sc.w| - sc.at) == Ok(Schema(FieldsOf(cols), [])) <==> Misread(cols) == Ok(0)
  {
    hide SchemaPartsOf, FieldsStand, KvsStand, VectorStands, FbVec, FbInt, EachRead, Misread;
    var p := SchemaPartsOf(cols, []);
    SchemaLinksHold(cols, []);
    SchemaStandsThere(cols, []);
    MisreadIsLinked(cols);
    EachIsRead(p.sc.w, |p.fv|, p.fields.ats, cols, |cols|);
    WholeCols(cols, []);
    var n := Misread(cols).value;
    var at := |p.sc.w| - |p.fv| + |cols| + 4;
    if EachPair(p.sc.w, at, n).Ok? {
      PairsHaveRoom(p.sc.w, at, n);
    }
  }

  /** With no columns either, nothing is misread. */
  lemma NoColumnsNoPairs()
    requires Sound([], [])
    ensures Misread([]) == Ok(0)
  {
    hide SchemaPartsOf, Close, FieldsStand, KvsStand, VectorStands, Little, Ext, IsStr;
    FieldStepsHold([], []);
    SchemaPrefix([]);
    var p := SchemaPartsOf([], []);
    Powers();
    NumberIsRead(p.fv, p.sc.w, 4, false, 0);
  }

  /** With one column the reader takes its link, an octet late, for the number of pairs: over three hundred million. */
  lemma OneColumnNoPairs(c: Column)
    requires Sound([c], [])
    ensures Misread([c]) == Ok(335544320)
  {
    hide SchemaPartsOf, Close, FieldsStand, KvsStand, VectorStands, Little, Ext, IsStr, GetLE, Unsigned, Signed;
    SchemaPrefix([c]);
    FirstLink(c);
    var p := SchemaPartsOf([c], []);
    ExtSits(p.fv, p.sc.w);
    ExtShorter(p.fv, p.sc.w);
    GetThere(p.fv, p.sc.w, |p.sc.w| - |p.fv|, 1, 4, false);
  }

  /** The four octets from the second on make that number. */
  predicate OneLate(m: seq<Byte>) {
    GetLE(m, 1, 4, false) == Ok(335544320)
  }

  /** A vtable of six entries behind, and a multiple of four in all. */
  predicate EndsWhole(b: Built) {
    |b.w| == b.at + 16 && Whole(|b.w|, 4)
  }

  lemma FirstLink(c: Column)
    ensures OneLate(SchemaPartsOf([c], []).fv)
  {
    hide FieldTable, Ref, Put, Close, Little, Padded, Vector, Fields, GetLE;
    FieldsOne(c);
    OneLink(FieldTable([], c.name, c.ty), c);
  }

  lemma FieldsOne(c: Column)
    ensures var b := FieldTable([], c.name, c.ty); Fields([], [c]) == Several(b.w, [b.at])
  {
    hide FieldTable;
    assert [c][..|[c]| - 1] == [];
    assert EachField([], [c][..|[c]| - 1]) == Several([], []);
  }

  lemma RefsOne(u: seq<Byte>, off: nat)
    ensures Refs(u, [off]) == Ref(u, off)
  {
    hide Ref;
    assert [off][1..] == [];
    assert RefEach(u, [off][1..]) == u;
  }

  lemma OneLink(b: Built, c: Column)
    requires b == FieldTable([], c.name, c.ty)
    ensures OneLate(Vector(b.w, [b.at]))
  {
    hide FieldTable, Ref, Refs, Put, Close, Little, Padded, GetLE, Over, Whole;
    LinkDistance(c);
    var u := b.w;
    OneSizeMore(|u|, 4);
    NoPadding(u, 4, 4);
    RefsOne(u, b.at);
    RefWhole(u, b.at);
    PutWhole(Ref(u, b.at), 1, 4);
    TwoWords(Vector(u, [b.at]), Ref(u, b.at));
  }

  lemma FieldTableIs(u: seq<Byte>, name: Str, ty: int)
    ensures var p := PartsOf(u, name, ty);
            FieldTable(u, name, ty) == Close(p.toName, p.Slots(), |p.kids|)
            && |p.Slots()| == 6
  {
    hide PartsOf, Close;
  }

  lemma LinkDistance(c: Column)
    ensures EndsWhole(FieldTable([], c.name, c.ty))
  {
    hide PartsOf, FieldTable, Closed, TableAt, Over, Whole;
    FieldTableIs([], c.name, c.ty);
    var p := PartsOf([], c.name, c.ty);
    ClosedParts(p.toName, p.Slots(), |p.kids|);
    SixteenMore(TableAt(p.toName));
  }

  lemma SixteenMore(n: nat)
    requires Whole(n, 4)
    ensures Whole(n + 16, 4)
  {
    OneSizeMore(n, 4);
    OneSizeMore(n + 4, 4);
    OneSizeMore(n + 8, 4);
    OneSizeMore(n + 12, 4);
  }

  lemma TwoWords(w: seq<Byte>, e: seq<Byte>)
    requires 4 <= |e| && w == Little(1, 4) + e && e[..4] == Little(20, 4)
    ensures OneLate(w)
  {
    assert Left(1, 1) == 0 && Left(1, 2) == 0 && Left(1, 3) == 0 && Left(20, 0) == 20;
    assert w[1..5] == [0, 0, 0, 20];
    assert Unsigned([20]) == 20 && Unsigned([0, 20]) == 5120;
    assert [0, 0, 20][1..] == [0, 20] && [0, 0, 0, 20][1..] == [0, 0, 20];
  }
}
