/**
 * The writer's procedures over the builder: the tables of the schema and of the batch, each leaving
 * the octets its function gives, or answering false when they outgrow the room.
 */
module ArrowWriter {
  import opened ArrowBytes
  import opened ArrowTables
  import opened ArrowBuild
  import opened ArrowSchema
  import opened ArrowMessage
  import opened ArrowBatch
  import opened ArrowBuilder

  /** What a procedure that builds an object leaves: that object, or the room was too small for it. */
  ghost predicate Wrote(f: Builder, ok: bool, at: nat, b: Built, align: nat)
    requires f.Valid()
    reads f, f.b
  {
    if ok then f.Octets() == b.w && at == b.at && f.minAlign == align else |b.w| > f.b.Length
  }

  /** The same for one that only writes octets. */
  ghost predicate Extended(f: Builder, ok: bool, w: seq<Byte>, align: nat)
    requires f.Valid()
    reads f, f.b
  {
    if ok then f.Octets() == w && f.minAlign == align else |w| > f.b.Length
  }

  /** Closes a table whose slots are as named. */
  method Finished(f: Builder, ghost u: seq<Byte>, ghost slots: seq<nat>, ghost start: nat, ghost align: nat)
    returns (ok: bool, at: nat)
    requires f.Valid() && f.Octets() == u && f.vt[..f.nvt] == slots && f.objStart == start
             && Larger(f.minAlign, 4) == align
    modifies f, f.b
    ensures f.Valid() && Wrote(f, ok, at, Close(u, slots, start), align)
  {
    hide Closed, TableAt;
    ok, at := f.EndTable();
  }

  method WriteShort(f: Builder, x: nat, two: bool) returns (ok: bool, at: nat)
    requires f.Valid()
    modifies f, f.b
    ensures f.Valid() && Wrote(f, ok, at, ShortTable(old(f.Octets()), x, two), Larger(old(f.minAlign), 4))
  {
    hide Put, Close;
    ghost var u := f.Octets();
    ghost var v := Put(u, x, 2);
    at := 0;
    f.Start(if two then 2 else 1);
    ok := f.PutNumber(x, 2);
    if ok {
      f.Slot(0);
      assert f.vt[..f.nvt] == if two then [|v|, 0] else [|v|];
      ok, at := Finished(f, v, if two then [|v|, 0] else [|v|], |u|, Larger(old(f.minAlign), 4));
    } else {
      CloseShape(v, v, if two then [|v|, 0] else [|v|], |u|);
    }
  }

  method WriteInt(f: Builder, bits: nat) returns (ok: bool, at: nat)
    requires f.Valid()
    modifies f, f.b
    ensures f.Valid() && Wrote(f, ok, at, IntTable(old(f.Octets()), bits), Larger(old(f.minAlign), 4))
  {
    hide Put, Close;
    ghost var u := f.Octets();
    ghost var a := Put(u, 1, 1);
    ghost var b := Put(a, bits, 4);
    CloseShape(b, b, [|b|, |a|], |u|);
    at := 0;
    f.Start(2);
    ok := f.PutNumber(1, 1);
    if ok {
      f.Slot(1);
      ok := f.PutNumber(bits, 4);
      if ok {
        f.Slot(0);
        assert f.vt[..f.nvt] == [|b|, |a|];
        ok, at := Finished(f, b, [|b|, |a|], |u|, Larger(old(f.minAlign), 4));
      }
    }
  }

  method WriteType(f: Builder, ty: int) returns (ok: bool, at: nat)
    requires f.Valid()
    modifies f, f.b
    ensures f.Valid() && Wrote(f, ok, at, TypeTable(old(f.Octets()), ty), Larger(old(f.minAlign), 4))
  {
    hide ShortTable, IntTable, Close, Wrote;
    if ty == STR {
      ghost var u := f.Octets();
      f.Start(0);
      assert f.vt[..f.nvt] == [];
      ok, at := Finished(f, u, [], |u|, Larger(old(f.minAlign), 4));
    } else if ty == F32 || ty == F64 {
      ok, at := WriteShort(f, if ty == F32 then 1 else 2, false);
    } else if ty == TSNS {
      ok, at := WriteShort(f, 3, true);
    } else {
      ok, at := WriteInt(f, Width(ty) * 8);
    }
  }

  /** A column's field table and what it links to. */
  method WriteField(f: Builder, name: Str, ty: int) returns (ok: bool, at: nat)
    requires f.Valid()
    modifies f, f.b
    ensures f.Valid() && Wrote(f, ok, at, FieldTable(old(f.Octets()), name, ty), Larger(old(f.minAlign), 4))
  {
    hide FieldTable, TypeTable, PartsOf, Put, Ref, Text, Padded, Close, Ext, Over, Little, Whole;
    ghost var u := f.Octets();
    ghost var p := PartsOf(u, name, ty);
    FieldWritten(u, name, ty);
    at := 0;
    ok := f.PutText(name);
    if !ok { return; }
    var nm := f.Used();
    var tt;
    ok, tt := WriteType(f, ty);
    if !ok { return; }
    ok := f.Prep(4, 0);
    if !ok { return; }
    ok := f.PutNumber(0, 4);
    if !ok { return; }
    ok := WriteFieldLinks(f, p, nm, tt, ty);
    if !ok { return; }
    ok, at := WriteFieldTail(f, p, nm, tt, ty, Larger(old(f.minAlign), 4));
  }

  /** Starts a field's own table, behind what it links to, with its links to the children and the type. */
  method WriteFieldLinks(f: Builder, ghost p: FieldParts, nm: nat, tt: nat, ghost ty: int) returns (ok: bool)
    requires f.Valid() && f.Octets() == p.kids && TailSteps(p, nm, tt, ty)
    modifies f, f.b
    ensures f.Valid() && Extended(f, ok, p.toType, Larger(old(f.minAlign), 4))
    ensures ok ==> f.nvt == 6 && f.objStart == |p.kids| && f.vt[..6] == [0, 0, 0, |p.toType|, 0, |p.toKids|]
  {
    hide Put, Ref, Ext, Little, Whole, Over;
    var kids := f.Used();
    f.Start(6);
    ok := f.PutRef(kids);
    if ok {
      f.Slot(5);
      ok := f.PutRef(tt);
      if ok {
        f.Slot(3);
      }
    }
  }

  /** The rest of the table: its tag, that it may hold nulls, and its name. */
  method WriteFieldTail(f: Builder, ghost p: FieldParts, nm: nat, ghost tt: nat, ty: int, ghost align: nat)
      returns (ok: bool, at: nat)
    requires f.Valid() && f.Octets() == p.toType && TailSteps(p, nm, tt, ty) && f.minAlign == align && align >= 4
    requires f.nvt == 6 && f.objStart == |p.kids| && f.vt[..6] == [0, 0, 0, |p.toType|, 0, |p.toKids|]
    modifies f, f.b
    ensures f.Valid() && Wrote(f, ok, at, Close(p.toName, p.Slots(), |p.kids|), align)
  {
    hide Put, Ref, Close, Ext, Little, Whole, Over;
    CloseShape(p.toName, p.toName, p.Slots(), |p.kids|);
    at := 0;
    ok := f.PutNumber(TypeTag(ty), 1);
    if ok {
      f.Slot(2);
      ok := f.PutNumber(1, 1);
      if ok {
        f.Slot(1);
        ok := f.PutRef(nm);
        if ok {
          f.Slot(0);
          assert f.vt[..f.nvt] == p.Slots();
          ok, at := Finished(f, p.toName, p.Slots(), |p.kids|, align);
        }
      }
    }
  }

  /** How the octets grow while a field's own table is written. */
  predicate TailSteps(p: FieldParts, nm: nat, tt: nat, ty: int) {
    && p.toKids == Ref(p.kids, |p.kids|) && p.toType == Ref(p.toKids, tt) && p.tag == Put(p.toType, TypeTag(ty), 1)
    && p.nullable == Put(p.tag, 1, 1) && p.toName == Ref(p.nullable, nm)
    && Ext(p.toName, p.toName)
    && |p.toKids| <= |p.toType| <= |p.tag| <= |p.nullable| <= |p.toName|
  }

  predicate HeadSteps(p: FieldParts, u: seq<Byte>, name: Str, ty: int, b: Built) {
    && p.name == Text(u, name) && p.ty == TypeTable(p.name, ty) && p.kids == Put(Padded(p.ty.w, 4, 0), 0, 4)
    && TailSteps(p, |p.name|, p.ty.at, ty) && b == Close(p.toName, p.Slots(), |p.kids|)
    && |p.name| <= |p.ty.w| <= |Padded(p.ty.w, 4, 0)| <= |p.kids| <= |p.toKids| && |p.toName| <= |b.w|
  }

  lemma FieldWritten(u: seq<Byte>, name: Str, ty: int)
    ensures HeadSteps(PartsOf(u, name, ty), u, name, ty, FieldTable(u, name, ty))
  {
    hide TypeTable, Put, Ref, Text, Padded, Close, Over, Little, Whole;
    var p := PartsOf(u, name, ty);
    TypeIsRead(p.name, ty);
    ExtSelf(p.toName);
    CloseShape(p.toName, p.toName, p.Slots(), |p.kids|);
  }

  method WriteKv(f: Builder, kv: Pair) returns (ok: bool, at: nat)
    requires f.Valid()
    modifies f, f.b
    ensures f.Valid() && Wrote(f, ok, at, KvTable(old(f.Octets()), kv), Larger(old(f.minAlign), 4))
  {
    hide KvTable, KvPartsOf, Ref, Text, Close, Ext, Little, Whole, Over;
    ghost var u := f.Octets();
    ghost var p := KvPartsOf(u, kv);
    KvWritten(u, kv);
    at := 0;
    ok := f.PutText(kv.key);
    if !ok { return; }
    var key := f.Used();
    ok := f.PutText(kv.val);
    if !ok { return; }
    ok, at := WriteKvTail(f, p, key);
  }

  method WriteKvTail(f: Builder, ghost p: KvParts, key: nat) returns (ok: bool, at: nat)
    requires f.Valid() && f.Octets() == p.val && KvTailSteps(p, key)
    modifies f, f.b
    ensures f.Valid() && Wrote(f, ok, at, Close(p.toKey, [|p.toKey|, |p.toVal|], |p.val|), Larger(old(f.minAlign), 4))
  {
    hide Ref, Close, Ext, Little, Whole, Over;
    CloseShape(p.toKey, p.toKey, [|p.toKey|, |p.toVal|], |p.val|);
    at := 0;
    var val := f.Used();
    f.Start(2);
    ok := f.PutRef(val);
    if ok {
      f.Slot(1);
      ok := f.PutRef(key);
      if ok {
        f.Slot(0);
        assert f.vt[..f.nvt] == [|p.toKey|, |p.toVal|];
        ok, at := Finished(f, p.toKey, [|p.toKey|, |p.toVal|], |p.val|, Larger(old(f.minAlign), 4));
      }
    }
  }

  predicate KvTailSteps(p: KvParts, key: nat) {
    p.toVal == Ref(p.val, |p.val|) && p.toKey == Ref(p.toVal, key) && Ext(p.toKey, p.toKey) && |p.toVal| <= |p.toKey|
  }

  predicate KvHeadSteps(p: KvParts, u: seq<Byte>, kv: Pair, b: Built) {
    hide Text, Close, Ref, Ext, Over, Little;
    && p.key == Text(u, kv.key) && p.val == Text(p.key, kv.val) && KvTailSteps(p, |p.key|)
    && b == Close(p.toKey, [|p.toKey|, |p.toVal|], |p.val|) && |p.key| <= |p.val| <= |p.toVal| && |p.toKey| <= |b.w|
  }

  lemma KvWritten(u: seq<Byte>, kv: Pair)
    ensures KvHeadSteps(KvPartsOf(u, kv), u, kv, KvTable(u, kv))
  {
    hide Ref, Text, Close, Over, Little, Whole;
    var p := KvPartsOf(u, kv);
    ExtSelf(p.toKey);
    CloseShape(p.toKey, p.toKey, [|p.toKey|, |p.toVal|], |p.val|);
  }

  /** A vector of links, the last element first. */
  method WriteVector(f: Builder, offs: seq<nat>) returns (ok: bool)
    requires f.Valid()
    modifies f, f.b
    ensures f.Valid() && Extended(f, ok, Vector(old(f.Octets()), offs), Larger(old(f.minAlign), 4))
  {
    hide Put, Ref, Padded, Ext, Little, Whole, Over;
    ghost var u := f.Octets();
    ghost var p := Padded(u, 4, 4 * |offs|);
    VectorSteps(u, offs);
    ok := f.Prep(4, 4 * |offs|);
    if !ok { return; }
    var i := |offs|;
    assert offs[|offs|..] == [];
    while i > 0
      invariant f.Valid() && 0 <= i <= |offs| && f.minAlign == Larger(old(f.minAlign), 4)
      invariant f.Octets() == RefEach(p, offs[i..])
    {
      i := i - 1;
      assert offs[i..][1..] == offs[i + 1..] && offs[i..][0] == offs[i];
      ok := f.PutRef(offs[i]);
      if !ok {
        RefsLonger(p, offs, i);
        return;
      }
    }
    assert offs[0..] == offs;
    ok := f.PutNumber(|offs|, 4);
  }

  lemma VectorSteps(u: seq<Byte>, offs: seq<nat>)
    ensures var p := Padded(u, 4, 4 * |offs|);
            Vector(u, offs) == Put(RefEach(p, offs), |offs|, 4) && |p| <= |RefEach(p, offs)| <= |Vector(u, offs)|
  {
    hide Put, Ref, Padded, Little, Whole, Over;
  }

  lemma {:induction false} RefsLonger(u: seq<Byte>, offs: seq<nat>, i: nat)
    requires i <= |offs|
    ensures |RefEach(u, offs[i..])| <= |RefEach(u, offs)|
  {
    hide Ref, Little;
    if i == 0 {
      assert offs[0..] == offs;
    } else {
      RefsLonger(u, offs, i - 1);
      assert offs[i - 1..][1..] == offs[i..];
    }
  }

  /** Every column's field table, one after the other. */
  method WriteFields(f: Builder, cols: seq<Column>) returns (ok: bool, ats: seq<nat>)
    requires f.Valid()
    modifies f, f.b
    ensures f.Valid()
    ensures ok ==> Several(f.Octets(), ats) == Fields(old(f.Octets()), cols)
    ensures ok ==> f.minAlign == if cols == [] then old(f.minAlign) else Larger(old(f.minAlign), 4)
    ensures !ok ==> |Fields(old(f.Octets()), cols).w| > f.b.Length
  {
    hide FieldTable;
    ghost var u := f.Octets();
    ats := [];
    for i := 0 to |cols|
      invariant f.Valid() && Several(f.Octets(), ats) == EachField(u, cols[..i])
      invariant f.minAlign == if i == 0 then old(f.minAlign) else Larger(old(f.minAlign), 4)
    {
      var at;
      assert cols[..i + 1][..i] == cols[..i];
      ok, at := WriteField(f, cols[i].name, cols[i].ty);
      if !ok {
        FieldsLonger(u, cols, i + 1);
        return;
      }
      ats := ats + [at];
    }
    assert cols[..|cols|] == cols;
    ok := true;
  }

  lemma {:induction false} FieldsLonger(u: seq<Byte>, cols: seq<Column>, i: nat)
    requires i <= |cols|
    ensures |EachField(u, cols[..i]).w| <= |EachField(u, cols).w|
    decreases |cols| - i
  {
    hide FieldTable;
    if i == |cols| {
      assert cols[..i] == cols;
    } else {
      FieldsLonger(u, cols, i + 1);
      assert cols[..i + 1][..i] == cols[..i];
      FieldGrows(EachField(u, cols[..i]).w, cols[i].name, cols[i].ty);
    }
  }

  lemma FieldGrows(u: seq<Byte>, name: Str, ty: int)
    ensures |u| <= |FieldTable(u, name, ty).w|
  {
    hide FieldTable;
    FieldShape(u, name, ty);
  }

  /** Every pair's table. */
  method WriteKvs(f: Builder, kvs: seq<Pair>) returns (ok: bool, ats: seq<nat>)
    requires f.Valid() && f.minAlign >= 4
    modifies f, f.b
    ensures f.Valid()
    ensures ok ==> Several(f.Octets(), ats) == Kvs(old(f.Octets()), kvs) && f.minAlign == old(f.minAlign)
    ensures !ok ==> |Kvs(old(f.Octets()), kvs).w| > f.b.Length
  {
    hide KvTable;
    ghost var u := f.Octets();
    ats := [];
    for i := 0 to |kvs|
      invariant f.Valid() && Several(f.Octets(), ats) == EachKv(u, kvs[..i]) && f.minAlign == old(f.minAlign)
    {
      var at;
      assert kvs[..i + 1][..i] == kvs[..i];
      ok, at := WriteKv(f, kvs[i]);
      if !ok {
        KvsLonger(u, kvs, i + 1);
        return;
      }
      ats := ats + [at];
    }
    assert kvs[..|kvs|] == kvs;
    ok := true;
  }

  lemma {:induction false} KvsLonger(u: seq<Byte>, kvs: seq<Pair>, i: nat)
    requires i <= |kvs|
    ensures |EachKv(u, kvs[..i]).w| <= |EachKv(u, kvs).w|
    decreases |kvs| - i
  {
    hide KvTable;
    if i == |kvs| {
      assert kvs[..i] == kvs;
    } else {
      KvsLonger(u, kvs, i + 1);
      assert kvs[..i + 1][..i] == kvs[..i];
      KvGrows(EachKv(u, kvs[..i]).w, kvs[i]);
    }
  }

  lemma KvGrows(u: seq<Byte>, kv: Pair)
    ensures |u| <= |KvTable(u, kv).w|
  {
    hide KvTable, KvPartsOf, Text, Ref, Close, Ext, Little, Whole, Over;
    KvWritten(u, kv);
  }

  // ---- messages ----

  /** A message's root table over a header. */
  method WriteRoot(f: Builder, ghost header: Built, to: nat, kind: nat, bodyLen: Wrapped) returns (ok: bool, at: nat)
    requires f.Valid() && f.Octets() == header.w && to == header.at && f.minAlign >= 4
    modifies f, f.b
    ensures f.Valid()
    ensures Wrote(f, ok, at, Root(header, kind, bodyLen), Larger(old(f.minAlign), if bodyLen.Just? then 8 else 4))
  {
    hide Put, Ref, Close, Ext, Little, Whole, Over, Root;
    ghost var p := RootPartsOf(header, kind, bodyLen);
    RootWritten(header, kind, bodyLen);
    at := 0;
    f.Start(4);
    ok := true;
    if bodyLen.Just? {
      ok := f.PutNumber(bodyLen.len, 8);
      if !ok { return; }
      f.Slot(3);
    }
    assert f.vt[..4] == [0, 0, 0, if bodyLen.Just? then |p.len| else 0];
    ok, at := WriteRootTail(f, p, header, to, kind, bodyLen, Larger(old(f.minAlign), if bodyLen.Just? then 8 else 4));
  }

  method WriteRootTail(f: Builder, ghost p: RootParts, ghost header: Built, to: nat, kind: nat,
      ghost bodyLen: Wrapped, ghost align: nat)
    returns (ok: bool, at: nat)
    requires to == header.at && f.Valid() && f.Octets() == p.len && RootTailSteps(p, header, kind)
             && f.minAlign == align && align >= 4
    requires f.nvt == 4 && f.vt[..4] == [0, 0, 0, if bodyLen.Just? then |p.len| else 0] && f.objStart == |header.w|
    modifies f, f.b
    ensures f.Valid() && Wrote(f, ok, at, Close(p.version, RootSlots(p, bodyLen), |header.w|), align)
  {
    hide Put, Ref, Close, Ext, Little, Whole, Over;
    CloseShape(p.version, p.version, RootSlots(p, bodyLen), |header.w|);
    at := 0;
    ok := f.PutRef(to);
    if ok {
      f.Slot(2);
      ok := f.PutNumber(kind, 1);
      if ok {
        f.Slot(1);
        ok := f.PutNumber(4, 2);
        if ok {
          f.Slot(0);
          assert f.vt[..f.nvt] == RootSlots(p, bodyLen);
          ok, at := Finished(f, p.version, RootSlots(p, bodyLen), |header.w|, align);
        }
      }
    }
  }

  predicate RootTailSteps(p: RootParts, header: Built, kind: nat) {
    && p.toHeader == Ref(p.len, header.at) && p.kind == Put(p.toHeader, kind, 1) && p.version == Put(p.kind, 4, 2)
    && Ext(p.version, p.version) && |p.toHeader| <= |p.kind| <= |p.version|
  }

  predicate RootHeadSteps(p: RootParts, header: Built, kind: nat, bodyLen: Wrapped, b: Built) {
    hide Put, Ref, Close, Ext, Over, Little;
    && p.len == (if bodyLen.Just? then Put(header.w, bodyLen.len, 8) else header.w) && RootTailSteps(p, header, kind)
    && b == Close(p.version, RootSlots(p, bodyLen), |header.w|) && |p.len| <= |p.toHeader| && |p.version| <= |b.w|
  }

  lemma RootWritten(header: Built, kind: nat, bodyLen: Wrapped)
    ensures RootHeadSteps(RootPartsOf(header, kind, bodyLen), header, kind, bodyLen, Root(header, kind, bodyLen))
  {
    hide Put, Ref, Close, Over, Little, Whole;
    var p := RootPartsOf(header, kind, bodyLen);
    ExtSelf(p.version);
    CloseShape(p.version, p.version, RootSlots(p, bodyLen), |header.w|);
  }

  /** The link to the root, so placed that the message is aligned as its most demanding part. */
  method FinishMessage(f: Builder, root: nat) returns (ok: bool)
    requires f.Valid()
    modifies f, f.b
    ensures f.Valid()
    ensures if ok then f.Octets() == Finish(old(f.Octets()), old(f.minAlign), root)
            else |Finish(old(f.Octets()), old(f.minAlign), root)| > f.b.Length
  {
    hide Padded, Ref, Whole, Over, Little;
    ok := f.Prep(f.minAlign, 4);
    if ok {
      ok := f.PutRef(root);
    }
  }

  // ---- the schema message ----

  /** How the octets grow while the schema table is written. */
  predicate SchemaGrows(p: SchemaParts, cols: seq<Column>, kvs: seq<Pair>, b: Built) {
    hide Fields, Kvs, Vector, Ref, Close, Root, Ext, Over, Little;
    && p.fields == Fields([], cols) && p.fv == Vector(p.fields.w, p.fields.ats)
    && (kvs != [] ==> p.kvs == Kvs(p.fv, kvs) && p.mv == Vector(p.kvs.w, p.kvs.ats) && p.toMeta == Ref(p.mv, |p.mv|))
    && (kvs == [] ==> p.toMeta == p.mv == p.fv) && p.toFields == Ref(p.toMeta, |p.fv|)
    && p.sc == Close(p.toFields, SchemaSlots(p), |p.mv|) && b == Root(p.sc, 1, Nothing)
    && |p.fields.w| <= |p.fv| <= |p.mv| <= |p.toMeta| <= |p.toFields| <= |p.sc.w| <= |b.w|
    && (kvs != [] ==> |p.fv| <= |p.kvs.w| <= |p.mv|) && Ext(p.toFields, p.toFields)
  }

  lemma VectorGrows(u: seq<Byte>, offs: seq<nat>)
    ensures |u| <= |Vector(u, offs)|
  {
    hide Put, Refs, Padded, Little, Whole, Over;
    ExtShorter(u, Padded(u, 4, 4 * |offs|));
  }

  lemma {:induction false} EachKvGrows(u: seq<Byte>, kvs: seq<Pair>)
    ensures |u| <= |EachKv(u, kvs).w|
  {
    hide KvTable;
    if kvs != [] {
      EachKvGrows(u, kvs[..|kvs| - 1]);
      KvGrows(EachKv(u, kvs[..|kvs| - 1]).w, kvs[|kvs| - 1]);
    }
  }

  lemma RootGrows(header: Built, kind: nat, bodyLen: Wrapped)
    ensures |header.w| <= |Root(header, kind, bodyLen).w|
  {
    hide RootPartsOf, Root, Put, Ref, Close, Over, Little, Whole, Ext;
    RootChain(header, kind, bodyLen);
    RootWritten(header, kind, bodyLen);
  }

  lemma SchemaGrowing(cols: seq<Column>, kvs: seq<Pair>)
    ensures SchemaGrows(SchemaPartsOf(cols, kvs), cols, kvs, SchemaMsg(cols, kvs))
  {
    hide Fields, Vector, Ref, Close, Root, Over, Little, EachKv;
    var p := SchemaPartsOf(cols, kvs);
    ExtSelf(p.toFields);
    VectorGrows(p.fields.w, p.fields.ats);
    if kvs != [] {
      EachKvGrows(p.fv, kvs);
      VectorGrows(p.kvs.w, p.kvs.ats);
    }
    RootGrows(p.sc, 1, Nothing);
    CloseShape(p.toFields, p.toFields, SchemaSlots(p), |p.mv|);
  }

  /** The schema message's octets up to the link to its root. */
  method WriteSchema(f: Builder, cols: seq<Column>, kvs: seq<Pair>) returns (ok: bool, at: nat)
    requires f.Valid() && f.Octets() == [] && f.minAlign == 1
    modifies f, f.b
    ensures f.Valid() && Wrote(f, ok, at, SchemaMsg(cols, kvs), 4)
  {
    hide SchemaPartsOf, Fields, Kvs, Vector, Ref, Close, Root, Ext, Over, Little, SchemaMsg, Whole;
    ghost var p := SchemaPartsOf(cols, kvs);
    SchemaGrowing(cols, kvs);
    at := 0;
    var ats;
    ok, ats := WriteFields(f, cols);
    if !ok { return; }
    ok := WriteVector(f, ats);
    if !ok { return; }
    var fv := f.Used();
    if kvs != [] {
      ok, ats := WriteKvs(f, kvs);
      if !ok { return; }
      ok := WriteVector(f, ats);
      if !ok { return; }
    }
    assert f.Octets() == p.mv && f.minAlign == 4;
    ok, at := WriteSchemaTable(f, p, cols, kvs, fv);
    if !ok { return; }
    ok, at := WriteRoot(f, p.sc, at, 1, Nothing);
  }

  method WriteSchemaTable(f: Builder, ghost p: SchemaParts, cols: seq<Column>, kvs: seq<Pair>, fv: nat)
      returns (ok: bool, at: nat)
    requires f.Valid() && f.Octets() == p.mv && f.minAlign == 4 && fv == |p.fv|
             && SchemaGrows(p, cols, kvs, SchemaMsg(cols, kvs))
    modifies f, f.b
    ensures f.Valid() && Wrote(f, ok, at, p.sc, 4)
  {
    hide Fields, Kvs, Vector, Ref, Close, Root, Ext, Over, Little, SchemaMsg, Whole;
    at := 0;
    var mv := f.Used();
    f.Start(3);
    if kvs != [] {
      ok := f.PutRef(mv);
      if !ok { return; }
    }
    f.Slot(2);
    ok := f.PutRef(fv);
    if !ok { return; }
    f.Slot(1);
    assert f.vt[..f.nvt] == SchemaSlots(p);
    ok, at := Finished(f, p.toFields, SchemaSlots(p), |p.mv|, 4);
  }

  // ---- the batch message ----

  /** A vector of structs, the last element first. */
  method WriteStructs(f: Builder, s: seq<Two>) returns (ok: bool)
    requires f.Valid()
    modifies f, f.b
    ensures f.Valid() && Extended(f, ok, StructVector(old(f.Octets()), s), Larger(old(f.minAlign), 8))
  {
    hide Put, Padded, Ext, Little, Whole, Over;
    ghost var u := f.Octets();
    ghost var p := Padded(Padded(u, 4, 16 * |s|), 8, 16 * |s|);
    StructSteps(u, s);
    ok := f.Prep(4, 16 * |s|);
    if !ok { return; }
    ok := f.Prep(8, 16 * |s|);
    if !ok { return; }
    var i := |s|;
    assert s[|s|..] == [];
    while i > 0
      invariant f.Valid() && 0 <= i <= |s| && f.minAlign == Larger(old(f.minAlign), 8)
      invariant f.Octets() == StructEach(p, s[i..])
    {
      i := i - 1;
      assert s[i..][1..] == s[i + 1..] && s[i..][0] == s[i];
      StructsLonger(p, s, i);
      StructStep(p, s, i);
      ok := f.PutNumber(s[i].second, 8);
      if !ok { return; }
      ok := f.PutNumber(s[i].first, 8);
      if !ok { return; }
    }
    assert s[0..] == s;
    ok := f.PutNumber(|s|, 4);
  }

  lemma StructStep(u: seq<Byte>, s: seq<Two>, i: nat)
    requires i < |s|
    ensures StructEach(u, s[i..]) == Put(Put(StructEach(u, s[i + 1..]), s[i].second, 8), s[i].first, 8)
    ensures |Put(StructEach(u, s[i + 1..]), s[i].second, 8)| <= |StructEach(u, s[i..])|
  {
    hide Put, Little;
    assert s[i..][1..] == s[i + 1..];
  }

  lemma StructSteps(u: seq<Byte>, s: seq<Two>)
    ensures var q := Padded(u, 4, 16 * |s|);
            var p := Padded(q, 8, 16 * |s|);
            && StructVector(u, s) == Put(StructEach(p, s), |s|, 4)
            && |q| <= |p| <= |StructEach(p, s)| <= |StructVector(u, s)|
  {
    hide Put, Padded, Little, Whole, Over;
  }

  lemma {:induction false} StructsLonger(u: seq<Byte>, s: seq<Two>, i: nat)
    requires i <= |s|
    ensures |StructEach(u, s[i..])| <= |StructEach(u, s)|
  {
    hide Put, Little;
    if i == 0 {
      assert s[0..] == s;
    } else {
      StructsLonger(u, s, i - 1);
      assert s[i - 1..][1..] == s[i..];
    }
  }

  predicate BatchGrows(p: BatchParts, rows: int, n: nat, bufs: seq<Two>, t: Built, b: Built, bodyLen: int) {
    hide StructVector, Ref, Put, Close, Root, Ext, Over, Little;
    && p.nodes == StructVector([], Nodes(rows, n)) && p.bufs == StructVector(p.nodes, bufs)
       && p.toBufs == Ref(p.bufs, |p.bufs|)
    && p.toNodes == Ref(p.toBufs, |p.nodes|) && p.rows == Put(p.toNodes, rows, 8)
    && t == Close(p.rows, BatchSlots(p), |p.bufs|) && b == Root(t, 3, Just(bodyLen)) && Ext(p.rows, p.rows)
    && |p.nodes| <= |p.bufs| <= |p.toBufs| <= |p.toNodes| <= |p.rows| <= |t.w| <= |b.w|
  }

  lemma BatchGrowing(rows: int, n: nat, bufs: seq<Two>, bodyLen: int)
    ensures BatchGrows(BatchPartsOf(rows, n, bufs), rows, n, bufs, BatchTable(rows, n, bufs),
            BatchMsg(rows, n, bufs, bodyLen), bodyLen)
  {
    hide StructEach, Ref, Put, Close, Root, Padded, Over, Little;
    var p := BatchPartsOf(rows, n, bufs);
    ExtSelf(p.rows);
    RootGrows(BatchTable(rows, n, bufs), 3, Just(bodyLen));
    CloseShape(p.rows, p.rows, BatchSlots(p), |p.bufs|);
  }

  method WriteBatchTable(f: Builder, ghost p: BatchParts, rows: int, n: nat, ghost bufs: seq<Two>, nodes: nat,
      ghost bodyLen: int)
    returns (ok: bool, at: nat)
    requires f.Valid() && f.Octets() == p.bufs && f.minAlign == 8 && nodes == |p.nodes|
    requires BatchGrows(p, rows, n, bufs, BatchTable(rows, n, bufs), BatchMsg(rows, n, bufs, bodyLen), bodyLen)
    modifies f, f.b
    ensures f.Valid() && Wrote(f, ok, at, BatchTable(rows, n, bufs), 8)
  {
    hide StructVector, Ref, Put, Close, Root, Ext, Over, Little, BatchMsg, BatchTable, Whole;
    at := 0;
    var bs := f.Used();
    f.Start(3);
    ok := f.PutRef(bs);
    if !ok { return; }
    f.Slot(2);
    ok := f.PutRef(nodes);
    if !ok { return; }
    f.Slot(1);
    ok := f.PutNumber(rows, 8);
    if !ok { return; }
    f.Slot(0);
    assert f.vt[..f.nvt] == BatchSlots(p);
    ok, at := Finished(f, p.rows, BatchSlots(p), |p.bufs|, 8);
  }

  /** The batch message's octets up to the link to its root. */
  method WriteBatch(f: Builder, rows: int, n: nat, bufs: seq<Two>, bodyLen: int) returns (ok: bool, at: nat)
    requires f.Valid() && f.Octets() == [] && f.minAlign == 1
    modifies f, f.b
    ensures f.Valid() && Wrote(f, ok, at, BatchMsg(rows, n, bufs, bodyLen), 8)
  {
    hide BatchPartsOf, StructVector, Ref, Put, Close, Root, Ext, Over, Little, BatchMsg, BatchTable, Whole;
    ghost var p := BatchPartsOf(rows, n, bufs);
    BatchGrowing(rows, n, bufs, bodyLen);
    at := 0;
    ok := WriteStructs(f, Nodes(rows, n));
    if !ok { return; }
    var nodes := f.Used();
    ok := WriteStructs(f, bufs);
    if !ok { return; }
    ok, at := WriteBatchTable(f, p, rows, n, bufs, nodes, bodyLen);
    if !ok { return; }
    ok, at := WriteRoot(f, BatchTable(rows, n, bufs), at, 3, Just(bodyLen));
  }
}
