/**
 * The table as the writer's caller builds it, column by column, and the stream it is written as.
 */
module ArrowTable {
  import opened Arith
  import opened ArrowBytes
  import opened ArrowTables
  import opened ArrowBuild
  import opened ArrowSchema
  import opened ArrowMessage
  import opened ArrowBatch
  import opened ArrowBody
  import opened ArrowStream
  import opened ArrowValues
  import opened ArrowBuilder
  import opened ArrowWriter

  /** A column's values are as many as the table's rows, and in the range of its type. */
  predicate Suits(c: Col, rows: int) {
    && Kind(c)
    && match c.data
       case Ints(iv) => |iv| == rows && IntsFit(iv, Width(c.ty))
       case Singles(f4) => |f4| == rows && PatternsFit(f4, 4)
       case Doubles(f8) => |f8| == rows && PatternsFit(f8, 8)
       case Strings(soff, sdata) => |soff| == rows + 1
  }

  class Table {
    const rows: int
    var cols: seq<Col>
    var meta: seq<Pair>

    ghost predicate Valid()
      reads this
    {
      Fits(rows, 8) && Texts(meta) && forall i :: 0 <= i < |cols| ==> Suits(cols[i], rows) && IsStr(cols[i].name)
    }

    constructor (n: int)
      requires Fits(n, 8)
      ensures Valid() && rows == n && cols == [] && meta == []
    {
      rows, cols, meta := n, [], [];
    }

    method AddMeta(key: Str, val: Str)
      requires Valid() && IsStr(key) && IsStr(val)
      modifies this`meta
      ensures Valid() && meta == old(meta) + [Pair(key, val)]
    {
      hide IsStr;
      meta := meta + [Pair(key, val)];
    }

    /** Adds a column whose values are checked already; false when they are not as many as the rows. */
    method Add(name: Str, ty: int, data: Data, n: nat) returns (ok: bool)
      requires Valid() && IsStr(name) && (n == rows ==> Suits(Col(name, ty, data), rows))
      modifies this`cols
      ensures Valid() && (ok <==> n == rows)
      ensures cols == if ok then old(cols) + [Col(name, ty, data)] else old(cols)
    {
      hide IsStr, Suits;
      if n != rows {
        return false;
      }
      cols := cols + [Col(name, ty, data)];
      return true;
    }

    /** Whole numbers, or a timestamp's: refused when one does not fit the type's width. */
    method AddInt(name: Str, ty: int, v: seq<int>) returns (ok: bool)
      requires Valid() && IsStr(name) && IntsFit(v, 8)
      modifies this`cols
      ensures Valid()
      ensures ok <==> ty != F32 && ty != F64 && ty != STR && IntsFit(v, Width(ty)) && |v| == rows
      ensures cols == if ok then old(cols) + [Col(name, ty, Ints(v))] else old(cols)
    {
      hide IsStr, Fits;
      if ty == F32 || ty == F64 || ty == STR {
        return false;
      }
      ok := InWidth(v, Width(ty));
      if !ok {
        return false;
      }
      ok := Add(name, ty, Ints(v), |v|);
    }

    method AddF32(name: Str, v: seq<int>) returns (ok: bool)
      requires Valid() && IsStr(name) && PatternsFit(v, 4)
      modifies this`cols
      ensures Valid() && (ok <==> |v| == rows)
      ensures cols == if ok then old(cols) + [Col(name, F32, Singles(v))] else old(cols)
    {
      hide IsStr;
      ok := Add(name, F32, Singles(v), |v|);
    }

    method AddF64(name: Str, v: seq<int>) returns (ok: bool)
      requires Valid() && IsStr(name) && PatternsFit(v, 8)
      modifies this`cols
      ensures Valid() && (ok <==> |v| == rows)
      ensures cols == if ok then old(cols) + [Col(name, F64, Doubles(v))] else old(cols)
    {
      hide IsStr;
      ok := Add(name, F64, Doubles(v), |v|);
    }

    /** Strings, kept end to end with where each starts. */
    method AddStr(name: Str, v: seq<Str>) returns (ok: bool)
      requires Valid() && IsStr(name)
      modifies this`cols
      ensures Valid() && (ok <==> |v| == rows)
      ensures cols == if ok then old(cols) + [Col(name, STR, Strings(Offsets(v), Joined(v)))] else old(cols)
    {
      hide IsStr, Joined;
      if |v| != rows {
        return false;
      }
      var soff, sdata := EndToEnd(v);
      ok := Add(name, STR, Strings(soff[..], sdata[..]), |v|);
    }
  }

  /** Whether every number has a pattern of w octets; any of this type has one of eight. */
  method InWidth(v: seq<int>, w: nat) returns (ok: bool)
    requires Size(w) && IntsFit(v, 8)
    ensures ok <==> IntsFit(v, w)
  {
    hide Fits;
    if w < 8 {
      var lim := Pow256(w) / 2;
      for i := 0 to |v|
        invariant forall j :: 0 <= j < i ==> Fits(v[j], w)
      {
        WidthLimit(w, v[i]);
        if v[i] >= lim || v[i] < -lim {
          return false;
        }
      }
    }
    return true;
  }

  /** The strings end to end, and where each starts. */
  method EndToEnd(v: seq<Str>) returns (soff: array<int>, sdata: array<Byte>)
    ensures fresh(soff) && fresh(sdata) && soff[..] == Offsets(v) && sdata[..] == Joined(v)
  {
    hide Joined;
    soff := new int[|v| + 1];
    var n := 0;
    NoneJoined(v);
    for i := 0 to |v|
      invariant n == |Joined(v[..i])| && forall j :: 0 <= j < i ==> soff[j] == |Joined(v[..j])|
    {
      soff[i] := n;
      JoinedSnoc(v, i);
      n := n + |v[i]|;
    }
    soff[|v|] := n;
    assert v[..|v|] == v && soff[..] == Offsets(v);
    sdata := new Byte[n];
    var j := 0;
    for i := 0 to |v|
      invariant j == |Joined(v[..i])| <= n && sdata[..j] == Joined(v[..i]) && soff[..] == Offsets(v)
    {
      JoinedSnoc(v, i);
      JoinedPrefix(v, i + 1);
      CopyAt(sdata, j, v[i]);
      assert sdata[..j + |v[i]|] == sdata[..j] + sdata[j..j + |v[i]|];
      j := j + |v[i]|;
    }
    assert sdata[..] == sdata[..j];
  }

  lemma NoneJoined(v: seq<Str>)
    ensures v[..0] == [] && Joined(v[..0]) == []
  {}

  lemma WidthLimit(w: nat, v: int)
    requires Size(w) && w < 8
    ensures Fits(v, w) <==> !(v >= Pow256(w) / 2 || v < -(Pow256(w) / 2))
  {
    Powers();
  }

  /** Octets written over part of an array. */
  method CopyAt(u: array<Byte>, at: nat, s: seq<Byte>)
    requires at + |s| <= u.Length
    modifies u
    ensures u[..at] == old(u[..at]) && u[at..at + |s|] == s && u[at + |s|..] == old(u[at + |s|..])
  {
    for i := 0 to |s|
      invariant u[..at] == old(u[..at]) && u[at..at + i] == s[..i] && u[at + |s|..] == old(u[at + |s|..])
    {
      u[at + i] := s[i];
      assert u[at..at + i + 1] == u[at..at + i] + [s[i]] && s[..i + 1] == s[..i] + [s[i]];
    }
    assert s[..|s|] == s;
  }

  // ---- the room is enough ----

  lemma SchemaHasRoom(cols: seq<Column>, kvs: seq<Pair>)
    requires Sound(cols, kvs)
    ensures |SchemaOctets(cols, kvs)| <= RoomFor(cols, kvs)
  {
    hide Sound;
    if kvs == [] {
      SchemaMetaSmall(cols);
    } else {
      SchemaRoomy(cols, kvs);
    }
  }

  lemma SchemaRoomy(cols: seq<Column>, kvs: seq<Pair>)
    requires Sound(cols, kvs)
    ensures |SchemaOctets(cols, kvs)| <= RoomFor(cols, kvs)
  {
    hide SchemaPartsOf, FinishedRoot, MessageStands, Sits, RoomFor, Fits;
    SchemaFits(cols, kvs);
    Small(0, 8);
    SoundIsSmall(cols, kvs);
    FinishedIsRead(SchemaPartsOf(cols, kvs).sc, 1, Nothing, 4);
  }

  lemma SoundIsSmall(cols: seq<Column>, kvs: seq<Pair>)
    requires Sound(cols, kvs)
    ensures RoomFor(cols, kvs) < 0x8000_0000
  {}

  lemma BatchHasRoom(rows: int, cols: seq<Col>, kvs: seq<Pair>)
    requires Carried(rows, cols, kvs)
    ensures |BatchOctets(rows, |cols|, Buffers(cols))| <= RoomFor(Described(cols), kvs)
  {
    hide BatchTable, FinishedRoot, MessageStands, BatchStands, Fits, Sits, Body, AllFit, Buffers, Sound, Kind,
         MetaBytes, NameBytes, Layout;
    FewColumns(cols, kvs);
    BuffersFew(cols);
    var bs := Buffers(cols);
    LayoutFits(bs);
    BatchIsRead(rows, |cols|, Layout(bs));
    LengthFits(|Body(bs)|);
    FinishedIsRead(BatchTable(rows, |cols|, Layout(bs)), 3, Just(|Body(bs)|), 8);
  }

  method NameRoom(cols: seq<Col>) returns (n: nat)
    ensures n == NameBytes(Described(cols))
  {
    n := 0;
    for i := 0 to |cols|
      invariant n == NameBytes(Described(cols)[..i])
    {
      assert Described(cols)[..i + 1][..i] == Described(cols)[..i];
      n := n + 4 * |cols[i].name| + 32;
    }
    assert Described(cols)[..|cols|] == Described(cols);
  }

  method MetaRoom(kvs: seq<Pair>) returns (n: nat)
    ensures n == MetaBytes(kvs)
  {
    n := 0;
    for i := 0 to |kvs|
      invariant n == MetaBytes(kvs[..i])
    {
      assert kvs[..i + 1][..i] == kvs[..i];
      n := n + 4 * |kvs[i].key| + 4 * |kvs[i].val| + 64;
    }
    assert kvs[..|kvs|] == kvs;
  }

  /** A built message and the link to its root: the schema's parts are aligned to four octets, a batch's to eight. */
  function Complete(b: Built, batch: bool): seq<Byte> {
    hide Finish;
    Finish(b.w, if batch then 8 else 4, b.at)
  }

  lemma SchemaComplete(cols: seq<Column>, kvs: seq<Pair>)
    ensures SchemaOctets(cols, kvs) == Complete(SchemaMsg(cols, kvs), false)
  {
    hide SchemaPartsOf, Root, Finish;
  }

  lemma RootComplete(header: Built, kind: nat, bodyLen: Wrapped)
    ensures FinishedRoot(header, kind, bodyLen, 8) == Complete(Root(header, kind, bodyLen), true)
  {
    hide Root, Finish;
  }

  lemma BatchMsgIs(rows: int, n: nat, layout: seq<Two>, bodyLen: int)
    ensures BatchMsg(rows, n, layout, bodyLen) == Root(BatchTable(rows, n, layout), 3, Just(bodyLen))
  {
    hide Root, BatchTable;
  }

  /** A batch's layout and body length are those of its buffers. */
  predicate LaidOut(layout: seq<Two>, bodyLen: nat, bs: seq<seq<Byte>>) {
    layout == Layout(bs) && bodyLen == |Body(bs)|
  }

  lemma BatchComplete(rows: int, n: nat, bs: seq<seq<Byte>>, layout: seq<Two>, bodyLen: nat)
    requires LaidOut(layout, bodyLen, bs)
    ensures BatchOctets(rows, n, bs) == Complete(BatchMsg(rows, n, layout, bodyLen), true)
  {
    hide Root, Finish, BatchTable, Layout, Body, BatchMsg, Complete, FinishedRoot;
    RootComplete(BatchTable(rows, n, layout), 3, Just(bodyLen));
    BatchMsgIs(rows, n, layout, bodyLen);
  }

  lemma FinishGrows(b: Built, batch: bool)
    ensures |b.w| <= |Complete(b, batch)|
  {
    hide Padded, Little, Over;
    ExtShorter(b.w, Padded(b.w, if batch then 8 else 4, 4));
  }

  /** The schema message, or its octets outgrew the room. */
  method SchemaMessage(f: Builder, cols: seq<Column>, kvs: seq<Pair>) returns (ok: bool)
    requires f.Valid() && f.Octets() == [] && f.minAlign == 1
    modifies f, f.b
    ensures f.Valid() && if ok then f.Octets() == SchemaOctets(cols, kvs) else |SchemaOctets(cols, kvs)| > f.b.Length
  {
    hide SchemaMsg, Finish, SchemaOctets;
    SchemaComplete(cols, kvs);
    FinishGrows(SchemaMsg(cols, kvs), false);
    var root;
    ok, root := WriteSchema(f, cols, kvs);
    if ok {
      ok := FinishMessage(f, root);
    }
  }

  method BatchMessage(f: Builder, rows: int, n: nat, ghost bs: seq<seq<Byte>>, layout: seq<Two>, bodyLen: nat)
      returns (ok: bool)
    requires f.Valid() && f.Octets() == [] && f.minAlign == 1 && LaidOut(layout, bodyLen, bs)
    modifies f, f.b
    ensures f.Valid() && if ok then f.Octets() == BatchOctets(rows, n, bs) else |BatchOctets(rows, n, bs)| > f.b.Length
  {
    hide BatchMsg, Finish, BatchOctets, LaidOut;
    BatchComplete(rows, n, bs, layout, bodyLen);
    FinishGrows(BatchMsg(rows, n, layout, bodyLen), true);
    var root;
    ok, root := WriteBatch(f, rows, n, layout, bodyLen);
    if ok {
      ok := FinishMessage(f, root);
    }
  }

  /** Both messages' octets, from one builder; or the metadata outgrew the room. */
  method Messages(rows: int, cols: seq<Col>, kvs: seq<Pair>, layout: seq<Two>, bodyLen: nat)
    returns (ok: bool, schema: seq<Byte>, batch: seq<Byte>)
    requires LaidOut(layout, bodyLen, Buffers(cols))
    ensures ok ==> schema == SchemaOctets(Described(cols), kvs) && batch == BatchOctets(rows, |cols|, Buffers(cols))
    ensures Carried(rows, cols, kvs) ==> ok
  {
    hide Buffers, LaidOut, SchemaOctets, BatchOctets, Described, MetaBytes, NameBytes, Carried;
    schema, batch := [], [];
    var names := NameRoom(cols);
    var metas := MetaRoom(kvs);
    CarriedHasRoom(rows, cols, kvs);
    var f := new Builder(8192 + 512 * (|cols| + 1) + metas + names);
    ok := SchemaMessage(f, Described(cols), kvs);
    if !ok { return; }
    schema := f.Octets();
    f.Rewind();
    ok := BatchMessage(f, rows, |cols|, Buffers(cols), layout, bodyLen);
    if !ok { return; }
    batch := f.Octets();
  }

  lemma CarriedHasRoom(rows: int, cols: seq<Col>, kvs: seq<Pair>)
    ensures Carried(rows, cols, kvs) ==> |SchemaOctets(Described(cols), kvs)| <= RoomFor(Described(cols), kvs)
    ensures Carried(rows, cols, kvs) ==> |BatchOctets(rows, |cols|, Buffers(cols))| <= RoomFor(Described(cols), kvs)
  {
    hide SchemaOctets, BatchOctets, Buffers, RoomFor, Described, Sound;
    if Carried(rows, cols, kvs) {
      SchemaHasRoom(Described(cols), kvs);
      BatchHasRoom(rows, cols, kvs);
    }
  }
}
