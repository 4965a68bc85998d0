/**
 * The schema message: what the writer builds for a table's columns and metadata, what the reader
 * makes of one, and that the reader gets back what was written.
 */
module ArrowSchema {
  import opened ArrowBytes
  import opened ArrowTables
  import opened ArrowBuild

  const I8 := 0
  const I16 := 1
  const I32 := 2
  const I64 := 3
  const F32 := 4
  const F64 := 5
  const STR := 6
  const TSNS := 7

  function Width(ty: int): (k: nat)
    ensures Size(k)
  {
    if ty == I8 then 1 else if ty == I16 then 2 else if ty == I32 || ty == F32 then 4 else 8
  }

  function TypeTag(ty: int): (t: nat)
    ensures t <= 10
  {
    if ty == F32 || ty == F64 then 3 else if ty == STR then 5 else if ty == TSNS then 10 else 2
  }

  /** What a column's type is called once read: a number that names no type was written as I64. */
  function ReadBack(ty: int): int {
    if I8 <= ty <= TSNS then ty else I64
  }

  // ---- reading ----

  datatype Field = Field(name: Str, ty: int, tz: Str)
  datatype Pair = Pair(key: Str, val: Str)

  function IntType(bits: int): Read<(int, Str)> {
    if bits == 8 then Ok((I8, []))
    else if bits == 16 then Ok((I16, []))
    else if bits == 32 then Ok((I32, []))
    else if bits == 64 then Ok((I64, []))
    else Err(BadArg)
  }

  /** A field's type and time zone, from its type table and the tag that says which kind it is. */
  function TypeOf(m: seq<Byte>, ty: int, tag: int): Read<(int, Str)> {
    if tag == 2 then
      var bits :- FbInt(m, ty, 0, 4, true, 0);
      var signed :- FbInt(m, ty, 1, 1, false, 0);
      if signed == 0 then Err(BadArg) else IntType(bits)
    else if tag == 3 then
      var prec :- FbInt(m, ty, 0, 2, true, 0);
      if prec == 1 then Ok((F32, [])) else if prec == 2 then Ok((F64, [])) else Err(BadArg)
    else if tag == 5 then Ok((STR, []))
    else if tag == 10 then
      var unit :- FbInt(m, ty, 0, 2, true, 0);
      if unit != 3 then Err(BadArg)
      else
        var tz :- FbStr(m, ty, 1);
        Ok((TSNS, tz))
    else Err(BadArg)
  }

  function SchemaField(m: seq<Byte>, f: int): Read<Field> {
    var name :- FbStr(m, f, 0);
    var dict :- FbField(m, f, 4);
    if dict >= 0 then Err(BadArg)
    else
      var kids :- FbVec(m, f, 5);
      if kids.0 >= 0 && kids.1 > 0 then Err(BadArg)
      else
        var tag :- FbInt(m, f, 2, 1, false, 0);
        var at :- FbField(m, f, 3);
        var ty :- FbRef(m, at);
        var t :- TypeOf(m, ty, tag);
        Ok(Field(name, t.0, t.1))
  }

  function KvAt(m: seq<Byte>, kv: int): Read<Pair> {
    var k :- FbStr(m, kv, 0);
    var v :- FbStr(m, kv, 1);
    Ok(Pair(k, v))
  }

  // ---- the same, wherever the message lies ----

  lemma TypeThere(m: seq<Byte>, w: seq<Byte>, d: nat, ty: int, tag: int)
    requires Sits(m, w, d) && TypeOf(m, ty, tag).Ok?
    ensures TypeOf(w, ty + d, tag) == TypeOf(m, ty, tag)
  {
    hide FbInt, FbStr, IntType, Sits;
    if tag == 2 {
      IntThere(m, w, d, ty, 0, 4, true, 0);
      IntThere(m, w, d, ty, 1, 1, false, 0);
    } else if tag == 3 {
      IntThere(m, w, d, ty, 0, 2, true, 0);
    } else if tag == 10 {
      IntThere(m, w, d, ty, 0, 2, true, 0);
      FbStrThere(m, w, d, ty, 1);
    }
  }

  lemma SchemaFieldThere(m: seq<Byte>, w: seq<Byte>, d: nat, f: int)
    requires Sits(m, w, d) && SchemaField(m, f).Ok?
    ensures SchemaField(w, f + d) == SchemaField(m, f)
  {
    hide FbInt, FbStr, FbField, FbVec, FbRef, TypeOf, Sits;
    FbStrThere(m, w, d, f, 0);
    FieldThere(m, w, d, f, 4);
    VecThere(m, w, d, f, 5);
    IntThere(m, w, d, f, 2, 1, false, 0);
    FieldThere(m, w, d, f, 3);
    var at := FbField(m, f, 3).value;
    RefThere(m, w, d, at);
    TypeThere(m, w, d, FbRef(m, at).value, FbInt(m, f, 2, 1, false, 0).value);
  }

  lemma KvThere(m: seq<Byte>, w: seq<Byte>, d: nat, kv: int)
    requires Sits(m, w, d) && KvAt(m, kv).Ok?
    ensures KvAt(w, kv + d) == KvAt(m, kv)
  {
    hide FbStr, Sits;
    FbStrThere(m, w, d, kv, 0);
    FbStrThere(m, w, d, kv, 1);
  }

  // ---- writing: the tables ----

  /** A type table whose first field is a number of two octets; slot 1 is there or not, and empty. */
  function ShortTable(u: seq<Byte>, x: nat, two: bool): Built {
    var v := Put(u, x, 2);
    Close(v, if two then [|v|, 0] else [|v|], |u|)
  }

  function IntTable(u: seq<Byte>, bits: nat): Built {
    var a := Put(u, 1, 1);
    var b := Put(a, bits, 4);
    Close(b, [|b|, |a|], |u|)
  }

  function TypeTable(u: seq<Byte>, ty: int): Built {
    if ty == STR then Close(u, [], |u|)
    else if ty == F32 || ty == F64 then ShortTable(u, if ty == F32 then 1 else 2, false)
    else if ty == TSNS then ShortTable(u, 3, true)
    else IntTable(u, Width(ty) * 8)
  }

  lemma ShortTableIsRead(u: seq<Byte>, x: nat, two: bool)
    requires x < 128
    ensures var b := ShortTable(u, x, two);
            FbInt(b.w, |b.w| - b.at, 0, 2, true, 0) == Ok(x)
            && FbStr(b.w, |b.w| - b.at, 1) == Ok([])
    ensures var b := ShortTable(u, x, two); Ext(u, b.w) && |u| < b.at <= |b.w| < |u| + 40
  {
    hide Put, Close, Little, Fits, Near, Over, FbInt, FbStr;
    var v := Put(u, x, 2);
    var s := if two then [|v|, 0] else [|v|];
    Small(x, 2);
    NearOne(v, |v|);
    ScalarField(v, v, s, |u|, 0, 2, true, x, 0);
    AbsentStr(v, s, |u|, 1);
    CloseShape(u, v, s, |u|);
  }

  lemma IntTableIsRead(u: seq<Byte>, bits: nat)
    requires bits < 128
    ensures var b := IntTable(u, bits);
            FbInt(b.w, |b.w| - b.at, 0, 4, true, 0) == Ok(bits)
            && FbInt(b.w, |b.w| - b.at, 1, 1, false, 0) == Ok(1)
    ensures var b := IntTable(u, bits); Ext(u, b.w) && |u| < b.at <= |b.w| < |u| + 40
  {
    hide Put, Close, Little, Fits, Near, Over, FbInt;
    var a := Put(u, 1, 1);
    var b := Put(a, bits, 4);
    Small(bits, 4);
    Small(1, 1);
    NearTwo(b, |b|, |a|);
    ScalarField(b, b, [|b|, |a|], |u|, 0, 4, true, bits, 0);
    ScalarField(a, b, [|b|, |a|], |u|, 1, 1, false, 1, 0);
    ExtTransitive(u, a, b);
    CloseShape(u, b, [|b|, |a|], |u|);
  }

  lemma TypeIsRead(u: seq<Byte>, ty: int)
    ensures var b := TypeTable(u, ty); TypeOf(b.w, |b.w| - b.at, TypeTag(ty)) == Ok((ReadBack(ty), []))
    ensures var b := TypeTable(u, ty); Ext(u, b.w) && |u| < b.at <= |b.w| < |u| + 40
  {
    hide Put, Close, FbInt, FbStr, ShortTable, IntTable, Over;
    if ty == STR {
      CloseShape(u, u, [], |u|);
    } else if ty == F32 || ty == F64 {
      ShortTableIsRead(u, if ty == F32 then 1 else 2, false);
    } else if ty == TSNS {
      ShortTableIsRead(u, 3, true);
    } else {
      IntTableIsRead(u, Width(ty) * 8);
    }
  }

  /** The octets in use after each step of a field's table. */
  datatype FieldParts = FieldParts(name: seq<Byte>, ty: Built, kids: seq<Byte>, toKids: seq<Byte>, toType: seq<Byte>,
                                   tag: seq<Byte>, nullable: seq<Byte>, toName: seq<Byte>)
  {
    function Slots(): seq<nat> {
      [|toName|, |nullable|, |tag|, |toType|, 0, |toKids|]
    }
  }

  function PartsOf(u: seq<Byte>, name: Str, ty: int): FieldParts {
    var a := Text(u, name);
    var t := TypeTable(a, ty);
    var c := Put(Padded(t.w, 4, 0), 0, 4);
    var d := Ref(c, |c|);
    var e := Ref(d, t.at);
    var f := Put(e, TypeTag(ty), 1);
    var g := Put(f, 1, 1);
    FieldParts(a, t, c, d, e, f, g, Ref(g, |a|))
  }

  function FieldTable(u: seq<Byte>, name: Str, ty: int): Built {
    var p := PartsOf(u, name, ty);
    Close(p.toName, p.Slots(), |p.kids|)
  }

  lemma PartsChain(u: seq<Byte>, name: Str, ty: int)
    ensures var p := PartsOf(u, name, ty);
            && Ext(u, p.name) && Ext(p.name, p.ty.w) && Ext(p.ty.w, p.kids) && Ext(p.kids, p.toKids)
               && Ext(p.toKids, p.toType)
            && Ext(p.toType, p.tag) && Ext(p.tag, p.nullable) && Ext(p.nullable, p.toName)
    ensures var p := PartsOf(u, name, ty);
            && |u| + |name| + 5 <= |p.name| < |u| + |name| + 9 && |p.name| < p.ty.at <= |p.ty.w| < |p.name| + 40
            && |p.ty.w| + 4 <= |p.kids| < |p.ty.w| + 12 && |p.kids| + 4 <= |p.toKids| < |p.kids| + 8
            && |p.toKids| + 4 <= |p.toType| < |p.toKids| + 8 && |p.tag| == |p.toType| + 1 && |p.nullable| == |p.tag| + 1
            && |p.nullable| + 4 <= |p.toName| < |p.nullable| + 8
  {
    hide TypeTable, TypeOf, Put, Padded, Ref, Text, Over;
    var t := TypeTable(Text(u, name), ty);
    TypeIsRead(Text(u, name), ty);
    ExtTransitive(t.w, Padded(t.w, 4, 0), Put(Padded(t.w, 4, 0), 0, 4));
  }

  /** Every step is still there at the last. */
  lemma PartsStay(u: seq<Byte>, name: Str, ty: int)
    ensures var p := PartsOf(u, name, ty);
            && Ext(p.nullable, p.toName) && Ext(p.tag, p.toName) && Ext(p.toType, p.toName) && Ext(p.toKids, p.toName)
            && Ext(p.kids, p.toKids) && Ext(p.ty.w, p.toName) && Ext(p.name, p.toName) && Ext(u, p.toName)
  {
    hide PartsOf, Ext;
    PartsChain(u, name, ty);
    var p := PartsOf(u, name, ty);
    ExtTransitive(p.tag, p.nullable, p.toName);
    ExtTransitive(p.toType, p.tag, p.toName);
    ExtTransitive(p.toKids, p.toType, p.toName);
    ExtTransitive(p.kids, p.toKids, p.toName);
    ExtTransitive(p.ty.w, p.kids, p.toName);
    ExtTransitive(p.name, p.ty.w, p.toName);
    ExtTransitive(u, p.name, p.toName);
  }

  /** What stands first after each step. */
  lemma PartsFirst(u: seq<Byte>, name: Str, ty: int)
    ensures var p := PartsOf(u, name, ty);
            && p.name == Text(u, name) && p.ty == TypeTable(p.name, ty) && p.kids[..4] == Little(0, 4)
            && p.toKids[..4] == Little(|p.toKids| - |p.kids|, 4) && p.toType[..4] == Little(|p.toType| - p.ty.at, 4)
            && p.tag[..1] == Little(TypeTag(ty), 1) && p.toName[..4] == Little(|p.toName| - |p.name|, 4)
  {
    hide TypeTable, Put, Padded, Ref, Text, Over, Little, TypeTag;
  }

  lemma PartsNear(u: seq<Byte>, name: Str, ty: int)
    ensures Near(PartsOf(u, name, ty).toName, PartsOf(u, name, ty).Slots())
  {
    hide PartsOf;
    PartsChain(u, name, ty);
  }

  predicate NameRead(b: Built, name: Str) {
    FbStr(b.w, |b.w| - b.at, 0) == Ok(name)
  }

  /** No dictionary, and no children. */
  predicate NoKids(b: Built) {
    FbField(b.w, |b.w| - b.at, 4) == Ok(-1) && FbVec(b.w, |b.w| - b.at, 5).Ok?
        && FbVec(b.w, |b.w| - b.at, 5).value.1 == 0
  }

  predicate TagRead(b: Built, tag: nat) {
    FbInt(b.w, |b.w| - b.at, 2, 1, false, 0) == Ok(tag)
  }

  predicate TypeRead(b: Built, link: nat, at: nat, ty: int) {
    && FbField(b.w, |b.w| - b.at, 3) == Ok(|b.w| - link) && FbRef(b.w, |b.w| - link) == Ok(|b.w| - at)
    && TypeOf(b.w, |b.w| - at, TypeTag(ty)) == Ok((ReadBack(ty), []))
  }

  /** Something was built on top of u, of so many octets. */
  predicate Grown(u: seq<Byte>, b: Built, least: int, most: int) {
    Ext(u, b.w) && |u| + least < b.at <= |b.w| < |u| + most
  }

  /** The field table built reads as that field. */
  predicate FieldRead(b: Built, f: Field) {
    SchemaField(b.w, |b.w| - b.at) == Ok(f)
  }

  lemma NameIsRead(u: seq<Byte>, name: Str, ty: int)
    requires IsStr(name) && |u| + |name| < 0x8000_0000
    ensures NameRead(FieldTable(u, name, ty), name)
  {
    hide PartsOf, Close, FbStr, FbField, FbVec, FbInt, FbRef, TypeOf, Near, Ext, Little, Text, TypeTag, TypeTable,
         IsStr, Fits, Over;
    PartsChain(u, name, ty);
    PartsStay(u, name, ty);
    PartsFirst(u, name, ty);
    PartsNear(u, name, ty);
    var p := PartsOf(u, name, ty);
    ExtSelf(p.toName);
    TextField(u, name, p.toName, p.toName, p.Slots(), |p.kids|, 0);
  }

  lemma KidsAreRead(u: seq<Byte>, name: Str, ty: int)
    requires |u| + |name| < 0x8000_0000
    ensures NoKids(FieldTable(u, name, ty))
  {
    hide PartsOf, Close, FbStr, FbField, FbVec, FbInt, FbRef, TypeOf, Near, Ext, Little, Text, TypeTag, TypeTable,
         IsStr, Fits, Over;
    PartsChain(u, name, ty);
    PartsStay(u, name, ty);
    PartsFirst(u, name, ty);
    PartsNear(u, name, ty);
    var p := PartsOf(u, name, ty);
    AbsentField(p.toName, p.Slots(), |p.kids|, 4);
    VectorField(p.kids, 0, p.toKids, p.toName, p.Slots(), |p.kids|, 5);
  }

  lemma TagIsRead(u: seq<Byte>, name: Str, ty: int)
    ensures TagRead(FieldTable(u, name, ty), TypeTag(ty))
  {
    hide PartsOf, Close, FbStr, FbField, FbVec, FbInt, FbRef, TypeOf, Near, Ext, Little, Text, TypeTag, TypeTable,
         IsStr, Fits, Over;
    PartsChain(u, name, ty);
    PartsStay(u, name, ty);
    PartsFirst(u, name, ty);
    PartsNear(u, name, ty);
    var p := PartsOf(u, name, ty);
    Small(TypeTag(ty), 1);
    ScalarField(p.tag, p.toName, p.Slots(), |p.kids|, 2, 1, false, TypeTag(ty), 0);
  }

  lemma TypeLinkIsRead(u: seq<Byte>, name: Str, ty: int)
    requires |u| + |name| < 0x8000_0000
    ensures TypeRead(FieldTable(u, name, ty), |PartsOf(u, name, ty).toType|, PartsOf(u, name, ty).ty.at, ty)
  {
    hide PartsOf, Close, FbStr, FbField, FbVec, FbInt, FbRef, TypeOf, Near, Ext, Little, Text, TypeTag, TypeTable,
         IsStr, Fits, Over;
    PartsChain(u, name, ty);
    PartsStay(u, name, ty);
    PartsFirst(u, name, ty);
    PartsNear(u, name, ty);
    var p := PartsOf(u, name, ty);
    LinkField(p.toType, p.toName, p.Slots(), |p.kids|, 3, p.ty.at);
    TypeIsRead(p.name, ty);
    var w := FieldTable(u, name, ty).w;
    CloseShape(p.ty.w, p.toName, p.Slots(), |p.kids|);
    ExtSits(p.ty.w, w);
    TypeThere(p.ty.w, w, |w| - |p.ty.w|, |p.ty.w| - p.ty.at, TypeTag(ty));
  }

  lemma FieldShape(u: seq<Byte>, name: Str, ty: int)
    ensures Grown(u, FieldTable(u, name, ty), |name|, |name| + 120)
  {
    hide PartsOf, Close, FbStr, FbField, FbVec, FbInt, FbRef, TypeOf, Near, Ext, Little, Text, TypeTag, TypeTable,
         IsStr, Fits, Over;
    PartsChain(u, name, ty);
    PartsStay(u, name, ty);
    PartsFirst(u, name, ty);
    PartsNear(u, name, ty);
    var p := PartsOf(u, name, ty);
    CloseShape(u, p.toName, p.Slots(), |p.kids|);
  }

  /** A column's field table reads back as its name and type. */
  lemma FieldIsRead(u: seq<Byte>, name: Str, ty: int)
    requires IsStr(name) && |u| + |name| < 0x8000_0000
    ensures FieldRead(FieldTable(u, name, ty), Field(name, ReadBack(ty), []))
  {
    hide FieldTable, PartsOf, FbStr, FbField, FbVec, FbInt, FbRef, TypeOf, TypeTag, IsStr;
    NameIsRead(u, name, ty);
    KidsAreRead(u, name, ty);
    TagIsRead(u, name, ty);
    TypeLinkIsRead(u, name, ty);
  }

  // ---- a metadata pair ----

  datatype KvParts = KvParts(key: seq<Byte>, val: seq<Byte>, toVal: seq<Byte>, toKey: seq<Byte>)

  function KvPartsOf(u: seq<Byte>, kv: Pair): KvParts {
    var a := Text(u, kv.key);
    var b := Text(a, kv.val);
    var c := Ref(b, |b|);
    KvParts(a, b, c, Ref(c, |a|))
  }

  function KvTable(u: seq<Byte>, kv: Pair): Built {
    var p := KvPartsOf(u, kv);
    Close(p.toKey, [|p.toKey|, |p.toVal|], |p.val|)
  }

  predicate KvRead(b: Built, kv: Pair) {
    KvAt(b.w, |b.w| - b.at) == Ok(kv)
  }

  lemma KvChain(u: seq<Byte>, kv: Pair)
    ensures var p := KvPartsOf(u, kv);
            && p.key == Text(u, kv.key) && p.val == Text(p.key, kv.val)
            && p.toVal[..4] == Little(|p.toVal| - |p.val|, 4) && p.toKey[..4] == Little(|p.toKey| - |p.key|, 4)
            && Ext(u, p.key) && Ext(p.key, p.val) && Ext(p.val, p.toVal) && Ext(p.toVal, p.toKey)
    ensures var p := KvPartsOf(u, kv);
            && |u| + |kv.key| + 5 <= |p.key| < |u| + |kv.key| + 9
               && |p.key| + |kv.val| + 5 <= |p.val| < |p.key| + |kv.val| + 9
            && |p.val| + 4 <= |p.toVal| < |p.val| + 8 && |p.toVal| + 4 <= |p.toKey| < |p.toVal| + 8
  {
    hide Ref, Text, Over, Little;
  }

  lemma KvIsRead(u: seq<Byte>, kv: Pair)
    requires IsStr(kv.key) && IsStr(kv.val) && |u| + |kv.key| + |kv.val| < 0x8000_0000
    ensures KvRead(KvTable(u, kv), kv)
    ensures Grown(u, KvTable(u, kv), 0, |kv.key| + |kv.val| + 60)
  {
    hide KvPartsOf, Close, FbStr, Near, Ext, Little, Text, IsStr, Over;
    KvChain(u, kv);
    var p := KvPartsOf(u, kv);
    var s := [|p.toKey|, |p.toVal|];
    NearTwo(p.toKey, |p.toKey|, |p.toVal|);
    ExtTransitive(p.key, p.val, p.toVal);
    ExtTransitive(p.key, p.toVal, p.toKey);
    ExtTransitive(u, p.key, p.toKey);
    ExtSelf(p.toKey);
    TextField(u, kv.key, p.toKey, p.toKey, s, |p.val|, 0);
    TextField(p.key, kv.val, p.toVal, p.toKey, s, |p.val|, 1);
    CloseShape(u, p.toKey, s, |p.val|);
  }

  // ---- a vector of links ----

  function RefEach(u: seq<Byte>, offs: seq<nat>): (w: seq<Byte>)
    ensures Ext(u, w)
  {
    if offs == [] then u
    else
      var rest := RefEach(u, offs[1..]);
      ExtTransitive(u, rest, Ref(rest, offs[0]));
      Ref(rest, offs[0])
  }

  /** The elements of a vector of links, the last first. */
  function Refs(u: seq<Byte>, offs: seq<nat>): (w: seq<Byte>)
    ensures Ext(u, w)
  {
    RefEach(u, offs)
  }

  function Vector(u: seq<Byte>, offs: seq<nat>): (w: seq<Byte>) {
    Put(Refs(Padded(u, 4, 4 * |offs|), offs), |offs|, 4)
  }

  /** A vector of links stands at an offset from the end. */
  predicate VectorStands(w: seq<Byte>, off: nat, offs: seq<nat>) {
    && GetLE(w, |w| - off, 4, false) == Ok(|offs|)
    && forall i :: 0 <= i < |offs| ==> LinkStands(w, off, i, offs[i])
  }

  predicate LinkStands(w: seq<Byte>, off: nat, i: nat, to: nat) {
    FbRef(w, |w| - off + 4 + 4 * i) == Ok(|w| - to)
  }

  lemma {:induction false} FewerFours(n: nat, k: nat)
    requires Whole(n + 4 * k, 4)
    ensures Whole(n, 4)
  {
    if k > 0 {
      assert Over(n + 4 * k, 4) == Over(n + 4 * (k - 1), 4);
      FewerFours(n, k - 1);
    }
  }

  lemma {:induction false} RefEachLength(u: seq<Byte>, offs: seq<nat>)
    requires Whole(|u|, 4)
    ensures |RefEach(u, offs)| == |u| + 4 * |offs| && Whole(|RefEach(u, offs)|, 4)
  {
    if offs != [] {
      RefEachLength(u, offs[1..]);
      RefWhole(RefEach(u, offs[1..]), offs[0]);
    }
  }

  lemma RefWhole(u: seq<Byte>, off: nat)
    requires Whole(|u|, 4)
    ensures |Ref(u, off)| == |u| + 4
  {
    NoPadding(u, 4, 0);
  }

  /** Each link, seen from the vector's elements as a whole. */
  lemma {:induction false} RefEachStands(u: seq<Byte>, offs: seq<nat>, i: nat)
    requires Whole(|u|, 4) && i < |offs| && |u| + 4 * |offs| < 0x1_0000_0000
    requires forall j :: 0 <= j < |offs| ==> offs[j] <= |u|
    ensures FbRef(RefEach(u, offs), 4 * i) == Ok(|RefEach(u, offs)| - offs[i])
  {
    hide FbRef, Ref, Little, Over, Whole, Sits, GetLE, Ext;
    var rest, w := RefEach(u, offs[1..]), RefEach(u, offs);
    RefEachLength(u, offs);
    RefEachLength(u, offs[1..]);
    assert w == Ref(rest, offs[0]);
    if i == 0 {
      ExtSelf(w);
      LinkIsRead(w, w, offs[0]);
    } else {
      RefEachStands(u, offs[1..], i - 1);
      ExtSits(rest, w);
      RefThere(rest, w, |w| - |rest|, 4 * (i - 1));
    }
  }

  lemma VectorIsRead(u: seq<Byte>, offs: seq<nat>)
    requires |u| + 4 * |offs| + 8 < 0x1_0000_0000 && forall j :: 0 <= j < |offs| ==> offs[j] <= |u|
    ensures VectorStands(Vector(u, offs), |Vector(u, offs)|, offs) && Vector(u, offs)[..4] == Little(|offs|, 4)
    ensures Ext(u, Vector(u, offs)) && |u| + 4 * |offs| + 4 <= |Vector(u, offs)| < |u| + 4 * |offs| + 8
  {
    hide FbRef, Ref, Little, RefEach, GetLE, Ext;
    var p := Padded(u, 4, 4 * |offs|);
    var e := Refs(p, offs);
    var w := Vector(u, offs);
    FewerFours(|p|, |offs|);
    RefEachLength(p, offs);
    PutWhole(e, |offs|, 4);
    ExtTransitive(u, p, e);
    ExtTransitive(u, e, w);
    Powers();
    GetWritten(w, 0, 4, false, |offs|);
    forall i | 0 <= i < |offs| ensures LinkStands(w, |w|, i, offs[i]) {
      RefEachStands(p, offs, i);
      ExtSits(e, w);
      RefThere(e, w, |w| - |e|, 4 * i);
    }
  }

  lemma VectorThere(v: seq<Byte>, w: seq<Byte>, off: nat, offs: seq<nat>)
    requires Ext(v, w) && VectorStands(v, off, offs)
    ensures VectorStands(w, off, offs)
  {
    hide FbRef, GetLE;
    ExtSits(v, w);
    GetThere(v, w, |w| - |v|, |v| - off, 4, false);
    forall i | 0 <= i < |offs| ensures LinkStands(w, off, i, offs[i]) {
      assert LinkStands(v, off, i, offs[i]);
      RefThere(v, w, |w| - |v|, |v| - off + 4 + 4 * i);
    }
  }

  // ---- all columns, all pairs ----

  datatype Column = Column(name: Str, ty: int)

  /** The octets in use and the distances of several objects from the end. */
  datatype Several = Several(w: seq<Byte>, ats: seq<nat>)

  function EachField(u: seq<Byte>, cols: seq<Column>): (r: Several)
    ensures |r.ats| == |cols|
  {
    hide FieldTable;
    if cols == [] then Several(u, [])
    else
      var before := EachField(u, cols[..|cols| - 1]);
      var b := FieldTable(before.w, cols[|cols| - 1].name, cols[|cols| - 1].ty);
      Several(b.w, before.ats + [b.at])
  }

  function EachKv(u: seq<Byte>, kvs: seq<Pair>): (r: Several)
    ensures |r.ats| == |kvs|
  {
    hide KvTable;
    if kvs == [] then Several(u, [])
    else
      var before := EachKv(u, kvs[..|kvs| - 1]);
      var b := KvTable(before.w, kvs[|kvs| - 1]);
      Several(b.w, before.ats + [b.at])
  }

  function Fields(u: seq<Byte>, cols: seq<Column>): (r: Several)
    ensures |r.ats| == |cols|
  {
    EachField(u, cols)
  }

  function Kvs(u: seq<Byte>, kvs: seq<Pair>): (r: Several)
    ensures |r.ats| == |kvs|
  {
    EachKv(u, kvs)
  }

  /** The room the writer reckons for names, and for metadata. */
  function NameBytes(cols: seq<Column>): nat {
    if cols == [] then 0 else NameBytes(cols[..|cols| - 1]) + 4 * |cols[|cols| - 1].name| + 32
  }

  function MetaBytes(kvs: seq<Pair>): nat {
    if kvs == [] then 0
    else MetaBytes(kvs[..|kvs| - 1]) + 4 * |kvs[|kvs| - 1].key| + 4 * |kvs[|kvs| - 1].val| + 64
  }

  function FieldOf(c: Column): Field {
    Field(c.name, ReadBack(c.ty), [])
  }

  predicate FieldStands(w: seq<Byte>, at: nat, c: Column) {
    at <= |w| && SchemaField(w, |w| - at) == Ok(FieldOf(c))
  }

  predicate KvStands(w: seq<Byte>, at: nat, kv: Pair) {
    at <= |w| && KvAt(w, |w| - at) == Ok(kv)
  }

  predicate FieldsStand(w: seq<Byte>, ats: seq<nat>, cols: seq<Column>) {
    |ats| == |cols| && forall i :: 0 <= i < |ats| ==> FieldStands(w, ats[i], cols[i])
  }

  predicate KvsStand(w: seq<Byte>, ats: seq<nat>, kvs: seq<Pair>) {
    |ats| == |kvs| && forall i :: 0 <= i < |ats| ==> KvStands(w, ats[i], kvs[i])
  }

  lemma FieldsThere(v: seq<Byte>, w: seq<Byte>, ats: seq<nat>, cols: seq<Column>)
    requires Ext(v, w) && FieldsStand(v, ats, cols)
    ensures FieldsStand(w, ats, cols)
  {
    hide SchemaField;
    ExtSits(v, w);
    forall i | 0 <= i < |ats| ensures FieldStands(w, ats[i], cols[i]) {
      assert FieldStands(v, ats[i], cols[i]);
      SchemaFieldThere(v, w, |w| - |v|, |v| - ats[i]);
    }
  }

  lemma KvsThere(v: seq<Byte>, w: seq<Byte>, ats: seq<nat>, kvs: seq<Pair>)
    requires Ext(v, w) && KvsStand(v, ats, kvs)
    ensures KvsStand(w, ats, kvs)
  {
    hide KvAt;
    ExtSits(v, w);
    forall i | 0 <= i < |ats| ensures KvStands(w, ats[i], kvs[i]) {
      assert KvStands(v, ats[i], kvs[i]);
      KvThere(v, w, |w| - |v|, |v| - ats[i]);
    }
  }

  predicate Names(cols: seq<Column>) {
    forall i :: 0 <= i < |cols| ==> IsStr(cols[i].name)
  }

  predicate Texts(kvs: seq<Pair>) {
    forall i :: 0 <= i < |kvs| ==> IsStr(kvs[i].key) && IsStr(kvs[i].val)
  }

  lemma {:induction false} EachFieldStands(u: seq<Byte>, cols: seq<Column>)
    requires Names(cols) && |u| + NameBytes(cols) + 120 * |cols| < 0x8000_0000
    ensures var r := EachField(u, cols);
            Ext(u, r.w) && FieldsStand(r.w, r.ats, cols)
            && |r.w| <= |u| + NameBytes(cols) + 88 * |cols|
  {
    hide FieldTable, SchemaField, IsStr, Ext;
    ExtSelf(u);
    if cols != [] {
      var (c, rest) := (cols[|cols| - 1], cols[..|cols| - 1]);
      EachFieldStands(u, rest);
      var before := EachField(u, rest);
      var b := FieldTable(before.w, c.name, c.ty);
      FieldShape(before.w, c.name, c.ty);
      FieldIsRead(before.w, c.name, c.ty);
      ExtTransitive(u, before.w, b.w);
      FieldsThere(before.w, b.w, before.ats, rest);
      forall i | 0 <= i < |cols| ensures FieldStands(b.w, (before.ats + [b.at])[i], cols[i]) {
        if i < |rest| {
          assert FieldStands(b.w, before.ats[i], rest[i]);
        }
      }
    }
  }

  lemma {:induction false} EachKvStands(u: seq<Byte>, kvs: seq<Pair>)
    requires Texts(kvs) && |u| + MetaBytes(kvs) < 0x8000_0000
    ensures var r := EachKv(u, kvs);
            Ext(u, r.w) && KvsStand(r.w, r.ats, kvs)
            && |r.w| + 4 * |kvs| <= |u| + MetaBytes(kvs)
  {
    hide KvTable, KvAt, IsStr, Ext;
    ExtSelf(u);
    if kvs != [] {
      var (kv, rest) := (kvs[|kvs| - 1], kvs[..|kvs| - 1]);
      EachKvStands(u, rest);
      var before := EachKv(u, rest);
      var b := KvTable(before.w, kv);
      KvIsRead(before.w, kv);
      ExtTransitive(u, before.w, b.w);
      KvsThere(before.w, b.w, before.ats, rest);
      forall i | 0 <= i < |kvs| ensures KvStands(b.w, (before.ats + [b.at])[i], kvs[i]) {
        if i < |rest| {
          assert KvStands(b.w, before.ats[i], rest[i]);
        }
      }
    }
  }
}
