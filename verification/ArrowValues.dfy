/**
 * The values of a column: what the getters make of a batch that was read, and that they give back
 * what was written.
 */
module ArrowValues {
  import opened Arith
  import opened ArrowBytes
  import opened ArrowTables
  import opened ArrowBuild
  import opened ArrowSchema
  import opened ArrowBody
  import opened ArrowStream

  // ---- the getters ----

  /** A bit of an octet, from the low end. */
  function Bit(v: nat, k: nat): bool {
    if k == 0 then v % 2 == 1 else Bit(v / 2, k - 1)
  }

  function IsNull(b: Batch, i: int, row: int): Read<bool> {
    if row < 0 || row >= b.rows || i < 0 || i >= |b.cols| then Err(IndexError)
    else
      var c := b.cols[i];
      if c.nulls == 0 || |c.valid| == 0 then Ok(false)
      else if row / 8 >= |c.valid| then Err(IndexError)
      else Ok(!Bit(c.valid[row / 8], row % 8))
  }

  function IntWidth(ty: int): (k: nat) {
    if ty == I8 then 1 else if ty == I16 then 2 else if ty == I32 then 4 else if ty == I64 || ty == TSNS then 8 else 0
  }

  /** A float: a bit pattern of either width, the narrower to be widened exactly, or the NaN a null reads as. */
  datatype Float = NaN | Single(bits: nat) | Double(pattern: nat)

  function I64At(b: Batch, ty: int, i: nat, row: nat): Read<int> {
    var none :- IsNull(b, i, row);
    if none then Ok(0)
    else if i >= |b.cols| || IntWidth(ty) == 0 then Err(IndexError)
    else GetLE(b.cols[i].data, IntWidth(ty) * row, IntWidth(ty), true)
  }

  function F64At(b: Batch, ty: int, i: nat, row: nat): Read<Float> {
    var none :- IsNull(b, i, row);
    if none then Ok(NaN)
    else if i >= |b.cols| then Err(IndexError)
    else
      var k := if ty == F64 then 8 else 4;
      var data := b.cols[i].data;
      if k * row + k > |data| then Err(IndexError)
      else if ty == F64 then Ok(Double(Unsigned(data[k * row..k * row + k])))
      else Ok(Single(Unsigned(data[k * row..k * row + k])))
  }

  function EachI64(b: Batch, ty: int, i: nat, n: nat): Read<seq<int>> {
    if n == 0 then Ok([])
    else
      var before :- EachI64(b, ty, i, n - 1);
      var v :- I64At(b, ty, i, n - 1);
      Ok(before + [v])
  }

  function EachF64(b: Batch, ty: int, i: nat, n: nat): Read<seq<Float>> {
    if n == 0 then Ok([])
    else
      var before :- EachF64(b, ty, i, n - 1);
      var v :- F64At(b, ty, i, n - 1);
      Ok(before + [v])
  }

  function GetI64(b: Batch, tys: seq<int>, i: int): Read<seq<int>> {
    if i < 0 || i >= |tys| then Err(IndexError)
    else if IntWidth(tys[i]) == 0 then Err(BadArg)
    else if b.rows < 0 then Err(OutOfMemory)
    else EachI64(b, tys[i], i, b.rows)
  }

  function GetF64(b: Batch, tys: seq<int>, i: int): Read<seq<Float>> {
    if i < 0 || i >= |tys| then Err(IndexError)
    else if tys[i] != F64 && tys[i] != F32 then Err(BadArg)
    else if b.rows < 0 then Err(OutOfMemory)
    else EachF64(b, tys[i], i, b.rows)
  }

  function Cut(data: seq<Byte>, a: int, b: int): Read<Str> {
    if a < 0 || b < a || b > |data| then Err(BadArg)
    else if !IsStr(data[a..b]) then Err(ValueRange)
    else Ok(data[a..b])
  }

  function GetStr(b: Batch, tys: seq<int>, i: int, row: int): Read<Str> {
    if i < 0 || i >= |tys| then Err(IndexError)
    else if tys[i] != STR then Err(BadArg)
    else
      var none :- IsNull(b, i, row);
      if none then Ok([])
      else if i >= |b.cols| then Err(IndexError)
      else
        var from :- GetLE(b.cols[i].offs, 4 * row, 4, true);
        var to :- GetLE(b.cols[i].offs, 4 * row + 4, 4, true);
        Cut(b.cols[i].data, from, to)
  }

  // ---- strings end to end ----

  function EachJoined(v: seq<Str>): Str {
    if v == [] then [] else EachJoined(v[..|v| - 1]) + v[|v| - 1]
  }

  /** All strings, end to end. */
  function Joined(v: seq<Str>): Str {
    EachJoined(v)
  }

  /** Where each string starts, and where the last ends. */
  function Offsets(v: seq<Str>): (o: seq<int>)
    ensures |o| == |v| + 1
  {
    seq(|v| + 1, i requires 0 <= i <= |v| => |Joined(v[..i])|)
  }

  lemma JoinedSnoc(v: seq<Str>, i: nat)
    requires i < |v|
    ensures Joined(v[..i + 1]) == Joined(v[..i]) + v[i]
  {
    assert v[..i + 1][..i] == v[..i];
  }

  lemma {:induction false} JoinedPrefix(v: seq<Str>, i: nat)
    requires i <= |v|
    ensures |Joined(v[..i])| <= |Joined(v)| && Joined(v)[..|Joined(v[..i])|] == Joined(v[..i])
    decreases |v| - i
  {
    hide Joined;
    if i == |v| {
      assert v[..i] == v;
    } else {
      JoinedPrefix(v, i + 1);
      JoinedSnoc(v, i);
      FirstOf(Joined(v), Joined(v[..i]), v[i]);
    }
  }

  /** A string, cut out again. */
  lemma StringStands(v: seq<Str>, i: nat)
    requires i < |v|
    ensures var o := Offsets(v);
            0 <= o[i] <= o[i + 1] <= |Joined(v)| && Joined(v)[o[i]..o[i + 1]] == v[i]
  {
    hide Joined;
    JoinedPrefix(v, i + 1);
    JoinedSnoc(v, i);
    FirstOf(Joined(v), Joined(v[..i]), v[i]);
  }

  // ---- what was written is got ----

  /** No column was written with nulls. */
  lemma NoneIsNull(rows: int, cols: seq<Col>, i: nat, row: nat)
    requires i < |cols| && row < rows
    ensures IsNull(WrittenBatch(rows, cols), i, row) == Ok(false)
  {
    hide BuffersOf;
  }

  predicate IntsFit(v: seq<int>, k: nat) {
    forall i :: 0 <= i < |v| ==> Fits(v[i], k)
  }

  predicate PatternsFit(v: seq<int>, k: nat) {
    forall i :: 0 <= i < |v| ==> 0 <= v[i] < Pow256(k)
  }

  lemma IntWidthIs(ty: int)
    requires ty != F32 && ty != F64 && ty != STR
    ensures IntWidth(ReadBack(ty)) == Width(ty)
  {}

  lemma IntStands(rows: int, cols: seq<Col>, i: nat, row: nat)
    requires i < |cols| && cols[i].data.Ints? && Kind(cols[i]) && row < |cols[i].data.iv| == rows
    requires IntsFit(cols[i].data.iv, Width(cols[i].ty))
    ensures I64At(WrittenBatch(rows, cols), ReadBack(cols[i].ty), i, row) == Ok(cols[i].data.iv[row])
  {
    hide Packed, GetLE, Fits, Width, IntWidth, ReadBack, IsNull;
    NoneIsNull(rows, cols, i, row);
    IntWidthIs(cols[i].ty);
    assert Fits(cols[i].data.iv[row], Width(cols[i].ty));
    PackedIsRead(cols[i].data.iv, Width(cols[i].ty), row, true);
    assert WrittenBatch(rows, cols).cols[i].data == Packed(cols[i].data.iv, Width(cols[i].ty));
  }

  lemma {:induction false} EachIntStands(rows: int, cols: seq<Col>, i: nat, n: nat)
    requires i < |cols| && cols[i].data.Ints? && Kind(cols[i]) && n <= |cols[i].data.iv| == rows
    requires IntsFit(cols[i].data.iv, Width(cols[i].ty))
    ensures EachI64(WrittenBatch(rows, cols), ReadBack(cols[i].ty), i, n) == Ok(cols[i].data.iv[..n])
  {
    hide I64At, WrittenBatch, IntsFit, Kind, ReadBack, Width;
    if n > 0 {
      EachIntStands(rows, cols, i, n - 1);
      IntStands(rows, cols, i, n - 1);
      assert cols[i].data.iv[..n] == cols[i].data.iv[..n - 1] + [cols[i].data.iv[n - 1]];
    }
  }

  /** An integer or timestamp column comes back. */
  lemma IntsAreRead(rows: int, cols: seq<Col>, i: nat)
    requires i < |cols| && cols[i].data.Ints? && Kind(cols[i]) && |cols[i].data.iv| == rows
    requires IntsFit(cols[i].data.iv, Width(cols[i].ty))
    ensures GetI64(WrittenBatch(rows, cols), Types(cols), i) == Ok(cols[i].data.iv)
  {
    hide EachI64, IntsFit;
    EachIntStands(rows, cols, i, rows);
    IntWidthIs(cols[i].ty);
    assert cols[i].data.iv[..rows] == cols[i].data.iv;
  }

  /** The floats a column was given, each of its width. */
  function FloatsOf(d: Data): (f: seq<Float>)
    requires (d.Singles? && PatternsFit(d.f4, 4)) || (d.Doubles? && PatternsFit(d.f8, 8))
    ensures |f| == if d.Singles? then |d.f4| else |d.f8|
  {
    if d.Singles? then seq(|d.f4|, i requires 0 <= i < |d.f4| => Single(d.f4[i]))
    else seq(|d.f8|, i requires 0 <= i < |d.f8| => Double(d.f8[i]))
  }

  predicate FloatsFit(d: Data, rows: int) {
    || (d.Singles? && PatternsFit(d.f4, 4) && |d.f4| == rows)
    || (d.Doubles? && PatternsFit(d.f8, 8) && |d.f8| == rows)
  }

  lemma PatternStands(v: seq<int>, k: nat, row: nat)
    requires row < |v| && PatternsFit(v, k)
    ensures k * row + k <= |Packed(v, k)| && Unsigned(Packed(v, k)[k * row..k * row + k]) == v[row]
  {
    hide Packed, Unsigned, Little, Pow256;
    PackedAt(v, k, row);
    LittleIsRead(v[row], k);
  }

  lemma FloatStands(rows: int, cols: seq<Col>, i: nat, row: nat)
    requires i < |cols| && Kind(cols[i]) && FloatsFit(cols[i].data, rows) && row < rows
    ensures F64At(WrittenBatch(rows, cols), cols[i].ty, i, row) == Ok(FloatsOf(cols[i].data)[row])
  {
    hide Packed, Unsigned, IsNull, Pow256;
    NoneIsNull(rows, cols, i, row);
    if cols[i].data.Singles? {
      PatternStands(cols[i].data.f4, 4, row);
    } else {
      PatternStands(cols[i].data.f8, 8, row);
    }
  }

  lemma {:induction false} EachFloatStands(rows: int, cols: seq<Col>, i: nat, n: nat)
    requires i < |cols| && Kind(cols[i]) && FloatsFit(cols[i].data, rows) && n <= rows
    ensures EachF64(WrittenBatch(rows, cols), cols[i].ty, i, n) == Ok(FloatsOf(cols[i].data)[..n])
  {
    hide F64At, WrittenBatch, Kind;
    if n > 0 {
      EachFloatStands(rows, cols, i, n - 1);
      FloatStands(rows, cols, i, n - 1);
      assert FloatsOf(cols[i].data)[..n] == FloatsOf(cols[i].data)[..n - 1] + [FloatsOf(cols[i].data)[n - 1]];
    }
  }

  /** A float column comes back, bit for bit. */
  lemma FloatsAreRead(rows: int, cols: seq<Col>, i: nat)
    requires i < |cols| && Kind(cols[i]) && FloatsFit(cols[i].data, rows)
    ensures GetF64(WrittenBatch(rows, cols), Types(cols), i) == Ok(FloatsOf(cols[i].data))
  {
    hide EachF64, PatternsFit;
    EachFloatStands(rows, cols, i, rows);
    assert FloatsOf(cols[i].data)[..rows] == FloatsOf(cols[i].data);
  }

  /** A string column comes back, cell by cell. */
  lemma StringIsRead(rows: int, cols: seq<Col>, i: nat, v: seq<Str>, row: nat)
    requires i < |cols| && cols[i].data == Strings(Offsets(v), Joined(v)) && Kind(cols[i]) && row < |v| == rows
    requires |Joined(v)| < 0x8000_0000 && IsStr(v[row])
    ensures GetStr(WrittenBatch(rows, cols), Types(cols), i, row) == Ok(v[row])
  {
    hide Packed, GetLE, IsNull, IsStr, Joined, Offsets, Fits;
    NoneIsNull(rows, cols, i, row);
    StringStands(v, row);
    Powers();
    OffsetFits(Offsets(v)[row]);
    OffsetFits(Offsets(v)[row + 1]);
    PackedIsRead(Offsets(v), 4, row, true);
    PackedIsRead(Offsets(v), 4, row + 1, true);
  }

  lemma OffsetFits(o: int)
    requires 0 <= o < 0x8000_0000
    ensures Fits(o, 4)
  {
    Powers();
  }
}
