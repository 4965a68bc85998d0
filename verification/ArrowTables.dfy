/**
 * Reading a FlatBuffers table out of a message, as the stream reader does: a table names its vtable
 * by a signed offset back, the vtable the fields by offsets into the table, and strings, vectors and
 * other tables stand at unsigned offsets forward. What reads well in a run of octets reads the same
 * wherever that run lies.
 */
module ArrowTables {
  import opened ArrowBytes
  import Utf8

  /** The octets of a string value. */
  type Str = seq<Byte>

  function AsText(s: Str): (u: Utf8.Text)
    ensures |u| == |s|
  {
    seq(|s|, i requires 0 <= i < |s| => s[i] as bv8)
  }

  predicate IsStr(s: Str) {
    Utf8.Accepts(AsText(s))
  }

  /** The position of a field of the table at tbl, or -1 when it is absent. */
  function FbField(m: seq<Byte>, tbl: int, id: nat): Read<int> {
    var back :- GetLE(m, tbl, 4, true);
    var vt := tbl - back;
    var size :- GetLE(m, vt, 2, false);
    if 4 + 2 * id + 2 > size then Ok(-1)
    else
      var o :- GetLE(m, vt + 4 + 2 * id, 2, false);
      if o == 0 then Ok(-1) else Ok(tbl + o)
  }

  function FbRef(m: seq<Byte>, at: int): Read<int> {
    var o :- GetLE(m, at, 4, false);
    Ok(at + o)
  }

  function FbInt(m: seq<Byte>, tbl: int, id: nat, k: nat, signed: bool, otherwise: int): Read<int>
    requires k > 0
  {
    var at :- FbField(m, tbl, id);
    if at < 0 then Ok(otherwise) else GetLE(m, at, k, signed)
  }

  /** A string that starts at an offset with its length. */
  function StrAt(m: seq<Byte>, at: int): Read<Str> {
    var n :- GetLE(m, at, 4, false);
    if n < 0 || at + 4 + n > |m| then Err(IndexError)
    else if !IsStr(m[at + 4..at + 4 + n]) then Err(ValueRange)
    else Ok(m[at + 4..at + 4 + n])
  }

  function FbStr(m: seq<Byte>, tbl: int, id: nat): Read<Str> {
    var at :- FbField(m, tbl, id);
    if at < 0 then Ok([])
    else
      var to :- FbRef(m, at);
      StrAt(m, to)
  }

  /** A vector's first element and its length; -1 and 0 when the field is absent. */
  function FbVec(m: seq<Byte>, tbl: int, id: nat): Read<(int, int)> {
    var at :- FbField(m, tbl, id);
    if at < 0 then Ok((-1, 0))
    else
      var to :- FbRef(m, at);
      var n :- GetLE(m, to, 4, false);
      Ok((to + 4, n))
  }

  // ---- the same, wherever the octets lie ----

  lemma GotInside(m: seq<Byte>, at: int, k: nat, signed: bool)
    requires k > 0 && GetLE(m, at, k, signed).Ok?
    ensures 0 <= at <= |m| - k
  {}

  function Moved(at: int, d: nat): int {
    if at < 0 then -1 else at + d
  }

  lemma FieldThere(m: seq<Byte>, w: seq<Byte>, d: nat, tbl: int, id: nat)
    requires Sits(m, w, d) && FbField(m, tbl, id).Ok?
    ensures FbField(w, tbl + d, id) == Ok(Moved(FbField(m, tbl, id).value, d))
    ensures FbField(m, tbl, id).value >= -1
  {
    hide Signed, Unsigned;
    GetThere(m, w, d, tbl, 4, true);
    var vt := tbl - GetLE(m, tbl, 4, true).value;
    GetThere(m, w, d, vt, 2, false);
    if 4 + 2 * id + 2 <= GetLE(m, vt, 2, false).value {
      GetThere(m, w, d, vt + 4 + 2 * id, 2, false);
    }
  }

  lemma RefThere(m: seq<Byte>, w: seq<Byte>, d: nat, at: int)
    requires Sits(m, w, d) && FbRef(m, at).Ok?
    ensures FbRef(w, at + d) == Ok(FbRef(m, at).value + d) && FbRef(m, at).value >= at >= 0
  {
    GetThere(m, w, d, at, 4, false);
  }

  lemma IntThere(m: seq<Byte>, w: seq<Byte>, d: nat, tbl: int, id: nat, k: nat, signed: bool, otherwise: int)
    requires Sits(m, w, d) && k > 0 && FbInt(m, tbl, id, k, signed, otherwise).Ok?
    ensures FbInt(w, tbl + d, id, k, signed, otherwise) == FbInt(m, tbl, id, k, signed, otherwise)
  {
    hide FbField, GetLE;
    FieldThere(m, w, d, tbl, id);
    var at := FbField(m, tbl, id).value;
    if at >= 0 {
      GetThere(m, w, d, at, k, signed);
    }
  }

  lemma StrThere(m: seq<Byte>, w: seq<Byte>, d: nat, at: int)
    requires Sits(m, w, d) && StrAt(m, at).Ok?
    ensures StrAt(w, at + d) == StrAt(m, at)
  {
    hide IsStr, Signed, Unsigned;
    GetThere(m, w, d, at, 4, false);
    var n := GetLE(m, at, 4, false).value;
    SliceOfSlice(w, d, |m|, at + 4, at + 4 + n);
  }

  lemma FbStrThere(m: seq<Byte>, w: seq<Byte>, d: nat, tbl: int, id: nat)
    requires Sits(m, w, d) && FbStr(m, tbl, id).Ok?
    ensures FbStr(w, tbl + d, id) == FbStr(m, tbl, id)
  {
    hide FbField, StrAt, GetLE;
    FieldThere(m, w, d, tbl, id);
    var at := FbField(m, tbl, id).value;
    if at >= 0 {
      RefThere(m, w, d, at);
      StrThere(m, w, d, FbRef(m, at).value);
    }
  }

  lemma VecThere(m: seq<Byte>, w: seq<Byte>, d: nat, tbl: int, id: nat)
    requires Sits(m, w, d) && FbVec(m, tbl, id).Ok?
    ensures var (at, n) := FbVec(m, tbl, id).value;
            at >= -1 && n >= 0 && FbVec(w, tbl + d, id) == Ok((Moved(at, d), n))
  {
    FieldThere(m, w, d, tbl, id);
    hide FbField, Signed, Unsigned;
    var at := FbField(m, tbl, id).value;
    if at >= 0 {
      RefThere(m, w, d, at);
      GetThere(m, w, d, FbRef(m, at).value, 4, false);
    }
  }
}
