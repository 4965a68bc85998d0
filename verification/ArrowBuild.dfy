/**
 * What the FlatBuffers builder writes. It fills its room from the end, so what it has written only
 * ever grows in front, and an object is named by the octets that were in use when it was done: its
 * distance from the end. Each function below gives the octets in use after one step; the lemmas say
 * what the reader makes of them.
 */
module ArrowBuild {
  import opened ArrowBytes
  import opened ArrowTables
  import Arith

  /** w is u with more in front. */
  predicate Ext(u: seq<Byte>, w: seq<Byte>) {
    |u| <= |w| && w[|w| - |u|..] == u
  }

  lemma ExtSits(u: seq<Byte>, w: seq<Byte>)
    requires Ext(u, w)
    ensures Sits(u, w, |w| - |u|)
  {
    assert w[|w| - |u|..] == w[|w| - |u|..|w| - |u| + |u|];
  }

  lemma ExtSelf(u: seq<Byte>)
    ensures Ext(u, u)
  {}

  lemma ExtTransitive(u: seq<Byte>, v: seq<Byte>, w: seq<Byte>)
    requires Ext(u, v) && Ext(v, w)
    ensures Ext(u, w)
  {
    assert w[|w| - |v|..][|v| - |u|..] == w[|w| - |u|..];
  }

  /** The sizes anything is aligned to. */
  predicate Size(k: nat) {
    k == 1 || k == 2 || k == 4 || k == 8
  }

  /** n MOD size. */
  function Over(n: nat, size: nat): (r: nat)
    requires size > 0
    ensures r < size
    decreases n
  {
    if n < size then n else Over(n - size, size)
  }

  lemma {:induction false} OverIsMod(n: nat, size: nat)
    requires size > 0
    ensures Over(n, size) == n % size
  {
    if n < size {
      Arith.DivModUnique(n, size, 0, n);
    } else {
      OverIsMod(n - size, size);
      Arith.DivMod(n - size, size);
      Arith.Distribute((n - size) / size, 1, size);
      Arith.DivModUnique(n, size, (n - size) / size + 1, (n - size) % size);
    }
  }

  predicate Whole(n: nat, size: nat)
    requires size > 0
  {
    Over(n, size) == 0
  }

  lemma {:induction false} FoursAreEven(n: nat)
    requires Whole(n, 4)
    ensures Whole(n, 2)
  {
    if n >= 4 {
      FoursAreEven(n - 4);
      assert Over(n, 2) == Over(n - 2, 2) == Over(n - 4, 2);
    }
  }

  lemma {:induction false} Filled(n: nat, size: nat)
    requires size > 0 && Over(n, size) != 0
    ensures Whole(n + (size - Over(n, size)), size)
  {
    if n < size {
      assert Over(size, size) == Over(0, size);
    } else {
      Filled(n - size, size);
    }
  }

  function Gap(n: nat, size: nat): (g: nat)
    requires size > 0
    ensures g < size && Whole(n + g, size) && (Whole(n, size) ==> g == 0)
  {
    var r := Over(n, size);
    if r == 0 then 0 else Filled(n, size); size - r
  }

  /** Zeros in front, so that `add` octets more make a multiple of `size`. */
  function Padded(u: seq<Byte>, size: nat, add: nat): (w: seq<Byte>)
    requires Size(size)
    ensures Ext(u, w) && |w| < |u| + size && Whole(|w| + add, size)
  {
    Zeros(Gap(|u| + add, size)) + u
  }

  /** A number of k octets, aligned to its size. */
  function Put(u: seq<Byte>, v: int, k: nat): (w: seq<Byte>)
    requires Size(k)
    ensures Ext(u, w) && |u| + k <= |w| < |u| + 2 * k && Whole(|w|, k)
    ensures w[..k] == Little(v, k)
  {
    var p := Padded(u, k, 0);
    InFront(Little(v, k), p, u);
    OneSizeMore(|p|, k);
    Little(v, k) + p
  }

  lemma InFront(a: seq<Byte>, p: seq<Byte>, u: seq<Byte>)
    requires Ext(u, p)
    ensures Ext(u, a + p) && (a + p)[..|a|] == a && (a + p)[|a|..] == p
  {
    assert (a + p)[|a|..] == p;
    ExtTransitive(u, p, a + p);
  }

  lemma OneSizeMore(n: nat, k: nat)
    requires Size(k) && Whole(n, k)
    ensures Whole(n + k, k)
  {}

  /** An offset to an object already written, forward from here. */
  function Ref(u: seq<Byte>, off: nat): (w: seq<Byte>)
    ensures Ext(u, w) && |u| + 4 <= |w| < |u| + 8 && Whole(|w|, 4)
    ensures w[..4] == Little(|w| - off, 4)
  {
    var p := Padded(u, 4, 0);
    InFront(Little(|p| - off + 4, 4), p, u);
    OneSizeMore(|p|, 4);
    Little(|p| - off + 4, 4) + p
  }

  /** A string's octets and a NUL, so that its length can stand in front aligned. */
  function Octets(u: seq<Byte>, s: Str): (w: seq<Byte>)
    ensures Ext(u, w) && |u| + |s| + 1 <= |w| < |u| + |s| + 5 && Whole(|w|, 4)
    ensures w[..|s|] == s
  {
    var p := Padded(u, 4, |s| + 1);
    assert |s + ([0] + p)| == |p| + (|s| + 1);
    s + ([0] + p)
  }

  /** A string: its length, its octets and a NUL. */
  function Text(u: seq<Byte>, s: Str): (w: seq<Byte>)
    ensures Ext(u, w) && |w| == |Octets(u, s)| + 4 && Whole(|w|, 4)
    ensures w == Little(|s|, 4) + Octets(u, s)
  {
    hide Octets;
    var q := Octets(u, s);
    PutWhole(q, |s|, 4);
    ExtTransitive(u, q, Put(q, |s|, 4));
    Put(q, |s|, 4)
  }

  // ---- tables ----

  function Entry(slot: nat, tloc: nat): int {
    if slot == 0 then 0 else tloc - slot
  }

  /** The vtable's entries, the last field's first. */
  function PutEach(u: seq<Byte>, slots: seq<nat>, tloc: nat): (w: seq<Byte>)
    ensures Ext(u, w)
    ensures Whole(|u|, 2) ==> |w| == |u| + 2 * |slots| && Whole(|w|, 2)
  {
    if slots == [] then u
    else
      var rest := PutEach(u, slots[1..], tloc);
      ExtTransitive(u, rest, Put(rest, Entry(slots[0], tloc), 2));
      Put(rest, Entry(slots[0], tloc), 2)
  }

  function PutSlots(u: seq<Byte>, slots: seq<nat>, tloc: nat): (w: seq<Byte>)
    ensures Whole(|u|, 2) ==> |w| == |u| + 2 * |slots| && Whole(|w|, 2)
  {
    PutEach(u, slots, tloc)
  }

  /** The table's own first word and its vtable in front of it; the word is still to be set. */
  function Unpatched(u: seq<Byte>, slots: seq<nat>, start: nat): (r: (seq<Byte>, nat))
    ensures |u| + 4 <= r.1 <= |r.0|
  {
    var p := Put(u, 0, 4);
    var q := PutSlots(p, slots, |p|);
    (Put(Put(q, |p| - start, 2), (|slots| + 2) * 2, 2), |p|)
  }

  /** A table closed: its fields were the last octets written, each recorded in `slots`, 0 for one left out. */
  function Closed(u: seq<Byte>, slots: seq<nat>, start: nat): (w: seq<Byte>)
  {
    var (r, tloc) := Unpatched(u, slots, start);
    var at := |r| - tloc;
    r[..at] + Little(|r| - tloc, 4) + r[at + 4..]
  }

  /** The closed table's own distance from the end. */
  function TableAt(u: seq<Byte>): (tloc: nat)
    ensures |u| + 4 <= tloc < |u| + 8 && Whole(tloc, 4) && Whole(tloc, 2) && tloc == |Put(u, 0, 4)|
  {
    FoursAreEven(|Put(u, 0, 4)|);
    |Put(u, 0, 4)|
  }

  function EachEntry(slots: seq<nat>, tloc: nat): (s: seq<Byte>)
    ensures |s| == 2 * |slots|
  {
    if slots == [] then [] else Little(Entry(slots[0], tloc), 2) + EachEntry(slots[1..], tloc)
  }

  function Entries(slots: seq<nat>, tloc: nat): (s: seq<Byte>)
    ensures |s| == 2 * |slots|
  {
    EachEntry(slots, tloc)
  }

  lemma {:induction false} EntryAt(slots: seq<nat>, tloc: nat, i: nat)
    requires i < |slots|
    ensures Entries(slots, tloc)[2 * i..2 * i + 2] == Little(Entry(slots[i], tloc), 2)
  {
    var rest := Entries(slots[1..], tloc);
    if i > 0 {
      EntryAt(slots[1..], tloc, i - 1);
      assert Entries(slots, tloc)[2 * i..2 * i + 2] == rest[2 * (i - 1)..2 * (i - 1) + 2];
    }
  }

  lemma NoPadding(u: seq<Byte>, size: nat, add: nat)
    requires Size(size) && Whole(|u| + add, size)
    ensures Padded(u, size, add) == u
  {
    assert Zeros(0) + u == u;
  }

  lemma PutWhole(u: seq<Byte>, v: int, k: nat)
    requires Size(k) && Whole(|u|, k)
    ensures Put(u, v, k) == Little(v, k) + u
  {
    NoPadding(u, k, 0);
  }

  lemma {:induction false} EachIsPut(u: seq<Byte>, slots: seq<nat>, tloc: nat)
    requires Whole(|u|, 2)
    ensures PutEach(u, slots, tloc) == EachEntry(slots, tloc) + u
  {
    if slots != [] {
      EachIsPut(u, slots[1..], tloc);
      PutWhole(PutEach(u, slots[1..], tloc), Entry(slots[0], tloc), 2);
      hide Put, Little, Entry;
      assert Little(Entry(slots[0], tloc), 2) + (EachEntry(slots[1..], tloc) + u) ==
             Little(Entry(slots[0], tloc), 2) + EachEntry(slots[1..], tloc) + u;
    } else {
      assert EachEntry(slots, tloc) + u == u;
    }
  }

  lemma SlotsArePut(u: seq<Byte>, slots: seq<nat>, tloc: nat)
    requires Whole(|u|, 2)
    ensures PutSlots(u, slots, tloc) == Entries(slots, tloc) + u
  {
    EachIsPut(u, slots, tloc);
  }

  lemma TwoMore(q: seq<Byte>, v: int, v': int)
    requires Whole(|q|, 2)
    ensures Put(Put(q, v, 2), v', 2) == Little(v', 2) + (Little(v, 2) + q)
  {
    PutWhole(q, v, 2);
    hide Put;
    PutWhole(Put(q, v, 2), v', 2);
  }

  lemma UnpatchedSteps(u: seq<Byte>, slots: seq<nat>, start: nat)
    ensures Unpatched(u, slots, start).0 ==
            Little((|slots| + 2) * 2, 2) + (Little(TableAt(u) - start, 2) + PutSlots(Put(u, 0, 4), slots, TableAt(u)))
    ensures Unpatched(u, slots, start).1 == TableAt(u)
  {
    hide PutSlots, Little, Put, Gap, Padded, Over;
    TwoMore(PutSlots(Put(u, 0, 4), slots, TableAt(u)), TableAt(u) - start, (|slots| + 2) * 2);
  }

  lemma PutIs(u: seq<Byte>, v: int)
    ensures Put(u, v, 4) == Little(v, 4) + Padded(u, 4, 0)
  {}

  lemma UnpatchedIs(u: seq<Byte>, slots: seq<nat>, start: nat)
    ensures var tloc, n := TableAt(u), |slots|;
            Unpatched(u, slots, start).0 ==
            Five(Little((n + 2) * 2, 2), Little(tloc - start, 2), Entries(slots, tloc), Little(0, 4), Padded(u, 4, 0))
    ensures Unpatched(u, slots, start).1 == TableAt(u)
  {
    hide Five, Closed, Unpatched, TableAt, Put, PutSlots, Padded, Gap, Little, Entries, Entry, FbField, GetLE;
    UnpatchedSteps(u, slots, start);
    SlotsArePut(Put(u, 0, 4), slots, TableAt(u));
    PutIs(u, 0);
    Assembled(Unpatched(u, slots, start).0, Little((|slots| + 2) * 2, 2), Little(TableAt(u) - start, 2),
              PutSlots(Put(u, 0, 4), slots, TableAt(u)), Entries(slots, TableAt(u)), Put(u, 0, 4), Little(0, 4),
                  Padded(u, 4, 0));
  }

  function Five(a: seq<Byte>, b: seq<Byte>, c: seq<Byte>, d: seq<Byte>, e: seq<Byte>): (r: seq<Byte>)
    ensures |r| == |a| + |b| + |c| + |d| + |e|
  {
    a + b + c + d + e
  }

  lemma Assembled(r: seq<Byte>, a: seq<Byte>, b: seq<Byte>, q: seq<Byte>, c: seq<Byte>, p: seq<Byte>, d: seq<Byte>,
      e: seq<Byte>)
    requires r == a + (b + q) && q == c + p && p == d + e
    ensures r == Five(a, b, c, d, e)
  {
    Associates(a, b, c, d, e);
  }

  lemma Associates(a: seq<Byte>, b: seq<Byte>, c: seq<Byte>, d: seq<Byte>, e: seq<Byte>)
    ensures a + (b + (c + (d + e))) == a + b + c + d + e
  {}

  lemma Patched(f: seq<Byte>, z: seq<Byte>, d: seq<Byte>, x: seq<Byte>, r: seq<Byte>)
    requires |z| == |d| == 4 && r == f + z + x
    ensures r[..|f|] + d + r[|f| + 4..] == f + d + x
  {
    assert r[..|f|] == f && r[|f| + 4..] == x;
  }

  /** A table's place behind a vtable of n entries. */
  function Behind(n: nat): nat {
    2 * n + 4
  }

  /** A table octet by octet: the vtable's size, the table's, n entries; the offset back; the fields. */
  predicate Laid(w: seq<Byte>, n: nat, size: seq<Byte>, entries: seq<Byte>, fields: seq<Byte>) {
    && |size| == 2 && |entries| == 2 * n
    && w == Five(Little((n + 2) * 2, 2), size, entries, Little(2 * n + 4, 4), fields)
  }

  lemma ClosedIs(u: seq<Byte>, slots: seq<nat>, start: nat)
    ensures Laid(Closed(u, slots, start), |slots|, Little(TableAt(u) - start, 2), Entries(slots, TableAt(u)),
            Padded(u, 4, 0))
    ensures TableAt(u) == 4 + |Padded(u, 4, 0)|
  {
    hide Little, Padded, Put, PutSlots, Gap, Entries, Unpatched, TableAt, Over, Five;
    var tloc, n := TableAt(u), |slots|;
    UnpatchedIs(u, slots, start);
    assert |Little((n + 2) * 2, 2)| + |Little(tloc - start, 2)| + |Entries(slots, tloc)| == 2 * n + 4;
    assert Unpatched(u, slots, start).0
           == Five(Little((n + 2) * 2, 2), Little(tloc - start, 2), Entries(slots, tloc), Little(0, 4),
                                                Padded(u, 4, 0));
    PutIs(u, 0);
    PatchedFrom(Unpatched(u, slots, start).0, Little((n + 2) * 2, 2), Little(tloc - start, 2), Entries(slots, tloc),
        Little(0, 4),
                Padded(u, 4, 0), n);
  }

  lemma PatchedFrom(r: seq<Byte>, a: seq<Byte>, b: seq<Byte>, c: seq<Byte>, z: seq<Byte>, x: seq<Byte>, n: nat)
    requires |z| == 4 && r == Five(a, b, c, z, x) && |a| + |b| + |c| == 2 * n + 4
    ensures var at := |r| - (4 + |x|);
            at == 2 * n + 4 && r[..at] + Little(at, 4) + r[at + 4..] == Five(a, b, c, Little(2 * n + 4, 4), x)
  {
    hide Little;
    Patched(a + b + c, z, Little(2 * n + 4, 4), x, r);
  }

  lemma ClosedGrows(u: seq<Byte>, slots: seq<nat>, start: nat)
    ensures Ext(u, Closed(u, slots, start))
  {
    hide Little, Entries, Closed, Padded, TableAt, Put, PutSlots, Gap, Over;
    ClosedIs(u, slots, start);
    var w, p := Closed(u, slots, start), Padded(u, 4, 0);
    assert w[|w| - |p|..] == p;
    ExtTransitive(u, p, w);
  }

  /** The fields recorded are near enough for a vtable's two octets. */
  predicate Near(u: seq<Byte>, slots: seq<nat>) {
    |slots| <= 16 && forall i :: 0 <= i < |slots| ==> slots[i] <= |u| < slots[i] + 60000 || slots[i] == 0
  }

  /**
   * The reader finds exactly the positions the builder recorded, and nothing for the fields left
   * out or past the end.
   */
  lemma ClosedIsRead(u: seq<Byte>, slots: seq<nat>, start: nat, id: nat)
    requires Near(u, slots)
    ensures var w := Closed(u, slots, start);
            FbField(w, |w| - TableAt(u), id) == Ok(if id < |slots| && slots[id] != 0 then |w| - slots[id] else -1)
  {
    hide Five, Closed, Unpatched, TableAt, Put, PutSlots, Padded, Gap, Little, Entries, Entry, FbField, GetLE;
    ClosedParts(u, slots, start);
    VtableOf(u, slots, start);
    if id < |slots| {
      EntryIsRead(u, slots, start, id);
      EntryFits(|u|, slots[id], TableAt(u));
      EntryIs(slots[id], TableAt(u));
    }
    FieldByParts(Closed(u, slots, start), |slots|, id);
  }

  lemma VtableOf(u: seq<Byte>, slots: seq<nat>, start: nat)
    requires |slots| <= 16
    ensures VtableFound(Closed(u, slots, start), |slots|)
  {
    hide Five, Closed, Unpatched, TableAt, Put, PutSlots, Padded, Gap, Little, Entries, Entry, FbField, GetLE;
    ClosedIs(u, slots, start);
    VtableIsRead(Closed(u, slots, start), |slots|, Little(TableAt(u) - start, 2), Entries(slots, TableAt(u)),
        Padded(u, 4, 0));
  }

  lemma EntryIsRead(u: seq<Byte>, slots: seq<nat>, start: nat, id: nat)
    requires id < |slots| <= 16 && (slots[id] <= |u| < slots[id] + 60000 || slots[id] == 0)
    ensures GetLE(Closed(u, slots, start), 4 + 2 * id, 2, false) == Ok(Entry(slots[id], TableAt(u)))
  {
    hide Five, Closed, Unpatched, TableAt, Put, PutSlots, Padded, Gap, Little, Entries, Entry, FbField, GetLE;
    ClosedIs(u, slots, start);
    EntryAt(slots, TableAt(u), id);
    EntryFits(|u|, slots[id], TableAt(u));
    EntryOfTable(Closed(u, slots, start), |slots|, Little(TableAt(u) - start, 2), Entries(slots, TableAt(u)),
        Padded(u, 4, 0),
                 id, Entry(slots[id], TableAt(u)));
  }

  lemma ClosedParts(u: seq<Byte>, slots: seq<nat>, start: nat)
    ensures |Closed(u, slots, start)| == TableAt(u) + Behind(|slots|)
  {
    hide Little, Entries, Closed, Padded, TableAt, Put, PutSlots, Gap, Over;
    ClosedIs(u, slots, start);
  }

  lemma EntryIs(slot: nat, tloc: nat)
    requires slot < tloc
    ensures Entry(slot, tloc) == 0 <==> slot == 0
    ensures slot != 0 ==> Entry(slot, tloc) == tloc - slot
  {}

  lemma EntryFits(n: nat, slot: nat, tloc: nat)
    requires n + 4 <= tloc < n + 8 && (slot <= n < slot + 60000 || slot == 0)
    ensures 0 <= Entry(slot, tloc) < Arith.Pow256(2) && slot < tloc
  {
    Powers();
  }

  /** A vtable of n entries with its table behind it. */
  lemma VtableIsRead(w: seq<Byte>, n: nat, b: seq<Byte>, e: seq<Byte>, x: seq<Byte>)
    requires n <= 16 && Laid(w, n, b, e, x)
    ensures VtableFound(w, n)
  {
    Powers();
    hide Little, GetLE;
    assert w[0..2] == Little((n + 2) * 2, 2) && w[2 * n + 4..2 * n + 8] == Little(2 * n + 4, 4);
    GetWritten(w, 2 * n + 4, 4, true, 2 * n + 4);
    GetWritten(w, 0, 2, false, 2 * n + 4);
  }

  lemma EntryOfTable(w: seq<Byte>, n: nat, b: seq<Byte>, e: seq<Byte>, x: seq<Byte>, id: nat, v: nat)
    requires id < n && Laid(w, n, b, e, x) && |e| == 2 * n && e[2 * id..2 * id + 2] == Little(v, 2)
             && v < Arith.Pow256(2)
    ensures GetLE(w, 4 + 2 * id, 2, false) == Ok(v)
  {
    hide Little, GetLE;
    assert w[4..4 + 2 * n] == e;
    SliceOfSlice(w, 4, 2 * n, 2 * id, 2 * id + 2);
    GetWritten(w, 4 + 2 * id, 2, false, v);
  }

  predicate VtableFound(w: seq<Byte>, n: nat) {
    GetLE(w, Behind(n), 4, true) == Ok(Behind(n)) && GetLE(w, 0, 2, false) == Ok(Behind(n))
  }

  lemma FieldByParts(w: seq<Byte>, n: nat, id: nat)
    requires VtableFound(w, n)
    ensures id >= n ==> FbField(w, Behind(n), id) == Ok(-1)
    ensures id < n && GetLE(w, 4 + 2 * id, 2, false).Ok? ==>
            FbField(w, Behind(n), id) == var o := GetLE(w, 4 + 2 * id, 2, false).value;
                Ok(if o == 0 then -1 else Behind(n) + o)
  {
    hide GetLE;
  }

  // ---- what was written is read ----

  /** A number that stood first when v was all there was. */
  lemma NumberIsRead(v: seq<Byte>, w: seq<Byte>, k: nat, signed: bool, x: int)
    requires Ext(v, w) && 0 < k <= |v| && v[..k] == Little(x, k)
    requires if signed || k == 8 then Fits(x, k) else 0 <= x < Arith.Pow256(k)
    ensures GetLE(w, |w| - |v|, k, signed) == Ok(x)
  {
    hide Little, Fits;
    ExtSits(v, w);
    SliceOfSlice(w, |w| - |v|, |v|, 0, k);
    GetWritten(w, |w| - |v|, k, signed, x);
  }

  /** An offset that stood first. */
  lemma LinkIsRead(v: seq<Byte>, w: seq<Byte>, off: nat)
    requires Ext(v, w) && off < |v| && 4 <= |v| && v[..4] == Little(|v| - off, 4) && |v| < 0x1_0000_0000
    ensures FbRef(w, |w| - |v|) == Ok(|w| - off)
  {
    Powers();
    NumberIsRead(v, w, 4, false, |v| - off);
  }

  lemma TextIsRead(u: seq<Byte>, s: Str)
    requires IsStr(s) && |s| < 0x1_0000_0000
    ensures StrAt(Text(u, s), 0) == Ok(s)
  {
    hide IsStr, Text;
    Powers();
    var w := Text(u, s);
    GetWritten(w, 0, 4, false, |s|);
    assert w[4..4 + |s|] == Octets(u, s)[..|s|];
  }

  lemma TextThere(u: seq<Byte>, s: Str, w: seq<Byte>)
    requires IsStr(s) && |s| < 0x1_0000_0000 && Ext(Text(u, s), w)
    ensures StrAt(w, |w| - |Text(u, s)|) == Ok(s)
  {
    TextIsRead(u, s);
    ExtSits(Text(u, s), w);
    StrThere(Text(u, s), w, |w| - |Text(u, s)|, 0);
  }

  // ---- a closed table's fields ----

  /** The octets in use and an object's distance from the end. */
  datatype Built = Built(w: seq<Byte>, at: nat)

  function Close(u: seq<Byte>, slots: seq<nat>, start: nat): Built {
    Built(Closed(u, slots, start), TableAt(u))
  }

  lemma NearOne(u: seq<Byte>, a: nat)
    requires a <= |u| < a + 60000
    ensures Near(u, [a]) && Near(u, [a, 0])
  {}

  lemma NearTwo(u: seq<Byte>, a: nat, b: nat)
    requires a <= |u| < a + 60000 && b <= |u| < b + 60000
    ensures Near(u, [a, b])
  {}

  lemma CloseShape(u0: seq<Byte>, u: seq<Byte>, slots: seq<nat>, start: nat)
    requires Ext(u0, u)
    ensures Ext(u0, Close(u, slots, start).w) && Ext(u, Close(u, slots, start).w)
    ensures |u| < Close(u, slots, start).at <= |Close(u, slots, start).w| < |u| + 12 + 2 * |slots|
  {
    ClosedGrows(u, slots, start);
    ClosedParts(u, slots, start);
    ExtTransitive(u0, u, Closed(u, slots, start));
  }

  /** A recorded field is found where it was written, and what stood there still does. */
  lemma FieldOf(v: seq<Byte>, u: seq<Byte>, slots: seq<nat>, start: nat, id: nat)
    requires Ext(v, u) && Near(u, slots) && id < |slots| && slots[id] == |v| > 0
    ensures var b := Close(u, slots, start);
            Ext(v, b.w) && FbField(b.w, |b.w| - b.at, id) == Ok(|b.w| - |v|)
  {
    hide Five, Closed, Unpatched, TableAt, Put, PutSlots, Padded, Gap, Little, Entries, Entry, FbField, GetLE;
    ClosedIsRead(u, slots, start, id);
    CloseShape(v, u, slots, start);
  }

  lemma ScalarField(v: seq<Byte>, u: seq<Byte>, slots: seq<nat>, start: nat, id: nat, k: nat, signed: bool, x: int,
      otherwise: int)
    requires Ext(v, u) && Near(u, slots) && id < |slots| && slots[id] == |v| && 0 < k <= |v| && v[..k] == Little(x, k)
    requires if signed || k == 8 then Fits(x, k) else 0 <= x < Arith.Pow256(k)
    ensures var b := Close(u, slots, start); FbInt(b.w, |b.w| - b.at, id, k, signed, otherwise) == Ok(x)
  {
    hide FbField, Close, Near, GetLE, Little, Fits;
    FieldOf(v, u, slots, start, id);
    NumberIsRead(v, Close(u, slots, start).w, k, signed, x);
  }

  lemma LinkField(v: seq<Byte>, u: seq<Byte>, slots: seq<nat>, start: nat, id: nat, off: nat)
    requires Ext(v, u) && Near(u, slots) && id < |slots| && slots[id] == |v|
    requires off < |v| && 4 <= |v| && v[..4] == Little(|v| - off, 4) && |v| < 0x1_0000_0000
    ensures var b := Close(u, slots, start);
            Ext(v, b.w) && FbField(b.w, |b.w| - b.at, id) == Ok(|b.w| - |v|)
                && FbRef(b.w, |b.w| - |v|) == Ok(|b.w| - off)
  {
    hide FbField, FbRef, Close, Near, Little;
    FieldOf(v, u, slots, start, id);
    LinkIsRead(v, Close(u, slots, start).w, off);
  }

  lemma AbsentField(u: seq<Byte>, slots: seq<nat>, start: nat, id: nat)
    requires Near(u, slots) && (id < |slots| ==> slots[id] == 0)
    ensures var b := Close(u, slots, start); FbField(b.w, |b.w| - b.at, id) == Ok(-1)
  {
    hide Five, Closed, Unpatched, TableAt, Put, PutSlots, Padded, Gap, Little, FbField, GetLE, Near;
    ClosedIsRead(u, slots, start, id);
  }

  lemma AbsentStr(u: seq<Byte>, slots: seq<nat>, start: nat, id: nat)
    requires Near(u, slots) && (id < |slots| ==> slots[id] == 0)
    ensures var b := Close(u, slots, start); FbStr(b.w, |b.w| - b.at, id) == Ok([])
  {
    hide FbField, Close, Near;
    AbsentField(u, slots, start, id);
  }

  /** A field that links to a string. */
  lemma TextField(u0: seq<Byte>, s: Str, v: seq<Byte>, u: seq<Byte>, slots: seq<nat>, start: nat, id: nat)
    requires Ext(v, u) && Near(u, slots) && id < |slots| && slots[id] == |v| && Ext(Text(u0, s), v) && IsStr(s)
    requires |Text(u0, s)| < |v| < 0x1_0000_0000 && 4 <= |v| && v[..4] == Little(|v| - |Text(u0, s)|, 4)
    ensures var b := Close(u, slots, start); FbStr(b.w, |b.w| - b.at, id) == Ok(s)
  {
    hide FbField, FbRef, StrAt, Close, Near, Little, Text, IsStr;
    LinkField(v, u, slots, start, id, |Text(u0, s)|);
    ExtTransitive(Text(u0, s), v, Close(u, slots, start).w);
    TextThere(u0, s, Close(u, slots, start).w);
  }

  /** A field that links to a vector, by its length word. */
  lemma VectorField(c: seq<Byte>, n: nat, v: seq<Byte>, u: seq<Byte>, slots: seq<nat>, start: nat, id: nat)
    requires Ext(v, u) && Near(u, slots) && id < |slots| && slots[id] == |v| && Ext(c, v) && 4 <= |c|
             && c[..4] == Little(n, 4)
    requires |c| < |v| < 0x1_0000_0000 && v[..4] == Little(|v| - |c|, 4) && n < 0x1_0000_0000
    ensures var b := Close(u, slots, start); FbVec(b.w, |b.w| - b.at, id) == Ok((|b.w| - |c| + 4, n)) && Ext(c, b.w)
  {
    hide FbField, FbRef, GetLE, Close, Near, Little;
    LinkField(v, u, slots, start, id, |c|);
    ExtTransitive(c, v, Close(u, slots, start).w);
    Powers();
    NumberIsRead(c, Close(u, slots, start).w, 4, false, n);
  }

  lemma Small(x: nat, k: nat)
    requires x < 128 && k > 0
    ensures Fits(x, k) && x < Arith.Pow256(k)
  {
    Arith.MulAtLeast(Arith.Pow256(k - 1), 256);
  }

  lemma Powers()
    ensures Arith.Pow256(1) == 256 && Arith.Pow256(2) == 65536 && Arith.Pow256(4) == 0x1_0000_0000
    ensures Arith.Pow256(8) == 0x1_0000_0000_0000_0000
  {
    assert Arith.Pow256(3) == 0x100_0000;
    assert Arith.Pow256(6) == 0x1_0000_0000_0000;
  }
}
