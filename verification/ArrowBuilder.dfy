/**
 * The FlatBuffers builder as the writer has it: a buffer filled from its end, with the vtable under
 * construction beside it. Each method leaves the octets that the function of the same step gives,
 * or answers false when they do not fit in the buffer.
 */
module ArrowBuilder {
  import opened Arith
  import opened ArrowBytes
  import opened ArrowTables
  import opened ArrowBuild

  function Larger(a: nat, b: nat): nat {
    if b > a then b else a
  }

  function Rest(n: nat, size: nat): nat
    requires size > 0
  {
    n % size
  }

  lemma RestIsOver(n: nat, size: nat)
    requires size > 0
    ensures Rest(n, size) == Over(n, size)
  {
    OverIsMod(n, size);
  }

  class Builder {
    const b: array<Byte>
    var head: nat
    var minAlign: nat
    var vt: seq<nat>
    var nvt: nat
    var objStart: nat

    ghost predicate Valid()
      reads this
    {
      head <= b.Length && Size(minAlign) && |vt| == 16 && nvt <= 16
    }

    constructor (room: nat)
      ensures Valid() && fresh(b) && b.Length == room && Octets() == [] && minAlign == 1
    {
      b := new Byte[room];
      head, minAlign, vt, nvt, objStart := room, 1, seq(16, _ => 0), 0, 0;
    }

    function Used(): (n: nat)
      requires Valid()
      reads this
      ensures n == b.Length - head
    {
      b.Length - head
    }

    /** The octets in use. */
    function Octets(): (u: seq<Byte>)
      requires Valid()
      reads this, b
      ensures |u| == Used()
    {
      b[head..]
    }

    /** Nothing is in use any more. */
    method Rewind()
      requires Valid()
      modifies this
      ensures Valid() && Octets() == [] && minAlign == 1
    {
      head, minAlign, nvt, objStart := b.Length, 1, 0, 0;
    }

    method Pad(n: nat) returns (ok: bool)
      requires Valid()
      modifies this`head, b
      ensures Valid() && (ok <==> n <= old(head))
      ensures ok ==> Octets() == Zeros(n) + old(Octets())
    {
      if head < n {
        return false;
      }
      ghost var top := head;
      for i := 0 to n
        invariant Valid() && head == top - i
        invariant b[top..] == old(b[head..]) && forall j :: head <= j < top ==> b[j] == 0
      {
        head := head - 1;
        b[head] := 0;
      }
      assert b[head..top] == Zeros(n);
      assert b[head..] == b[head..top] + b[top..];
      return true;
    }

    method Prep(size: nat, add: nat) returns (ok: bool)
      requires Valid() && Size(size)
      modifies this`head, this`minAlign, b
      ensures Valid() && minAlign == Larger(old(minAlign), size)
      ensures ok <==> |Padded(old(Octets()), size, add)| <= b.Length
      ensures ok ==> Octets() == Padded(old(Octets()), size, add)
    {
      hide Over, Whole, Rest;
      if size > minAlign {
        minAlign := size;
      }
      var r := Rest(Used() + add, size);
      RestIsOver(Used() + add, size);
      if r == 0 {
        assert Zeros(0) + Octets() == Octets();
        return true;
      }
      ok := Pad(size - r);
    }

    /** k octets of v in front, low octet first. */
    method Raw(v: int, k: nat) returns (ok: bool)
      requires Valid()
      modifies this`head, b
      ensures Valid() && (ok <==> k <= old(head))
      ensures ok ==> Octets() == Little(v, k) + old(Octets())
    {
      if head < k {
        return false;
      }
      ghost var u := Octets();
      head := head - k;
      PutLE(b, head, v, k);
      assert b[head..] == b[head..head + k] + b[head + k..];
      return true;
    }

    /** A number aligned to its size: the source's Put8 to Put64. */
    method PutNumber(v: int, k: nat) returns (ok: bool)
      requires Valid() && Size(k)
      modifies this`head, this`minAlign, b
      ensures Valid() && minAlign == Larger(old(minAlign), k)
      ensures ok <==> |Put(old(Octets()), v, k)| <= b.Length
      ensures ok ==> Octets() == Put(old(Octets()), v, k)
    {
      hide Over, Whole, Little, Padded;
      ok := Prep(k, 0);
      if ok {
        ok := Raw(v, k);
      }
    }

    method PutRef(off: nat) returns (ok: bool)
      requires Valid()
      modifies this`head, this`minAlign, b
      ensures Valid() && minAlign == Larger(old(minAlign), 4)
      ensures ok <==> |Ref(old(Octets()), off)| <= b.Length
      ensures ok ==> Octets() == Ref(old(Octets()), off)
    {
      hide Over, Whole, Little, Padded;
      ok := Prep(4, 0);
      if ok {
        ok := Raw(Used() - off + 4, 4);
      }
    }

    /** A string's octets in front. */
    method Copy(s: Str) returns (ok: bool)
      requires Valid()
      modifies this`head, b
      ensures Valid() && (ok <==> |s| <= old(head))
      ensures ok ==> Octets() == s + old(Octets())
    {
      if head < |s| {
        return false;
      }
      ghost var u := Octets();
      head := head - |s|;
      for i := 0 to |s|
        invariant head == old(head) - |s| && head + |s| <= b.Length
        invariant b[head..head + i] == s[..i] && b[head + |s|..] == u
      {
        b[head + i] := s[i];
        assert b[head..head + i + 1] == b[head..head + i] + [s[i]] && s[..i + 1] == s[..i] + [s[i]];
      }
      assert b[head..head + |s|] == s[..|s|] == s;
      assert b[head..] == b[head..head + |s|] + b[head + |s|..];
      return true;
    }

    method PutText(s: Str) returns (ok: bool)
      requires Valid()
      modifies this`head, this`minAlign, b
      ensures Valid() && minAlign == Larger(old(minAlign), 4)
      ensures ok <==> |Text(old(Octets()), s)| <= b.Length
      ensures ok ==> Octets() == Text(old(Octets()), s)
    {
      hide Over, Whole, Little, Padded, Put;
      ghost var u := Octets();
      ok := Prep(4, |s| + 1);
      TextSteps(u, s);
      if ok {
        ok := Pad(1);
        if ok {
          ok := Copy(s);
          if ok {
            ok := PutNumber(|s|, 4);
          }
        }
      }
    }

    method Start(n: nat)
      requires Valid() && n <= 16
      modifies this`vt, this`nvt, this`objStart
      ensures Valid() && nvt == n && vt == seq(n, _ => 0) + old(vt)[n..] && objStart == Used()
    {
      nvt := n;
      for i := 0 to n
        invariant Valid() && nvt == n && vt == seq(i, _ => 0) + old(vt)[i..]
      {
        vt := vt[i := 0];
      }
      objStart := Used();
    }

    /** The field just written is field i. */
    method Slot(i: nat)
      requires Valid() && i < nvt
      modifies this`vt
      ensures Valid() && vt == old(vt)[i := Used()]
    {
      vt := vt[i := Used()];
    }

    /** The vtable's entries, the last field's first. */
    method PutEntries(tloc: nat) returns (ok: bool)
      requires Valid()
      modifies this`head, this`minAlign, b
      ensures Valid() && minAlign == (if nvt == 0 then old(minAlign) else Larger(old(minAlign), 2))
      ensures ok <==> |PutSlots(old(Octets()), vt[..nvt], tloc)| <= b.Length
      ensures ok ==> Octets() == PutSlots(old(Octets()), vt[..nvt], tloc)
    {
      hide Over, Whole, Put, Entry;
      ghost var u, slots := Octets(), vt[..nvt];
      var i := nvt;
      assert slots[nvt..] == [];
      while i > 0
        invariant Valid() && 0 <= i <= nvt
        invariant Octets() == PutEach(u, slots[i..], tloc)
        invariant minAlign == if i == nvt then old(minAlign) else Larger(old(minAlign), 2)
      {
        i := i - 1;
        assert slots[i..][1..] == slots[i + 1..] && slots[i..][0] == vt[i];
        ok := PutNumber(if vt[i] == 0 then 0 else tloc - vt[i], 2);
        EntryOf(vt[i], tloc);
        if !ok {
          EachLonger(u, slots, tloc, i);
          return;
        }
      }
      assert slots[0..] == slots;
      ok := true;
    }

    /** A place for the table's first word, and its vtable in front. */
    method PutVtable() returns (ok: bool, tloc: nat)
      requires Valid()
      modifies this`head, this`minAlign, b
      ensures Valid() && (ok ==> minAlign == Larger(old(minAlign), 4))
      ensures ok <==> |Unpatched(old(Octets()), vt[..nvt], objStart).0| <= b.Length
      ensures ok ==> (Octets(), tloc) == Unpatched(old(Octets()), vt[..nvt], objStart)
    {
      hide Over, Whole, Put, PutSlots, Little, Closed, TableAt, Unpatched, Ext;
      ghost var u, slots := Octets(), vt[..nvt];
      ghost var (p, q, x) := UnpatchedStates(u, slots, objStart);
      StatesOf(u, slots, objStart);
      tloc := 0;
      ok := PutNumber(0, 4);
      if ok {
        tloc := Used();
        assert Octets() == p;
        ok := PutEntries(tloc);
        if ok {
          assert Octets() == q;
          ok := PutNumber(tloc - objStart, 2);
          if ok {
            assert Octets() == x;
            ok := PutNumber((nvt + 2) * 2, 2);
          }
        }
      }
    }

    /** The closed table. */
    method EndTable() returns (ok: bool, tloc: nat)
      requires Valid()
      modifies this`head, this`minAlign, b
      ensures Valid() && (ok ==> minAlign == Larger(old(minAlign), 4))
      ensures ok <==> |Closed(old(Octets()), vt[..nvt], objStart)| <= b.Length
      ensures ok ==> Octets() == Closed(old(Octets()), vt[..nvt], objStart) && tloc == TableAt(old(Octets()))
    {
      hide Over, Whole, Put, PutSlots, Little, Unpatched, TableAt;
      UnpatchedSteps(Octets(), vt[..nvt], objStart);
      ok, tloc := PutVtable();
      if ok {
        Patch(tloc);
      }
    }

    /** The word at tloc from the end becomes the distance from there to here. */
    method Patch(tloc: nat)
      requires Valid() && 4 <= tloc <= Used()
      modifies b
      ensures Valid()
      ensures var r := old(Octets()); Octets() == r[..|r| - tloc] + Little(|r| - tloc, 4) + r[|r| - tloc + 4..]
    {
      hide Little;
      ghost var r := Octets();
      var d, at := Used() - tloc, b.Length - tloc;
      for i := 0 to 4
        invariant b[..at] == old(b[..at]) && b[at..at + i] == Little(d, 4)[..i] && b[at + 4..] == old(b[at + 4..])
      {
        b[at + i] := d / Pow256(i) % 256;
        LittleAt(d, i);
        assert b[at..at + i + 1] == b[at..at + i] + [b[at + i]];
      }
      assert b[head..] == b[head..at] + b[at..at + 4] + b[at + 4..];
      assert r[..|r| - tloc] == old(b[..at])[head..] && r[|r| - tloc + 4..] == old(b[at + 4..]);
      assert b[head..at] == b[..at][head..];
    }
  }

  lemma LittleAt(d: nat, i: nat)
    requires i < 4
    ensures Little(d, 4)[..i + 1] == Little(d, 4)[..i] + [d / Pow256(i) % 256]
  {
    LeftIsQuotient(d, i);
  }

  lemma {:induction false} LeftIsQuotient(v: nat, i: nat)
    ensures Left(v, i) == v / Pow256(i)
  {
    if i > 0 {
      LeftIsQuotient(v / 256, i - 1);
      var p := Pow256(i - 1);
      DivMod(v / 256, p);
      DivMod(v, 256);
      Associate(v / 256 / p, 256, p);
      DivModUnique(v, 256 * p, v / 256 / p, v / 256 % p * 256 + v % 256);
    }
  }

  lemma EntryOf(slot: nat, tloc: nat)
    ensures Entry(slot, tloc) == if slot == 0 then 0 else tloc - slot
  {}

  lemma TextSteps(u: seq<Byte>, s: Str)
    ensures var p := Padded(u, 4, |s| + 1);
            && Zeros(1) + p == [0] + p && Text(u, s) == Put(s + ([0] + p), |s|, 4) && |p| + 1 + |s| <= |Text(u, s)|
  {
    hide Padded, Little, Put;
    assert Zeros(1) == [0];
    TextIsPut(u, s);
  }

  lemma TextIsPut(u: seq<Byte>, s: Str)
    ensures Text(u, s) == Put(s + ([0] + Padded(u, 4, |s| + 1)), |s|, 4)
  {
    hide Padded, Little, Put;
  }

  /** Fewer entries make no more octets. */
  lemma {:induction false} EachLonger(u: seq<Byte>, slots: seq<nat>, tloc: nat, i: nat)
    requires i <= |slots|
    ensures |PutEach(u, slots[i..], tloc)| <= |PutEach(u, slots, tloc)|
  {
    hide Put, Entry;
    if i == 0 {
      assert slots[0..] == slots;
    } else {
      EachLonger(u, slots, tloc, i - 1);
      assert slots[i - 1..][1..] == slots[i..];
    }
  }

  /** The octets in use after each step of a table's closing but the last. */
  ghost function UnpatchedStates(u: seq<Byte>, slots: seq<nat>, start: nat): (seq<Byte>, seq<Byte>, seq<Byte>) {
    hide Put, PutSlots;
    var p := Put(u, 0, 4);
    var q := PutSlots(p, slots, |p|);
    (p, q, Put(q, |p| - start, 2))
  }

  lemma StatesOf(u: seq<Byte>, slots: seq<nat>, start: nat)
    ensures var (p, q, x) := UnpatchedStates(u, slots, start);
            && p == Put(u, 0, 4) && q == PutSlots(p, slots, |p|) && x == Put(q, |p| - start, 2)
            && Unpatched(u, slots, start) == (Put(x, (|slots| + 2) * 2, 2), |p|)
            && |p| <= |q| <= |x| <= |Unpatched(u, slots, start).0|
  {
    hide Put, PutEach, Little, Over;
  }
}
