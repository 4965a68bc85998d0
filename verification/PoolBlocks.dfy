/**
 * Blocks of storage and the few a thread keeps: minimum-size blocks in a short list, larger ones
 * in four slots under a cap.
 */
module PoolBlocks {
  import opened Wrappers

  type Octet = bv8

  const BLOCK_MIN: nat := 65536
  const SLACK_MAX: nat := 4 * 1024 * 1024
  const REQUEST_MAX: nat := 0x3FFF_FFFF_FFFF_FFFF
  const WORD: nat := 0x1_0000_0000_0000_0000
  const CACHE_MAX: nat := 4
  const BIG_SLOTS: nat := 4

  /** Rounding up to 16, in 64-bit arithmetic. */
  function Align(n: nat): nat
  {
    ((n + 15) % WORD) / 16 * 16
  }

  /** Below the request bound nothing wraps: the alignment, the slack and the header all fit. */
  lemma AlignExact(n: nat)
    requires n < WORD - 15
    ensures n <= Align(n) < n + 16 && Align(n) % 16 == 0
    ensures n % 16 == 0 ==> Align(n) == n
  {}

  function Zeros(n: nat): (z: seq<Octet>)
    ensures |z| == n && forall i :: 0 <= i < n ==> z[i] == 0
  {
    seq(n, _ => 0)
  }

  /** The live slices of a block, by offset and length, with the octets each must read. */
  type Texts = map<(nat, nat), seq<Octet>>

  predicate AllRead(mem: seq<Octet>, live: Texts) {
    forall k :: k in live ==> k.0 + k.1 <= |mem| && mem[k.0..k.0 + k.1] == live[k]
  }

  /** Storage grows at the top, and a slice that ends there becomes live: the others read as before. */
  lemma OneMoreRead(mem: seq<Octet>, more: seq<Octet>, live: Texts, off: nat, len: nat, text: seq<Octet>)
    requires AllRead(mem, live) && |mem| <= |more| && more[..|mem|] == mem
    requires off + len <= |more| && more[off..off + len] == text
    ensures AllRead(more, live[(off, len) := text])
    ensures (off, len) in live ==> off + len <= |mem| && live[(off, len)] == text
  {
    forall k | k in live ensures k.0 + k.1 <= |mem| && more[k.0..k.0 + k.1] == live[k] {
      assert more[k.0..k.0 + k.1] == more[..|mem|][k.0..k.0 + k.1];
    }
  }

  lemma FewerRead(mem: seq<Octet>, live: Texts, top: nat, kept: Texts)
    requires AllRead(mem, live) && top <= |mem|
    requires forall k :: k in kept ==> k in live && kept[k] == live[k] && k.0 + k.1 <= top
    ensures AllRead(mem[..top], kept)
  {
    forall k | k in kept ensures mem[..top][k.0..k.0 + k.1] == kept[k] {
      assert mem[..top][k.0..k.0 + k.1] == mem[k.0..k.0 + k.1];
    }
  }

  class Block {
    const data: array<Octet>
    var used: nat
    var last: nat           // the exact end of the top allocation, where used is rounded up
    var owner: object?
    ghost var live: Texts

    /** Storage as the system hands it out: nothing is known of its octets. */
    constructor (cap: nat, pool: object)
      ensures data.Length == cap && fresh(data) && used == 0 && owner == pool && live == map[]
    {
      data := new Octet[cap];
      used, last, owner, live := 0, 0, pool, map[];
    }

    /** Every live slice lies below `top` and reads what it read when it was made. */
    ghost predicate Reads(top: nat)
      reads this, data
    {
      top <= data.Length && AllRead(data[..top], live)
    }

    ghost predicate Ok()
      reads this, data
    {
      last <= used <= data.Length && used % 16 == 0 && Reads(last)
    }

    /** A block to carve: one in order, or one just fetched, whose last is of an old life. */
    ghost predicate Open()
      reads this, data
    {
      used <= data.Length && used % 16 == 0 && Reads(used)
    }

    lemma OkIsOpen()
      requires Ok()
      ensures Open()
    {
      OneMoreRead(data[..last], data[..used], live, 0, 0, []);
      assert data[..used][..last] == data[..last];
      forall k | k in live ensures k.0 + k.1 <= used && data[..used][k.0..k.0 + k.1] == live[k] {
        assert data[..used][k.0..k.0 + k.1] == data[..last][k.0..k.0 + k.1];
      }
    }

    /** The storage from the top is cleared and becomes a live slice. */
    method Carve(len: nat) returns (off: nat)
      requires Open() && len <= REQUEST_MAX && used + Align(len) <= data.Length
      modifies this`used, this`last, this`live, data
      ensures Ok() && off == old(used) && used == off + Align(len) && last == off + len
      ensures live == old(live)[(off, len) := Zeros(len)]
      ensures forall i :: off <= i < off + Align(len) ==> data[i] == 0
    {
      hide Align, AllRead;
      AlignExact(len);
      off := used;
      Clear(data, off, Align(len));
      last := off + len;
      used := off + Align(len);
      Sixteens(off, Align(len));
      assert data[..last][..off] == old(data[..off]);
      forall i | 0 <= i < len ensures data[..last][off..off + len][i] == Zeros(len)[i] {
        assert data[off + i] == 0;
      }
      OneMoreRead(old(data[..off]), data[..last], live, off, len, Zeros(len));
      live := live[(off, len) := Zeros(len)];
    }

    /**
     * Whether the slice of len octets at off ends exactly where the top allocation ends, starts
     * where an allocation does, and has room to grow to n octets in place.
     */
    predicate Extends(off: nat, len: nat, n: nat)
      reads this
    {
      off < data.Length && off + len == last && off + Align(len) == used && off + Align(n) <= data.Length
    }

    /** The top allocation grows in place: the octets after it are nobody's. */
    method Extend(off: nat, len: nat, more: seq<Octet>)
      requires Ok() && Extends(off, len, len + |more|) && len + |more| < WORD - 15
      modifies this`used, this`last, this`live, data
      ensures Ok() && last == off + len + |more| && used == off + Align(len + |more|) >= old(used)
      ensures live == old(live)[(off, len + |more|) := old(data[off..off + len]) + more]
      ensures forall k :: k in old(live) ==> live[k] == old(live)[k]
    {
      hide Align, AllRead;
      var n := len + |more|;
      AlignExact(n);
      AlignExact(len);
      AlignGrows(len, n);
      SixteenApart(off, len);
      Sixteens(off, Align(n));
      ghost var was, text := data[..last], data[off..last] + more;
      assert was[off..] == data[off..last];
      Copy(data, off + len, more);
      last := off + n;
      used := off + Align(n);
      LongerRead(was, data[..last], live, off, more, text);
      live := live[(off, n) := text];
    }

    /** The top slice is filled with text. */
    method Fill(off: nat, text: seq<Octet>)
      requires Ok() && last == off + |text| && (off, |text|) in live
      requires forall k :: k in live && k != (off, |text|) ==> k.0 + k.1 <= off
      modifies data, this`live
      ensures Ok() && live == old(live)[(off, |text|) := text]
    {
      hide AllRead;
      ghost var below := live - {(off, |text|)};
      FewerRead(data[..last], live, off, below);
      assert data[..last][..off] == data[..off];
      Copy(data, off, text);
      assert data[..last][..off] == data[..off] && data[..last][off..off + |text|] == text;
      OneMoreRead(old(data[..off]), data[..last], below, off, |text|, text);
      live := live[(off, |text|) := text];
      assert live == below[(off, |text|) := text];
    }

    /** The top goes back to where it stood at a mark, if it has risen since; later slices die. */
    method Lower(used0: nat, last0: nat, ghost kept: Texts)
      requires Ok() && last0 <= used0 <= used && last0 <= last && used0 % 16 == 0
      requires forall k :: k in kept ==> k in live && kept[k] == live[k] && k.0 + k.1 <= last0
      modifies this`used, this`last, this`live
      ensures Ok() && used == used0 && live == kept
      ensures last == if old(used) > used0 then last0 else old(last)
    {
      hide AllRead;
      FewerRead(data[..last], live, last0, kept);
      FewerRead(data[..last], live, last, kept);
      assert data[..last][..last0] == data[..last0] && data[..last][..last] == data[..last];
      if used > used0 {
        used := used0;
        last := last0;
      }
      live := kept;
    }
  }

  /** Storage grows by some octets, and the slice that ended at its top with it. */
  lemma LongerRead(was: seq<Octet>, now: seq<Octet>, live: Texts, off: nat, more: seq<Octet>, text: seq<Octet>)
    requires AllRead(was, live) && now == was + more && off <= |was| && text == was[off..] + more
    ensures AllRead(now, live[(off, |text|) := text])
    ensures forall k :: k in live ==> live[(off, |text|) := text][k] == live[k]
  {
    hide AllRead;
    assert now[..|was|] == was && now[off..off + |text|] == text;
    OneMoreRead(was, now, live, off, |text|, text);
  }

  lemma AlignGrows(m: nat, n: nat)
    requires m <= n < WORD - 15
    ensures Align(m) <= Align(n)
  {}

  lemma SixteenApart(off: nat, len: nat)
    requires (off + Align(len)) % 16 == 0 && Align(len) % 16 == 0
    ensures off % 16 == 0
  {
    hide Align;
  }

  method Copy(data: array<Octet>, off: nat, text: seq<Octet>)
    requires off + |text| <= data.Length
    modifies data
    ensures data[..off] == old(data[..off]) && data[off..off + |text|] == text
    ensures data[..off + |text|] == old(data[..off]) + text
  {
    for i := 0 to |text|
      invariant data[..off] == old(data[..off])
      invariant data[off..off + i] == text[..i]
    {
      data[off + i] := text[i];
      assert data[off..off + i + 1] == data[off..off + i] + [text[i]];
      assert text[..i + 1] == text[..i] + [text[i]];
    }
    assert text[..|text|] == text;
  }

  lemma Sixteens(a: nat, b: nat)
    requires a % 16 == 0 && b % 16 == 0
    ensures (a + b) % 16 == 0
  {}

  method Clear(data: array<Octet>, off: nat, n: nat)
    requires off + n <= data.Length
    modifies data
    ensures data[..off] == old(data[..off])
    ensures forall j :: off <= j < off + n ==> data[j] == 0
  {
    for i := 0 to n
      invariant data[..off] == old(data[..off])
      invariant forall j :: off <= j < off + i ==> data[j] == 0
    {
      data[off + i] := 0;
    }
  }

  function Cap(need: nat): nat {
    if need > BLOCK_MIN then need + (if need < SLACK_MAX then need else SLACK_MAX) else BLOCK_MIN
  }

  /** A kept block serves a need it holds and is at most four times as large as, in 64-bit arithmetic. */
  predicate Suits(cap: nat, need: nat) {
    need <= cap <= (4 * need) % WORD
  }

  /** Blocks with storages of their own. */
  ghost predicate Separate(bs: set<Block>) {
    forall b, c :: b in bs && c in bs && b != c ==> b.data != c.data
  }

  ghost function Storage(bs: set<Block>): set<object> {
    set b | b in bs :: b.data
  }

  function Held(slots: seq<Option<Block>>): nat {
    if slots == [] then 0
    else (if slots[0].Some? then slots[0].value.data.Length else 0) + Held(slots[1..])
  }

  lemma {:induction false} HeldSet(slots: seq<Option<Block>>, i: nat, o: Option<Block>)
    requires i < |slots|
    ensures Held(slots[i := o]) == Held(slots)
            - (if slots[i].Some? then slots[i].value.data.Length else 0)
            + (if o.Some? then o.value.data.Length else 0)
  {
    if i > 0 {
      assert slots[i := o][1..] == slots[1..][i - 1 := o];
      HeldSet(slots[1..], i - 1, o);
    } else {
      assert slots[i := o][1..] == slots[1..];
    }
  }

  ghost function InSlots(slots: seq<Option<Block>>): set<Block> {
    set i | 0 <= i < |slots| && slots[i].Some? :: slots[i].value
  }

  ghost function InList(list: seq<Block>): set<Block> {
    set b | b in list
  }

  class Cache {
    var small: seq<Block>
    var big: seq<Option<Block>>
    var held: nat
    var limit: nat

    ghost function Blocks(): set<Block>
      reads this
    {
      InList(small) + InSlots(big)
    }

    /** Kept blocks are nobody's, each is kept once, and the large ones together stay under the cap. */
    ghost predicate Valid()
      reads this, Blocks()
    {
      && |small| <= CACHE_MAX && |big| == BIG_SLOTS && held == Held(big) <= limit
      && (forall i, j :: 0 <= i < j < |small| ==> small[i] != small[j])
      && (forall i, j :: 0 <= i < j < |big| && big[i].Some? && big[j].Some? ==> big[i] != big[j])
      && InList(small) !! InSlots(big)
      && (forall b :: b in small ==> b.data.Length == BLOCK_MIN)
      && (forall i :: 0 <= i < |big| && big[i].Some? ==> big[i].value.data.Length > BLOCK_MIN)
      && (forall b :: b in Blocks() ==> b.owner == null)
      && Separate(Blocks())
    }

    constructor (cap: nat)
      ensures Valid() && Blocks() == {} && limit == cap
    {
      small, big, held, limit := [], [None, None, None, None], 0, cap;
    }

    /** The smallest kept block that holds need and is at most four times as large. */
    method BigTake(need: nat) returns (r: Option<Block>)
      requires Valid()
      modifies this
      ensures Valid() && small == old(small) && limit == old(limit)
      ensures r.None? ==> big == old(big) && held == old(held)
      ensures r.None? ==> forall b :: b in InSlots(big) ==> !Suits(b.data.Length, need)
      ensures r.Some? ==>
                && r.value in InSlots(old(big)) && InSlots(big) == InSlots(old(big)) - {r.value}
                && Suits(r.value.data.Length, need)
                && forall b :: b in InSlots(old(big)) && Suits(b.data.Length, need) ==>
                     r.value.data.Length <= b.data.Length
    {
      var best := -1;
      for i := 0 to BIG_SLOTS
        invariant -1 <= best < i
        invariant best >= 0 ==> big[best].Some? && Suits(big[best].value.data.Length, need)
        invariant forall j :: 0 <= j < i && big[j].Some? && Suits(big[j].value.data.Length, need) ==>
                    best >= 0 && big[best].value.data.Length <= big[j].value.data.Length
      {
        if big[i].Some? && Suits(big[i].value.data.Length, need)
           && (best < 0 || big[i].value.data.Length < big[best].value.data.Length) {
          best := i;
        }
      }
      if best < 0 {
        return None;
      }
      r := big[best];
      HeldSet(big, best, None);
      SlotEmptied(big, best);
      big := big[best := None];
      held := held - r.value.data.Length;
    }

    /** A large block is kept when it fits under the cap and a slot is free. */
    method BigKeep(b: Block) returns (kept: bool)
      requires Valid() && b !in Blocks() && Separate(Blocks() + {b})
      modifies this, b`owner
      ensures Valid() && limit == old(limit)
      ensures Blocks() == if kept then old(Blocks()) + {b} else old(Blocks())
      ensures !kept ==> b.owner == old(b.owner)
      ensures kept ==> b.data.Length > BLOCK_MIN
      ensures !kept ==> b.data.Length <= BLOCK_MIN || old(held) + b.data.Length > limit
                        || forall i :: 0 <= i < |big| ==> big[i].Some?
    {
      if b.data.Length <= BLOCK_MIN || held + b.data.Length > limit {
        return false;
      }
      for i := 0 to BIG_SLOTS
        invariant unchanged(this) && unchanged(b)
        invariant forall j :: 0 <= j < i ==> big[j].Some?
      {
        if big[i].None? {
          HeldSet(big, i, Some(b));
          SlotFilled(big, i, b);
          big := big[i := Some(b)];
          held := held + b.data.Length;
          b.owner := null;
          return true;
        }
      }
      kept := false;
    }

    /** A block for a pool: a kept one, or a new one, or none when memory is out. */
    method Acquire(need: nat, pool: object, memory: bool) returns (r: Option<Block>)
      requires Valid()
      modifies this, Blocks()
      ensures Valid() && limit == old(limit) && Blocks() <= old(Blocks())
      ensures r.None? ==> !memory && Blocks() == old(Blocks())
      ensures r.Some? ==>
                && r.value.used == 0 && r.value.owner == pool && r.value.live == map[] && r.value !in Blocks()
                && need <= r.value.data.Length
                && ((fresh(r.value) && fresh(r.value.data)) || r.value in old(Blocks()))
                && (r.value !in old(Blocks()) ==> r.value.data.Length == Cap(need))
    {
      hide Held;
      if need <= BLOCK_MIN && small != [] {
        var b := small[0];
        ListTaken(small);
        small := small[1..];
        b.used := 0;
        b.owner := pool;
        b.live := map[];
        return Some(b);
      }
      if need > BLOCK_MIN {
        r := BigTake(need);
        if r.Some? {
          r.value.used := 0;
          r.value.owner := pool;
          r.value.live := map[];
          return;
        }
      }
      if !memory {
        return None;
      }
      var b := new Block(Cap(need), pool);
      r := Some(b);
    }

    /** A block given back is kept when it can be, else it goes to the system. */
    method BlockBack(b: Block)
      requires Valid() && b !in Blocks() && Separate(Blocks() + {b})
      modifies this, b`owner
      ensures Valid() && limit == old(limit)
      ensures old(Blocks()) <= Blocks() <= old(Blocks()) + {b}
      ensures b.data.Length == BLOCK_MIN && |old(small)| < CACHE_MAX ==> Blocks() == old(Blocks()) + {b}
    {
      if b.data.Length == BLOCK_MIN && |small| < CACHE_MAX {
        b.owner := null;
        ListJoined(small, b);
        small := [b] + small;
      } else {
        var kept := BigKeep(b);
      }
    }

    /** The thread's cap is set; blocks over it go back at once. */
    method KeepAtMost(bytes: int)
      requires Valid()
      modifies this
      ensures Valid() && limit == (if bytes < 0 then 0 else bytes) && small == old(small)
      ensures InSlots(big) <= InSlots(old(big))
    {
      var cap := if bytes < 0 then 0 else bytes;
      var slots, sum := big, held;
      var i := 0;
      while i < BIG_SLOTS && sum > cap
        invariant unchanged(this) && 0 <= i <= BIG_SLOTS && |slots| == BIG_SLOTS && sum == Held(slots)
        invariant forall j :: 0 <= j < |slots| ==> slots[j] == big[j] || slots[j] == None
        invariant forall j :: 0 <= j < i ==> slots[j] == None
      {
        if slots[i].Some? {
          HeldSet(slots, i, None);
          sum := sum - slots[i].value.data.Length;
          slots := slots[i := None];
        }
        i := i + 1;
      }
      NoneHeld(slots);
      SlotsKept(big, slots);
      big, held, limit := slots, sum, cap;
    }
  }

  lemma {:induction false} NoneHeld(slots: seq<Option<Block>>)
    ensures (forall j :: 0 <= j < |slots| ==> slots[j] == None) ==> Held(slots) == 0
  {
    if slots != [] {
      NoneHeld(slots[1..]);
    }
  }

  lemma SlotsKept(was: seq<Option<Block>>, now: seq<Option<Block>>)
    requires |was| == |now| && forall j :: 0 <= j < |now| ==> now[j] == was[j] || now[j] == None
    ensures InSlots(now) <= InSlots(was)
  {
    forall x | x in InSlots(now) ensures x in InSlots(was) {
      var j :| 0 <= j < |now| && now[j] == Some(x);
      assert was[j] == Some(x);
    }
  }

  lemma ListTaken(list: seq<Block>)
    requires list != [] && forall i, j :: 0 <= i < j < |list| ==> list[i] != list[j]
    ensures InList(list[1..]) == InList(list) - {list[0]}
  {
    assert list == [list[0]] + list[1..];
  }

  lemma ListJoined(list: seq<Block>, b: Block)
    ensures InList([b] + list) == InList(list) + {b}
  {}

  lemma SlotEmptied(slots: seq<Option<Block>>, i: nat)
    requires i < |slots| && slots[i].Some?
    requires forall j, k :: 0 <= j < k < |slots| && slots[j].Some? && slots[k].Some? ==> slots[j] != slots[k]
    ensures InSlots(slots[i := None]) == InSlots(slots) - {slots[i].value}
  {
    var s := slots[i := None];
    forall x | x in InSlots(slots) && x != slots[i].value ensures x in InSlots(s) {
      var j :| 0 <= j < |slots| && slots[j] == Some(x);
      assert s[j] == Some(x);
    }
  }

  lemma SlotFilled(slots: seq<Option<Block>>, i: nat, b: Block)
    requires i < |slots| && slots[i].None?
    ensures InSlots(slots[i := Some(b)]) == InSlots(slots) + {b}
  {
    var s := slots[i := Some(b)];
    assert s[i] == Some(b);
    forall x | x in InSlots(slots) ensures x in InSlots(s) {
      var j :| 0 <= j < |slots| && slots[j] == Some(x);
      assert s[j] == Some(x);
    }
  }
}
