/**
 * Arenas: blocks of storage, newest first, each carved from the bottom up. A slice that has been
 * carved or concatenated stays live, and reads the same, until a release or a free of its pool.
 */
module Pools {
  import opened Wrappers
  import opened PoolBlocks
  import Arith

  /** The top of a block: where it stands, and the slices below it with what they read. */
  datatype Top = Top(b: Block, used: nat, last: nat, live: Texts)

  /** A mark: the head and its top, or none. */
  datatype Mark = Mark(head: Option<Block>, used: nat, last: nat)

  /** Text to concatenate: a slice of this pool, or octets from anywhere else. */
  datatype Source = Slice(b: Block, off: nat, len: nat) | Foreign(text: seq<Octet>)

  ghost function All(bs: seq<Block>): set<Block> {
    set b | b in bs
  }

  predicate Distinct(bs: seq<Block>) {
    forall i, j :: 0 <= i < j < |bs| ==> bs[i] != bs[j]
  }

  /** A top risen: no slice lost, none changed. */
  ghost predicate Risen(t: Top, t': Top) {
    && t'.b == t.b && t'.used >= t.used && t'.last >= t.last
    && forall k :: k in t.live ==> k in t'.live && t'.live[k] == t.live[k]
  }

  /**
   * What carving and concatenating do to a pool: newer blocks in front, the old head's top risen,
   * the older blocks as they were.
   */
  ghost predicate Grown(v: seq<Top>, v': seq<Top>) {
    && |v| <= |v'|
    && (v != [] ==> Risen(v[0], v'[|v'| - |v|]) && v'[|v'| - |v| + 1..] == v[1..])
  }

  lemma GrownTransitive(v: seq<Top>, v1: seq<Top>, v2: seq<Top>)
    requires Grown(v, v1) && Grown(v1, v2)
    ensures Grown(v, v2)
  {
    if v != [] {
      var k1, k2 := |v1| - |v|, |v2| - |v1|;
      assert v2[k2 + k1 + 1..] == v2[k2 + 1..][k1..];
      assert k1 > 0 ==> v2[k2 + k1] == v2[k2 + 1..][k1 - 1] == v1[1..][k1 - 1];
      assert v1[1..][k1..] == v1[k1 + 1..];
    }
  }

  /** Between an outer mark and its release, an inner mark's release leaves the pool one that has grown. */
  lemma GrownAfterRelease(v: seq<Top>, v1: seq<Top>, v2: seq<Top>)
    requires Grown(v, v1) && |v2| == |v1|
    requires v1 != [] ==> v2[1..] == v1[1..] && v2[0] == v1[0].(last := v2[0].last) && v2[0].last >= v1[0].last
    ensures Grown(v, v2)
  {
    if v1 != [] {
      assert v2 == [v2[0]] + v2[1..] && v1 == [v1[0]] + v1[1..];
      GrownTransitive(v, v1, v2);
    }
  }

  ghost function Objects(bs: set<Block>): set<object> {
    (set b | b in bs :: b as object) + Storage(bs)
  }

  class Pool {
    var blocks: seq<Block>

    constructor ()
      ensures Valid() && blocks == []
    {
      blocks := [];
    }

    ghost function Now(): (v: seq<Top>)
      reads this, blocks
      ensures |v| == |blocks| && forall i :: 0 <= i < |v| ==> v[i] == TopOf(blocks[i])
    {
      TopsOf(blocks)
    }

    ghost predicate Valid()
      reads this, All(blocks), Storage(All(blocks))
    {
      Distinct(blocks) && Separate(All(blocks)) && forall b :: b in blocks ==> b.owner == this && b.Ok()
    }

    /** Blocks of a pool and of a thread's cache have nothing in common. */
    ghost predicate Apart(cache: Cache)
      reads this, cache
    {
      All(blocks) !! cache.Blocks() && Separate(All(blocks) + cache.Blocks())
    }

    /** Whether a request is refused before any arithmetic is done on it. */
    static predicate Refused(elem: nat, n: int) {
      n < 0 || (elem != 0 && n > REQUEST_MAX / elem)
    }

    static lemma AcceptedFits(elem: nat, n: int)
      requires !Refused(elem, n)
      ensures 0 <= elem * n <= REQUEST_MAX
    {
      if elem != 0 {
        assert n <= REQUEST_MAX / elem;
        assert elem * n <= elem * (REQUEST_MAX / elem) <= REQUEST_MAX;
      }
    }

    /** A fetched block becomes the head. */
    method Push(b: Block, ghost cache: Cache)
      requires Valid() && Apart(cache) && b !in blocks && b !in cache.Blocks()
      requires Separate(All(blocks) + cache.Blocks() + {b})
      requires b.used == 0 && b.live == map[] && b.owner == this
      modifies this
      ensures blocks == [b] + old(blocks) && Distinct(blocks) && Separate(All(blocks)) && Apart(cache)
      ensures b.Open() && forall c :: c in blocks ==> c.owner == this && (c == b || c.Ok())
      ensures Now()[1..] == old(Now())
    {
      blocks := [b] + blocks;
    }

    /** The pool is ready to carve: the head is open, the others are in order. */
    ghost predicate Ready()
      reads this, All(blocks), Storage(All(blocks))
    {
      && blocks != [] && Distinct(blocks) && Separate(All(blocks)) && blocks[0].Open()
      && (forall c :: c in blocks ==> c.owner == this && (c == blocks[0] || c.Ok()))
    }

    /** A block joins in front, a kept one or a new one. */
    method Fetch(cache: Cache, need: nat, memory: bool) returns (ok: bool)
      requires Valid() && cache.Valid() && Apart(cache)
      modifies this, cache, cache.Blocks()
      ensures cache.Valid() && Apart(cache) && cache.limit == old(cache.limit) && cache.Blocks() <= old(cache.Blocks())
      ensures !ok ==> !memory && blocks == old(blocks) && Valid()
      ensures ok ==> Ready() && |blocks| == |old(blocks)| + 1 && blocks[1..] == old(blocks)
      ensures ok ==> Now()[1..] == old(Now())
      ensures ok ==> blocks[0].used == 0 && blocks[0].live == map[] && need <= blocks[0].data.Length
      ensures ok ==> fresh(blocks[0]) || blocks[0] in old(cache.Blocks())
      ensures ok ==> fresh(blocks[0].data) || blocks[0].data in Storage(old(cache.Blocks()))
    {
      hide AllRead, Held, Cap;
      ghost var v := Now();
      var b := cache.Acquire(need, this, memory);
      assert Now() == v;
      if b.None? {
        return false;
      }
      Push(b.value, cache);
      ok := true;
    }

    /** What a successful carve of len octets leaves: a cleared slice of its own at the head's top. */
    ghost predicate Carved(b: Block, off: nat, len: nat)
      reads this`blocks, b, b.data
    {
      && blocks != [] && blocks[0] == b && b.last == off + len && b.used == off + Align(len) <= b.data.Length
      && (off, len) in b.live && b.live[(off, len)] == Zeros(len)
      && (forall k :: k in b.live && k != (off, len) ==> k.0 + k.1 <= off)
      && (forall i :: off <= i < off + Align(len) ==> b.data[i] == 0)
    }

    method CarveHead(len: nat) returns (off: nat)
      requires Ready() && len <= REQUEST_MAX && blocks[0].used + Align(len) <= blocks[0].data.Length
      modifies blocks[0], blocks[0].data
      ensures Valid() && Carved(blocks[0], off, len) && off == old(blocks[0].used)
      ensures Risen(Top(blocks[0], old(blocks[0].used), off, old(blocks[0].live)), TopOf(blocks[0]))
      ensures Now()[1..] == old(Now())[1..]
    {
      var b := blocks[0];
      hide Align;
      off := b.Carve(len);
    }

    method CarveHere(len: nat) returns (off: nat)
      requires Valid() && blocks != [] && len <= REQUEST_MAX && blocks[0].used + Align(len) <= blocks[0].data.Length
      modifies blocks[0], blocks[0].data
      ensures Valid() && Carved(blocks[0], off, len) && Grown(old(Now()), Now()) && off == old(blocks[0].used)
    {
      hide Align;
      blocks[0].OkIsOpen();
      off := CarveHead(len);
    }

    method CarveFetched(cache: Cache, len: nat, memory: bool) returns (r: Option<nat>)
      requires Valid() && cache.Valid() && Apart(cache) && len <= REQUEST_MAX
      modifies this, cache, Objects(cache.Blocks())
      ensures Valid() && cache.Valid() && Apart(cache)
      ensures r.None? ==> !memory && Now() == old(Now())
      ensures r.Some? ==> blocks != [] && Carved(blocks[0], r.value, len) && Grown(old(Now()), Now())
      ensures cache.Blocks() <= old(cache.Blocks())
      ensures r.Some? ==> blocks[0] !in old(blocks) && blocks[1..] == old(blocks)
      ensures r.Some? ==> (fresh(blocks[0]) || blocks[0] in old(cache.Blocks()))
      ensures r.Some? ==> (fresh(blocks[0].data) || blocks[0].data in Storage(old(cache.Blocks())))
    {
      hide Align;
      ghost var v := Now();
      var ok := Fetch(cache, Align(len), memory);
      if !ok {
        assert Now() == v;
        return None;
      }
      var off := CarveHead(len);
      GrownBehind(v, Now());
      r := Some(off);
    }

    /** elem * n cleared octets, or a refusal: a bad size, or memory is out. */
    method Alloc(cache: Cache, elem: nat, n: int, memory: bool) returns (r: Option<(Block, nat)>)
      requires Valid() && cache.Valid() && Apart(cache)
      modifies this, Objects(All(blocks)), cache, Objects(cache.Blocks())
      ensures Valid() && cache.Valid() && Apart(cache)
      ensures Refused(elem, n) ==> r.None?
      ensures r.None? ==> (Refused(elem, n) || !memory) && Now() == old(Now())
      ensures cache.Blocks() <= old(cache.Blocks())
      ensures r.Some? ==> blocks == old(blocks) || (blocks != [] && blocks[1..] == old(blocks))
      ensures r.Some? ==> Carved(r.value.0, r.value.1, elem * n) && Grown(old(Now()), Now())
      ensures r.Some? && r.value.0 in old(blocks) ==> r.value.1 >= old(r.value.0.used)
      ensures r.Some? ==> (fresh(r.value.0) || r.value.0 in old(All(blocks)) + old(cache.Blocks()))
      ensures r.Some? ==> (fresh(r.value.0.data) || r.value.0.data in Storage(old(All(blocks)) + old(cache.Blocks())))
    {
      hide Carved, Grown, Now;
      if Refused(elem, n) {
        return None;
      }
      AcceptedFits(elem, n);
      var len := elem * n;
      hide Align;
      if blocks == [] || blocks[0].data.Length - blocks[0].used < Align(len) {
        var off := CarveFetched(cache, len, memory);
        r := if off.None? then None else Some((blocks[0], off.value));
      } else {
        assert blocks[0] in All(blocks) && blocks[0].data in Storage(All(blocks));
        var off := CarveHere(len);
        r := Some((blocks[0], off));
      }
    }

    /** A slice of this pool that has been handed out: it lies below its block's exact end. */
    ghost predicate Known(x: Source)
      reads this, blocks
    {
      x.Slice? ==> x.b in blocks && x.off + x.len <= x.b.last <= x.b.data.Length
    }

    function Length(x: Source): nat {
      match x
      case Slice(_, _, len) => len
      case Foreign(text) => |text|
    }

    function Octets(x: Source): (t: seq<Octet>)
      requires Known(x)
      reads this, blocks, (if x.Slice? then {x.b.data} else {})
      ensures |t| == Length(x)
    {
      match x
      case Slice(b, off, len) => b.data[off..off + len]
      case Foreign(text) => text
    }

    /** A live slice of the head that reads so. */
    ghost predicate Holds(x: Source, text: seq<Octet>)
      reads this, blocks
    {
      x.Slice? && x.b in blocks && (x.off, x.len) in x.b.live && x.b.live[(x.off, x.len)] == text && x.len == |text|
    }

    lemma LengthIs(x: Source)
      ensures x.Slice? ==> Length(x) == x.len
    {}

    /** The left operand grows in place: nothing is carved, and nothing else changes. */
    method CatExtend(ghost cache: Cache, a: Source, more: seq<Octet>) returns (r: Source)
      requires Valid() && cache.Valid() && Apart(cache) && a.Slice? && Known(a) && blocks != [] && a.b == blocks[0]
      requires a.b.Extends(a.off, a.len, a.len + |more|) && a.len + |more| < WORD - 15
      modifies blocks[0], blocks[0].data
      ensures Valid() && cache.Valid() && Apart(cache)
      ensures Holds(r, old(Octets(a)) + more) && Grown(old(Now()), Now())
      ensures r == Slice(a.b, a.off, a.len + |more|)
      ensures a.b.last == a.off + a.len + |more| && a.b.used == a.off + Align(a.len + |more|)
    {
      hide Align, AllRead;
      assert blocks[0] in blocks && blocks[0] !in cache.Blocks();
      ghost var v := Now();
      a.b.Extend(a.off, a.len, more);
      r := Slice(a.b, a.off, a.len + |more|);
      assert Now()[1..] == v[1..];
    }

    method FillHead(ghost cache: Cache, b: Block, off: nat, text: seq<Octet>)
      requires Valid() && cache.Valid() && Apart(cache) && Carved(b, off, |text|)
      modifies b, b.data
      ensures Valid() && cache.Valid() && Apart(cache) && Holds(Slice(b, off, |text|), text)
      ensures Now() == old(Now())[0 := Top(b, old(b.used), old(b.last), old(b.live)[(off, |text|) := text])]
    {
      hide Align;
      assert b in blocks && b !in cache.Blocks();
      b.Fill(off, text);
    }

    /** The slice just carved starts where no slice of before reaches. */
    ghost predicate Above(v: seq<Top>, b: Block, off: nat)
      reads this
    {
      blocks != [] && blocks[0] == b && (|v| == |blocks| ==> v[0].b == b && Bounded(v[0]) && v[0].used <= off)
    }

    method AllocAbove(cache: Cache, elem: nat, n: nat, memory: bool) returns (r: Option<(Block, nat)>)
      requires Valid() && cache.Valid() && Apart(cache)
      modifies this, Objects(All(blocks)), cache, Objects(cache.Blocks())
      ensures Valid() && cache.Valid() && Apart(cache)
      ensures r.None? ==> (Refused(elem, n) || !memory) && Now() == old(Now())
      ensures r.Some? ==> Carved(r.value.0, r.value.1, elem * n) && Grown(old(Now()), Now())
      ensures r.Some? ==> Above(old(Now()), r.value.0, r.value.1)
      ensures r.Some? ==> (fresh(r.value.0) || r.value.0 in old(All(blocks)) + old(cache.Blocks()))
      ensures r.Some? ==> (fresh(r.value.0.data) || r.value.0.data in Storage(old(All(blocks)) + old(cache.Blocks())))
    {
      Below();
      ghost var v0 := Now();
      hide Bounded;
      r := Alloc(cache, elem, n, memory);
      if r.Some? && |v0| == |Now()| {
        HeadUsed(v0, Now(), r.value.1);
        assert v0[0].b in old(blocks);
      }
    }

    method CatCopy(cache: Cache, elem: nat, ta: seq<Octet>, tb: seq<Octet>, memory: bool) returns (r: Option<Source>)
      requires Valid() && cache.Valid() && Apart(cache) && elem > 0 && (|ta| + |tb|) % elem == 0
      modifies this, Objects(All(blocks)), cache, Objects(cache.Blocks())
      ensures Valid() && cache.Valid() && Apart(cache)
      ensures r.None? ==> (Refused(elem, (|ta| + |tb|) / elem) || !memory) && Now() == old(Now())
      ensures r.Some? ==> Holds(r.value, ta + tb) && Grown(old(Now()), Now())
    {
      hide Holds, AllRead, Carved, Grown, Bounded, Apart, Distinct, Separate;
      Whole(|ta| + |tb|, elem);
      ghost var v0 := Now();
      var at := AllocAbove(cache, elem, (|ta| + |tb|) / elem, memory);
      if at.None? {
        return None;
      }
      var (b, off) := at.value;
      ghost var v := Now();
      assert v != [] && v[0].b == b && |v| == |blocks|;
      FillHead(cache, b, off, ta + tb);
      GrownFilled(v0, v, b, (off, |ta + tb|), ta + tb);
      r := Some(Slice(b, off, |ta + tb|));
    }

    lemma Below()
      requires Valid()
      ensures forall i :: 0 <= i < |Now()| ==> Bounded(Now()[i])
    {
      forall i | 0 <= i < |Now()| ensures Bounded(Now()[i]) {
        assert blocks[i] in blocks;
      }
    }

    /** Whether a concatenation's left operand can grow where it is. */
    predicate GrowsInPlace(a: Source, more: nat)
      reads this, (if a.Slice? then {a.b} else {})
    {
      a.Slice? && blocks != [] && a.b == blocks[0] && a.len != 0 && a.b.Extends(a.off, a.len, a.len + more)
    }

    /**
     * a followed by b, in elem-octet elements: a grows in place when it ends at the arena's top
     * and the block has room, else both are copied. Every slice that was live still reads the same.
     */
    method Cat(cache: Cache, elem: nat, a: Source, b: Source, memory: bool) returns (r: Option<Source>)
      requires Valid() && cache.Valid() && Apart(cache) && Known(a) && Known(b)
      requires elem > 0 && Length(a) % elem == 0 && Length(b) % elem == 0 && Length(a) + Length(b) < WORD - 15
      modifies this, Objects(All(blocks)), cache, Objects(cache.Blocks())
      ensures Valid() && cache.Valid() && Apart(cache)
      ensures r.None? ==> (Refused(elem, (Length(a) + Length(b)) / elem) || !memory) && Now() == old(Now())
      ensures r.Some? ==> Holds(r.value, old(Octets(a) + Octets(b))) && Grown(old(Now()), Now())
      ensures old(GrowsInPlace(a, Length(b))) ==>
                && r == Some(Slice(a.b, a.off, a.len + Length(b))) && blocks == old(blocks) && unchanged(cache)
                && a.b.last == a.off + a.len + Length(b) && a.b.used == a.off + Align(a.len + Length(b))
    {
      hide Grown, Holds, Align, Distinct, Separate, AllRead, Refused, Length, Apart, Octets;
      var ta, tb := Octets(a), Octets(b);
      assert |ta| == Length(a) && |tb| == Length(b) && (a.Slice? ==> |ta| == a.len) by { LengthIs(a); }
      if GrowsInPlace(a, |tb|) {
        assert blocks[0] in All(blocks) && blocks[0].data in Storage(All(blocks));
        var x := CatExtend(cache, a, tb);
        r := Some(x);
      } else {
        SumWhole(|ta|, |tb|, elem);
        r := CatCopy(cache, elem, ta, tb, memory);
      }
    }

    method TakeMark() returns (m: Mark)
      requires Valid()
      ensures Marks(m, Now())
    {
      if blocks == [] {
        m := Mark(None, 0, 0);
      } else {
        assert blocks[0] in blocks;
        m := Mark(Some(blocks[0]), blocks[0].used, blocks[0].last);
      }
    }

    /** The head is given back. */
    method GiveOne(cache: Cache)
      requires Valid() && cache.Valid() && Apart(cache) && blocks != []
      modifies this, cache, blocks[0]
      ensures Valid() && cache.Valid() && Apart(cache) && blocks == old(blocks)[1..]
    {
      var b := blocks[0];
      assert b in blocks && blocks == [b] + blocks[1..];
      blocks := blocks[1..];
      cache.BlockBack(b);
    }

    /** The blocks newer than the mark's are given back, newest first. */
    method GiveBack(cache: Cache, head: Option<Block>, ghost keep: nat)
      requires Valid() && cache.Valid() && Apart(cache) && keep <= |blocks|
      requires if keep == 0 then head == None else head == Some(blocks[|blocks| - keep])
      modifies this, cache, All(blocks)
      ensures Valid() && cache.Valid() && Apart(cache)
      ensures blocks == old(blocks)[|old(blocks)| - keep..]
      ensures forall b :: b in blocks ==> TopOf(b) == old(TopOf(b))
    {
      ghost var all := blocks;
      assert forall j, k :: 0 <= j < k < |all| ==> all[j] != all[k];
      ghost var i := 0;
      while blocks != [] && Some(blocks[0]) != head
        invariant Valid() && cache.Valid() && Apart(cache) && 0 <= i <= |all| - keep
        invariant blocks == all[i..]
        invariant forall j :: i <= j < |all| ==> TopOf(all[j]) == old(TopOf(all[j]))
        decreases |blocks|
      {
        GiveOne(cache);
        i := i + 1;
      }
    }

    /**
     * The arena goes back to a mark. Whatever was carved or concatenated since is gone; every
     * block, every aligned top and every slice of then is back, reading what it read. The exact
     * end is put back, and with it the whole of the mark, if and only if the marked block's
     * aligned top had risen or its exact end had not moved.
     */
    method Release(cache: Cache, m: Mark, ghost v: seq<Top>)
      requires Valid() && cache.Valid() && Apart(cache) && Marks(m, v) && Grown(v, Now())
      modifies this, cache, All(blocks)
      ensures Valid() && cache.Valid() && Apart(cache)
      ensures |Now()| == |v| && (v != [] ==> Now()[1..] == v[1..])
      ensures v != [] ==> v[0].b in old(blocks) && v[0].b == blocks[0]
      ensures v != [] ==> Now()[0] == v[0].(last := ReleasedLast(old(v[0].b.used), old(v[0].b.last), m))
      ensures v != [] ==> (Now() == v <==> old(v[0].b.used) > m.used || old(v[0].b.last) == m.last)
    {
      hide AllRead, Distinct, Separate;
      ghost var keep := |v|;
      ghost var now := Now();
      if keep > 0 {
        assert now[|now| - keep].b == v[0].b == blocks[|blocks| - keep];
      }
      GiveBack(cache, m.head, keep);
      assert blocks == old(blocks)[|old(blocks)| - keep..];
      assert Now() == now[|now| - keep..];
      if blocks != [] {
        Back(cache, blocks[0], m, v);
        HeadAndRest(Now(), v);
      }
    }

    method Back(ghost cache: Cache, b: Block, m: Mark, ghost v: seq<Top>)
      requires Valid() && cache.Valid() && Apart(cache) && blocks != [] && b == blocks[0]
      requires Marks(m, v) && |Now()| == |v| && Risen(v[0], TopOf(b)) && Now()[1..] == v[1..]
      modifies b`used, b`last, b`live
      ensures Valid() && cache.Valid() && Apart(cache)
      ensures |Now()| == |v| && Now()[1..] == v[1..]
      ensures Now()[0] == v[0].(last := ReleasedLast(old(b.used), old(b.last), m))
    {
      assert b in blocks && b !in cache.Blocks();
      ghost var now := Now();
      b.Lower(m.used, m.last, v[0].live);
      assert Now()[1..] == now[1..];
    }

    /** All the blocks are given back. */
    method Free(cache: Cache)
      requires Valid() && cache.Valid() && Apart(cache)
      modifies this, cache, All(blocks)
      ensures Valid() && cache.Valid() && Apart(cache) && blocks == []
    {
      GiveBack(cache, None, 0);
    }

    /** src's blocks, with all their live slices, become this pool's, behind its head. */
    method Adopt(src: Pool)
      requires Valid() && src.Valid() && src != this
      requires All(blocks) !! All(src.blocks) && Separate(All(blocks) + All(src.blocks))
      modifies this, src, All(src.blocks)`owner
      ensures Valid() && src.Valid() && src.blocks == []
      ensures Now() == if old(blocks) == [] then old(src.Now())
                       else if old(src.blocks) == [] then old(Now())
                       else [old(Now())[0]] + old(src.Now()) + old(Now())[1..]
    {
      if src.blocks == [] {
        return;
      }
      ghost var v, w := Now(), src.Now();
      ghost var mine, theirs := blocks, src.blocks;
      Merge(src);
      hide Distinct, Separate, AllRead, Behind;
      TopsBehind(mine, theirs);
      assert TopsOf(mine) == v;
      assert TopsOf(theirs) == w;
    }

    method Merge(src: Pool)
      requires Valid() && src.Valid() && src != this
      requires All(blocks) !! All(src.blocks) && Separate(All(blocks) + All(src.blocks))
      modifies this, src, All(src.blocks)`owner
      ensures Valid() && src.Valid() && src.blocks == [] && blocks == Behind(old(blocks), old(src.blocks))
    {
      var mine, theirs := blocks, src.blocks;
      Retag(theirs);
      Joined(mine, theirs);
      SeparateJoined(mine, theirs);
      blocks := Behind(mine, theirs);
      src.blocks := [];
      hide Distinct, Separate, AllRead, Behind;
      assert forall c :: c in mine || c in theirs <==> c in All(blocks);
    }

    method Retag(bs: seq<Block>)
      modifies All(bs)`owner
      ensures forall b :: b in bs ==> b.owner == this
    {
      for i := 0 to |bs|
        invariant forall j :: 0 <= j < i ==> bs[j].owner == this
      {
        bs[i].owner := this;
      }
    }
  }

  function Behind(mine: seq<Block>, theirs: seq<Block>): seq<Block> {
    if mine == [] then theirs else [mine[0]] + theirs + mine[1..]
  }

  /** Where a release leaves the exact end of the marked block. */
  function ReleasedLast(used: nat, last: nat, m: Mark): nat {
    if used > m.used then m.last else last
  }

  lemma HeadAndRest(v: seq<Top>, w: seq<Top>)
    requires |v| == |w| > 0 && v[1..] == w[1..]
    ensures v == w <==> v[0] == w[0]
  {
    assert v == [v[0]] + v[1..] && w == [w[0]] + w[1..];
  }

  lemma Joined(mine: seq<Block>, theirs: seq<Block>)
    requires Distinct(mine) && Distinct(theirs) && All(mine) !! All(theirs)
    ensures Distinct(Behind(mine, theirs)) && All(Behind(mine, theirs)) == All(mine) + All(theirs)
  {
    if mine != [] {
      assert mine == [mine[0]] + mine[1..];
      forall i, j | 0 <= i < |theirs| && 0 <= j < |mine| ensures theirs[i] != mine[j] {
        assert theirs[i] in All(theirs) && mine[j] in All(mine);
      }
    }
  }

  lemma SeparateJoined(mine: seq<Block>, theirs: seq<Block>)
    requires Separate(All(mine) + All(theirs)) && All(Behind(mine, theirs)) == All(mine) + All(theirs)
    ensures Separate(All(Behind(mine, theirs)))
  {}

  lemma SumWhole(m: nat, n: nat, elem: nat)
    requires elem > 0 && m % elem == 0 && n % elem == 0
    ensures (m + n) % elem == 0
  {
    var a, b := m / elem, n / elem;
    assert m + n == (a + b) * elem;
    Multiple(a + b, elem);
  }

  lemma Multiple(k: nat, elem: nat)
    requires elem > 0
    ensures (k * elem) % elem == 0
  {
    Arith.DivModUnique(k * elem, elem, k, 0);
  }

  /** A mark is where this view's top stands. */
  ghost predicate Marks(m: Mark, v: seq<Top>) {
    if v == [] then m == Mark(None, 0, 0)
    else
      && m == Mark(Some(v[0].b), v[0].used, v[0].last) && m.last <= m.used && m.used % 16 == 0
      && forall k :: k in v[0].live ==> k.0 + k.1 <= m.last
  }

  /** No live slice reaches past the aligned top, and an empty one reads nothing. */
  ghost predicate Bounded(t: Top) {
    forall k :: k in t.live ==> k.0 + k.1 <= t.used && (k.1 == 0 ==> t.live[k] == [])
  }

  lemma HeadUsed(v0: seq<Top>, v1: seq<Top>, off: nat)
    requires Grown(v0, v1) && |v0| == |v1| && v1 != []
    ensures v0[0].b == v1[0].b
  {}

  lemma GrownFilled(v0: seq<Top>, v1: seq<Top>, b: Block, key: (nat, nat), text: seq<Octet>)
    requires Grown(v0, v1) && v1 != [] && v1[0].b == b
    requires |v0| == |v1| ==> Bounded(v0[0]) && v0[0].used <= key.0 && key.1 == |text|
    ensures Grown(v0, v1[0 := Top(b, v1[0].used, v1[0].last, v1[0].live[key := text])])
  {
    var v2 := v1[0 := Top(b, v1[0].used, v1[0].last, v1[0].live[key := text])];
    if v0 != [] {
      assert v2[|v1| - |v0| + 1..] == v1[|v1| - |v0| + 1..];
    }
  }

  lemma Whole(n: nat, elem: nat)
    requires elem > 0 && n % elem == 0
    ensures elem * (n / elem) == n
  {}

  lemma GrownBehind(v: seq<Top>, v': seq<Top>)
    requires v' != [] && v'[1..] == v
    ensures Grown(v, v')
  {
    if v != [] {
      assert v'[1] == v[0] && v'[2..] == v'[1..][1..];
    }
  }

  ghost function TopsOf(bs: seq<Block>): (v: seq<Top>)
    reads bs
    ensures |v| == |bs| && forall i :: 0 <= i < |v| ==> v[i] == TopOf(bs[i])
  {
    seq(|bs|, i requires 0 <= i < |bs| reads bs => TopOf(bs[i]))
  }

  lemma TopsBehind(mine: seq<Block>, theirs: seq<Block>)
    ensures TopsOf(Behind(mine, theirs)) ==
            if mine == [] then TopsOf(theirs) else [TopsOf(mine)[0]] + TopsOf(theirs) + TopsOf(mine)[1..]
  {}

  ghost function TopOf(b: Block): Top
    reads b
  {
    Top(b, b.used, b.last, b.live)
  }

  /** Right after one octet has been carved its padding has room: one more behind it moves only the exact end. */
  method GrowByOne(pool: Pool, cache: Cache, b: Block, off: nat)
    requires pool.Valid() && cache.Valid() && pool.Apart(cache) && pool.Carved(b, off, 1) && off < b.data.Length
    modifies pool, Objects(All(pool.blocks)), cache, Objects(cache.Blocks())
    ensures pool.Valid() && cache.Valid() && pool.Apart(cache) && pool.blocks == old(pool.blocks) && unchanged(cache)
    ensures Grown(old(pool.Now()), pool.Now()) && b.used == old(b.used) && b.last == old(b.last) + 1
  {
    hide Align, Distinct, Separate, AllRead, Grown, Bounded;
    PaddingExtends();
    var one, more := Slice(b, off, 1), Foreign([0x79]);
    assert pool.Length(more) == 1 && pool.GrowsInPlace(one, 1);
    var text := pool.Cat(cache, 1, one, more, true);
    assert b.used == off + Align(2);
  }

  /** A mark, one more octet in the padding, and a release. */
  method MarkGrowRelease(pool: Pool, cache: Cache, b: Block, off: nat) returns (was: nat, now: nat)
    requires pool.Valid() && cache.Valid() && pool.Apart(cache) && pool.Carved(b, off, 1) && off < b.data.Length
    modifies pool, Objects(All(pool.blocks)), cache, Objects(cache.Blocks())
    ensures was == old(b.last) && now == b.last == was + 1
  {
    hide Align, Distinct, Separate, AllRead, Grown, Bounded;
    ghost var v := pool.Now();
    var mark := pool.TakeMark();
    assert v[0].b == b && b.used == mark.used && b.last == mark.last;
    GrowByOne(pool, cache, b, off);
    pool.Release(cache, mark, v);
    assert pool.Now()[0] == TopOf(b);
    was, now := mark.last, b.last;
  }

  /** A new arena and a new cache, with one octet carved. */
  method OneOctet() returns (pool: Pool, cache: Cache, b: Block, off: nat)
    ensures pool.Valid() && cache.Valid() && pool.Apart(cache) && pool.blocks == [b] && cache.Blocks() == {}
    ensures pool.Carved(b, off, 1) && fresh(pool) && fresh(cache) && fresh(b) && fresh(b.data)
  {
    hide Align, AllRead, Grown, Bounded;
    cache := new Cache(0);
    pool := new Pool();
    var at := pool.Alloc(cache, 1, 1, true);
    b, off := at.value.0, at.value.1;
  }

  /**
   * A concatenation inside the padding of the top slice moves the exact end and not the aligned
   * top, so a release does not put the end back. A run that shows it, of a new arena.
   */
  method PaddingIsNotRestored() returns (was: nat, now: nat)
    ensures now == was + 1
  {
    hide Align, AllRead, Grown, Bounded, Distinct, Separate;
    var pool, cache, b, off := OneOctet();
    PaddingExtends();
    assert All(pool.blocks) == {b};
    was, now := MarkGrowRelease(pool, cache, b, off);
  }

  lemma PaddingExtends()
    ensures Align(1) == Align(2) == 16
  {}
}
