/** The order of texts: memcmp's, the shorter first on a common prefix.  It is a total
    order, and on well-formed texts it is the order of the characters. */
module TextOrder {
  import opened Utf8

  function MemCmp(a: Text, b: Text): int
    requires |a| == |b|
  {
    if a == [] then 0
    else if a[0] < b[0] then -1
    else if b[0] < a[0] then 1
    else MemCmp(a[1..], b[1..])
  }

  /** m9_utf_cmp. */
  function Cmp(a: Text, b: Text): int {
    var m := if |a| < |b| then |a| else |b|;
    var c := MemCmp(a[..m], b[..m]);
    if c != 0 then c else (if |a| > |b| then 1 else 0) - (if |a| < |b| then 1 else 0)
  }

  lemma CmpStep(a: Text, b: Text)
    requires a != [] && b != []
    ensures Cmp(a, b) == if a[0] < b[0] then -1 else if b[0] < a[0] then 1 else Cmp(a[1..], b[1..])
  {
    var m := if |a| < |b| then |a| else |b|;
    assert a[..m][1..] == a[1..][..m - 1] && b[..m][1..] == b[1..][..m - 1];
  }

  lemma {:induction false} CmpSame(a: Text, b: Text)
    ensures Cmp(a, b) == 0 <==> a == b
    ensures Cmp(b, a) == -Cmp(a, b)
  {
    if a != [] && b != [] {
      CmpStep(a, b);
      CmpStep(b, a);
      CmpSame(a[1..], b[1..]);
      assert a == [a[0]] + a[1..] && b == [b[0]] + b[1..];
    }
  }

  lemma {:induction false} CmpTransitive(a: Text, b: Text, c: Text)
    requires Cmp(a, b) < 0 && Cmp(b, c) < 0
    ensures Cmp(a, c) < 0
  {
    if a != [] && b != [] && c != [] {
      CmpStep(a, b);
      CmpStep(b, c);
      CmpStep(a, c);
      if a[0] == b[0] == c[0] {
        CmpTransitive(a[1..], b[1..], c[1..]);
      }
    }
  }

  lemma {:induction false} CmpPrefix(p: Text, a: Text, b: Text)
    ensures Cmp(p + a, p + b) == Cmp(a, b)
  {
    if p == [] {
      assert p + a == a && p + b == b;
    } else {
      CmpStep(p + a, p + b);
      assert (p + a)[1..] == p[1..] + a && (p + b)[1..] == p[1..] + b;
      CmpPrefix(p[1..], a, b);
    }
  }

  predicate Below(c: Char32, d: Char32) {
    c < d
  }

  /** The order of sequences of characters by their code points. */
  function CharCmp(a: seq<Char32>, b: seq<Char32>): int {
    if a == [] || b == [] then (if |a| > |b| then 1 else 0) - (if |a| < |b| then 1 else 0)
    else if Below(a[0], b[0]) then -1
    else if Below(b[0], a[0]) then 1
    else CharCmp(a[1..], b[1..])
  }

  lemma LeadsOrdered(c: Char32, d: Char32)
    requires IsScalar(c) && IsScalar(d) && c < d && EncLen(c) != EncLen(d)
    ensures Put(c)[0] < Put(d)[0]
  {}

  // The six-bit fields a character is cut into decide as the character does.

  lemma Fields3(c: bv32, d: bv32)
    requires c < d < 0x10000
    ensures var (h, m, l) := (c >> 12, (c >> 6) & 0x3F, c & 0x3F);
            var (h', m', l') := (d >> 12, (d >> 6) & 0x3F, d & 0x3F);
            h < h' || (h == h' && (m < m' || (m == m' && l < l')))
  {}

  lemma Fields4(c: bv32, d: bv32)
    requires c < d < 0x200000
    ensures c >> 18 < d >> 18
            || (c >> 18 == d >> 18 && c & 0x3FFFF < d & 0x3FFFF)
  {}

  lemma Fields3Of4(c: bv32, d: bv32)
    requires c & 0x3FFFF < d & 0x3FFFF
    ensures var (h, m, l) := ((c >> 12) & 0x3F, (c >> 6) & 0x3F, c & 0x3F);
            var (h', m', l') := ((d >> 12) & 0x3F, (d >> 6) & 0x3F, d & 0x3F);
            h < h' || (h == h' && (m < m' || (m == m' && l < l')))
  {}

  lemma TailOrder(x: bv32, y: bv32)
    requires x < 0x40 && y < 0x40
    ensures Low8(0x80 | x) < Low8(0x80 | y) <==> x < y
  {}

  lemma Lead3Order(c: Char32, d: Char32)
    requires c < 0x10000 && d < 0x10000
    ensures Lead3(c) < Lead3(d) <==> c >> 12 < d >> 12
  {}

  lemma Lead4Order(c: Char32, d: Char32)
    requires c < 0x200000 && d < 0x200000
    ensures Lead4(c) < Lead4(d) <==> c >> 18 < d >> 18
  {}

  lemma Masked(x: bv32)
    ensures x & 0x3F < 0x40
  {}

  lemma TailsOrder(c: Char32, d: Char32)
    ensures Tail0(c) < Tail0(d) <==> c & 0x3F < d & 0x3F
    ensures Tail1(c) < Tail1(d) <==> (c >> 6) & 0x3F < (d >> 6) & 0x3F
    ensures Tail2(c) < Tail2(d) <==> (c >> 12) & 0x3F < (d >> 12) & 0x3F
  {
    Masked(c);
    Masked(d);
    Masked(c >> 6);
    Masked(d >> 6);
    Masked(c >> 12);
    Masked(d >> 12);
    TailOrder(c & 0x3F, d & 0x3F);
    TailOrder((c >> 6) & 0x3F, (d >> 6) & 0x3F);
    TailOrder((c >> 12) & 0x3F, (d >> 12) & 0x3F);
  }

  lemma Ordered2(c: Char32, d: Char32)
    requires 0x80 <= c < d < 0x800
    ensures Lead2(c) < Lead2(d) || (Lead2(c) == Lead2(d) && Tail0(c) < Tail0(d))
  {}

  lemma Ordered3(c: Char32, d: Char32)
    requires 0x800 <= c < d < 0x10000
    ensures !(Lead3(d) < Lead3(c))
    ensures !(Lead3(c) < Lead3(d)) ==> !(Tail1(d) < Tail1(c))
    ensures !(Lead3(c) < Lead3(d)) && !(Tail1(c) < Tail1(d)) ==> Tail0(c) < Tail0(d)
  {
    hide Lead3, Tail1, Tail0, Low8;
    Fields3(c, d);
    Lead3Order(c, d);
    Lead3Order(d, c);
    TailsOrder(c, d);
    TailsOrder(d, c);
  }

  lemma Ordered4(c: Char32, d: Char32)
    requires 0x10000 <= c < d <= 0x10FFFF
    ensures !(Lead4(d) < Lead4(c))
    ensures !(Lead4(c) < Lead4(d)) ==> !(Tail2(d) < Tail2(c))
    ensures !(Lead4(c) < Lead4(d)) && !(Tail2(c) < Tail2(d)) ==> !(Tail1(d) < Tail1(c))
    ensures !(Lead4(c) < Lead4(d)) && !(Tail2(c) < Tail2(d)) && !(Tail1(c) < Tail1(d)) ==> Tail0(c) < Tail0(d)
  {
    hide Lead4, Tail2, Tail1, Tail0, Low8;
    Fields4(c, d);
    Lead4Order(c, d);
    Lead4Order(d, c);
    TailsOrder(c, d);
    TailsOrder(d, c);
    if !(Lead4(c) < Lead4(d)) {
      Fields3Of4(c, d);
    }
  }

  lemma MemCmpStep(a: Octet, b: Octet, p: Text, q: Text)
    requires |p| == |q|
    ensures MemCmp([a] + p, [b] + q) == if a < b then -1 else if b < a then 1 else MemCmp(p, q)
  {
    assert ([a] + p)[1..] == p && ([b] + q)[1..] == q;
  }

  lemma MemCmpEmpty()
    ensures MemCmp([], []) == 0
  {}

  lemma MemCmp4(a: Octet, b: Octet, c: Octet, d: Octet, a': Octet, b': Octet, c': Octet, d': Octet)
    ensures MemCmp([d], [d']) == if d < d' then -1 else if d' < d then 1 else 0
    ensures MemCmp([c, d], [c', d']) == if c < c' then -1 else if c' < c then 1 else MemCmp([d], [d'])
    ensures MemCmp([b, c, d], [b', c', d'])
            == if b < b' then -1 else if b' < b then 1 else MemCmp([c, d], [c', d'])
    ensures MemCmp([a, b, c, d], [a', b', c', d'])
            == if a < a' then -1 else if a' < a then 1 else MemCmp([b, c, d], [b', c', d'])
  {
    hide *;
    MemCmpEmpty();
    MemCmpStep(d, d', [], []);
    MemCmpStep(c, c', [d], [d']);
    MemCmpStep(b, b', [c, d], [c', d']);
    MemCmpStep(a, a', [b, c, d], [b', c', d']);
    assert [d] + [] == [d] && [c] + [d] == [c, d] && [b] + [c, d] == [b, c, d] && [a] + [b, c, d] == [a, b, c, d];
    assert [d'] + [] == [d'] && [c'] + [d'] == [c', d'] && [b'] + [c', d'] == [b', c', d']
           && [a'] + [b', c', d'] == [a', b', c', d'];
  }

  lemma Differ2(c: Char32, d: Char32)
    requires 0x80 <= c < d < 0x800
    ensures MemCmp([Lead2(c), Tail0(c)], [Lead2(d), Tail0(d)]) == -1
  {
    hide *;
    Ordered2(c, d);
    MemCmp4(0, 0, Lead2(c), Tail0(c), 0, 0, Lead2(d), Tail0(d));
  }

  lemma Differ3(c: Char32, d: Char32)
    requires 0x800 <= c < d < 0x10000
    ensures MemCmp([Lead3(c), Tail1(c), Tail0(c)], [Lead3(d), Tail1(d), Tail0(d)]) == -1
  {
    hide *;
    Ordered3(c, d);
    MemCmp4(0, Lead3(c), Tail1(c), Tail0(c), 0, Lead3(d), Tail1(d), Tail0(d));
  }

  lemma FourOctets(a: Octet, b: Octet, c: Octet, d: Octet, a': Octet, b': Octet, c': Octet, d': Octet)
    requires !(a' < a)
    requires !(a < a') ==> !(b' < b)
    requires !(a < a') && !(b < b') ==> !(c' < c)
    requires !(a < a') && !(b < b') && !(c < c') ==> d < d'
    ensures MemCmp([a, b, c, d], [a', b', c', d']) == -1
  {
    hide *;
    MemCmp4(a, b, c, d, a', b', c', d');
  }

  lemma Differ4(c: Char32, d: Char32)
    requires 0x10000 <= c < d <= 0x10FFFF
    ensures MemCmp([Lead4(c), Tail2(c), Tail1(c), Tail0(c)], [Lead4(d), Tail2(d), Tail1(d), Tail0(d)]) == -1
  {
    hide *;
    Ordered4(c, d);
    FourOctets(Lead4(c), Tail2(c), Tail1(c), Tail0(c), Lead4(d), Tail2(d), Tail1(d), Tail0(d));
  }

  lemma PutsDiffer(c: Char32, d: Char32)
    requires IsScalar(c) && IsScalar(d) && c < d && EncLen(c) == EncLen(d)
    ensures MemCmp(Put(c), Put(d)) == -1
  {
    hide MemCmp, Low8, Tail0, Tail1, Tail2, Lead2, Lead3, Lead4;
    if c < 0x80 {
      SingleOctets(c, d);
    } else if c < 0x800 {
      Differ2(c, d);
    } else if c < 0x10000 {
      Differ3(c, d);
    } else {
      Differ4(c, d);
    }
  }

  lemma SingleOctets(c: Char32, d: Char32)
    requires c < d < 0x80
    ensures MemCmp([Low8(c)], [Low8(d)]) == -1
  {
    assert Low8(c) < Low8(d);
  }

  lemma {:induction false} DifferenceDecides(p: Text, q: Text, x: Text, y: Text)
    requires |p| == |q| && MemCmp(p, q) == -1
    ensures Cmp(p + x, q + y) == -1
  {
    CmpStep(p + x, q + y);
    assert (p + x)[1..] == p[1..] + x && (q + y)[1..] == q[1..] + y;
    if p[0] == q[0] {
      DifferenceDecides(p[1..], q[1..], x, y);
    }
  }

  /** Whatever follows two different characters, their encodings decide. */
  lemma PutsOrdered(c: Char32, d: Char32, x: Text, y: Text)
    requires IsScalar(c) && IsScalar(d) && Below(c, d)
    ensures Cmp(Put(c) + x, Put(d) + y) == -1
  {
    if EncLen(c) == EncLen(d) {
      PutsDiffer(c, d);
      DifferenceDecides(Put(c), Put(d), x, y);
    } else {
      LeadsOrdered(c, d);
      CmpStep(Put(c) + x, Put(d) + y);
    }
  }

  function Glue(a: bv32, b: bv32, c: bv32, d: bv32): bv32 {
    (a << 24) | (b << 16) | (c << 8) | d
  }

  lemma Glued(c: Char32)
    ensures c == Glue(c >> 24, (c >> 16) & 0xFF, (c >> 8) & 0xFF, c & 0xFF)
  {}

  lemma SameHigh(c: Char32, d: Char32)
    requires !(c < d) && !(d < c)
    ensures c >> 24 == d >> 24
    ensures (c >> 16) & 0xFF == (d >> 16) & 0xFF
  {}

  lemma SameLow(c: Char32, d: Char32)
    requires !(c < d) && !(d < c)
    ensures (c >> 8) & 0xFF == (d >> 8) & 0xFF
    ensures c & 0xFF == d & 0xFF
  {}

  lemma Trichotomy(c: Char32, d: Char32) returns (order: int)
    ensures order < 0 ==> Below(c, d)
    ensures order > 0 ==> Below(d, c) && !Below(c, d)
    ensures order == 0 ==> c == d && !Below(c, d) && !Below(d, c)
  {
    if c < d {
      order := -1;
    } else if d < c {
      order := 1;
    } else {
      order := 0;
      SameHigh(c, d);
      SameLow(c, d);
      Glued(c);
      Glued(d);
    }
  }

  lemma EmptyOrder(a: seq<Char32>, b: seq<Char32>)
    requires a == [] || b == []
    ensures Cmp(Encode(a), Encode(b)) == CharCmp(a, b)
  {
    assert |Encode(a)| == 0 <==> a == [];
    assert |Encode(b)| == 0 <==> b == [];
  }

  lemma OrderBelow(a: seq<Char32>, b: seq<Char32>)
    requires a != [] && b != [] && IsScalar(a[0]) && IsScalar(b[0]) && Below(a[0], b[0])
    ensures Cmp(Encode(a), Encode(b)) == -1 && CharCmp(a, b) == -1
  {
    hide Put, Cmp, EncLen, IsScalar, Below;
    PutsOrdered(a[0], b[0], Encode(a[1..]), Encode(b[1..]));
  }

  lemma OrderAbove(a: seq<Char32>, b: seq<Char32>)
    requires a != [] && b != [] && IsScalar(a[0]) && IsScalar(b[0]) && Below(b[0], a[0]) && !Below(a[0], b[0])
    ensures Cmp(Encode(a), Encode(b)) == 1 && CharCmp(a, b) == 1
  {
    hide Put, Cmp, EncLen, IsScalar, Encode, Below;
    OrderBelow(b, a);
    CmpSame(Encode(b), Encode(a));
  }

  lemma OrderSame(a: seq<Char32>, b: seq<Char32>)
    requires a != [] && b != [] && a[0] == b[0] && !Below(a[0], b[0]) && !Below(b[0], a[0])
    ensures Cmp(Encode(a), Encode(b)) == Cmp(Encode(a[1..]), Encode(b[1..]))
    ensures CharCmp(a, b) == CharCmp(a[1..], b[1..])
  {
    hide Put, Cmp, EncLen, Below;
    CmpPrefix(Put(a[0]), Encode(a[1..]), Encode(b[1..]));
  }

  lemma TailScalar(a: seq<Char32>)
    requires AllScalar(a) && a != []
    ensures IsScalar(a[0]) && AllScalar(a[1..])
  {}

  /** The octets' order is the characters'. */
  lemma {:induction false} OctetOrderIsCharOrder(a: seq<Char32>, b: seq<Char32>)
    requires AllScalar(a) && AllScalar(b)
    ensures Cmp(Encode(a), Encode(b)) == CharCmp(a, b)
  {
    hide *;
    if a == [] || b == [] {
      EmptyOrder(a, b);
      return;
    }
    TailScalar(a);
    TailScalar(b);
    var order := Trichotomy(a[0], b[0]);
    if order == 0 {
      OrderSame(a, b);
      OctetOrderIsCharOrder(a[1..], b[1..]);
    } else if order < 0 {
      OrderBelow(a, b);
    } else {
      OrderAbove(a, b);
    }
  }
}
