/**
 * A table written without metadata: what its reader takes for the number of pairs, and when that
 * happens to be 0. The writer records the metadata slot although nothing was put there, so the slot
 * points at the fields' length word; the reader follows that word as an offset and takes the four
 * octets it comes to, as many octets into the vector as there are columns, for a length.
 */
module ArrowMisread {
  import opened Arith
  import opened ArrowBytes
  import opened ArrowTables
  import opened ArrowBuild
  import opened ArrowSchema
  import opened ArrowMessage

  /** The vector of links to the columns' tables. */
  function LinkVector(cols: seq<Column>): seq<Byte> {
    hide Fields, Vector;
    Vector(Fields([], cols).w, Fields([], cols).ats)
  }

  /** Where the tables stand, from the end. */
  function TablePlaces(cols: seq<Column>): (ats: seq<nat>)
    ensures |ats| == |cols|
  {
    hide Fields;
    Fields([], cols).ats
  }

  /** How far behind its link the i-th table stands: the vector is its length and then the links. */
  function Distance(v: seq<Byte>, ats: seq<nat>, i: nat): int
    requires i < |ats|
  {
    |v| - 4 - 4 * i - ats[i]
  }

  /** When the reader does not notice: there are no columns, or two or three and a distance whose low octets are 0. */
  predicate Unnoticed(cols: seq<Column>) {
    hide LinkVector, TablePlaces;
    || cols == []
    || (|cols| == 2 && Distance(LinkVector(cols), TablePlaces(cols), 0) % 65536 == 0)
    || (|cols| == 3 && Distance(LinkVector(cols), TablePlaces(cols), 0) % 16777216 == 0)
  }

  // The words of a vector of links.

  /** The i-th word of some octets. */
  predicate WordIs(m: seq<Byte>, i: nat, x: int) {
    GetLE(m, 4 * i, 4, false) == Ok(x)
  }

  function Four(a: int, b: int, c: int, d: int): int {
    a + 256 * b + 65536 * c + 16777216 * d
  }

  lemma FourOctets(s: seq<Byte>)
    requires |s| == 4
    ensures Unsigned(s) == Four(s[0], s[1], s[2], s[3])
  {
    assert s[1..][1..] == s[2..] && s[2..][1..] == s[3..] && s[3..][1..] == [];
    assert Unsigned(s[3..]) == s[3] && Unsigned(s[2..]) == s[2] + 256 * Unsigned(s[3..]);
  }

  /** The octets of a word, by their place. */
  lemma WordOctets(m: seq<Byte>, at: nat, x: int)
    requires GetLE(m, at, 4, false) == Ok(x)
    ensures at + 4 <= |m| && x == Four(m[at], m[at + 1], m[at + 2], m[at + 3])
  {
    FourOctets(m[at..at + 4]);
  }

  /** Four octets that start r octets into a word are 0 if and only if its high and the next word's low ones are. */
  lemma AcrossWords(m: seq<Byte>, i: nat, r: nat, x: nat, y: nat)
    requires WordIs(m, i, x) && WordIs(m, i + 1, y) && 0 < r < 4
    ensures GetLE(m, 4 * i + r, 4, false) == Ok(0) <==> x < Shifted(r) && y % Shifted(r) == 0
  {
    hide GetLE, Unsigned;
    WordOctets(m, 4 * i, x);
    WordOctets(m, 4 * i + 4, y);
    Across(m, 4 * i + r);
    hide Four;
    HighOctets(m[4 * i], m[4 * i + 1], m[4 * i + 2], m[4 * i + 3], x);
    LowOctets(m[4 * i + 4], m[4 * i + 5], m[4 * i + 6], m[4 * i + 7], y);
  }

  lemma Across(m: seq<Byte>, at: nat)
    requires at + 4 <= |m|
    ensures GetLE(m, at, 4, false) == Ok(0) <==> m[at] == m[at + 1] == m[at + 2] == m[at + 3] == 0
  {
    FourOctets(m[at..at + 4]);
  }

  /** 256 to the power of 1, 2 or 3. */
  function Shifted(r: nat): nat {
    if r == 1 then 256 else if r == 2 then 65536 else 16777216
  }

  lemma LowOctets(a: Byte, b: Byte, c: Byte, d: Byte, y: int)
    requires y == Four(a, b, c, d)
    ensures y % 256 == 0 <==> a == 0
    ensures y % 65536 == 0 <==> a == b == 0
    ensures y % 16777216 == 0 <==> a == b == c == 0
  {
    DivModUnique(y, 256, b + 256 * c + 65536 * d, a);
    DivModUnique(y, 65536, c + 256 * d, a + 256 * b);
    DivModUnique(y, 16777216, d, a + 256 * b + 65536 * c);
  }

  lemma HighOctets(a: Byte, b: Byte, c: Byte, d: Byte, x: int)
    requires x == Four(a, b, c, d)
    ensures x < 256 <==> b == c == d == 0
    ensures x < 65536 <==> c == d == 0
    ensures x < 16777216 <==> d == 0
  {}

  // A vector of links, whatever it links to.

  /** Its words: how many links, and then each distance. */
  predicate Links(v: seq<Byte>, ats: seq<nat>) {
    && WordIs(v, 0, |ats|)
    && forall i :: 0 <= i < |ats| ==> LinkIs(v, ats, i)
  }

  predicate LinkIs(v: seq<Byte>, ats: seq<nat>, i: nat)
    requires i < |ats|
  {
    WordIs(v, i + 1, Distance(v, ats, i))
  }

  /** The tables stand one in front of another, all within the first n octets. */
  predicate Rising(ats: seq<nat>, n: nat) {
    && (forall i :: 0 <= i < |ats| ==> ats[i] <= n)
    && (forall i, j :: 0 <= i < j < |ats| ==> ats[i] < ats[j])
  }

  lemma NoMultipleBelow(y: int, m: nat)
    requires 0 < y < m
    ensures y % m != 0
  {}

  /** Past three links, what stands that many octets into the vector is never 0: the distances fall. */
  lemma ManyLinks(v: seq<Byte>, ats: seq<nat>, n: nat)
    requires Links(v, ats) && Rising(ats, n) && n + 4 * |ats| + 4 <= |v| && |ats| >= 4
    ensures GetLE(v, |ats|, 4, false) != Ok(0)
  {
    hide GetLE;
    var i, r := |ats| / 4, |ats| % 4;
    assert LinkIs(v, ats, i - 1) && LinkIs(v, ats, i);
    var x, y := Distance(v, ats, i - 1), Distance(v, ats, i);
    assert 0 < y < x;
    if r > 0 {
      AcrossWords(v, i, r, x, y);
      if x < Shifted(r) {
        NoMultipleBelow(y, Shifted(r));
      }
    }
  }

  lemma FewLinks(v: seq<Byte>, ats: seq<nat>, n: nat)
    requires Links(v, ats) && Rising(ats, n) && n + 4 * |ats| + 4 <= |v| && 0 < |ats| < 4
    ensures GetLE(v, |ats|, 4, false) == Ok(0) <==> Distance(v, ats, 0) % Shifted(|ats|) == 0
  {
    hide GetLE;
    assert LinkIs(v, ats, 0);
    AcrossWords(v, 0, |ats|, |ats|, Distance(v, ats, 0));
  }

  // The columns' vector.

  lemma {:induction false} TablesRise(u: seq<Byte>, cols: seq<Column>)
    ensures Rising(EachField(u, cols).ats, |EachField(u, cols).w|)
  {
    hide FieldTable, Ext;
    if cols != [] {
      var (c, rest) := (cols[|cols| - 1], cols[..|cols| - 1]);
      TablesRise(u, rest);
      FieldShape(EachField(u, rest).w, c.name, c.ty);
    }
  }

  lemma VectorLinks(v: seq<Byte>, ats: seq<nat>)
    requires VectorStands(v, |v|, ats)
    ensures Links(v, ats)
  {
    hide GetLE;
    forall i | 0 <= i < |ats| ensures LinkIs(v, ats, i) {
      assert LinkStands(v, |v|, i, ats[i]);
    }
  }

  lemma ColumnsLinked(cols: seq<Column>) returns (n: nat)
    requires Sound(cols, [])
    ensures Links(LinkVector(cols), TablePlaces(cols)) && Rising(TablePlaces(cols), n)
    ensures n + 4 * |cols| + 4 <= |LinkVector(cols)| < n + 4 * |cols| + 8 && n <= NameBytes(cols) + 88 * |cols|
  {
    hide Vector, EachField, FieldsStand, VectorStands, Ext, IsStr, Links, Rising, GetLE, NameBytes;
    EachFieldStands([], cols);
    TablesRise([], cols);
    var f := EachField([], cols);
    FieldsInside(f.w, f.ats, cols);
    VectorIsRead(f.w, f.ats);
    VectorLinks(Vector(f.w, f.ats), f.ats);
    n := |f.w|;
  }

  /** What is misread stands as many octets into the vector as there are columns. */
  lemma MisreadInVector(cols: seq<Column>)
    requires Sound(cols, []) && GetLE(LinkVector(cols), |cols|, 4, false).Ok?
    ensures Misread(cols) == GetLE(LinkVector(cols), |cols|, 4, false)
  {
    hide Fields, Vector, Ref, Close, FieldsStand, KvsStand, VectorStands, Little, Ext, IsStr, GetLE, Sound;
    SchemaPrefix(cols);
    var p := SchemaPartsOf(cols, []);
    assert p.fv == LinkVector(cols);
    ExtSits(p.fv, p.sc.w);
    ExtShorter(p.fv, p.sc.w);
    GetThere(p.fv, p.sc.w, |p.sc.w| - |p.fv|, |cols|, 4, false);
  }

  lemma Inside(v: seq<Byte>, n: nat)
    requires n + 4 <= |v|
    ensures GetLE(v, n, 4, false).Ok?
  {}

  /** Without metadata, 0 pairs are misread if and only if the reader does not notice. */
  lemma MisreadIsNothing(cols: seq<Column>)
    requires Sound(cols, [])
    ensures Misread(cols) == Ok(0) <==> Unnoticed(cols)
  {
    hide GetLE, Misread, Sound, LinkVector, TablePlaces, Links, Rising, Distance;
    if cols == [] {
      NoColumnsNoPairs();
    } else if |cols| == 1 {
      assert cols == [cols[0]];
      OneColumnNoPairs(cols[0]);
    } else {
      var n := ColumnsLinked(cols);
      Inside(LinkVector(cols), |cols|);
      MisreadInVector(cols);
      if |cols| >= 4 {
        ManyLinks(LinkVector(cols), TablePlaces(cols), n);
      } else {
        FewLinks(LinkVector(cols), TablePlaces(cols), n);
      }
    }
  }

  /** A table with columns whose names are short is always noticed. */
  lemma ShortNamesNoticed(cols: seq<Column>)
    requires Sound(cols, []) && cols != [] && NameBytes(cols) + 92 * |cols| < 65000
    ensures !Unnoticed(cols)
  {
    hide Sound, LinkVector, TablePlaces, Links, NameBytes;
    var n := ColumnsLinked(cols);
    assert 0 < Distance(LinkVector(cols), TablePlaces(cols), 0) < 65536;
  }
}
