/** The types the binary codec understands, described explicitly instead of
    discovered by reflection, and the order in which a record's properties
    travel on the wire. */
module Schema {

  /** The integral property types: `byte` (unsigned) and `short`, `int`,
      `long` (signed). */
  datatype IntType = UInt8 | Int16 | Int32 | Int64

  /** The underlying type of an enum. Only the four integral types above are
      accepted; `sbyte`, `ushort`, `uint` and `ulong` are `Unsupported`. */
  datatype EnumBase = Supported(t: IntType) | Unsupported

  /** The type of one property. `Single`, `Double`, `DateTime` and `Guid` are
      opaque fixed-width blocks. A type the codec has no branch for (a `char`,
      a `decimal`, a class) lands in the nested-record branch, so it is a
      `KRecord` whose record type is not `convertible`. */
  datatype Kind =
    | KInt(t: IntType)
    | KBool
    | KSingle
    | KDouble
    | KDateTime
    | KGuid
    | KEnum(base: EnumBase)
    | KString
    | KArray(elem: Kind)
    | KList(elem: Kind)
    | KRecord(rt: RecordType)

  /** A record type: whether it implements `BinConvertable`, and its public
      properties in declaration order. */
  datatype RecordType = RecordType(name: string, convertible: bool, props: seq<Property>)

  datatype Property = Property(name: string, kind: Kind)

  /** Byte width of an integral type. */
  function IntWidth(t: IntType): nat {
    match t
    case UInt8 => 1
    case Int16 => 2
    case Int32 => 4
    case Int64 => 8
  }

  /** Byte width of an opaque block kind (`Single`, `Double`, `DateTime`, `Guid`). */
  function BlockWidth(k: Kind): nat
    requires k.KSingle? || k.KDouble? || k.KDateTime? || k.KGuid?
  {
    match k
    case KSingle => 4
    case KDouble => 8
    case KDateTime => 8
    case KGuid => 16
  }

  /** Kinds written without a length prefix and identically inside and
      outside a collection. */
  predicate IsLeaf(k: Kind) {
    !(k.KArray? || k.KList? || k.KRecord?)
  }

  // ---------------------------------------------------------------------
  // Property-name order
  // ---------------------------------------------------------------------

  /** Strict lexicographic order on names, comparing characters by code. */
  predicate NameLess(a: string, b: string) {
    if |a| == 0 then |b| > 0
    else if |b| == 0 then false
    else a[0] < b[0] || (a[0] == b[0] && NameLess(a[1..], b[1..]))
  }

  lemma {:induction false} NameLessIrreflexive(a: string)
    ensures !NameLess(a, a)
  {
    if |a| > 0 {
      NameLessIrreflexive(a[1..]);
    }
  }

  lemma {:induction false} NameLessTransitive(a: string, b: string, c: string)
    requires NameLess(a, b) && NameLess(b, c)
    ensures NameLess(a, c)
  {
    if |a| > 0 && |b| > 0 && |c| > 0 && a[0] == b[0] == c[0] {
      NameLessTransitive(a[1..], b[1..], c[1..]);
    }
  }

  lemma {:induction false} NameLessTotal(a: string, b: string)
    ensures a == b || NameLess(a, b) || NameLess(b, a)
  {
    if |a| > 0 && |b| > 0 && a[0] == b[0] {
      NameLessTotal(a[1..], b[1..]);
      if a[1..] == b[1..] {
        assert a == [a[0]] + a[1..] && b == [b[0]] + b[1..];
      }
    }
  }

  lemma {:induction false} NameLessAsymmetric(a: string, b: string)
    requires NameLess(a, b)
    ensures !NameLess(b, a)
  {
    if |a| > 0 && |b| > 0 && a[0] == b[0] {
      NameLessAsymmetric(a[1..], b[1..]);
    }
  }

  // ---------------------------------------------------------------------
  // Wire order: the iteration order of SortedDictionary<string, PropertyInfo>
  // ---------------------------------------------------------------------

  /** No two properties share a name (otherwise `ToDictionary` throws). */
  predicate DistinctNames(ps: seq<Property>) {
    forall i, j :: 0 <= i < j < |ps| ==> ps[i].name != ps[j].name
  }

  /** Properties in strictly increasing name order. */
  predicate SortedByName(ps: seq<Property>) {
    forall i, j :: 0 <= i < j < |ps| ==> NameLess(ps[i].name, ps[j].name)
  }

  function Names(ps: seq<Property>): set<string> {
    set p | p in ps :: p.name
  }

  /** Inserts `p` into a name-sorted sequence. */
  function Insert(p: Property, sorted: seq<Property>): (r: seq<Property>)
    ensures multiset(r) == multiset(sorted) + multiset{p}
  {
    if |sorted| == 0 then [p]
    else if NameLess(p.name, sorted[0].name) then [p] + sorted
    else
      assert sorted == [sorted[0]] + sorted[1..];
      [sorted[0]] + Insert(p, sorted[1..])
  }

  lemma {:induction false} InsertSorted(p: Property, sorted: seq<Property>)
    requires SortedByName(sorted)
    requires forall q :: q in sorted ==> q.name != p.name
    ensures SortedByName(Insert(p, sorted))
  {
    if |sorted| > 0 && !NameLess(p.name, sorted[0].name) {
      NameLessTotal(p.name, sorted[0].name);
      InsertSorted(p, sorted[1..]);
      var r := Insert(p, sorted);
      var tail := Insert(p, sorted[1..]);
      assert r == [sorted[0]] + tail;
      forall j | 0 < j < |r|
        ensures NameLess(r[0].name, r[j].name)
      {
        assert r[j] in multiset(tail);
        if r[j] == p {
        } else {
          assert r[j] in sorted[1..];
          var k :| 0 <= k < |sorted[1..]| && sorted[1..][k] == r[j];
          assert sorted[k + 1] == r[j];
        }
      }
    } else if |sorted| > 0 {
      var r := Insert(p, sorted);
      forall i, j | 0 <= i < j < |r|
        ensures NameLess(r[i].name, r[j].name)
      {
        if i == 0 && j > 1 {
          NameLessTransitive(p.name, sorted[0].name, sorted[j - 1].name);
        }
      }
    }
  }

  /** The order in which encode and decode visit a record's properties:
      ascending by name, whatever the declaration order. */
  function WireOrder(ps: seq<Property>): (r: seq<Property>)
    ensures multiset(r) == multiset(ps)
    ensures |r| == |ps|
  {
    if |ps| == 0 then []
    else
      assert ps == [ps[0]] + ps[1..];
      Insert(ps[0], WireOrder(ps[1..]))
  }

  lemma {:induction false} SameElements(a: seq<Property>, b: seq<Property>)
    requires multiset(a) == multiset(b)
    ensures forall p :: p in a <==> p in b
    ensures Names(a) == Names(b)
  {
    forall p
      ensures p in a <==> p in b
    {
      assert p in a <==> p in multiset(a);
      assert p in b <==> p in multiset(b);
    }
  }

  lemma {:induction false} WireOrderSorted(ps: seq<Property>)
    requires DistinctNames(ps)
    ensures SortedByName(WireOrder(ps))
  {
    if |ps| > 0 {
      assert DistinctNames(ps[1..]);
      WireOrderSorted(ps[1..]);
      var rest := WireOrder(ps[1..]);
      SameElements(rest, ps[1..]);
      forall q | q in rest
        ensures q.name != ps[0].name
      {
        var k :| 0 <= k < |ps[1..]| && ps[1..][k] == q;
        assert ps[k + 1] == q;
      }
      InsertSorted(ps[0], rest);
    }
  }

  /** A strictly sorted sequence has no repeated name. */
  lemma SortedDistinct(ps: seq<Property>)
    requires SortedByName(ps)
    ensures DistinctNames(ps)
  {
    forall i, j | 0 <= i < j < |ps|
      ensures ps[i].name != ps[j].name
    {
      if ps[i].name == ps[j].name {
        NameLessIrreflexive(ps[i].name);
      }
    }
  }

  /** The first entry of a name-sorted sequence precedes every other entry. */
  lemma SortedHeadLeast(a: seq<Property>, x: Property)
    requires SortedByName(a) && |a| > 0
    requires x in a && x != a[0]
    ensures NameLess(a[0].name, x.name)
  {
    var i :| 0 <= i < |a| && a[i] == x;
  }

  /** Taking the first entry off both sides of a multiset equality. */
  lemma SameTails(a: seq<Property>, b: seq<Property>)
    requires |a| > 0 && |b| > 0 && a[0] == b[0]
    requires multiset(a) == multiset(b)
    ensures multiset(a[1..]) == multiset(b[1..])
  {
    assert a == [a[0]] + a[1..];
    assert b == [b[0]] + b[1..];
    assert multiset(a) == multiset{a[0]} + multiset(a[1..]);
    assert multiset(b) == multiset{b[0]} + multiset(b[1..]);
    forall y
      ensures multiset(a[1..])[y] == multiset(b[1..])[y]
    {
      assert multiset(a)[y] == multiset{a[0]}[y] + multiset(a[1..])[y];
      assert multiset(b)[y] == multiset{b[0]}[y] + multiset(b[1..])[y];
    }
  }

  /** Two name-sorted arrangements of the same properties are identical. */
  lemma {:induction false} SortedUnique(a: seq<Property>, b: seq<Property>)
    requires SortedByName(a) && SortedByName(b)
    requires multiset(a) == multiset(b)
    ensures a == b
    decreases |a|
  {
    assert |a| == |multiset(a)| == |multiset(b)| == |b|;
    if |a| > 0 {
      assert a[0] in multiset(b) && b[0] in multiset(a) by {
        assert a[0] in multiset(a) && b[0] in multiset(b);
      }
      if a[0] != b[0] {
        SortedHeadLeast(a, b[0]);
        SortedHeadLeast(b, a[0]);
        NameLessAsymmetric(a[0].name, b[0].name);
      }
      SameTails(a, b);
      SortedUnique(a[1..], b[1..]);
      assert a == [a[0]] + a[1..] && b == [b[0]] + b[1..];
    }
  }

  /** The names of a non-empty sequence: its head's and its tail's. */
  lemma NamesCons(fs: seq<Property>)
    requires |fs| > 0
    ensures Names(fs) == {fs[0].name} + Names(fs[1..])
  {
    assert fs == [fs[0]] + fs[1..];
  }

  /** A sequence with distinct names has a tail with distinct names, none
      of which is the head's. */
  lemma DistinctTail(fs: seq<Property>)
    requires |fs| > 0
    ensures DistinctNames(fs) ==> DistinctNames(fs[1..])
    ensures DistinctNames(fs) ==> forall f | f in fs[1..] :: f.name != fs[0].name
  {
    if DistinctNames(fs) {
      forall f | f in fs[1..]
        ensures f.name != fs[0].name
      {
        var j :| 0 <= j < |fs[1..]| && fs[1..][j] == f;
        assert fs[j + 1] == f;
      }
    }
  }

  /** Field order depends only on which properties a type has: reordering
      the declarations does not change the wire layout. */
  lemma WireOrderCanonical(a: seq<Property>, b: seq<Property>)
    requires DistinctNames(a)
    requires multiset(a) == multiset(b)
    ensures WireOrder(a) == WireOrder(b)
  {
    WireOrderSorted(a);
    assert DistinctNames(b) by {
      WireOrderSorted(a);
      SortedDistinct(WireOrder(a));
      forall i, j | 0 <= i < j < |b|
        ensures b[i].name != b[j].name
      {
        if b[i].name == b[j].name {
          assert b[i] in multiset(a) && b[j] in multiset(a);
          // b[i] and b[j] are either the same property twice or two
          // properties with one name; both contradict DistinctNames(a).
          DuplicateName(a, b, i, j);
        }
      }
    }
    WireOrderSorted(b);
    SortedUnique(WireOrder(a), WireOrder(b));
  }

  /** The wire order of `ps` is the name-sorted arrangement of its properties. */
  lemma WireOrderIs(ps: seq<Property>, sorted: seq<Property>)
    requires DistinctNames(ps)
    requires SortedByName(sorted)
    requires multiset(ps) == multiset(sorted)
    ensures WireOrder(ps) == sorted
  {
    WireOrderSorted(ps);
    SortedUnique(WireOrder(ps), sorted);
  }

  lemma {:induction false} DistinctOnce(a: seq<Property>, x: Property)
    requires DistinctNames(a)
    ensures multiset(a)[x] <= 1
  {
    if |a| > 0 {
      assert DistinctNames(a[1..]);
      DistinctOnce(a[1..], x);
      assert a == [a[0]] + a[1..];
      if a[0] == x {
        assert x !in a[1..] by {
          forall k | 0 <= k < |a[1..]| ensures a[1..][k] != x {
            assert a[k + 1].name != a[0].name;
          }
        }
      }
    }
  }

  lemma DuplicateName(a: seq<Property>, b: seq<Property>, i: int, j: int)
    requires DistinctNames(a)
    requires multiset(a) == multiset(b)
    requires 0 <= i < j < |b|
    ensures b[i].name != b[j].name
  {
    if b[i] == b[j] {
      assert b == b[..j] + b[j..];
      assert b[i] in multiset(b[..j]) && b[j] in multiset(b[j..]);
      assert multiset(b)[b[i]] == multiset(b[..j])[b[i]] + multiset(b[j..])[b[i]];
      DistinctOnce(a, b[i]);
    } else {
      assert b[i] in multiset(a) && b[j] in multiset(a);
    }
  }
}
