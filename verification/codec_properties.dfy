/** Facts about the codec's framing: the version tag, the refusals, and
    how a record's encoding is assembled from its properties. */
module CodecProperties {
  import opened Wrappers
  import opened LittleEndian
  import opened Schema
  import opened Values
  import opened BinConverter
  import opened CodecRoundTrip

  // ---------------------------------------------------------------------
  // Version tag
  // ---------------------------------------------------------------------

  /** A top-level encoding is the inner encoding behind the tag `08 00`, and
      the two fail or succeed together. */
  lemma TopLevelIsTaggedInner(rt: RecordType, obj: Option<map<string, Value>>)
    requires obj.Some? ==> WellTypedFields(rt, obj.value)
    ensures BinMaker(rt, obj, false).Success? <==> BinMaker(rt, obj, true).Success?
    ensures BinMaker(rt, obj, false).Success? ==>
              BinMaker(rt, obj, false).value == [8, 0] + BinMaker(rt, obj, true).value
    ensures BinMaker(rt, obj, false).Failure? ==>
              BinMaker(rt, obj, false).error == BinMaker(rt, obj, true).error
  {
    if BinMaker(rt, obj, true).Success? {
      var body := BinMakerParts(rt, obj, true, []);
      var _ := BinMakerParts(rt, obj, false, []);
      assert BinMaker(rt, obj, true).value == body;
    }
  }

  /** A top-level payload whose first two bytes are not `08 00` is refused
      with `InvalidVersion` before any property is read. */
  lemma WrongVersionRejected(rt: RecordType, bs: Bytes)
    requires |bs| >= 2 && bs[..2] != [8, 0]
    ensures ClassMaker(rt, bs, false) == Failure(InvalidVersion)
  {
    Pow256Widths();
    var raw := bs[..2];
    ToLEFromLE(raw);
    assert ReadInt(Int16, raw) != Version;
  }

  // ---------------------------------------------------------------------
  // Refusals
  // ---------------------------------------------------------------------

  /** A type that does not implement `BinConvertable` produces no bytes,
      whatever the object. */
  lemma NotConvertibleRefused(rt: RecordType, obj: Option<map<string, Value>>, inner: bool)
    requires !rt.convertible
    requires obj.Some? ==> WellTypedFields(rt, obj.value)
    ensures BinMaker(rt, obj, inner) == Failure(NotConvertible)
  {
  }

  /** An enum over `sbyte`, `ushort`, `uint` or `ulong` is refused in both
      directions. */
  lemma UnsupportedEnumRefused(v: Value, bs: Bytes)
    requires WellTyped(KEnum(Unsupported), v)
    ensures EncodeValue(KEnum(Unsupported), v) == Failure(UnsupportedEnum)
    ensures DecodeValue(KEnum(Unsupported), bs) == Failure(UnsupportedEnum)
  {
  }

  /** A `List<byte>` with elements is refused; an empty one is written as
      count 0. */
  lemma ByteListRefused(xs: seq<Value>)
    requires WellTyped(KList(KInt(UInt8)), VList(Some(xs)))
    ensures |xs| > 0 ==> EncodeValue(KList(KInt(UInt8)), VList(Some(xs))) == Failure(ByteListNotSupported)
    ensures |xs| == 0 ==> EncodeValue(KList(KInt(UInt8)), VList(Some(xs))) == Success([0, 0, 0, 0])
  {
    if |xs| == 0 {
      SmallInt32LE(0);
      assert EncodeElems(KInt(UInt8), xs, true) == Success([]);
      assert Int32LE(0) + [] == [0, 0, 0, 0];
    }
  }

  /** Decoding a `List<byte>` with a positive count is refused. */
  lemma ByteListDecodeRefused(bs: Bytes)
    requires |bs| >= 4 && ReadInt32(bs[..4]) > 0
    ensures DecodeValue(KList(KInt(UInt8)), bs) == Failure(ByteListNotSupported)
  {
  }

  // ---------------------------------------------------------------------
  // Assembling a record's encoding
  // ---------------------------------------------------------------------

  /** `EncodeFields` over a non-empty list: the first property, then the rest. */
  lemma EncodeFieldsCons(rt: RecordType, fs: seq<Property>, m: map<string, Value>, first: Bytes, others: Bytes)
    requires WellTypedFields(rt, m)
    requires |fs| > 0 && forall f | f in fs :: f in rt.props
    requires fs[0].name in m && WellTyped(fs[0].kind, m[fs[0].name])
    requires EncodeValue(fs[0].kind, m[fs[0].name]) == Success(first)
    requires EncodeFields(rt, fs[1..], m) == Success(others)
    ensures EncodeFields(rt, fs, m) == Success(first + others)
  {
  }

  /** The concatenation of byte strings, in order. */
  function Flatten(parts: seq<Bytes>): (r: Bytes)
    ensures |parts| == 1 ==> r == parts[0]
  {
    if |parts| == 0 then [] else parts[0] + Flatten(parts[1..])
  }

  lemma Flatten2(parts: seq<Bytes>)
    requires |parts| == 2
    ensures Flatten(parts) == parts[0] + parts[1]
  {
    assert parts[1..][1..] == [];
  }

  lemma Flatten3(parts: seq<Bytes>)
    requires |parts| == 3
    ensures Flatten(parts) == parts[0] + parts[1] + parts[2]
  {
    assert parts[2..][1..] == [];
    assert parts[1..][1..] == parts[2..];
  }

  lemma Flatten4(parts: seq<Bytes>)
    requires |parts| == 4
    ensures Flatten(parts) == parts[0] + parts[1] + parts[2] + parts[3]
  {
    var t3 := parts[3..];
    var t2 := parts[2..];
    var t1 := parts[1..];
    assert Flatten(t3) == parts[3];
    assert t2[1..] == t3;
    assert Flatten(t2) == parts[2] + parts[3];
    assert t1[1..] == t2;
    assert Flatten(t1) == parts[1] + (parts[2] + parts[3]);
    assert Flatten(parts) == parts[0] + (parts[1] + (parts[2] + parts[3]));
  }

  /** The properties `fs` encode to their encodings, one after another. */
  lemma {:induction false} EncodeFieldsParts(rt: RecordType, fs: seq<Property>, m: map<string, Value>, parts: seq<Bytes>)
    requires WellTypedFields(rt, m)
    requires forall f | f in fs :: f in rt.props && f.name in m
    requires |parts| == |fs|
    requires forall i | 0 <= i < |fs| :: EncodeValue(fs[i].kind, m[fs[i].name]) == Success(parts[i])
    ensures EncodeFields(rt, fs, m) == Success(Flatten(parts))
    decreases |fs|
  {
    if |fs| > 0 {
      assert EncodeValue(fs[0].kind, m[fs[0].name]) == Success(parts[0]);
      EncodeFieldsParts(rt, fs[1..], m, parts[1..]);
      EncodeFieldsCons(rt, fs, m, parts[0], Flatten(parts[1..]));
    }
  }

  /** A record whose properties encode to `body` encodes to the header
      followed by `body`. */
  lemma BinMakerOf(rt: RecordType, m: map<string, Value>, inner: bool, body: Bytes)
    requires WellTypedFields(rt, m)
    requires rt.convertible && DistinctNames(rt.props)
    requires forall f | f in WireOrder(rt.props) :: f in rt.props
    requires EncodeFields(rt, WireOrder(rt.props), m) == Success(body)
    ensures BinMaker(rt, Some(m), inner) == Success(Header(inner) + body)
  {
  }

  /** `fs` is the name order of `rt`'s properties and `parts` their
      encodings in `m`, in that order. */
  predicate SortedLayout(rt: RecordType, m: map<string, Value>, fs: seq<Property>, parts: seq<Bytes>) {
    && WellTypedFields(rt, m)
    && rt.convertible && DistinctNames(rt.props)
    && SortedByName(fs) && multiset(fs) == multiset(rt.props)
    && (forall f | f in fs :: f in rt.props && f.name in m)
    && |parts| == |fs|
    && forall i | 0 <= i < |fs| :: EncodeValue(fs[i].kind, m[fs[i].name]) == Success(parts[i])
  }

  /** A record encodes to the header followed by its properties' encodings
      in name order. */
  lemma BinMakerSorted(rt: RecordType, m: map<string, Value>, inner: bool, fs: seq<Property>, parts: seq<Bytes>)
    requires SortedLayout(rt, m, fs, parts)
    ensures BinMaker(rt, Some(m), inner) == Success(Header(inner) + Flatten(parts))
  {
    WireOrderIs(rt.props, fs);
    SameElements(fs, rt.props);
    EncodeFieldsParts(rt, fs, m, parts);
    BinMakerOf(rt, m, inner, Flatten(parts));
  }

  lemma EncodeInt(t: IntType, n: int)
    requires InRange(t, n)
    ensures EncodeValue(KInt(t), VInt(n)) == Success(IntBytes(t, n))
  {
  }

  lemma EncodeString(s: Option<Bytes>)
    requires |s.GetOr([])| <= Int32Max
    ensures EncodeValue(KString, VString(s)) == Success(StringBytes(s).value)
  {
  }

  /** A list of records is written record after record, each without its
      length prefix. */
  lemma {:induction false} RecordElemsParts(rt: RecordType, vs: seq<Value>, bodies: seq<Bytes>)
    requires |bodies| == |vs|
    requires forall i | 0 <= i < |vs| ::
               WellTyped(KRecord(rt), vs[i]) && BinMaker(rt, vs[i].fields, true) == Success(bodies[i])
    ensures forall x | x in vs :: WellTyped(KRecord(rt), x)
    ensures EncodeElems(KRecord(rt), vs, true) == Success(Flatten(bodies))
    decreases |vs|
  {
    if |vs| > 0 {
      assert EncodeElem(KRecord(rt), vs[0], true) == Success(bodies[0]);
      RecordElemsParts(rt, vs[1..], bodies[1..]);
    }
  }

  /** A list of records is its count followed by the records' inline bodies;
      a null list is count 0. */
  lemma RecordListLayout(rt: RecordType, items: Option<seq<Value>>, body: Bytes)
    requires WellTyped(KList(KRecord(rt)), VList(items))
    requires items.Some? ==> EncodeElems(KRecord(rt), items.value, true) == Success(body)
    ensures EncodeValue(KList(KRecord(rt)), VList(items))
            == Success(if items.None? then Int32LE(0) else Int32LE(|items.value|) + body)
  {
  }

  /** A nested record is written as its body's length and then the body. */
  lemma RecordFieldLayout(rt: RecordType, fields: map<string, Value>, body: Bytes)
    requires WellTyped(KRecord(rt), VRecord(Some(fields)))
    requires BinMaker(rt, Some(fields), true) == Success(body) && |body| <= Int32Max
    ensures EncodeValue(KRecord(rt), VRecord(Some(fields))) == Success(Int32LE(|body|) + body)
  {
  }

  /** `BinMakerSorted` for a record of three properties. */
  lemma BinMakerSorted3(rt: RecordType, m: map<string, Value>, inner: bool, fs: seq<Property>, a: Bytes, b: Bytes, c: Bytes)
    requires SortedLayout(rt, m, fs, [a, b, c])
    ensures BinMaker(rt, Some(m), inner) == Success(Header(inner) + (a + b + c))
  {
    BinMakerSorted(rt, m, inner, fs, [a, b, c]);
    Flatten3([a, b, c]);
  }

  // ---------------------------------------------------------------------
  // Field framing
  // ---------------------------------------------------------------------

  /** The width of a field written without a prefix: `byte` 1, `short` 2,
      `int` 4, `long` 8, `bool` 1, `float` 4, `double` 8, `DateTime` 8,
      `Guid` 16, an enum the width of its underlying type. */
  function FixedWidth(k: Kind): nat
    requires IsLeaf(k) && !k.KString? && k != KEnum(Unsupported)
  {
    match k
    case KInt(t) => IntWidth(t)
    case KBool => 1
    case KEnum(base) => IntWidth(base.t)
    case KSingle => BlockWidth(k)
    case KDouble => BlockWidth(k)
    case KDateTime => BlockWidth(k)
    case KGuid => BlockWidth(k)
  }

  /** Every value of a fixed-width kind encodes to exactly that many bytes. */
  lemma FixedWidthFields(k: Kind, v: Value)
    requires IsLeaf(k) && !k.KString? && k != KEnum(Unsupported)
    requires WellTyped(k, v)
    ensures EncodeValue(k, v).Success? && |EncodeValue(k, v).value| == FixedWidth(k)
  {
  }

  /** A null or empty string is written as the length 0 alone. */
  lemma EmptyStringFraming(s: Option<Bytes>)
    requires s.GetOr([]) == []
    ensures EncodeValue(KString, VString(s)) == Success([0, 0, 0, 0])
  {
    SmallInt32LE(0);
  }

  /** A string read with a length of 0 or less is the empty string, never
      null, and only the length is consumed. */
  lemma NonPositiveStringLength(n: int, rest: Bytes)
    requires IsInt32(n) && n <= 0
    ensures DecodeValue(KString, Int32LE(n) + rest) == Success((VString(Some([])), rest))
  {
    CodecRoundTrip.Int32Prefix(n, rest);
  }

  /** A null array, list or nested record is written as the count 0 alone. */
  lemma NullFraming(k: Kind)
    requires k.KArray? || k.KList? || k.KRecord?
    ensures k.KArray? ==> EncodeValue(k, VArray(None)) == Success([0, 0, 0, 0])
    ensures k.KList? ==> EncodeValue(k, VList(None)) == Success([0, 0, 0, 0])
    ensures k.KRecord? ==> EncodeValue(k, VRecord(None)) == Success([0, 0, 0, 0])
  {
    SmallInt32LE(0);
  }

  /** A count or length of 0 or less reads back as an empty list for a
      `List<T>` property and as null for an array or a nested record. */
  lemma NonPositivePrefix(k: Kind, n: int, rest: Bytes)
    requires k.KArray? || k.KList? || k.KRecord?
    requires IsInt32(n) && n <= 0
    ensures DecodeValue(k, Int32LE(n) + rest)
            == Success((if k.KList? then VList(Some([])) else if k.KArray? then VArray(None) else VRecord(None), rest))
  {
    CodecRoundTrip.Int32Prefix(n, rest);
  }
}
