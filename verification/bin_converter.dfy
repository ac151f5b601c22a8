/** The schema-driven binary codec (`BinConverter`): `BinMaker` writes an
    object's properties in ascending name order, `ClassMaker` reads them back
    in the same order. A top-level payload starts with the 2-byte version tag;
    a nested record does not. */
module BinConverter {
  import opened Wrappers
  import opened LittleEndian
  import opened Schema
  import opened Values

  /** `BinClassDataConverterVersion`. */
  const Version: int := 8

  /** The exceptions the codec raises, plus `Truncated` for input that ends
      inside a field. */
  datatype CodecError =
    | NotConvertible        // ArgumentException: the type does not implement BinConvertable
    | DuplicateProperty     // ArgumentException from ToDictionary: two properties share a name
    | UnsupportedEnum       // NotSupportedException: enum over sbyte, ushort, uint or ulong
    | ByteListNotSupported  // NotSupportedException: a List<byte> with elements
    | LengthOutOfRange      // ArgumentOutOfRangeException: a byte length above int.MaxValue
    | NullTarget            // reading a property of a null record element
    | InvalidVersion        // InvalidOperationException: the version tag is not 8
    | Truncated             // the input ends inside a field
    | UnsupportedElement    // decoding an array or list whose elements are collections

  type Bytes = seq<Byte>

  /** A decoded value and the input left after it. */
  type Decoded<T> = Result<(T, Bytes), CodecError>

  // ---------------------------------------------------------------------
  // Integral fields
  // ---------------------------------------------------------------------

  /** `BitConverter.GetBytes` of an integral value, cut to its width. */
  function IntBytes(t: IntType, n: int): (r: Bytes)
    requires InRange(t, n)
    ensures |r| == IntWidth(t)
  {
    Pow256Widths();
    var w := IntWidth(t);
    ToLE(if t == UInt8 then n else Unsigned(n, w), w)
  }

  /** `BitConverter.ToInt16/32/64` (or the byte itself for `byte`). */
  function ReadInt(t: IntType, raw: Bytes): (n: int)
    requires |raw| == IntWidth(t)
    ensures InRange(t, n)
  {
    Pow256Widths();
    if t == UInt8 then FromLE(raw) else Signed(FromLE(raw), IntWidth(t))
  }

  lemma ReadIntBytes(t: IntType, n: int)
    requires InRange(t, n)
    ensures ReadInt(t, IntBytes(t, n)) == n
  {
    Pow256Widths();
    var w := IntWidth(t);
    if t == UInt8 {
      FromLEToLE(n, w);
    } else {
      FromLEToLE(Unsigned(n, w), w);
      SignedUnsigned(n, w);
    }
  }

  /** The 2-byte tag that opens every top-level payload: `08 00`. */
  function VersionTag(): (r: Bytes)
    ensures r == [8, 0]
  {
    Pow256Widths();
    IntBytes(Int16, Version)
  }

  // ---------------------------------------------------------------------
  // Encoding
  // ---------------------------------------------------------------------

  /** A string: 4-byte byte count, then the UTF-8 bytes; null and "" are
      both count 0. */
  function StringBytes(s: Option<Bytes>): (r: Result<Bytes, CodecError>)
    ensures r.Success? ==> |r.value| == 4 + |s.GetOr([])|
    ensures r.Failure? <==> |s.GetOr([])| > Int32Max
  {
    var data := s.GetOr([]);
    if |data| == 0 then Success(Int32LE(0))
    else if |data| > Int32Max then Failure(LengthOutOfRange)
    else Success(Int32LE(|data|) + data)
  }

  /** Fields without a length prefix, written the same way at the top of a
      record and inside an array or list. */
  function EncodeLeaf(k: Kind, v: Value): (r: Result<Bytes, CodecError>)
    requires IsLeaf(k) && WellTyped(k, v)
    ensures r.Success? ==> |r.value| >= 1
  {
    match k
    case KInt(t) => Success(IntBytes(t, v.n))
    case KBool => Success(if v.b then [1] else [0])
    case KSingle => Success(v.bytes)
    case KDouble => Success(v.bytes)
    case KDateTime => Success(v.bytes)
    case KGuid => Success(v.bytes)
    case KEnum(base) =>
      if base.Unsupported? then Failure(UnsupportedEnum) else Success(IntBytes(base.t, v.n))
    case KString => StringBytes(v.s)
  }

  /** One property of a record. Arrays and lists write an element count and
      then the elements; a nested record writes its body's byte length and
      then the body; null writes count 0. */
  function EncodeValue(k: Kind, v: Value): (r: Result<Bytes, CodecError>)
    requires WellTyped(k, v)
    ensures r.Success? ==> |r.value| >= 1
    decreases k, 3
  {
    match k
    case KArray(e) =>
      if v.elems.None? then Success(Int32LE(0))
      else
        var body :- EncodeElems(e, v.elems.value, false);
        Success(Int32LE(|v.elems.value|) + body)
    case KList(e) =>
      if v.items.None? then Success(Int32LE(0))
      else
        var body :- EncodeElems(e, v.items.value, true);
        Success(Int32LE(|v.items.value|) + body)
    case KRecord(rt) =>
      if v.fields.None? then Success(Int32LE(0))
      else
        var body :- BinMaker(rt, v.fields, true);
        if |body| > Int32Max then Failure(LengthOutOfRange)
        else Success(Int32LE(|body|) + body)
    case _ => EncodeLeaf(k, v)
  }

  /** The elements of an array (`inList` false) or list (`inList` true), one
      after another. */
  function EncodeElems(e: Kind, xs: seq<Value>, inList: bool): Result<Bytes, CodecError>
    requires forall x | x in xs :: WellTyped(e, x)
    decreases e, 2, |xs|
  {
    if |xs| == 0 then Success([])
    else
      var first :- EncodeElem(e, xs[0], inList);
      var rest :- EncodeElems(e, xs[1..], inList);
      Success(first + rest)
  }

  /** One element of an array or list. A record element is written inline
      with no length prefix. A `byte` element of a list is refused; a
      collection element fails the interface check. */
  function EncodeElem(e: Kind, x: Value, inList: bool): Result<Bytes, CodecError>
    requires WellTyped(e, x)
    decreases e, 1
  {
    if inList && e == KInt(UInt8) then Failure(ByteListNotSupported)
    else
      match e
      case KArray(_) => Failure(NotConvertible)
      case KList(_) => Failure(NotConvertible)
      case KRecord(rt) => BinMaker(rt, x.fields, true)
      case _ => EncodeLeaf(e, x)
  }

  /** `BinMaker(type, object, is_inner)`: checks the interface, sorts the
      properties by name, writes the version tag unless `inner`, then each
      property. A null object has no properties to read: it fails as soon as
      the first property is read. */
  function BinMaker(rt: RecordType, obj: Option<map<string, Value>>, inner: bool): (r: Result<Bytes, CodecError>)
    requires obj.Some? ==> WellTypedFields(rt, obj.value)
    ensures !rt.convertible ==> r == Failure(NotConvertible)
    ensures rt.convertible && !DistinctNames(rt.props) ==> r == Failure(DuplicateProperty)
    ensures obj.None? && rt.convertible && DistinctNames(rt.props) ==>
              r == (if |rt.props| == 0 then Success(if inner then [] else [8, 0]) else Failure(NullTarget))
    ensures r.Success? && !inner ==> |r.value| >= 2 && r.value[..2] == [8, 0]
    decreases KRecord(rt), 0
  {
    if !rt.convertible then Failure(NotConvertible)
    else if !DistinctNames(rt.props) then Failure(DuplicateProperty)
    else
      var header := if inner then [] else VersionTag();
      if obj.None? then
        if |rt.props| == 0 then Success(header) else Failure(NullTarget)
      else
        SameElements(WireOrder(rt.props), rt.props);
        var body :- EncodeFields(rt, WireOrder(rt.props), obj.value);
        Success(header + body)
  }

  /** The properties `fs` of one record object, in the given order. */
  function EncodeFields(rt: RecordType, fs: seq<Property>, m: map<string, Value>): Result<Bytes, CodecError>
    requires WellTypedFields(rt, m)
    requires forall f | f in fs :: f in rt.props
    decreases KRecord(rt), 0, |fs|
  {
    if |fs| == 0 then Success([])
    else
      assert fs[0] in rt.props;
      var first :- EncodeValue(fs[0].kind, m[fs[0].name]);
      var rest :- EncodeFields(rt, fs[1..], m);
      Success(first + rest)
  }

  // ---------------------------------------------------------------------
  // Decoding
  // ---------------------------------------------------------------------

  /** The next `n` bytes of the input. */
  function Take(bs: Bytes, n: nat): (r: Decoded<Bytes>)
    ensures r.Success? <==> n <= |bs|
    ensures r.Success? ==> r.value.0 == bs[..n] && r.value.1 == bs[n..]
  {
    if |bs| < n then Failure(Truncated) else Success((bs[..n], bs[n..]))
  }

  /** A 4-byte signed count or length. */
  function ReadLength(bs: Bytes): (r: Decoded<int>)
    ensures r.Success? <==> |bs| >= 4
    ensures r.Success? ==> r.value.0 == ReadInt32(bs[..4]) && r.value.1 == bs[4..]
  {
    var p :- Take(bs, 4);
    Success((ReadInt32(p.0), p.1))
  }

  function DecodeLeaf(k: Kind, bs: Bytes): (r: Decoded<Value>)
    requires IsLeaf(k)
    ensures r.Success? ==> WellTyped(k, r.value.0)
  {
    match k
    case KInt(t) =>
      var p :- Take(bs, IntWidth(t));
      Success((VInt(ReadInt(t, p.0)), p.1))
    case KBool =>
      var p :- Take(bs, 1);
      Success((VBool(p.0[0] != 0), p.1))
    case KSingle =>
      var p :- Take(bs, BlockWidth(k));
      Success((VBlock(p.0), p.1))
    case KDouble =>
      var p :- Take(bs, BlockWidth(k));
      Success((VBlock(p.0), p.1))
    case KDateTime =>
      var p :- Take(bs, BlockWidth(k));
      Success((VBlock(p.0), p.1))
    case KGuid =>
      var p :- Take(bs, BlockWidth(k));
      Success((VBlock(p.0), p.1))
    case KEnum(base) =>
      if base.Unsupported? then Failure(UnsupportedEnum)
      else
        var p :- Take(bs, IntWidth(base.t));
        Success((VInt(ReadInt(base.t, p.0)), p.1))
    case KString =>
      var p :- ReadLength(bs);
      if p.0 > 0 then
        var q :- Take(p.1, p.0);
        Success((VString(Some(q.0)), q.1))
      else Success((VString(Some([])), p.1))
  }

  /** One property. A count or length of 0 or less gives an empty list for
      a `List<T>` property and null for an array or a nested record. */
  function DecodeValue(k: Kind, bs: Bytes): (r: Decoded<Value>)
    ensures r.Success? ==> WellTyped(k, r.value.0)
    decreases k, 3
  {
    match k
    case KArray(e) =>
      var p :- ReadLength(bs);
      if p.0 > 0 then
        var q :- DecodeElems(e, p.0, p.1, false);
        Success((VArray(Some(q.0)), q.1))
      else Success((VArray(None), p.1))
    case KList(e) =>
      var p :- ReadLength(bs);
      if p.0 > 0 then
        var q :- DecodeElems(e, p.0, p.1, true);
        Success((VList(Some(q.0)), q.1))
      else Success((VList(Some([])), p.1))
    case KRecord(rt) =>
      var p :- ReadLength(bs);
      if p.0 > 0 then
        var q :- ClassMaker(rt, p.1, true);
        Success((VRecord(Some(q.0)), q.1))
      else Success((VRecord(None), p.1))
    case _ => DecodeLeaf(k, bs)
  }

  function DecodeElems(e: Kind, n: nat, bs: Bytes, inList: bool): (r: Decoded<seq<Value>>)
    ensures r.Success? ==> |r.value.0| == n && forall x | x in r.value.0 :: WellTyped(e, x)
    decreases e, 2, n
  {
    if n == 0 then Success(([], bs))
    else
      var p :- DecodeElem(e, bs, inList);
      var q :- DecodeElems(e, n - 1, p.1, inList);
      Success(([p.0] + q.0, q.1))
  }

  /** One element of an array or list: a record element is read inline. */
  function DecodeElem(e: Kind, bs: Bytes, inList: bool): (r: Decoded<Value>)
    ensures r.Success? ==> WellTyped(e, r.value.0)
    decreases e, 1
  {
    if inList && e == KInt(UInt8) then Failure(ByteListNotSupported)
    else
      match e
      case KArray(_) => Failure(UnsupportedElement)
      case KList(_) => Failure(UnsupportedElement)
      case KRecord(rt) =>
        var p :- ClassMaker(rt, bs, true);
        Success((VRecord(Some(p.0)), p.1))
      case _ => DecodeLeaf(e, bs)
  }

  /** Reads the version tag of a top-level payload. */
  function ReadVersion(bs: Bytes): (r: Result<Bytes, CodecError>)
    ensures r.Success? <==> |bs| >= 2 && bs[..2] == VersionTag()
    ensures r.Success? ==> r.value == bs[2..]
  {
    var p :- Take(bs, 2);
    if ReadInt(Int16, p.0) != Version then
      assert p.0 != VersionTag() by {
        if p.0 == VersionTag() { ReadIntBytes(Int16, Version); }
      }
      Failure(InvalidVersion)
    else
      assert p.0 == VersionTag() by {
        Pow256Widths();
        ToLEFromLE(p.0);
      }
      Success(p.1)
  }

  /** `ClassMaker(stream, type, object, is_inner)`: unless `inner`, reads
      and checks the version tag first; then reads every property in
      ascending name order. */
  function ClassMaker(rt: RecordType, bs: Bytes, inner: bool): (r: Decoded<map<string, Value>>)
    ensures !inner && (|bs| < 2 || bs[..2] != [8, 0]) ==> r.Failure?
    ensures !DistinctNames(rt.props) ==> r.Failure?
    ensures r.Success? ==> WellTypedFields(rt, r.value.0)
    decreases KRecord(rt), 0
  {
    var rest :- if inner then Success(bs) else ReadVersion(bs);
    if !DistinctNames(rt.props) then Failure(DuplicateProperty)
    else
      var fs := WireOrder(rt.props);
      WireOrderSorted(rt.props);
      SortedDistinct(fs);
      SameElements(fs, rt.props);
      DecodeFields(rt, fs, rest)
  }

  function DecodeFields(rt: RecordType, fs: seq<Property>, bs: Bytes): (r: Decoded<map<string, Value>>)
    requires forall f | f in fs :: f in rt.props
    ensures r.Success? ==> r.value.0.Keys == Names(fs)
    ensures r.Success? && DistinctNames(fs) ==>
              forall f | f in fs :: WellTyped(f.kind, r.value.0[f.name])
    decreases KRecord(rt), 0, |fs|
  {
    if |fs| == 0 then Success((map[], bs))
    else
      assert fs[0] in rt.props;
      var p :- DecodeValue(fs[0].kind, bs);
      var q :- DecodeFields(rt, fs[1..], p.1);
      var m := q.0[fs[0].name := p.0];
      NamesCons(fs);
      DistinctTail(fs);
      Success((m, q.1))
  }

  // ---------------------------------------------------------------------
  // Public entry points
  // ---------------------------------------------------------------------

  /** `BinConverter.BinMaker<T>(object)`: a top-level payload. */
  function Encode(rt: RecordType, obj: map<string, Value>): (r: Result<Bytes, CodecError>)
    requires WellTypedFields(rt, obj)
    ensures !rt.convertible ==> r == Failure(NotConvertible)
    ensures r.Success? ==> |r.value| >= 2 && r.value[..2] == [8, 0]
  {
    BinMaker(rt, Some(obj), false)
  }

  /** `BinConverter.ClassMaker(type, bytes)`: checks the interface before
      touching the bytes, then decodes a top-level payload. Trailing bytes
      are ignored. */
  function Decode(rt: RecordType, bs: Bytes): (r: Result<map<string, Value>, CodecError>)
    ensures !rt.convertible ==> r == Failure(NotConvertible)
    ensures rt.convertible && (|bs| < 2 || bs[..2] != [8, 0]) ==> r.Failure?
    ensures rt.convertible && |bs| >= 2 && bs[..2] != [8, 0] ==> r == Failure(InvalidVersion)
    ensures r.Success? ==> WellTypedFields(rt, r.value)
  {
    if !rt.convertible then Failure(NotConvertible)
    else
      var p :- ClassMaker(rt, bs, false);
      Success(p.0)
  }
}
