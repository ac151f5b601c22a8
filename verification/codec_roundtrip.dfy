/** What decoding an encoded object gives back. `ClassMaker` inverts
    `BinMaker` up to the normalisation the wire format forces: null strings
    come back as "", a null `List<T>` comes back empty, a null or empty array
    and a null or property-less nested record come back null. */
module CodecRoundTrip {
  import opened Wrappers
  import opened LittleEndian
  import opened Schema
  import opened Values
  import opened BinConverter

  // ---------------------------------------------------------------------
  // Normal forms: what survives a trip through the wire format
  // ---------------------------------------------------------------------

  function NormLeaf(k: Kind, v: Value): Value
    requires IsLeaf(k) && WellTyped(k, v)
  {
    if k.KString? then VString(Some(v.s.GetOr([]))) else v
  }

  /** The normal form of a property value. */
  function NormValue(k: Kind, v: Value): Value
    requires WellTyped(k, v)
    decreases k, 3
  {
    match k
    case KArray(e) =>
      if v.elems.None? || |v.elems.value| == 0 then VArray(None)
      else VArray(Some(NormElems(e, v.elems.value)))
    case KList(e) =>
      if v.items.None? then VList(Some([])) else VList(Some(NormElems(e, v.items.value)))
    case KRecord(rt) =>
      if v.fields.None? || |rt.props| == 0 then VRecord(None)
      else VRecord(Some(NormBody(rt, v.fields)))
    case _ => NormLeaf(k, v)
  }

  function NormElems(e: Kind, xs: seq<Value>): (r: seq<Value>)
    requires forall x | x in xs :: WellTyped(e, x)
    ensures |r| == |xs|
    decreases e, 2, |xs|
  {
    if |xs| == 0 then [] else [NormElem(e, xs[0])] + NormElems(e, xs[1..])
  }

  /** The normal form of an array or list element: a record element is
      never null after decoding. */
  function NormElem(e: Kind, x: Value): Value
    requires WellTyped(e, x)
    decreases e, 1
  {
    match e
    case KRecord(rt) => VRecord(Some(NormBody(rt, x.fields)))
    case KArray(_) => x
    case KList(_) => x
    case _ => NormLeaf(e, x)
  }

  function NormBody(rt: RecordType, obj: Option<map<string, Value>>): map<string, Value>
    requires obj.Some? ==> WellTypedFields(rt, obj.value)
    decreases KRecord(rt), 0
  {
    if obj.None? then map[]
    else
      SameElements(WireOrder(rt.props), rt.props);
      NormFields(rt, WireOrder(rt.props), obj.value)
  }

  function NormFields(rt: RecordType, fs: seq<Property>, m: map<string, Value>): map<string, Value>
    requires WellTypedFields(rt, m)
    requires forall f | f in fs :: f in rt.props
    decreases KRecord(rt), 0, |fs|
  {
    if |fs| == 0 then map[]
    else
      assert fs[0] in rt.props;
      NormFields(rt, fs[1..], m)[fs[0].name := NormValue(fs[0].kind, m[fs[0].name])]
  }

  /** The normal form of a whole record object. */
  function Normalize(rt: RecordType, m: map<string, Value>): map<string, Value>
    requires WellTypedFields(rt, m)
  {
    NormBody(rt, Some(m))
  }

  /** Normalisation works property by property: each property keeps its
      name and is replaced by its own normal form. */
  lemma NormalizeByProperty(rt: RecordType, m: map<string, Value>)
    requires WellTypedFields(rt, m)
    requires DistinctNames(rt.props)
    ensures Normalize(rt, m).Keys == m.Keys
    ensures forall p | p in rt.props :: Normalize(rt, m)[p.name] == NormValue(p.kind, m[p.name])
  {
    var fs := WireOrder(rt.props);
    SameElements(fs, rt.props);
    WireOrderSorted(rt.props);
    SortedDistinct(fs);
    NormFieldsByProperty(rt, fs, m);
  }

  lemma {:induction false} NormFieldsByProperty(rt: RecordType, fs: seq<Property>, m: map<string, Value>)
    requires WellTypedFields(rt, m)
    requires forall f | f in fs :: f in rt.props
    requires DistinctNames(fs)
    ensures NormFields(rt, fs, m).Keys == Names(fs)
    ensures forall f | f in fs :: NormFields(rt, fs, m)[f.name] == NormValue(f.kind, m[f.name])
    decreases |fs|
  {
    if |fs| > 0 {
      DistinctTail(fs);
      NormFieldsByProperty(rt, fs[1..], m);
      NamesCons(fs);
    }
  }

  /** `m2` is the normal form of `m` when it holds the same properties, each
      in its normal form. */
  lemma NormalizeIs(rt: RecordType, m: map<string, Value>, m2: map<string, Value>)
    requires WellTypedFields(rt, m)
    requires DistinctNames(rt.props)
    requires m2.Keys == m.Keys
    requires forall p | p in rt.props :: m2[p.name] == NormValue(p.kind, m[p.name])
    ensures Normalize(rt, m) == m2
  {
    NormalizeByProperty(rt, m);
    var n := Normalize(rt, m);
    forall k | k in n.Keys
      ensures n[k] == m2[k]
    {
      var p :| p in rt.props && p.name == k;
    }
  }

  // ---------------------------------------------------------------------
  // Round trip
  // ---------------------------------------------------------------------

  lemma Int32Prefix(n: int, rest: Bytes)
    requires IsInt32(n)
    ensures ReadLength(Int32LE(n) + rest) == Success((n, rest))
  {
    ReadInt32LE(n);
    assert (Int32LE(n) + rest)[..4] == Int32LE(n);
    assert (Int32LE(n) + rest)[4..] == rest;
  }

  lemma RoundTripLeaf(k: Kind, v: Value, rest: Bytes)
    requires IsLeaf(k) && WellTyped(k, v)
    requires EncodeLeaf(k, v).Success?
    ensures DecodeLeaf(k, EncodeLeaf(k, v).value + rest) == Success((NormLeaf(k, v), rest))
  {
    var enc := EncodeLeaf(k, v).value;
    assert (enc + rest)[..|enc|] == enc && (enc + rest)[|enc|..] == rest;
    match k
    case KInt(t) =>
      ReadIntBytes(t, v.n);
    case KEnum(base) =>
      ReadIntBytes(base.t, v.n);
    case KString =>
      var data := v.s.GetOr([]);
      if |data| == 0 {
        Int32Prefix(0, rest);
      } else {
        assert enc + rest == Int32LE(|data|) + (data + rest);
        Int32Prefix(|data|, data + rest);
        assert (data + rest)[..|data|] == data && (data + rest)[|data|..] == rest;
      }
    case _ =>
  }

  lemma {:induction false} RoundTripValue(k: Kind, v: Value, rest: Bytes)
    requires WellTyped(k, v)
    requires EncodeValue(k, v).Success?
    ensures DecodeValue(k, EncodeValue(k, v).value + rest) == Success((NormValue(k, v), rest))
    decreases k, 3
  {
    match k
    case KArray(e) => RoundTripArray(e, v, rest);
    case KList(e) => RoundTripList(e, v, rest);
    case KRecord(rt) => RoundTripNested(rt, v, rest);
    case _ => RoundTripLeaf(k, v, rest);
  }

  /** `Int32LE(n) + body`, followed by `rest`, reads back as `n` followed by
      `body + rest`. */
  lemma LengthPrefix(n: int, body: Bytes, rest: Bytes)
    requires IsInt32(n)
    ensures ReadLength(Int32LE(n) + body + rest) == Success((n, body + rest))
  {
    assert Int32LE(n) + body + rest == Int32LE(n) + (body + rest);
    Int32Prefix(n, body + rest);
  }

  lemma {:induction false} RoundTripArray(e: Kind, v: Value, rest: Bytes)
    requires WellTyped(KArray(e), v)
    requires EncodeValue(KArray(e), v).Success?
    ensures DecodeValue(KArray(e), EncodeValue(KArray(e), v).value + rest)
            == Success((NormValue(KArray(e), v), rest))
    decreases KArray(e), 2
  {
    if v.elems.None? {
      Int32Prefix(0, rest);
    } else {
      var xs := v.elems.value;
      var body := EncodeElems(e, xs, false).value;
      assert EncodeValue(KArray(e), v).value == Int32LE(|xs|) + body;
      LengthPrefix(|xs|, body, rest);
      if |xs| > 0 {
        RoundTripElems(e, xs, rest, false);
      }
    }
  }

  lemma {:induction false} RoundTripList(e: Kind, v: Value, rest: Bytes)
    requires WellTyped(KList(e), v)
    requires EncodeValue(KList(e), v).Success?
    ensures DecodeValue(KList(e), EncodeValue(KList(e), v).value + rest)
            == Success((NormValue(KList(e), v), rest))
    decreases KList(e), 2
  {
    if v.items.None? {
      Int32Prefix(0, rest);
    } else {
      var xs := v.items.value;
      var body := EncodeElems(e, xs, true).value;
      assert EncodeValue(KList(e), v).value == Int32LE(|xs|) + body;
      LengthPrefix(|xs|, body, rest);
      if |xs| > 0 {
        RoundTripElems(e, xs, rest, true);
      } else {
        assert body + rest == rest;
      }
    }
  }

  lemma {:induction false} RoundTripNested(rt: RecordType, v: Value, rest: Bytes)
    requires WellTyped(KRecord(rt), v)
    requires EncodeValue(KRecord(rt), v).Success?
    ensures DecodeValue(KRecord(rt), EncodeValue(KRecord(rt), v).value + rest)
            == Success((NormValue(KRecord(rt), v), rest))
    decreases KRecord(rt), 2
  {
    if v.fields.None? {
      Int32Prefix(0, rest);
    } else {
      var body := BinMaker(rt, v.fields, true).value;
      assert EncodeValue(KRecord(rt), v).value == Int32LE(|body|) + body;
      LengthPrefix(|body|, body, rest);
      BodyEmptyIffNoProperties(rt, v.fields.value);
      if |body| > 0 {
        RoundTripBody(rt, v.fields, rest, true);
      }
    }
  }

  lemma {:induction false} RoundTripElems(e: Kind, xs: seq<Value>, rest: Bytes, inList: bool)
    requires forall x | x in xs :: WellTyped(e, x)
    requires EncodeElems(e, xs, inList).Success?
    ensures DecodeElems(e, |xs|, EncodeElems(e, xs, inList).value + rest, inList)
            == Success((NormElems(e, xs), rest))
    decreases e, 2, |xs|
  {
    if |xs| > 0 {
      var first := EncodeElem(e, xs[0], inList).value;
      var others := EncodeElems(e, xs[1..], inList).value;
      assert EncodeElems(e, xs, inList).value + rest == first + (others + rest);
      RoundTripElem(e, xs[0], others + rest, inList);
      RoundTripElems(e, xs[1..], rest, inList);
      assert |xs[1..]| == |xs| - 1;
      var bs := first + (others + rest);
      assert DecodeElem(e, bs, inList) == Success((NormElem(e, xs[0]), others + rest));
      assert DecodeElems(e, |xs| - 1, others + rest, inList) == Success((NormElems(e, xs[1..]), rest));
      assert DecodeElems(e, |xs|, bs, inList)
             == Success(([NormElem(e, xs[0])] + NormElems(e, xs[1..]), rest));
    } else {
      assert [] + rest == rest;
    }
  }

  lemma {:induction false} RoundTripElem(e: Kind, x: Value, rest: Bytes, inList: bool)
    requires WellTyped(e, x)
    requires EncodeElem(e, x, inList).Success?
    ensures DecodeElem(e, EncodeElem(e, x, inList).value + rest, inList) == Success((NormElem(e, x), rest))
    decreases e, 1
  {
    match e
    case KRecord(rt) =>
      RoundTripBody(rt, x.fields, rest, true);
    case KArray(_) =>
    case KList(_) =>
    case _ =>
      RoundTripLeaf(e, x, rest);
  }

  lemma {:induction false} RoundTripBody(rt: RecordType, obj: Option<map<string, Value>>, rest: Bytes, inner: bool)
    requires obj.Some? ==> WellTypedFields(rt, obj.value)
    requires BinMaker(rt, obj, inner).Success?
    ensures ClassMaker(rt, BinMaker(rt, obj, inner).value + rest, inner) == Success((NormBody(rt, obj), rest))
    decreases KRecord(rt), 0
  {
    var fs := WireOrder(rt.props);
    var body := BinMakerParts(rt, obj, inner, rest);
    ClassMakerParts(rt, body + rest, inner);
    if obj.Some? {
      RoundTripFields(rt, fs, obj.value, rest);
    } else {
      assert fs == [] && body + rest == rest;
    }
  }

  function Header(inner: bool): Bytes {
    if inner then [] else VersionTag()
  }

  /** A successful `BinMaker` is the header followed by the properties. */
  lemma BinMakerParts(rt: RecordType, obj: Option<map<string, Value>>, inner: bool, rest: Bytes) returns (body: Bytes)
    requires obj.Some? ==> WellTypedFields(rt, obj.value)
    requires BinMaker(rt, obj, inner).Success?
    ensures rt.convertible && DistinctNames(rt.props)
    ensures obj.None? ==> |rt.props| == 0 && body == []
    ensures obj.Some? ==> (forall f | f in WireOrder(rt.props) :: f in rt.props)
                          && EncodeFields(rt, WireOrder(rt.props), obj.value) == Success(body)
    ensures BinMaker(rt, obj, inner).value + rest == Header(inner) + (body + rest)
  {
    SameElements(WireOrder(rt.props), rt.props);
    body := if obj.None? then [] else EncodeFields(rt, WireOrder(rt.props), obj.value).value;
    var enc := BinMaker(rt, obj, inner).value;
    assert enc == Header(inner) + body;
    Concat3(Header(inner), body, rest);
  }

  lemma Concat3(a: Bytes, b: Bytes, c: Bytes)
    ensures (a + b) + c == a + (b + c)
  {
  }

  /** `ClassMaker` reads the version tag (unless `inner`) and then the
      properties in wire order. */
  lemma ClassMakerParts(rt: RecordType, payload: Bytes, inner: bool)
    requires DistinctNames(rt.props)
    ensures forall f | f in WireOrder(rt.props) :: f in rt.props
    ensures ClassMaker(rt, Header(inner) + payload, inner) == DecodeFields(rt, WireOrder(rt.props), payload)
  {
    SameElements(WireOrder(rt.props), rt.props);
    var bs := Header(inner) + payload;
    if inner {
      assert bs == payload;
    } else {
      assert bs[..2] == VersionTag() && bs[2..] == payload;
    }
  }

  lemma {:induction false} RoundTripFields(rt: RecordType, fs: seq<Property>, m: map<string, Value>, rest: Bytes)
    requires WellTypedFields(rt, m)
    requires forall f | f in fs :: f in rt.props
    requires EncodeFields(rt, fs, m).Success?
    ensures DecodeFields(rt, fs, EncodeFields(rt, fs, m).value + rest) == Success((NormFields(rt, fs, m), rest))
    decreases KRecord(rt), 0, |fs|
  {
    if |fs| > 0 {
      assert fs[0] in rt.props;
      var first := EncodeValue(fs[0].kind, m[fs[0].name]).value;
      var others := EncodeFields(rt, fs[1..], m).value;
      assert EncodeFields(rt, fs, m).value + rest == first + (others + rest);
      RoundTripValue(fs[0].kind, m[fs[0].name], others + rest);
      RoundTripFields(rt, fs[1..], m, rest);
      var bs := first + (others + rest);
      var v := NormValue(fs[0].kind, m[fs[0].name]);
      assert DecodeValue(fs[0].kind, bs) == Success((v, others + rest));
      assert DecodeFields(rt, fs[1..], others + rest) == Success((NormFields(rt, fs[1..], m), rest));
      assert DecodeFields(rt, fs, bs) == Success((NormFields(rt, fs[1..], m)[fs[0].name := v], rest));
    } else {
      assert [] + rest == rest;
    }
  }

  /** A nested record's body is empty exactly when its type has no
      properties, which is when decoding it gives null back. */
  lemma BodyEmptyIffNoProperties(rt: RecordType, m: map<string, Value>)
    requires WellTypedFields(rt, m)
    requires BinMaker(rt, Some(m), true).Success?
    ensures |BinMaker(rt, Some(m), true).value| == 0 <==> |rt.props| == 0
  {
    var fs := WireOrder(rt.props);
    SameElements(fs, rt.props);
    if |fs| > 0 {
      assert fs[0] in rt.props;
      assert EncodeFields(rt, fs, m).value
             == EncodeValue(fs[0].kind, m[fs[0].name]).value + EncodeFields(rt, fs[1..], m).value;
    }
  }

  /** Decoding a top-level payload produced by encoding `m` gives back the
      normal form of `m`. */
  lemma DecodeEncode(rt: RecordType, m: map<string, Value>)
    requires WellTypedFields(rt, m)
    requires Encode(rt, m).Success?
    ensures Decode(rt, Encode(rt, m).value) == Success(Normalize(rt, m))
  {
    var bs := Encode(rt, m).value;
    RoundTripBody(rt, Some(m), [], false);
    assert bs + [] == bs;
  }
}
