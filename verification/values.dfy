/** The objects the codec reads and writes: a tree of property values, and
    the typing relation a C# object of a given type always satisfies. */
module Values {
  import opened Wrappers
  import opened LittleEndian
  import opened Schema

  /** A property value. Strings are held as their UTF-8 bytes. Every
      reference-typed value can be null (`None`). A record is the map from
      property name to value. */
  datatype Value =
    | VInt(n: int)
    | VBool(b: bool)
    | VBlock(bytes: seq<Byte>)
    | VString(s: Option<seq<Byte>>)
    | VArray(elems: Option<seq<Value>>)
    | VList(items: Option<seq<Value>>)
    | VRecord(fields: Option<map<string, Value>>)

  const Int32Min: int := -0x8000_0000
  const Int32Max: int := 0x7FFF_FFFF

  predicate IsInt32(n: int) {
    Int32Min <= n <= Int32Max
  }

  /** The values a property of integral type `t` can hold. */
  predicate InRange(t: IntType, n: int) {
    match t
    case UInt8 => 0 <= n < 0x100
    case Int16 => -0x8000 <= n < 0x8000
    case Int32 => IsInt32(n)
    case Int64 => -0x8000_0000_0000_0000 <= n < 0x8000_0000_0000_0000
  }

  /** `v` is a value a property of kind `k` can hold. A .NET array or list
      never has more than `int.MaxValue` elements. */
  predicate WellTyped(k: Kind, v: Value)
    decreases k, 1
  {
    match k
    case KInt(t) => v.VInt? && InRange(t, v.n)
    case KBool => v.VBool?
    case KSingle => v.VBlock? && |v.bytes| == BlockWidth(k)
    case KDouble => v.VBlock? && |v.bytes| == BlockWidth(k)
    case KDateTime => v.VBlock? && |v.bytes| == BlockWidth(k)
    case KGuid => v.VBlock? && |v.bytes| == BlockWidth(k)
    case KEnum(base) => v.VInt? && (base.Supported? ==> InRange(base.t, v.n))
    case KString => v.VString?
    case KArray(e) =>
      && v.VArray?
      && (v.elems.Some? ==>
            && |v.elems.value| <= Int32Max
            && forall x | x in v.elems.value :: WellTyped(e, x))
    case KList(e) =>
      && v.VList?
      && (v.items.Some? ==>
            && |v.items.value| <= Int32Max
            && forall x | x in v.items.value :: WellTyped(e, x))
    case KRecord(rt) => v.VRecord? && (v.fields.Some? ==> WellTypedFields(rt, v.fields.value))
  }

  /** `m` holds exactly the properties of `rt`, each well typed. */
  predicate WellTypedFields(rt: RecordType, m: map<string, Value>)
    decreases KRecord(rt), 0
  {
    && m.Keys == Names(rt.props)
    && forall p | p in rt.props :: WellTyped(p.kind, m[p.name])
  }
}
