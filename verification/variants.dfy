/** The scripting engine's tagged variant slot and the typed Pack/Unpack
    conversions a view of element type T relies on.

    The engine's own variant encoding is not part of this model; it is stood
    in for by a sum type whose constructor is the runtime type tag. A
    conversion pair for one element type is a `Codec`, and the only thing the
    view assumes of it is that unpacking a packed value gives the value back
    (`RoundTrips`). */
module Variants {

  /** Runtime type tag of a slot, and of the elements of an engine array. */
  datatype TypeId = NoneType | IntType | FloatType | BoolType | StringType | ObjectType

  /** A tagged variant slot. */
  datatype Variant =
    | NoneValue
    | IntValue(i: int)
    | FloatValue(bits: bv32)
    | BoolValue(b: bool)
    | StringValue(s: string)
    | ObjectValue(handle: nat)
  {
    function Tag(): TypeId {
      match this
      case NoneValue => NoneType
      case IntValue(_) => IntType
      case FloatValue(_) => FloatType
      case BoolValue(_) => BoolType
      case StringValue(_) => StringType
      case ObjectValue(_) => ObjectType
    }
  }

  /** The value the engine's allocator puts into every slot of a new array of
      element type `t`: the zero of that type (handle 0 is the null object). */
  function Zero(t: TypeId): (v: Variant)
    ensures v.Tag() == t
  {
    match t
    case NoneType => NoneValue
    case IntType => IntValue(0)
    case FloatType => FloatValue(0)
    case BoolType => BoolValue(false)
    case StringType => StringValue("")
    case ObjectType => ObjectValue(0)
  }

  /** The conversions of one element type T: `GetTypeID<T>()`, `Pack(T)` and
      `Unpack<T>()`. Unpacking a slot whose tag is not T's is undefined in the
      engine; a codec may return anything there. */
  datatype Codec<!T> = Codec(typeId: TypeId, pack: T -> Variant, unpack: Variant -> T)

  /** The round-trip law of a codec: `Unpack<T>(Pack(x)) == x` for every `x`. */
  ghost predicate RoundTrips<T(!new)>(c: Codec<T>) {
    forall x: T :: c.unpack(c.pack(x)) == x
  }

  /** The rewrite `slot = T(other)` performs: unpack as T, pack again. */
  function Repack<T(!new)>(c: Codec<T>, v: Variant): (w: Variant)
    ensures RoundTrips(c) ==> c.unpack(w) == c.unpack(v)
  {
    c.pack(c.unpack(v))
  }

  // ---------------------------------------------------------------------------
  // Representative codecs. Integral element types are the ones `reference::+=`
  // is enabled for; the engine's integer is taken to be 32 bits wide.

  const INT32_MIN: int := -0x8000_0000
  const INT32_LIMIT: int := 0x8000_0000
  const UINT32_LIMIT: int := 0x1_0000_0000

  type Int32 = x: int | -0x8000_0000 <= x < 0x8000_0000
  type UInt32 = x: int | 0 <= x < 0x1_0000_0000

  function PackInt32(x: Int32): (v: Variant) { IntValue(x) }

  function UnpackInt32(v: Variant): (x: Int32) {
    if v.IntValue? && INT32_MIN <= v.i < INT32_LIMIT then v.i else 0
  }

  function PackUInt32(x: UInt32): (v: Variant) { IntValue(x) }

  function UnpackUInt32(v: Variant): (x: UInt32) {
    if v.IntValue? && 0 <= v.i < UINT32_LIMIT then v.i else 0
  }

  function PackBool(b: bool): (v: Variant) { BoolValue(b) }

  function UnpackBool(v: Variant): (b: bool) { v.BoolValue? && v.b }

  function PackString(s: string): (v: Variant) { StringValue(s) }

  function UnpackString(v: Variant): (s: string) { if v.StringValue? then v.s else "" }

  const Int32Codec: Codec<Int32> := Codec(IntType, PackInt32, UnpackInt32)
  const UInt32Codec: Codec<UInt32> := Codec(IntType, PackUInt32, UnpackUInt32)
  const BoolCodec: Codec<bool> := Codec(BoolType, PackBool, UnpackBool)
  const StringCodec: Codec<string> := Codec(StringType, PackString, UnpackString)

  /** Each representative codec satisfies the round-trip law, and packs into
      a slot carrying its own type tag. */
  lemma RepresentativeCodecsRoundTrip()
    ensures RoundTrips(Int32Codec) && RoundTrips(UInt32Codec)
    ensures RoundTrips(BoolCodec) && RoundTrips(StringCodec)
    ensures forall x: Int32 :: Int32Codec.pack(x).Tag() == Int32Codec.typeId
    ensures forall x: UInt32 :: UInt32Codec.pack(x).Tag() == UInt32Codec.typeId
    ensures forall b: bool :: BoolCodec.pack(b).Tag() == BoolCodec.typeId
    ensures forall s: string :: StringCodec.pack(s).Tag() == StringCodec.typeId
  {
  }

  /** Under the round-trip law, packing is injective: two slots packed from
      different values differ. */
  lemma PackInjective<T(!new)>(c: Codec<T>, x: T, y: T)
    requires RoundTrips(c)
    ensures c.pack(x) == c.pack(y) <==> x == y
  {
  }
}
