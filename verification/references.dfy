/** The reference proxies `const_reference` and `reference`: stand-ins for
    "slot `pos` of one engine array" that read by unpacking the slot as T and
    write by packing a T into it. The two proxies hold the same thing; only
    `reference` offers the writing operations, which here are the functions
    that return a new store. */
module References {
  import opened Variants
  import opened ScriptArrays

  /** A proxy bound to slot `pos` of engine array `arrayId`. */
  datatype Ref = Ref(arrayId: ArrayId, pos: int)

  /** The proxy's slot exists: its array is alive and `pos` is inside it.
      Bounds are the engine array's own concern; a proxy outside them is
      never read or written by the model. */
  ghost predicate Live(st: Store, r: Ref) {
    r.arrayId in st.arrays && 0 <= r.pos < |Slots(st, r.arrayId)|
  }

  function Slot(st: Store, r: Ref): (x: Variant)
    requires Live(st, r)
  {
    Slots(st, r.arrayId)[r.pos]
  }

  /** `const_reference::operator value_type`: the slot unpacked as T. When the
      slot holds a packed `y`, the proxy reads back `y`. */
  function Read<T(!new)>(st: Store, r: Ref, c: Codec<T>): (x: T)
    requires Live(st, r)
    ensures RoundTrips(c) ==> forall y :: Slot(st, r) == c.pack(y) ==> x == y
  {
    c.unpack(Slot(st, r))
  }

  /** `const_reference::operator==`: delegates to the variant's own equality,
      which compares tag and payload. A proxy equals itself, and two proxies
      whose slots hold packed `x` and `y` compare equal exactly when
      `x == y`. */
  function Equals<T(!new)>(st: Store, a: Ref, b: Ref, c: Codec<T>): (eq: bool)
    requires Live(st, a) && Live(st, b)
    ensures a == b ==> eq
    ensures RoundTrips(c) ==> forall x, y ::
              Slot(st, a) == c.pack(x) && Slot(st, b) == c.pack(y) ==> (eq <==> x == y)
  {
    Slot(st, a) == Slot(st, b)
  }

  /** `const_reference::operator!=`: the negation of `==`. A proxy is never
      unequal to itself, and two proxies whose slots hold packed `x` and `y`
      compare unequal exactly when `x != y`. */
  function NotEquals<T(!new)>(st: Store, a: Ref, b: Ref, c: Codec<T>): (ne: bool)
    requires Live(st, a) && Live(st, b)
    ensures a == b ==> !ne
    ensures RoundTrips(c) ==> forall x, y ::
              Slot(st, a) == c.pack(x) && Slot(st, b) == c.pack(y) ==> (ne <==> x != y)
  {
    !Equals(st, a, b, c)
  }

  /** `reference::operator=(const value_type&)`: packs `x` into the slot.
      Reading the proxy afterwards gives `x`, and no other slot of any array
      changes. */
  function Assign<T(!new)>(st: Store, r: Ref, c: Codec<T>, x: T): (st': Store)
    requires Valid(st) && Live(st, r)
    ensures Valid(st') && Live(st', r)
    ensures SameExceptSlot(st, st', r.arrayId, r.pos)
    ensures Slot(st', r) == c.pack(x)
    ensures RoundTrips(c) ==> Read(st', r, c) == x
  {
    WriteSlot(st, r.arrayId, r.pos, c.pack(x))
  }

  /** `reference::operator+=` for a signed 32-bit T: unpack, add, repack.
      Signed overflow is undefined in C++, so the sum must fit. */
  function AddAssignInt32(st: Store, r: Ref, k: Int32): (st': Store)
    requires Valid(st) && Live(st, r)
    requires INT32_MIN <= Read<Int32>(st, r, Int32Codec) + k < INT32_LIMIT
    ensures Valid(st') && Live(st', r)
    ensures SameExceptSlot(st, st', r.arrayId, r.pos)
    ensures Read<Int32>(st', r, Int32Codec) == Read<Int32>(st, r, Int32Codec) + k
  {
    RepresentativeCodecsRoundTrip();
    Assign<Int32>(st, r, Int32Codec, Read<Int32>(st, r, Int32Codec) + k)
  }

  /** `reference::operator+=` for an unsigned 32-bit T: the sum wraps modulo
      2^32, as unsigned arithmetic does in C++. */
  function AddAssignUInt32(st: Store, r: Ref, k: UInt32): (st': Store)
    requires Valid(st) && Live(st, r)
    ensures Valid(st') && Live(st', r)
    ensures SameExceptSlot(st, st', r.arrayId, r.pos)
    ensures Read<UInt32>(st, r, UInt32Codec) + k < UINT32_LIMIT ==>
              Read<UInt32>(st', r, UInt32Codec) == Read<UInt32>(st, r, UInt32Codec) + k
    ensures Read<UInt32>(st, r, UInt32Codec) + k >= UINT32_LIMIT ==>
              Read<UInt32>(st', r, UInt32Codec) == Read<UInt32>(st, r, UInt32Codec) + k - UINT32_LIMIT
  {
    RepresentativeCodecsRoundTrip();
    Assign<UInt32>(st, r, UInt32Codec, (Read<UInt32>(st, r, UInt32Codec) + k) % UINT32_LIMIT)
  }

  // ---------------------------------------------------------------------------
  // Properties of the proxies.

  /** Writing through one proxy leaves every other slot reading as before,
      whatever type it is read as. */
  lemma AssignLeavesOtherSlots<T(!new), U(!new)>(st: Store, r: Ref, c: Codec<T>, x: T, other: Ref, d: Codec<U>)
    requires Valid(st) && Live(st, r) && Live(st, other)
    requires other != r
    ensures Live(Assign(st, r, c, x), other)
    ensures Read(Assign(st, r, c, x), other, d) == Read(st, other, d)
  {
  }

  /** `r += k` is `r = T(r) + k` for the signed integral element type. */
  lemma AddAssignIsAssignOfSum(st: Store, r: Ref, k: Int32)
    requires Valid(st) && Live(st, r)
    requires INT32_MIN <= Read<Int32>(st, r, Int32Codec) + k < INT32_LIMIT
    ensures AddAssignInt32(st, r, k) == Assign<Int32>(st, r, Int32Codec, Read<Int32>(st, r, Int32Codec) + k)
  {
  }
}
