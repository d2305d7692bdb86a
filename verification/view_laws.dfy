/** Laws of the typed view: what a client observes through `Contents`, the
    iterators and the proxies after each operation, and how each member that
    is modelled as written departs from its intended counterpart. */
module ViewLaws {
  import opened Outcomes
  import opened Variants
  import opened ScriptArrays
  import opened References
  import opened Iterators
  import opened VMArrays

  // ---------------------------------------------------------------------------
  // Size, emptiness and the iterators.

  /** A view is empty exactly when it has no backing array or
      `begin() == end()`. */
  lemma EmptyIsBeginAtEnd(st: Store, v: View)
    requires Valid(st) && Tracks(st, v)
    ensures Empty(st, v) <==> v.data.None? || Eq(Begin(st, v).value, End(st, v).value)
  {
  }

  /** `v[pos]` is `begin()[pos]`, and `v.begin() + size() == v.end()`. */
  lemma AtIsBeginIndex<T(!new)>(st: Store, v: View, pos: SizeType, c: Codec<T>)
    requires Valid(st) && Tracks(st, v) && v.data.Some?
    ensures At(st, v, pos, c).value == Index(Begin(st, v).value, pos)
    ensures Add(Begin(st, v).value, Size(st, v)) == End(st, v).value
  {
  }

  /** A view without a backing array: every access that asserts fires, and
      it counts as empty. */
  lemma NullViewAccessAsserts<T(!new)>(st: Store, v: View, pos: SizeType, c: Codec<T>)
    requires Valid(st) && Tracks(st, v)
    requires v.data.None?
    ensures At(st, v, pos, c) == Err(AssertionFailure) && Front(st, v, c) == Err(AssertionFailure)
    ensures Back(st, v, c) == Err(AssertionFailure)
    ensures Begin(st, v) == Err(AssertionFailure) && End(st, v) == Err(AssertionFailure)
    ensures RBegin(st, v) == Err(AssertionFailure) && REnd(st, v) == Err(AssertionFailure)
    ensures Empty(st, v) && Size(st, v) == 0
  {
  }

  // ---------------------------------------------------------------------------
  // Writing through the proxies.

  /** `v[i] = x; T(v[i]) == x`, and the view's contents change at position
      `i` only. */
  lemma AssignThroughAt<T(!new)>(st: Store, v: View, i: SizeType, c: Codec<T>, x: T)
    requires RoundTrips(c)
    requires Valid(st) && Tracks(st, v) && i < Size(st, v)
    ensures At(st, v, i, c).Ok? && Live(st, At(st, v, i, c).value)
    ensures Read(Assign(st, At(st, v, i, c).value, c, x), At(st, v, i, c).value, c) == x
    ensures Contents(Assign(st, At(st, v, i, c).value, c, x), v, c) == Contents(st, v, c)[i := x]
  {
  }

  /** Integral `v[i] += k` is `v[i] = T(v[i]) + k`: the element grows by `k`
      and nothing else in the view changes. */
  lemma AddAssignThroughAt(st: Store, v: View, i: SizeType, k: Int32)
    requires Valid(st) && Tracks(st, v) && i < Size(st, v)
    requires INT32_MIN <= Contents<Int32>(st, v, Int32Codec)[i] + k < INT32_LIMIT
    ensures At(st, v, i, Int32Codec).Ok? && Live(st, At(st, v, i, Int32Codec).value)
    ensures Contents<Int32>(AddAssignInt32(st, At(st, v, i, Int32Codec).value, k), v, Int32Codec)
         == Contents<Int32>(st, v, Int32Codec)[i := (Contents<Int32>(st, v, Int32Codec)[i] + k) as Int32]
  {
  }

  // ---------------------------------------------------------------------------
  // Copying, moving, sharing.

  /** A copy is independent of its source: writing through the copy changes
      the copy and leaves the source's contents as they were. */
  lemma CopyIsIndependent<T(!new)>(st: Store, src: View, i: SizeType, c: Codec<T>, x: T)
    requires RoundTrips(c)
    requires Valid(st) && Tracks(st, src) && i < Size(st, src)
    ensures var (st1, cp) := CopyConstruct(st, src, c);
            && At(st1, cp, i, c).Ok? && Live(st1, At(st1, cp, i, c).value)
            && Contents(Assign(st1, At(st1, cp, i, c).value, c, x), src, c) == Contents(st, src, c)
            && Contents(Assign(st1, At(st1, cp, i, c).value, c, x), cp, c) == Contents(st, src, c)[i := x]
  {
  }

  /** Two views adopting the same handle share the array: a write through
      one is read through the other. */
  lemma AdoptedViewsShare<T(!new)>(st: Store, h: ArrayId, i: SizeType, c: Codec<T>, x: T)
    requires RoundTrips(c)
    requires Valid(st) && h in st.arrays && i < |Slots(st, h)|
    ensures var a, b := Adopt(st, Some(h), c), Adopt(st, Some(h), c);
            && At(st, a, i, c).Ok? && Live(st, At(st, a, i, c).value)
            && Contents(Assign(st, At(st, a, i, c).value, c, x), b, c) == Contents(st, b, c)[i := x]
  {
  }

  // ---------------------------------------------------------------------------
  // Resizing.

  /** After `resize(n)` the view reads the old elements up to the smaller of
      the two sizes, then the zero of T's runtime type. */
  lemma ResizeKeepsPrefix<T(!new)>(st: Store, v: View, n: SizeType, c: Codec<T>)
    requires Valid(st) && Tracks(st, v)
    ensures var (st', v') := Resize(st, v, n, c);
            && Contents(st', v', c)[..Min(Size(st, v), n)] == Contents(st, v, c)[..Min(Size(st, v), n)]
            && forall i :: Size(st, v) <= i < n ==> Contents(st', v', c)[i] == c.unpack(Zero(c.typeId))
  {
  }

  /** `resize` as written agrees with the intended `resize` exactly when it
      does not fault: on a view without a backing array, or when not
      shrinking. */
  lemma ResizeAsWrittenVersusResize<T>(st: Store, v: View, n: SizeType, c: Codec<T>)
    requires Valid(st) && Tracks(st, v)
    ensures ResizeAsWritten(st, v, n, c) == Ok(Resize(st, v, n, c))
        <==> v.data.None? || n >= Size(st, v)
  {
  }

  // ---------------------------------------------------------------------------
  // The members modelled as written, against their intended counterparts.

  /** The copy constructor as written drops every element of a non-empty
      source, while the intended one keeps its size. */
  lemma CopyConstructAsWrittenLosesElements<T(!new)>(st: Store, src: View, c: Codec<T>)
    requires Valid(st) && Tracks(st, src)
    requires src.data.Some? && Size(st, src) > 0
    ensures var (st1, cp) := CopyConstructAsWritten(st, src, c);
            Size(st1, cp) != Size(st, src)
    ensures var (st2, cp) := CopyConstruct(st, src, c);
            Size(st2, cp) == Size(st, src)
  {
  }

  /** A store with two one-slot integer arrays: 0 holds 1, and 1 holds 2. */
  function TwoArrays(): (st: Store)
  {
    Store(map[0 := ScriptArray(IntType, [IntValue(1)]), 1 := ScriptArray(IntType, [IntValue(2)])], 2)
  }

  /** The witnesses for the members modelled as written, on the store above:
      `size()` reports 0 for a one-element view; copy assignment of `[2]` into
      `[1]` leaves `[1]`, where the intended one gives `[2]`; copy assignment
      into a view with no array faults; `resize(0)` of a one-element view
      writes out of range, where the intended one gives an empty view. */
  lemma AsWrittenWitnesses()
    ensures SizeAsWritten(TwoArrays(), View(Some(0))) == Ok(0) && Size(TwoArrays(), View(Some(0))) == 1
    ensures var r := CopyAssignAsWritten(TwoArrays(), View(Some(0)), View(Some(1)), Int32Codec);
            r.Ok? && Contents(r.value.0, r.value.1, Int32Codec) == [1]
    ensures var (st, v) := CopyAssign(TwoArrays(), View(Some(0)), View(Some(1)), Int32Codec);
            Contents(st, v, Int32Codec) == [2]
    ensures CopyAssignAsWritten(TwoArrays(), View(None), View(Some(1)), Int32Codec) == Err(NullDereference)
    ensures ResizeAsWritten(TwoArrays(), View(Some(0)), 0, Int32Codec) == Err(OutOfRangeWrite)
    ensures var (st, v) := Resize(TwoArrays(), View(Some(0)), 0, Int32Codec);
            Empty(st, v)
  {
  }
}
