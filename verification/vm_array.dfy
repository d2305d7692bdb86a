/** The typed view `VMArray<T>` over one engine array.

    A view holds one handle, `_data`, that names an engine array in the store
    or nothing. Element type T is given by its `Codec`. Every operation takes
    the store and returns the new store where it writes or allocates, so the
    contracts can say which array is new and which arrays are left alone.

    Several members of the source do not do what the class evidently means
    to do. Each of those is modelled twice: `...AsWritten` follows the code
    line by line, and the unsuffixed member is the evident intent. The module
    ViewLaws relates the two. */
module VMArrays {
  import opened Outcomes
  import opened Variants
  import opened ScriptArrays
  import opened References
  import opened Iterators

  /** A typed view: the handle `_data`. */
  datatype View = View(data: Option<ArrayId>)

  /** The view's handle, if any, names a live array. */
  ghost predicate Tracks(st: Store, v: View) {
    v.data.Some? ==> v.data.value in st.arrays
  }

  /** The arrays the view holds a handle to: none or one. */
  function Handles(v: View): (hs: set<ArrayId>) {
    if v.data.Some? then {v.data.value} else {}
  }

  function Min(a: int, b: int): (m: int) {
    if a <= b then a else b
  }

  /** `size() - 1` in `size_type`: unsigned, so 0 - 1 wraps to the largest count. */
  function WrapDecrement(n: SizeType): (r: SizeType)
    ensures (r + 1) % SIZE_LIMIT == n
  {
    if n == 0 then SIZE_LIMIT - 1 else n - 1
  }

  // ---------------------------------------------------------------------------
  // Size and emptiness.

  /** The number of elements: none without a backing array, else the
      distance from `begin()` to `end()`. */
  function Size(st: Store, v: View): (n: SizeType)
    requires Valid(st) && Tracks(st, v)
    ensures v.data.None? ==> n == 0
    ensures v.data.Some? ==> n == Distance(End(st, v).value, Begin(st, v).value)
  {
    if v.data.None? then 0 else |Slots(st, v.data.value)|
  }

  /** A view is empty when it has no backing array or a backing array with no
      slots. */
  function Empty(st: Store, v: View): (b: bool)
    requires Valid(st) && Tracks(st, v)
    ensures b <==> Size(st, v) == 0
  {
    v.data.None? || |Slots(st, v.data.value)| == 0
  }

  /** `size()` as written: `_data ? 0 : _data->size()`. A view with a backing
      array reports 0; a view without one calls `size()` through null. The
      answer is right only for a backing array of no slots. */
  function SizeAsWritten(st: Store, v: View): (r: Result<SizeType>)
    requires Valid(st) && Tracks(st, v)
    ensures r.Err? <==> v.data.None?
    ensures r.Err? ==> r.fault == NullDereference
    ensures r.Ok? ==> r.value == 0
    ensures r == Ok(Size(st, v)) <==> v.data.Some? && Size(st, v) == 0
  {
    if v.data.Some? then Ok(0) else Err(NullDereference)
  }

  /** `empty()` as written: `_data ? true : _data->empty()`. A view with a
      backing array reports empty; a view without one calls `empty()` through
      null. The answer is right only for a backing array of no slots. */
  function EmptyAsWritten(st: Store, v: View): (r: Result<bool>)
    requires Valid(st) && Tracks(st, v)
    ensures r.Err? <==> v.data.None?
    ensures r.Err? ==> r.fault == NullDereference
    ensures r.Ok? ==> r.value
    ensures r == Ok(Empty(st, v)) <==> v.data.Some? && Empty(st, v)
  {
    if v.data.Some? then Ok(true) else Err(NullDereference)
  }

  /** What the view holds, read as T, first slot first. */
  function Contents<T(!new)>(st: Store, v: View, c: Codec<T>): (xs: seq<T>)
    requires Valid(st) && Tracks(st, v)
    ensures |xs| == Size(st, v)
    ensures v.data.Some? ==> forall i :: 0 <= i < |xs| ==>
              Live(st, Ref(v.data.value, i)) && xs[i] == Read(st, Ref(v.data.value, i), c)
  {
    if v.data.None? then []
    else
      var slots := Slots(st, v.data.value);
      seq(|slots|, i requires 0 <= i < |slots| => c.unpack(slots[i]))
  }

  // ---------------------------------------------------------------------------
  // Allocation, construction and assignment.

  /** `alloc(n)`: asks the engine for a new array of `n` slots tagged with
      T's runtime type. The engine's success is taken for granted, as the
      source asserts it. The new array holds the type's zero in every slot,
      and no existing array changes. */
  function Alloc<T>(st: Store, c: Codec<T>, n: SizeType): (res: (Store, ArrayId))
    requires Valid(st)
    ensures Valid(res.0)
    ensures res.1 !in st.arrays && res.1 in res.0.arrays
    ensures res.0.arrays.Keys == st.arrays.Keys + {res.1}
    ensures Preserves(st, res.0, {})
    ensures res.0.arrays[res.1].elementType == c.typeId
    ensures |Slots(res.0, res.1)| == n
    ensures forall i :: 0 <= i < n ==> Slots(res.0, res.1)[i] == Zero(c.typeId)
  {
    var id := st.next;
    (Store(st.arrays[id := ScriptArray(c.typeId, seq(n, _ => Zero(c.typeId)))], id + 1), id)
  }

  /** The default constructor: a view with no backing array, which is empty
      in every store and whose `begin()` asserts. */
  function DefaultView(): (v: View)
    ensures forall st :: Valid(st) ==>
              Tracks(st, v) && Empty(st, v) && Begin(st, v) == Err(AssertionFailure)
  {
    View(None)
  }

  /** The constructors and assignments that take a raw array pointer or a
      shared handle by const reference: the view's proxies are the slots of
      that very array, shared with whoever else holds it, so it reads that
      array's elements. Nothing is allocated or copied. */
  function Adopt<T(!new)>(st: Store, h: Option<ArrayId>, c: Codec<T>): (v: View)
    requires Valid(st) && (h.Some? ==> h.value in st.arrays)
    ensures Tracks(st, v)
    ensures h.None? ==> Empty(st, v)
    ensures Begin(st, v).Ok? <==> h.Some?
    ensures h.Some? ==> Begin(st, v).value.arrayId == h.value
    ensures h.Some? ==> Size(st, v) == |Slots(st, h.value)|
    ensures h.Some? ==> forall i :: 0 <= i < |Slots(st, h.value)| ==>
              At(st, v, i, c) == Ok(Ref(h.value, i))
              && Contents(st, v, c)[i] == Read(st, Ref(h.value, i), c)
  {
    View(h)
  }

  /** The move constructor and move assignment, and construction or
      assignment from a shared handle by rvalue: the destination takes over
      the source's array itself (no copy is made), so it reads the source's
      contents, and the source is left with no backing array, so its
      `begin()` asserts. The destination's previous handle, if any, is
      dropped. */
  function MoveAssign<T(!new)>(st: Store, dst: View, src: View, c: Codec<T>): (res: (View, View))
    requires Valid(st) && Tracks(st, src)
    ensures Tracks(st, res.0) && Tracks(st, res.1)
    ensures Handles(res.0) == Handles(src)
    ensures Contents(st, res.0, c) == Contents(st, src, c)
    ensures Empty(st, res.1) && Begin(st, res.1) == Err(AssertionFailure)
  {
    (src, View(None))
  }

  /** The move constructor: a move assignment into a default-constructed view. */
  function MoveConstruct<T(!new)>(st: Store, src: View, c: Codec<T>): (res: (View, View))
    requires Valid(st) && Tracks(st, src)
    ensures Tracks(st, res.0) && Tracks(st, res.1)
    ensures Handles(res.0) == Handles(src)
    ensures Contents(st, res.0, c) == Contents(st, src, c)
    ensures Empty(st, res.1) && Begin(st, res.1) == Err(AssertionFailure)
  {
    MoveAssign(st, DefaultView(), src, c)
  }

  /** The copy constructor as written. A source without a backing array gives
      a view without one. Otherwise it allocates `a_rhs.size()` slots, which
      `size()` as written makes 0, and its loop, bounded by its own `size()`,
      copies nothing. */
  function CopyConstructAsWritten<T(!new)>(st: Store, src: View, c: Codec<T>): (res: (Store, View))
    requires Valid(st) && Tracks(st, src)
    ensures Valid(res.0) && Tracks(res.0, res.1)
    ensures Preserves(st, res.0, {})
    ensures src.data.None? ==> res == (st, View(None))
    ensures src.data.Some? ==> res.1.data.Some? && res.1.data.value !in st.arrays
    ensures src.data.Some? ==> Size(res.0, res.1) == 0
  {
    if src.data.None? then (st, View(None))
    else
      var (st1, id) := Alloc(st, c, SizeAsWritten(st, src).value);
      var dst := View(Some(id));
      (Transfer(st1, src.data.value, id, SizeAsWritten(st1, dst).value, x => Repack(c, x)), dst)
  }

  /** The copy constructor as intended: a fresh array as long as the source,
      holding the source's elements read as T. No existing array changes. */
  function CopyConstruct<T(!new)>(st: Store, src: View, c: Codec<T>): (res: (Store, View))
    requires Valid(st) && Tracks(st, src)
    ensures Valid(res.0) && Tracks(res.0, res.1)
    ensures Preserves(st, res.0, {})
    ensures src.data.None? ==> res == (st, View(None))
    ensures src.data.Some? ==> res.1.data.Some? && res.1.data.value !in st.arrays
    ensures Size(res.0, res.1) == Size(st, src)
    ensures RoundTrips(c) ==> Contents(res.0, res.1, c) == Contents(st, src, c)
  {
    if src.data.None? then (st, View(None))
    else
      var (st1, id) := Alloc(st, c, Size(st, src));
      var dst := View(Some(id));
      var st2 := Transfer(st1, src.data.value, id, Size(st1, dst), x => Repack(c, x));
      assert RoundTrips(c) ==> Contents(st2, dst, c) == Contents(st, src, c) by {
        if RoundTrips(c) {
          var xs, ys := Contents(st2, dst, c), Contents(st, src, c);
          forall i | 0 <= i < |xs|
            ensures xs[i] == ys[i]
          {
            assert Slots(st2, id)[i] == Repack(c, Slots(st1, src.data.value)[i]);
          }
        }
      }
      (st2, dst)
  }

  /** The reallocation step of copy assignment: a fresh array of `theirs`
      slots when the two sizes differ, else the destination as it is. */
  function ReallocUnlessSameSize<T>(st: Store, dst: View, c: Codec<T>, mine: SizeType, theirs: SizeType): (res: (Store, View))
    requires Valid(st) && Tracks(st, dst)
    ensures Valid(res.0) && Tracks(res.0, res.1)
    ensures Preserves(st, res.0, {})
    ensures mine == theirs ==> res == (st, dst)
    ensures mine != theirs ==> res.1.data.Some? && res.1.data.value !in st.arrays
    ensures mine != theirs ==> Size(res.0, res.1) == theirs
  {
    if mine != theirs then
      var (st1, id) := Alloc(st, c, theirs);
      (st1, View(Some(id)))
    else (st, dst)
  }

  /** Copy assignment as written. A source without a backing array empties
      the destination. Otherwise `size() != a_rhs.size()` first calls `size()`
      on the destination, which goes through null when the destination has
      no backing array; between two views with backing arrays it compares
      0 with 0, so nothing is reallocated, and the copy loop bounded by
      `size()` does nothing. */
  function CopyAssignAsWritten<T(!new)>(st: Store, dst: View, src: View, c: Codec<T>): (res: Result<(Store, View)>)
    requires Valid(st) && Tracks(st, dst) && Tracks(st, src)
    ensures res.Err? <==> src.data.Some? && dst.data.None?
    ensures res.Err? ==> res.fault == NullDereference
    ensures src.data.None? ==> res == Ok((st, View(None)))
    ensures src.data.Some? && dst.data.Some? ==> res == Ok((st, dst))
  {
    if src.data.None? then Ok((st, View(None)))
    else
      match SizeAsWritten(st, dst)
      case Err(f) => Err(f)
      case Ok(mine) =>
        var (st1, d1) := ReallocUnlessSameSize(st, dst, c, mine, SizeAsWritten(st, src).value);
        if d1.data.Some? then
          var k := SizeAsWritten(st1, d1).value;
          Ok((Transfer(st1, src.data.value, d1.data.value, k, x => Repack(c, x)), d1))
        else Ok((st1, d1))
  }

  /** Copy assignment as intended. A source without a backing array empties
      the destination. Otherwise the destination keeps its array when the
      sizes already match (and is overwritten in place, visibly to every view
      sharing it), or gets a fresh one of the source's size; then each element
      is copied. The source's array is not written unless it is the
      destination's own. */
  function CopyAssign<T(!new)>(st: Store, dst: View, src: View, c: Codec<T>): (res: (Store, View))
    requires Valid(st) && Tracks(st, dst) && Tracks(st, src)
    ensures Valid(res.0) && Tracks(res.0, res.1)
    ensures src.data.None? ==> res == (st, View(None))
    ensures src.data.Some? && Size(st, dst) != Size(st, src) ==>
              res.1.data.Some? && res.1.data.value !in st.arrays && Preserves(st, res.0, {})
    ensures src.data.Some? && Size(st, dst) == Size(st, src) ==>
              res.1 == dst && Preserves(st, res.0, Handles(dst))
    ensures src.data.Some? && res.1.data != src.data ==>
              res.0.arrays[src.data.value] == st.arrays[src.data.value]
    ensures Size(res.0, res.1) == Size(st, src)
    ensures RoundTrips(c) ==> Contents(res.0, res.1, c) == Contents(st, src, c)
  {
    if src.data.None? then (st, View(None))
    else
      var (st1, d1) := ReallocUnlessSameSize(st, dst, c, Size(st, dst), Size(st, src));
      if d1.data.Some? then
        var to := d1.data.value;
        var st2 := Transfer(st1, src.data.value, to, Size(st1, d1), x => Repack(c, x));
        assert RoundTrips(c) ==> Contents(st2, d1, c) == Contents(st, src, c) by {
          if RoundTrips(c) {
            var xs, ys := Contents(st2, d1, c), Contents(st, src, c);
            forall i | 0 <= i < |xs|
              ensures xs[i] == ys[i]
            {
              assert Slots(st2, to)[i] == Repack(c, Slots(st1, src.data.value)[i]);
            }
          }
        }
        (st2, d1)
      else (st1, d1)
  }

  // ---------------------------------------------------------------------------
  // Element access.

  /** `at(pos)` and `operator[](pos)`: a proxy for slot `pos`. Asserts that
      a backing array exists; the position is not checked here, it is the
      engine array's concern. Inside the view the proxy reads the element at
      `pos`; past its end it names no slot. */
  function At<T(!new)>(st: Store, v: View, pos: SizeType, c: Codec<T>): (r: Result<Ref>)
    requires Valid(st) && Tracks(st, v)
    ensures r.Err? <==> v.data.None?
    ensures r.Err? ==> r.fault == AssertionFailure
    ensures r.Ok? ==> (Live(st, r.value) <==> pos < Size(st, v))
    ensures r.Ok? && pos < Size(st, v) ==> Read(st, r.value, c) == Contents(st, v, c)[pos]
  {
    if v.data.None? then Err(AssertionFailure) else Ok(Ref(v.data.value, pos))
  }

  /** `front()`: `operator[](0)`, the proxy `*begin()`. On a non-empty view
      it reads the first element. */
  function Front<T(!new)>(st: Store, v: View, c: Codec<T>): (r: Result<Ref>)
    requires Valid(st) && Tracks(st, v)
    ensures r.Err? <==> v.data.None?
    ensures r.Err? ==> r.fault == AssertionFailure
    ensures r.Ok? ==> r.value == Deref(Begin(st, v).value)
    ensures r.Ok? ==> (Live(st, r.value) <==> !Empty(st, v))
    ensures !Empty(st, v) ==> Read(st, r.value, c) == Contents(st, v, c)[0]
  {
    At(st, v, 0, c)
  }

  /** `back()`: `operator[](size() - 1)`, with `size()` as intended. On a
      non-empty view it is `*(end() - 1)` and reads the last element. On an
      empty view with a backing array the unsigned subtraction wraps and the
      proxy names no slot. */
  function Back<T(!new)>(st: Store, v: View, c: Codec<T>): (r: Result<Ref>)
    requires Valid(st) && Tracks(st, v)
    ensures r.Err? <==> v.data.None?
    ensures r.Err? ==> r.fault == AssertionFailure
    ensures !Empty(st, v) ==> r.Ok? && r.value == Deref(Dec(End(st, v).value))
    ensures !Empty(st, v) ==> Live(st, r.value) && Read(st, r.value, c) == Contents(st, v, c)[Size(st, v) - 1]
    ensures v.data.Some? && Empty(st, v) ==> r.Ok? && !Live(st, r.value)
  {
    At(st, v, WrapDecrement(Size(st, v)), c)
  }

  /** `back()` as written, through `size()` as written: a view without a
      backing array calls `size()` through null; a view with one is asked for
      slot 0 - 1, which wraps to the largest `size_type`. The proxy never
      names a slot, so on a non-empty view it is never the intended one. */
  function BackAsWritten<T(!new)>(st: Store, v: View, c: Codec<T>): (r: Result<Ref>)
    requires Valid(st) && Tracks(st, v)
    ensures v.data.None? ==> r == Err(NullDereference)
    ensures v.data.Some? ==> r.Ok? && r.value.pos == SIZE_LIMIT - 1
    ensures r.Ok? ==> !Live(st, r.value)
    ensures !Empty(st, v) ==> r != Back(st, v, c)
  {
    match SizeAsWritten(st, v)
    case Err(f) => Err(f)
    case Ok(n) => At(st, v, WrapDecrement(n), c)
  }

  // ---------------------------------------------------------------------------
  // Iterators over the view.

  /** `begin()` / `cbegin()`: asserts a backing array; otherwise an iterator
      over it from which offset `k` names a slot exactly for `k` in
      `[0, length)`, i.e. the first slot. */
  function Begin(st: Store, v: View): (r: Result<Iter>)
    requires Valid(st) && Tracks(st, v)
    ensures r.Err? <==> v.data.None?
    ensures r.Err? ==> r.fault == AssertionFailure
    ensures r.Ok? ==> r.value.arrayId == v.data.value
    ensures r.Ok? ==> forall k :: Live(st, Index(r.value, k)) <==> 0 <= k < |Slots(st, v.data.value)|
  {
    if v.data.None? then Err(AssertionFailure) else Ok(Iter(v.data.value, 0))
  }

  /** `end()` / `cend()`: asserts a backing array; otherwise an iterator over
      it from which offset `k` names a slot exactly for `k` in
      `[-length, 0)`, i.e. one past the last slot. */
  function End(st: Store, v: View): (r: Result<Iter>)
    requires Valid(st) && Tracks(st, v)
    ensures r.Err? <==> v.data.None?
    ensures r.Err? ==> r.fault == AssertionFailure
    ensures r.Ok? ==> r.value.arrayId == v.data.value
    ensures r.Ok? ==> forall k :: Live(st, Index(r.value, k)) <==> -|Slots(st, v.data.value)| <= k < 0
  {
    if v.data.None? then Err(AssertionFailure) else Ok(Iter(v.data.value, |Slots(st, v.data.value)|))
  }

  /** `rbegin()` / `crbegin()`: a reverse iterator whose base is `end()`. */
  function RBegin(st: Store, v: View): (r: Result<RevIter>)
    requires Valid(st) && Tracks(st, v)
    ensures r.Err? <==> v.data.None?
    ensures r.Err? ==> r.fault == AssertionFailure
    ensures r.Ok? ==> RevDeref(r.value) == Ref(v.data.value, Size(st, v) - 1)
  {
    match End(st, v)
    case Err(f) => Err(f)
    case Ok(e) => Ok(RevIter(e))
  }

  /** `rend()` / `crend()`: a reverse iterator whose base is `begin()`; it is
      where `size()` steps from `rbegin()` end. */
  function REnd(st: Store, v: View): (r: Result<RevIter>)
    requires Valid(st) && Tracks(st, v)
    ensures r.Err? <==> v.data.None?
    ensures r.Err? ==> r.fault == AssertionFailure
    ensures r.Ok? ==> RevAdvance(RBegin(st, v).value, Size(st, v)) == r.value
  {
    match Begin(st, v)
    case Err(f) => Err(f)
    case Ok(b) =>
      RevAdvanceFromEnd(b.arrayId, Size(st, v), Size(st, v));
      Ok(RevIter(b))
  }

  // ---------------------------------------------------------------------------
  // Resizing.

  /** `resize(n)` as intended: a fresh array of `n` slots; the first
      `min(old size, n)` receive the old slots by position and the rest keep
      the type's zero; the view then holds the fresh array. Without a
      backing array this is a plain allocation. No existing array changes. */
  function Resize<T>(st: Store, v: View, n: SizeType, c: Codec<T>): (res: (Store, View))
    requires Valid(st) && Tracks(st, v)
    ensures Valid(res.0) && Tracks(res.0, res.1)
    ensures res.1.data.Some? && res.1.data.value !in st.arrays
    ensures Preserves(st, res.0, {})
    ensures Size(res.0, res.1) == n
    ensures res.0.arrays[res.1.data.value].elementType == c.typeId
    ensures forall i :: 0 <= i < n && i < Size(st, v) ==>
              Slots(res.0, res.1.data.value)[i] == Slots(st, v.data.value)[i]
    ensures forall i :: Size(st, v) <= i < n ==> Slots(res.0, res.1.data.value)[i] == Zero(c.typeId)
  {
    var (st1, id) := Alloc(st, c, n);
    if v.data.Some? then
      (Transfer(st1, v.data.value, id, Min(Size(st, v), n), x => x), View(Some(id)))
    else (st1, View(Some(id)))
  }

  /** `resize(n)` as written: the loop runs to the OLD array's length, so
      shrinking a view with a backing array writes past the end of the new
      array. Otherwise it does what the intended `resize` does. */
  function ResizeAsWritten<T>(st: Store, v: View, n: SizeType, c: Codec<T>): (res: Result<(Store, View)>)
    requires Valid(st) && Tracks(st, v)
    ensures res.Err? <==> v.data.Some? && n < Size(st, v)
    ensures res.Err? ==> res.fault == OutOfRangeWrite
  {
    var (st1, id) := Alloc(st, c, n);
    if v.data.None? then Ok((st1, View(Some(id))))
    else
      var oldLength := |Slots(st, v.data.value)|;
      if n < oldLength then Err(OutOfRangeWrite)   // iteration n writes newArr[n]
      else Ok((Transfer(st1, v.data.value, id, oldLength, x => x), View(Some(id))))
  }
}
