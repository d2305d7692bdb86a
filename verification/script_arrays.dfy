/** The engine-owned arrays a view wraps, held in an explicit store.

    An engine array lives on the heap and may be shared by several views, so
    the model keeps every array in a `Store` keyed by its identity. A view then
    holds an identity (or none), two views sharing an identity see each
    other's writes, and "a new array was allocated" is the checkable fact that
    its identity was not in the store before. */
module ScriptArrays {
  import opened Variants

  /** `BSScriptArray::size_type`: an unsigned count, taken to be 32 bits
      wide. */
  const SIZE_LIMIT: int := 0x1_0000_0000
  type SizeType = n: int | 0 <= n < 0x1_0000_0000

  type ArrayId = nat

  /** One engine array: its element type tag and its slots. */
  datatype ScriptArray = ScriptArray(elementType: TypeId, slots: seq<Variant>)

  /** All live engine arrays; `next` is an identity no array has yet. */
  datatype Store = Store(arrays: map<ArrayId, ScriptArray>, next: ArrayId)

  /** Identities below `next` only, and every array's length fits `size_type`. */
  ghost predicate Valid(st: Store) {
    forall id :: id in st.arrays ==> id < st.next && |st.arrays[id].slots| < SIZE_LIMIT
  }

  function Slots(st: Store, id: ArrayId): (slots: seq<Variant>)
    requires id in st.arrays
  {
    st.arrays[id].slots
  }

  /** Every array of `st` survives into `st'`, and those outside `touched`
      keep their element type and every slot. */
  ghost predicate Preserves(st: Store, st': Store, touched: set<ArrayId>) {
    && st.arrays.Keys <= st'.arrays.Keys
    && forall id :: id in st.arrays && id !in touched ==> st'.arrays[id] == st.arrays[id]
  }

  /** `st'` differs from `st` at most in slot `i` of array `id`. */
  ghost predicate SameExceptSlot(st: Store, st': Store, id: ArrayId, i: int)
    requires id in st.arrays
  {
    && st'.next == st.next
    && st'.arrays.Keys == st.arrays.Keys
    && Preserves(st, st', {id})
    && st'.arrays[id].elementType == st.arrays[id].elementType
    && |Slots(st', id)| == |Slots(st, id)|
    && forall j :: 0 <= j < |Slots(st, id)| && j != i ==> Slots(st', id)[j] == Slots(st, id)[j]
  }

  /** Overwrite one slot of one array. */
  function WriteSlot(st: Store, id: ArrayId, i: int, x: Variant): (st': Store)
    requires Valid(st) && id in st.arrays && 0 <= i < |Slots(st, id)|
    ensures Valid(st')
    ensures SameExceptSlot(st, st', id, i)
    ensures Slots(st', id)[i] == x
  {
    var a := st.arrays[id];
    st.(arrays := st.arrays[id := a.(slots := a.slots[i := x])])
  }

  /** The element loop shared by copying and resizing: for `i` from 0 up to
      `k - 1`, slot `i` of `to` receives `f` of slot `i` of `from` as it reads
      at that moment. When `from == to` the slot read at step `i` has not yet
      been written, so the result is the same as reading the original. */
  function Transfer(st: Store, from: ArrayId, to: ArrayId, k: nat, f: Variant -> Variant): (st': Store)
    requires Valid(st) && from in st.arrays && to in st.arrays
    requires k <= |Slots(st, from)| && k <= |Slots(st, to)|
    ensures Valid(st')
    ensures st'.next == st.next && st'.arrays.Keys == st.arrays.Keys
    ensures Preserves(st, st', {to})
    ensures st'.arrays[to].elementType == st.arrays[to].elementType
    ensures |Slots(st', to)| == |Slots(st, to)|
    ensures forall i :: 0 <= i < k ==> Slots(st', to)[i] == f(Slots(st, from)[i])
    ensures forall i :: k <= i < |Slots(st, to)| ==> Slots(st', to)[i] == Slots(st, to)[i]
    decreases k
  {
    if k == 0 then st
    else
      var mid := Transfer(st, from, to, k - 1, f);
      WriteSlot(mid, to, k - 1, f(Slots(mid, from)[k - 1]))
  }
}
