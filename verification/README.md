# Typed view over a scripting-VM array (`RE::BSScript::VMArray<T>`)

This project models `VMArray<T>`. It is a header-only view that presents an array
owned by the scripting virtual machine as a random-access container of one C++
type `T`. The engine array stores tagged variant slots. The view converts each slot
to `T` on read (`Unpack`) and converts `T` into a slot on write (`Pack`).

The model is split into modules:

- `Outcomes` (outcomes.dfy) names the failures the source leaves to `assert` or to
  undefined behaviour: a fired assertion, a call through a null pointer, and a
  write past the end of an engine array.
- `Variants` (variants.dfy) holds the variant slot as a sum type whose constructor
  is the runtime type tag. It also holds the zero value the allocator puts into
  new slots. The Pack/Unpack pair of one element type is a `Codec`. `RoundTrips`
  is the only law the view relies on: unpacking a packed value gives it back.
  There are four representative codecs: signed and unsigned 32-bit integers, bool
  and string. Each is proved to satisfy that law.
- `ScriptArrays` (script_arrays.dfy) is the heap. It is an explicit `Store` that
  maps array identities to engine arrays. Because the heap is an explicit value,
  "a fresh array was allocated" and "no other array changed" are checkable facts:
  the identity was not in the store before, and `Preserves` holds. `Transfer` is
  the slot-by-slot loop that copying and resizing share.
- `References` (references.dfy) holds the `const_reference`/`reference` proxies:
  reading, `==`, `!=`, `=`, and `+=` for integral `T`.
- `Iterators` (iterators.dfy) holds the iterator family. Each iterator is its
  underlying position in one engine array. The reverse iterators are the standard
  adaptor over it.
- `VMArrays` (vm_array.dfy) holds the view itself. A `View` is the handle `_data`
  (an identity or none). It covers construction, copy and move, element access,
  iterators, `size`, `empty`, `resize` and `alloc`.
- `ViewLaws` (view_laws.dfy) holds what a client observes after each operation. It
  also relates each member modelled as written to its intended counterpart.
- `Traversals` (traversals.dfy) holds the forward and reverse iteration loops of a
  client, and the three-element scenario.

Several members of the header do not do what the class evidently intends. These
are `size`, `empty`, the copy constructor, copy assignment, `resize` and `back`.
Each one is modelled twice:

- `...AsWritten` follows the code line by line.
- The unsuffixed member is the evident intent. The rest of the model uses it.

The class evidently intends a deep copy into a fresh array of the source's size.
The header allocates `a_rhs.size()` slots, and `size()` as written returns 0 for
any view that has an array, so the as-written copy of a non-empty view is a fresh
array of length 0. Likewise `resize` evidently intends to move the smaller of the
old and new counts, and the header loops to the old array's length.

## Model

| member | source | states |
|---|---|---|
| Variants.RepresentativeCodecsRoundTrip | include/RE/VMArray.h:31 | Unpacking a packed value gives it back for the int32, uint32, bool and string codecs, and packing tags the slot with the codec's type |
| Variants.PackInjective | include/RE/VMArray.h:189 | Under the round-trip law, two values pack to the same slot exactly when they are equal |
| Variants.Repack | include/RE/VMArray.h:393 | Converting a slot to T and packing it again leaves the slot's value as T unchanged |
| Variants.Zero | include/RE/VMArray.h:695 | The value the allocator puts in a new slot carries the array's element type tag |
| ScriptArrays.Transfer | include/RE/VMArray.h:681-683 | After the loop, positions below k hold f of the source's original slot (also when source and destination are the same array), positions from k on are unchanged, and no other array changes |
| References.Read | include/RE/VMArray.h:31 | A proxy whose slot holds a packed y reads back y |
| References.Equals | include/RE/VMArray.h:165-169 | A proxy equals itself; two proxies whose slots hold packed x and y compare equal exactly when x == y |
| References.NotEquals | include/RE/VMArray.h:172-176 | A proxy is never unequal to itself; two proxies over packed x and y compare unequal exactly when x != y |
| References.Assign | include/RE/VMArray.h:185-191 | After `r = x` the slot holds Pack(x) and reads back x; no other slot of any array changes |
| References.AssignLeavesOtherSlots | include/RE/VMArray.h:185-191 | A write through one proxy leaves every other slot reading the same, as any type |
| References.AddAssignInt32 | include/RE/VMArray.h:194-201 | For signed 32-bit T, `r += k` makes the slot read old + k, changes nothing else, and requires no overflow |
| References.AddAssignUInt32 | include/RE/VMArray.h:194-201 | For unsigned 32-bit T, `r += k` makes the slot read (old + k) mod 2^32, and changes nothing else |
| References.AddAssignIsAssignOfSum | include/RE/VMArray.h:199 | `r += k` is exactly `r = T(r) + k` |
| Iterators.Deref | include/RE/VMArray.h:219-225 | `*it` is `it[0]` |
| Iterators.Inc | include/RE/VMArray.h:237-244 | Prefix `++` is the offset `+ 1` |
| Iterators.PostInc | include/RE/VMArray.h:247-253 | Postfix `++` returns the old iterator, and the operand ends one slot further on, where `--` brings it back |
| Iterators.Dec | include/RE/VMArray.h:256-263 | Prefix `--` is the offset `- 1`, and `++` undoes it |
| Iterators.PostDec | include/RE/VMArray.h:266-272 | Postfix `--` returns the old iterator, and the operand ends one slot back, where `++` brings it forward again |
| Iterators.AddAssign | include/RE/VMArray.h:275-282 | `it += k` agrees with `it + k` |
| Iterators.Add | include/RE/VMArray.h:285-291 | `it + k` stays in the same array, `(it + k) - it == k`, and `(it + k) - k == it` |
| Iterators.SubAssign | include/RE/VMArray.h:294-301 | `it -= k` agrees with `it - k` |
| Iterators.Sub | include/RE/VMArray.h:304-310 | `it - k` stays in the same array and `it - (it - k) == k` |
| Iterators.Distance | include/RE/VMArray.h:313-319 | `a - b` over one array is 0 exactly when `a == b` |
| Iterators.Index | include/RE/VMArray.h:322-328 | `it[k]` is the proxy for the slot under `it + k` |
| Iterators.Eq | include/RE/VMArray.h:331-336 | `==` holds exactly for the same position |
| Iterators.Ne | include/RE/VMArray.h:339-344 | `!=` holds exactly for different positions |
| Iterators.Lt | include/RE/VMArray.h:347-352 | `a < b` iff `b - a > 0` |
| Iterators.Gt | include/RE/VMArray.h:355-360 | `a > b` iff `a - b > 0` |
| Iterators.Le | include/RE/VMArray.h:363-368 | `a <= b` iff `b - a >= 0` |
| Iterators.Ge | include/RE/VMArray.h:371-376 | `a >= b` iff `a - b >= 0` |
| Iterators.DistanceLaw | include/RE/VMArray.h:285-319 | `a + (b - a) == b`, `b - (b - a) == a`, and `a - b == -(b - a)` |
| Iterators.ComparisonsConsistent | include/RE/VMArray.h:331-376 | The six comparisons are mutually consistent and exactly one of `<`, `==`, `>` holds |
| Iterators.LtTransitive | include/RE/VMArray.h:347-352 | `<` is transitive |
| Iterators.SteppingIsOffset | include/RE/VMArray.h:237-291 | `++`/`--` are offsets of plus and minus 1 that undo each other, `- k` is `+ (-k)`, offsets compose additively, and `it[k]` is `*(it + k)` |
| Iterators.RevDeref | include/RE/VMArray.h:97-98 | A reverse iterator dereferences the slot just before its base |
| Iterators.RevInc | include/RE/VMArray.h:97-98 | A reverse iterator's `++` moves its base back one slot |
| Iterators.RevAdvanceFromEnd | include/RE/VMArray.h:607-656 | Starting from the end of n slots, k reverse steps dereference slot n-1-k |
| VMArrays.WrapDecrement | include/RE/VMArray.h:529 | `size() - 1` in the unsigned size type: the result plus 1, modulo the size type's range (2^32 under the width assumption), is the size |
| VMArrays.Size | include/RE/VMArray.h:666-671 | Intended size: 0 with no array, else the distance `end() - begin()` |
| VMArrays.SizeAsWritten | include/RE/VMArray.h:670 | As written: 0 for every view with an array, a null dereference for one without; the answer equals the intended size exactly for a view with an array of no slots |
| VMArrays.Empty | include/RE/VMArray.h:659-663 | Intended emptiness holds exactly when the size is 0 |
| VMArrays.EmptyAsWritten | include/RE/VMArray.h:662 | As written: true for every view with an array, a null dereference for one without; the answer equals the intended emptiness exactly for a view with an array of no slots |
| VMArrays.Contents | include/RE/VMArray.h:31 | The view's elements read as T: one per slot of the backing array, each equal to what the proxy for that slot reads |
| VMArrays.Alloc | include/RE/VMArray.h:689-698 | Allocation yields an identity not previously in the store, of n slots of T's zero tagged with T's type; no existing array changes |
| VMArrays.DefaultView | include/RE/VMArray.h:379-382 | The default view is empty in every store, and its `begin()` asserts |
| VMArrays.Adopt | include/RE/VMArray.h:405-414 | A view built from a raw pointer or shared handle has that array's length, its `begin()` is an iterator over that very array whose proxies are the array's own slots (no copy), and it reads that array's elements; with no handle it is empty and `begin()` asserts |
| VMArrays.MoveAssign | include/RE/VMArray.h:443-449 | The destination takes over the source's array itself and reads the source's contents; the source is left with no backing array, so it is empty and its `begin()` asserts |
| VMArrays.MoveConstruct | include/RE/VMArray.h:399-402 | The new view takes over the source's array itself and reads the source's contents; the source is left with no backing array, so it is empty and its `begin()` asserts |
| VMArrays.CopyConstructAsWritten | include/RE/VMArray.h:385-396 | As written: null source gives a null view; otherwise a fresh array of length 0 and no existing array changes |
| VMArrays.CopyConstruct | include/RE/VMArray.h:385-396 | Intended: null source gives a null view; otherwise a fresh array of the source's size whose contents as T equal the source's; no existing array changes |
| VMArrays.ReallocUnlessSameSize | include/RE/VMArray.h:429-431 | Equal sizes keep the destination and store; different sizes give a fresh array of the source's size |
| VMArrays.CopyAssignAsWritten | include/RE/VMArray.h:423-440 | As written: null source empties the destination; null destination with non-null source dereferences null; two non-null views leave everything unchanged |
| VMArrays.CopyAssign | include/RE/VMArray.h:423-440 | Intended: reallocate iff sizes differ, else overwrite in place; afterwards size and contents as T equal the source's; the source's array is not written unless shared |
| VMArrays.At | include/RE/VMArray.h:476-500 | With no backing array the assertion fires; otherwise the proxy names a slot exactly when pos < size, and then reads element pos of the contents |
| VMArrays.Front | include/RE/VMArray.h:509-522 | `front()` is `*begin()`; it names a slot exactly when the view is non-empty, and then reads the first element |
| VMArrays.Back | include/RE/VMArray.h:525-538 | On a non-empty view, `*(end() - 1)`, a live proxy reading the last element; on an empty view with an array, a proxy that names no slot |
| VMArrays.BackAsWritten | include/RE/VMArray.h:529 | As written: null dereference with no array, otherwise the wrapped largest position (2^32-1 under the width assumption), which never names a slot and so differs from the intended `back()` on every non-empty view |
| VMArrays.Begin | include/RE/VMArray.h:555-578 | Asserts a backing array; otherwise offset k from it names a slot exactly for 0 <= k < length |
| VMArrays.End | include/RE/VMArray.h:581-604 | Asserts a backing array; otherwise offset k from it names a slot exactly for -length <= k < 0 |
| VMArrays.RBegin | include/RE/VMArray.h:607-630 | Asserts a backing array; otherwise dereferences the last slot |
| VMArrays.REnd | include/RE/VMArray.h:633-656 | Asserts a backing array; otherwise it is where `size()` reverse steps from `rbegin()` end |
| VMArrays.Resize | include/RE/VMArray.h:674-686 | Intended: a fresh array of n slots, old slots kept by position up to the smaller size, the rest T's zero; no existing array changes |
| VMArrays.ResizeAsWritten | include/RE/VMArray.h:674-686 | As written: an out-of-range write exactly when a view with an array shrinks |
| ViewLaws.AtIsBeginIndex | include/RE/VMArray.h:494-500 | `v[pos]` is `begin()[pos]`, and `begin() + size() == end()` |
| ViewLaws.EmptyIsBeginAtEnd | include/RE/VMArray.h:555-604 | A view is empty exactly when it has no array or `begin() == end()` |
| ViewLaws.NullViewAccessAsserts | include/RE/VMArray.h:476-500 | On a view with no array, at, [], front, back, begin, end, rbegin and rend all fire the assertion |
| ViewLaws.AssignThroughAt | include/RE/VMArray.h:494-500 | `v[i] = x` makes `T(v[i]) == x`, and the contents change at position i only |
| ViewLaws.AddAssignThroughAt | include/RE/VMArray.h:194-201 | `v[i] += k` changes the contents at i to old + k and nowhere else |
| ViewLaws.CopyIsIndependent | include/RE/VMArray.h:385-396 | Writing through a copy leaves the source's contents unchanged |
| ViewLaws.AdoptedViewsShare | include/RE/VMArray.h:411-414 | Two views adopting one handle share the array: a write through one is read through the other |
| ViewLaws.ResizeKeepsPrefix | include/RE/VMArray.h:674-686 | After resize, contents up to the smaller size are the old contents, and later elements read T's zero |
| ViewLaws.ResizeAsWrittenVersusResize | include/RE/VMArray.h:681 | The as-written resize equals the intended one exactly when there is no array or it does not shrink |
| ViewLaws.CopyConstructAsWrittenLosesElements | include/RE/VMArray.h:390-392 | For a non-empty source, the as-written copy's size differs from the source's, while the intended copy's size matches |
| ViewLaws.AsWrittenWitnesses | include/RE/VMArray.h:423-440 | Concrete inputs on which size, copy assignment and resize as written depart from the intended versions |
| Traversals.Elements | include/RE/VMArray.h:555-604 | Walking begin to end yields exactly the contents, and a view without an array asserts |
| Traversals.ElementsReversed | include/RE/VMArray.h:607-656 | Walking rbegin to rend yields the contents last to first |
| Traversals.ThreeElementScenario | include/RE/VMArray.h:185-191 | Three zero int slots written 10, 20, 30 iterate as [10, 20, 30] forwards and [30, 20, 10] backwards |

## Left out

- `iterator_base::operator->` (include/RE/VMArray.h:230-234) reinterprets a variant pointer as a pointer to `T`. This type punning has no sound counterpart in the model.
- `operator[] const` (include/RE/VMArray.h:503-506) has an empty body with no return statement, which is undefined behaviour. `VMArrays.At` gives it the same behaviour as the mutable overload. The copy loops of the copy constructor (:393) and copy assignment (:435) read `a_rhs[i]` on a `const VMArray&`, so they go through this overload. The intended `VMArrays.CopyConstruct` and `VMArrays.CopyAssign` therefore assume this overload is repaired as well as `size()`.
- The `operator=` overloads taking a raw pointer or a shared handle (include/RE/VMArray.h:452-473) also lack a return statement. Only their effect on `_data` is modelled, by `VMArrays.Adopt` and `VMArrays.MoveAssign`.
- `data()` returns the handle. In the model that is the `data` field of `View`.
- Const and mutable iterators are not distinguished, because they hold the same position. The header's `iterator_base::operator*` returns a mutable `reference` even for the const iterator, which could not be instantiated. That detail is not modelled.
- The variant encoding (`BSScriptVariable::Pack`, `Unpack`, `==`) is not part of this model. It is replaced by a sum type and four representative codecs. Unpacking a slot of the wrong tag is undefined in the engine; each codec returns a fallback value there.
- `BSScriptArray` bounds handling and native iterators are not part of this model. `At` does not check the position. A proxy is read or written only while `Live` holds.
- The VM singleton, `GetTypeID<T>()` and `AllocateArray` are not part of this model. `Alloc` always succeeds, as the source asserts. It fills new slots with the zero of T's runtime type, which stands in for the engine's default.
- `BSTSmartPointer` reference counting and lifetime are left out: arrays are never freed from the `Store`. Self-move-assignment is not representable, because views are values.
- VMArrays.Resize: the moved-from state of the old array's slots is not modelled, because variant move semantics are not part of this model. The old array keeps its slots. It is no longer reachable from the view.
- References.AddAssignInt32: requires that the sum does not overflow, because signed overflow is undefined behaviour in C++.
- Integral element types other than 32-bit signed and unsigned are left out. Narrower types add integer promotion and conversion back, which the view itself does not define.
- Iterators.Eq: comparing or subtracting iterators from different arrays is undefined in C++. Every comparison and `Distance` therefore requires both iterators to be over the same array.
- VMArrays.CopyAssign: copying a source that has an array of 0 slots into a view without an array leaves the destination without an array. The two intended sizes are both 0, so no reallocation happens.
- `TESObjectSTAT::HasTreeLOD` (src/RE/TESObjectSTAT.cpp) is a bit test on a record flag of the surrounding form system. It lies outside this core.
- Floating-point variants carry raw bits only; no arithmetic is modelled on them.
- `BSScriptArray::size_type` and the engine's integer are taken to be 32 bits wide. BSScriptArray.h and BSScriptVariable.h are not part of this model. The 2^32 in `SIZE_LIMIT`, in `VMArrays.WrapDecrement` and in `VMArrays.BackAsWritten` rests on this assumption. For any unsigned width, the as-written `back()` asks for a position past every slot.

## Findings

| source | as written | input that shows it | evidently intended | confidence | as-written member | corrected member |
|---|---|---|---|---|---|---|
| include/RE/VMArray.h:670 | `size()` tests the handle the wrong way round: it returns 0 when an array exists and calls `size()` through null when none does | a view over a one-slot array reports size 0 (ViewLaws.AsWrittenWitnesses) | 0 without an array, else the array's length | high, not executed | VMArrays.SizeAsWritten | VMArrays.Size (ViewLaws.AtIsBeginIndex) |
| include/RE/VMArray.h:662 | `empty()` is inverted the same way: true whenever an array exists, a null call otherwise | a view over a one-slot array reports empty | empty when there is no array or the array has no slots | high, not executed | VMArrays.EmptyAsWritten | VMArrays.Empty (ViewLaws.EmptyIsBeginAtEnd) |
| include/RE/VMArray.h:390-392 | through the inverted `size()`, the copy constructor allocates 0 slots and its loop copies nothing; the loop also reads `a_rhs[i]` through the const `operator[]` (:503-506), which returns nothing, so a working copy needs both repairs | copying a one-slot view gives an empty view | a fresh array of the source's size holding its elements | high, not executed | VMArrays.CopyConstructAsWritten (ViewLaws.CopyConstructAsWrittenLosesElements) | VMArrays.CopyConstruct (ViewLaws.CopyIsIndependent) |
| include/RE/VMArray.h:429-436 | copy assignment compares 0 with 0 between two views with arrays, so it never reallocates or copies; into a view without an array it calls `size()` through null; its loop also reads `a_rhs[i]` through the const `operator[]` (:503-506), which returns nothing, so a working copy needs both repairs | assigning a view over [2] to one over [1] leaves [1]; assigning to a view with no array faults (ViewLaws.AsWrittenWitnesses) | the destination ends with the source's size and elements | high, not executed | VMArrays.CopyAssignAsWritten (ViewLaws.AsWrittenWitnesses) | VMArrays.CopyAssign |
| include/RE/VMArray.h:681 | `resize` loops to the old array's length, so shrinking writes past the end of the new array | resize(0) of a one-slot view (ViewLaws.AsWrittenWitnesses) | move the smaller of the old and new counts | high, not executed | VMArrays.ResizeAsWritten (ViewLaws.ResizeAsWrittenVersusResize) | VMArrays.Resize (ViewLaws.ResizeKeepsPrefix) |
| include/RE/VMArray.h:529 | `back()` goes through the inverted `size()`, so it asks for slot 0 - 1, which wraps to the largest `size_type` value (2^32-1 if it is 32 bits wide) | `back()` of a one-slot view is out of range | the last slot of a non-empty view | high, not executed | VMArrays.BackAsWritten | VMArrays.Back |
