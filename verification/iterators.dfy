/** The view's random-access iterators. Each one wraps the engine array's own
    iterator and forwards every operation to it, so an iterator is modelled
    as that underlying position: an engine array and a signed offset
    (`difference_type`). The const and mutable iterators hold the same thing.
    A reverse iterator is the standard adaptor over a forward one: it
    dereferences the slot just before its base. */
module Iterators {
  import opened ScriptArrays
  import opened References

  datatype Iter = Iter(arrayId: ArrayId, pos: int)

  /** `operator*`: a proxy for the slot under the iterator, which is
      `operator[](0)`. */
  function Deref(it: Iter): (r: Ref)
    ensures r == Index(it, 0)
  {
    Ref(it.arrayId, it.pos)
  }

  /** Prefix `operator++`: the iterator moved one slot forward. */
  function Inc(it: Iter): (next: Iter)
    ensures next == Add(it, 1)
  {
    it.(pos := it.pos + 1)
  }

  /** Prefix `operator--`: the iterator moved one slot back. */
  function Dec(it: Iter): (prev: Iter)
    ensures prev == Sub(it, 1) && Inc(prev) == it
  {
    it.(pos := it.pos - 1)
  }

  /** Postfix `operator++(int)`: returns the iterator as it was, and leaves
      the operand advanced. */
  function PostInc(it: Iter): (res: (Iter, Iter))
    ensures res.0 == it
    ensures res.1.arrayId == it.arrayId && Distance(res.1, it) == 1 && Dec(res.1) == it
  {
    (it, Inc(it))
  }

  /** Postfix `operator--(int)`: returns the iterator as it was, and leaves
      the operand moved back. */
  function PostDec(it: Iter): (res: (Iter, Iter))
    ensures res.0 == it
    ensures res.1.arrayId == it.arrayId && Distance(it, res.1) == 1 && Inc(res.1) == it
  {
    (it, Dec(it))
  }

  /** `operator+(difference_type)`: the iterator `k` slots further on in the
      same array, which `- k` brings back. */
  function Add(it: Iter, k: int): (r: Iter)
    ensures r.arrayId == it.arrayId && Distance(r, it) == k
    ensures Sub(r, k) == it
  {
    it.(pos := it.pos + k)
  }

  /** `operator+=`: moves the operand itself by `k`. */
  function AddAssign(it: Iter, k: int): (r: Iter)
    ensures r == Add(it, k)
  {
    Iter(it.arrayId, it.pos + k)
  }

  /** `operator-(difference_type)`: the iterator `k` slots back in the same
      array. */
  function Sub(it: Iter, k: int): (r: Iter)
    ensures r.arrayId == it.arrayId && Distance(it, r) == k
  {
    it.(pos := it.pos - k)
  }

  /** `operator-=`: moves the operand itself back by `k`. */
  function SubAssign(it: Iter, k: int): (r: Iter)
    ensures r == Sub(it, k)
  {
    Iter(it.arrayId, it.pos - k)
  }

  /** `a - b`, the distance between two iterators over the same array: zero
      exactly between equal iterators. */
  function Distance(a: Iter, b: Iter): (d: int)
    requires a.arrayId == b.arrayId
    ensures d == 0 <==> a == b
  {
    a.pos - b.pos
  }

  /** `operator[](k)`: a proxy for the slot under `it + k`. */
  function Index(it: Iter, k: int): (r: Ref)
    ensures r.arrayId == Add(it, k).arrayId && r.pos == Add(it, k).pos
  {
    Ref(it.arrayId, it.pos + k)
  }

  // The six comparisons forward to the engine iterator's comparisons, which
  // order positions within one array.

  function Eq(a: Iter, b: Iter): (r: bool)
    requires a.arrayId == b.arrayId
    ensures r <==> a == b
  {
    a.pos == b.pos
  }

  function Ne(a: Iter, b: Iter): (r: bool)
    requires a.arrayId == b.arrayId
    ensures r <==> a != b
  {
    a.pos != b.pos
  }

  function Lt(a: Iter, b: Iter): (r: bool)
    requires a.arrayId == b.arrayId
    ensures r <==> Distance(b, a) > 0
  {
    a.pos < b.pos
  }

  function Gt(a: Iter, b: Iter): (r: bool)
    requires a.arrayId == b.arrayId
    ensures r <==> Distance(a, b) > 0
  {
    a.pos > b.pos
  }

  function Le(a: Iter, b: Iter): (r: bool)
    requires a.arrayId == b.arrayId
    ensures r <==> Distance(b, a) >= 0
  {
    a.pos <= b.pos
  }

  function Ge(a: Iter, b: Iter): (r: bool)
    requires a.arrayId == b.arrayId
    ensures r <==> Distance(a, b) >= 0
  {
    a.pos >= b.pos
  }

  /** The distance law `a + (b - a) == b`, `b - a` undone by subtracting, and
      `a - b == -(b - a)`. */
  lemma DistanceLaw(a: Iter, b: Iter)
    requires a.arrayId == b.arrayId
    ensures Eq(Add(a, Distance(b, a)), b)
    ensures Sub(b, Distance(b, a)) == a
    ensures Distance(a, b) == -Distance(b, a)
  {
  }

  /** The comparisons agree with each other: `>` is flipped `<`, `<=` and
      `>=` are the negations of `>` and `<`, `!=` of `==`, and exactly one of
      `<`, `==`, `>` holds. */
  lemma ComparisonsConsistent(a: Iter, b: Iter)
    requires a.arrayId == b.arrayId
    ensures Gt(a, b) == Lt(b, a)
    ensures Le(a, b) == !Gt(a, b) && Ge(a, b) == !Lt(a, b)
    ensures Ne(a, b) == !Eq(a, b)
    ensures (Lt(a, b) && !Eq(a, b) && !Gt(a, b))
         || (!Lt(a, b) && Eq(a, b) && !Gt(a, b))
         || (!Lt(a, b) && !Eq(a, b) && Gt(a, b))
  {
  }

  /** `<` orders the iterators of one array strictly: it is transitive. */
  lemma LtTransitive(a: Iter, b: Iter, c: Iter)
    requires a.arrayId == b.arrayId == c.arrayId
    requires Lt(a, b) && Lt(b, c)
    ensures Lt(a, c)
  {
  }

  /** Stepping is offset arithmetic: `++` is `+ 1`, `--` is `- 1`, they undo
      each other, `- k` is `+ (-k)`, an offset of `j` then `k` is an offset of
      `j + k`, and `it[k]` is `*(it + k)`. */
  lemma SteppingIsOffset(it: Iter, j: int, k: int)
    ensures Inc(it) == Add(it, 1) && Dec(it) == Sub(it, 1)
    ensures Dec(Inc(it)) == it && Inc(Dec(it)) == it
    ensures Sub(it, k) == Add(it, -k)
    ensures Add(Add(it, j), k) == Add(it, j + k)
    ensures Index(it, k) == Deref(Add(it, k))
  {
  }

  // ---------------------------------------------------------------------------
  // Reverse iterators: `std::reverse_iterator` over a forward iterator.

  datatype RevIter = RevIter(base: Iter)

  /** The reverse iterator's `operator*`: the slot just before its base. */
  function RevDeref(r: RevIter): (ref: Ref)
    ensures ref == Deref(Dec(r.base))
  {
    Ref(r.base.arrayId, r.base.pos - 1)
  }

  /** The reverse iterator's `operator++`: moves its base one slot back. */
  function RevInc(r: RevIter): (next: RevIter)
    ensures next.base == Dec(r.base)
  {
    RevIter(r.base.(pos := r.base.pos - 1))
  }

  /** `k` applications of the reverse iterator's `++`. */
  function RevAdvance(r: RevIter, k: nat): (r': RevIter)
    decreases k
  {
    if k == 0 then r else RevAdvance(RevInc(r), k - 1)
  }

  /** A reverse iterator started at the end of an array of `n` slots and
      advanced `k` times dereferences slot `n - 1 - k`: reverse traversal
      visits the slots last to first. */
  lemma {:induction false} RevAdvanceFromEnd(arrayId: ArrayId, n: int, k: nat)
    ensures RevAdvance(RevIter(Iter(arrayId, n)), k) == RevIter(Iter(arrayId, n - k))
    ensures RevDeref(RevAdvance(RevIter(Iter(arrayId, n)), k)) == Ref(arrayId, n - 1 - k)
    decreases k
  {
    if k > 0 {
      RevAdvanceFromEnd(arrayId, n - 1, k - 1);
      assert RevInc(RevIter(Iter(arrayId, n))) == RevIter(Iter(arrayId, n - 1));
    }
  }
}
