/** Client-side traversals of a view with its iterators, as a range-for or a
    `std::copy(v.begin(), v.end(), ...)` would walk it, forwards and with the
    reverse iterators. */
module Traversals {
  import opened Outcomes
  import opened Variants
  import opened ScriptArrays
  import opened References
  import opened Iterators
  import opened VMArrays
  import opened ViewLaws

  /** Walks `begin()` to `end()` with `++`, reading every proxy as T: the
      view's contents in order. A view without a backing array trips the
      assertion in `begin()`. */
  method Elements<T(!new)>(st: Store, v: View, c: Codec<T>) returns (r: Result<seq<T>>)
    requires Valid(st) && Tracks(st, v)
    ensures r.Err? <==> v.data.None?
    ensures r.Ok? ==> r.value == Contents(st, v, c)
  {
    var b := Begin(st, v);
    if b.Err? {
      return Err(b.fault);
    }
    var e := End(st, v).value;
    var it := b.value;
    var xs: seq<T> := [];
    while Ne(it, e)
      invariant it.arrayId == e.arrayId == v.data.value
      invariant 0 <= it.pos <= e.pos
      invariant |xs| == it.pos
      invariant forall k :: 0 <= k < |xs| ==> xs[k] == Contents(st, v, c)[k]
      decreases e.pos - it.pos
    {
      xs := xs + [Read(st, Deref(it), c)];
      it := Inc(it);
    }
    return Ok(xs);
  }

  /** Walks `rbegin()` to `rend()` with the reverse iterator's `++`: the
      view's contents last to first. */
  method ElementsReversed<T(!new)>(st: Store, v: View, c: Codec<T>) returns (r: Result<seq<T>>)
    requires Valid(st) && Tracks(st, v)
    ensures r.Err? <==> v.data.None?
    ensures r.Ok? ==> |r.value| == Size(st, v)
    ensures r.Ok? ==> forall k :: 0 <= k < |r.value| ==>
              r.value[k] == Contents(st, v, c)[Size(st, v) - 1 - k]
  {
    var rb := RBegin(st, v);
    if rb.Err? {
      return Err(rb.fault);
    }
    var re := REnd(st, v).value;
    var it := rb.value;
    var n := Size(st, v);
    var ys: seq<T> := [];
    while Ne(it.base, re.base)
      invariant it.base.arrayId == re.base.arrayId == v.data.value
      invariant re.base.pos == 0 && 0 <= it.base.pos <= n
      invariant |ys| == n - it.base.pos
      invariant forall k :: 0 <= k < |ys| ==> ys[k] == Contents(st, v, c)[n - 1 - k]
      decreases it.base.pos
    {
      ys := ys + [Read(st, RevDeref(it), c)];
      it := RevInc(it);
    }
    return Ok(ys);
  }

  /** An integer view allocated with three slots (all 0), then written
      `v[0] = 10; v[1] = 20; v[2] = 30;`: forward iteration yields
      10, 20, 30 and reverse iteration 30, 20, 10. */
  method ThreeElementScenario() returns (forward: seq<Int32>, backward: seq<Int32>)
    ensures forward == [10, 20, 30]
    ensures backward == [30, 20, 10]
  {
    RepresentativeCodecsRoundTrip();
    var st0 := Store(map[], 0);
    var (st1, v) := Resize(st0, DefaultView(), 3, Int32Codec);
    assert Contents(st1, v, Int32Codec) == [0, 0, 0];
    AssignThroughAt(st1, v, 0, Int32Codec, 10);
    var st2 := Assign(st1, At(st1, v, 0, Int32Codec).value, Int32Codec, 10);
    assert Contents(st2, v, Int32Codec) == [10, 0, 0];
    AssignThroughAt(st2, v, 1, Int32Codec, 20);
    var st3 := Assign(st2, At(st2, v, 1, Int32Codec).value, Int32Codec, 20);
    assert Contents(st3, v, Int32Codec) == [10, 20, 0];
    AssignThroughAt(st3, v, 2, Int32Codec, 30);
    var st4 := Assign(st3, At(st3, v, 2, Int32Codec).value, Int32Codec, 30);
    assert Contents(st4, v, Int32Codec) == [10, 20, 30];
    var f := Elements(st4, v, Int32Codec);
    var b := ElementsReversed(st4, v, Int32Codec);
    forward, backward := f.value, b.value;
  }
}
