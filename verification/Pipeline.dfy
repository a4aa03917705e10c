/** The middle end as a whole: the passes between loop unrolling and lowering, in their order. */
module Pipeline {
  import opened Ir
  import opened Walk
  import opened Nary
  import opened Batching
  import opened Terms
  import Cse
  import Combining
  import Internal

  lemma {:induction false} BatchEnds(o: UseOrder, b: Body)
    requires Ordered(b) && EndsInReturn(b)
    ensures var w := Batch(o, b); EndsInReturn(w.out) && w.ren[|b| - 1] == |w.out| - 1
  {
    var step, k := BatchStep(o, b), |b| - 1;
    BatchVisits(o, b, k);
    assert Visit(step, b, k) == Emit([Visited(step, b, k)], |Before(step, b, k).out|);
    LastStaysLast(step, b);
  }

  lemma {:induction false} SimplifyEnds(b: Body)
    requires Ordered(b) && EndsInReturn(b)
    ensures var w := Combining.Simplify(b); EndsInReturn(w.out) && w.ren[|b| - 1] == |w.out| - 1
  {
    var step, k := Combining.SimplifyStep(), |b| - 1;
    assert Visit(step, b, k) == Emit([Visited(step, b, k)], |Before(step, b, k).out|);
    LastStaysLast(step, b);
  }

  lemma {:induction false} InternalEnds(b: Body)
    requires Ordered(b) && EndsInReturn(b)
    ensures var w := Internal.InternalBatch(b); EndsInReturn(w.out) && w.ren[|b| - 1] == |w.out| - 1
  {
    var step, k := Internal.InternalStep(), |b| - 1;
    assert Visit(step, b, k) == Emit([Visited(step, b, k)], |Before(step, b, k).out|);
    LastStaysLast(step, b);
  }

  /** The n-ary pass: additions, then subtractions, then multiplications. */
  function Flatten(b: Body): (r: Body)
    requires Ordered(b) && EndsInReturn(b)
    ensures Ordered(r) && EndsInReturn(r)
  {
    SweepLast(Add, b, 0);
    var b1 := Sweep(Add, b, 0).out;
    SweepLast(Sub, b1, 0);
    var b2 := Sweep(Sub, b1, 0).out;
    SweepLast(Mul, b2, 0);
    Sweep(Mul, b2, 0).out
  }

  function Deduplicate(b: Body): (r: Body)
    requires Ordered(b) && EndsInReturn(b)
    ensures Ordered(r) && EndsInReturn(r)
  {
    MergeEnds(b);
    Cse.Merge(b).out
  }

  function Slotted(o: UseOrder, b: Body): (r: Body)
    requires Ordered(b) && EndsInReturn(b)
    ensures Ordered(r) && EndsInReturn(r)
  {
    BatchEnds(o, b);
    Batch(o, b).out
  }

  function Simplified(b: Body): (r: Body)
    requires Ordered(b) && EndsInReturn(b)
    ensures Ordered(r) && EndsInReturn(r)
  {
    SimplifyEnds(b);
    Combining.Simplify(b).out
  }

  function Reduced(b: Body): (r: Body)
    requires Ordered(b) && EndsInReturn(b)
    ensures Ordered(r) && EndsInReturn(r)
  {
    InternalEnds(b);
    Internal.InternalBatch(b).out
  }

  /** Cleanup, flattening, cleanup: what the batching pass gets to see. */
  function Prepare(n: nat, b: Body): (r: Body)
    requires Ordered(b) && EndsInReturn(b)
    ensures Ordered(r) && EndsInReturn(r)
  {
    Deduplicate(Canonical(n, Canonical(n, Flatten(Deduplicate(Canonical(n, b))))))
  }

  /** From batching to the simplified combines: what the internal batching pass gets to see. */
  function Vectorize(n: nat, o: UseOrder, b: Body): (r: Body)
    requires Ordered(b) && EndsInReturn(b)
    ensures Ordered(r) && EndsInReturn(r)
  {
    Canonical(n, Deduplicate(Simplified(Deduplicate(Canonical(n, Slotted(o, b))))))
  }

  /** The whole pipeline; `o` is the order in which users are enumerated, which no pass controls. */
  function Optimize(n: nat, o: UseOrder, b: Body): (r: Body)
    requires Ordered(b) && EndsInReturn(b)
    ensures Ordered(r) && EndsInReturn(r)
  {
    Deduplicate(Canonical(n, Reduced(Vectorize(n, o, Prepare(n, b)))))
  }
}
