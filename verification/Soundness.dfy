/** The pass sequence on any function: under which conditions, stage by stage, it keeps what the function returns. */
module Soundness {
  import opened Ir
  import opened Walk
  import opened Meaning
  import opened Folding
  import opened Dce
  import opened Terms
  import opened Nary
  import opened Unnested
  import opened Batching
  import opened Pipeline
  import opened NormalForms
  import Cse
  import Combining
  import Internal

  /** A well-typed function that returns what b returns. */
  ghost predicate Keeps(g: Signature, inp: nat -> Val, b: Body, c: Body)
  {
    && Ordered(b) && b != [] && WellTyped(g, c) && Ordered(c) && EndsInReturn(c)
    && Result(Denote(g.n, inp), c) == Result(Denote(g.n, inp), b)
  }

  lemma {:induction false} KeepsTrans(g: Signature, inp: nat -> Val, b: Body, c: Body, d: Body)
    requires Keeps(g, inp, b, c) && Keeps(g, inp, c, d)
    ensures Keeps(g, inp, b, d)
  {}

  lemma {:induction false} AgreesKeeps(g: Signature, inp: nat -> Val, b: Body, w: Walked)
    requires Ordered(b) && b != [] && WellTyped(g, w.out) && Ordered(w.out) && EndsInReturn(w.out) && |w.ren| == |b|
    requires Agrees(Denote(g.n, inp), b, w) && w.ren[|b| - 1] == |w.out| - 1
    ensures Keeps(g, inp, b, w.out)
  {}

  // ---------------------------------------------------------------- the stages

  /** What is left after removing dead operations is safe to fold. */
  ghost predicate FoldsSafe(g: Signature, b: Body)
    requires Ordered(b) && b != []
  {
    AllFoldSafe(g, Prune(b))
  }

  lemma {:induction false} CanonicalKeeps(g: Signature, inp: nat -> Val, b: Body)
    requires WellTyped(g, b) && Ordered(b) && EndsInReturn(b) && InputsOk(g, inp) && FoldsSafe(g, b)
    ensures Keeps(g, inp, b, Canonical(g.n, b))
  {
    var alg, p := Denote(g.n, inp), Prune(b);
    PruneCorrect(g, alg, b);
    FoldCorrect(g, p, inp);
    FoldEnds(g.n, p);
    AgreesKeeps(g, inp, p, FoldAll(g.n, p));
    PruneCorrect(g, alg, FoldAll(g.n, p).out);
    TypedOrdered(g, Canonical(g.n, b));
  }

  lemma {:induction false} CanonicalLive(g: Signature, inp: nat -> Val, b: Body)
    requires WellTyped(g, b) && Ordered(b) && EndsInReturn(b) && InputsOk(g, inp) && FoldsSafe(g, b)
    ensures AllLive(Canonical(g.n, b))
  {
    var p := Prune(b);
    PruneCorrect(g, Denote(g.n, inp), b);
    FoldCorrect(g, p, inp);
    FoldEnds(g.n, p);
    PruneLive(g, FoldAll(g.n, p).out);
  }

  lemma {:induction false} DeduplicateKeeps(g: Signature, inp: nat -> Val, b: Body)
    requires WellTyped(g, b) && Ordered(b) && EndsInReturn(b)
    ensures Keeps(g, inp, b, Deduplicate(b))
  {
    Cse.MergeCorrect(g, b, Denote(g.n, inp));
    MergeEnds(b);
    AgreesKeeps(g, inp, b, Cse.Merge(b));
  }

  /** No addition and no product lists another twice, and no difference lists a difference. */
  ghost predicate FlatSafe(b: Body)
    requires Ordered(b)
  {
    NoDup(Add, b, 0) && var c := Sweep(Add, b, 0).out; NoNest(Sub, c, 0) && NoDup(Mul, c, 0)
  }

  lemma {:induction false} FlattenKeeps(g: Signature, inp: nat -> Val, b: Body)
    requires WellTyped(g, b) && Ordered(b) && EndsInReturn(b) && FlatSafe(b)
    ensures Keeps(g, inp, b, Flatten(b))
  {
    var c := Sweep(Add, b, 0).out;
    SweepKept(g, inp, Add, b);
    SweepIdle(Sub, c, 0);
    SweepKept(g, inp, Mul, c);
    KeepsTrans(g, inp, b, c, Sweep(Mul, c, 0).out);
  }

  lemma {:induction false} SweepKept(g: Signature, inp: nat -> Val, kind: Head, b: Body)
    requires WellTyped(g, b) && Ordered(b) && EndsInReturn(b) && (kind == Add || kind == Mul) && NoDup(kind, b, 0)
    ensures Keeps(g, inp, b, Sweep(kind, b, 0).out)
  {
    NaryCorrect(g, kind, b, inp);
    SweepTyped(g, kind, b, 0);
  }

  lemma {:induction false} SlottedKeeps(g: Signature, inp: nat -> Val, o: UseOrder, b: Body)
    requires WellTyped(g, b) && Ordered(b) && EndsInReturn(b) && g.n > 0 && InputsOk(g, inp) && Enumerates(o) && AllBatchable(b)
    ensures Keeps(g, inp, b, Slotted(o, b))
  {
    BatchCorrect(g, o, b, inp);
    BatchEnds(o, b);
    AgreesKeeps(g, inp, b, Batch(o, b));
  }

  lemma {:induction false} SimplifiedKeeps(g: Signature, inp: nat -> Val, b: Body)
    requires WellTyped(g, b) && Ordered(b) && EndsInReturn(b)
    ensures Keeps(g, inp, b, Simplified(b))
  {
    Combining.SimplifyCorrect(g, b, inp);
    SimplifyEnds(b);
    AgreesKeeps(g, inp, b, Combining.Simplify(b));
  }

  lemma {:induction false} ReducedKeeps(g: Signature, inp: nat -> Val, b: Body)
    requires WellTyped(g, b) && Ordered(b) && EndsInReturn(b) && g.n > 0 && InputsOk(g, inp) && Internal.AllSafeInternal(g, b)
    ensures Keeps(g, inp, b, Reduced(b))
  {
    Internal.InternalCorrect(g, b, inp);
    InternalEnds(b);
    AgreesKeeps(g, inp, b, Internal.InternalBatch(b));
  }

  // ---------------------------------------------------------------- the sequence

  ghost predicate PrepareSafe(g: Signature, b: Body)
    requires Ordered(b) && EndsInReturn(b)
  {
    && FoldsSafe(g, b)
    && var merged := Deduplicate(Canonical(g.n, b));
    && FlatSafe(merged) && FoldsSafe(g, Flatten(merged)) && FoldsSafe(g, Canonical(g.n, Flatten(merged)))
  }

  lemma {:induction false} PrepareKeeps(g: Signature, inp: nat -> Val, b: Body)
    requires WellTyped(g, b) && Ordered(b) && EndsInReturn(b) && InputsOk(g, inp) && PrepareSafe(g, b)
    ensures Keeps(g, inp, b, Prepare(g.n, b))
  {
    var c := Canonical(g.n, b);
    var d := Deduplicate(c);
    var e := Flatten(d);
    var f := Canonical(g.n, e);
    CanonicalKeeps(g, inp, b);
    DeduplicateKeeps(g, inp, c);
    KeepsTrans(g, inp, b, c, d);
    FlattenKeeps(g, inp, d);
    KeepsTrans(g, inp, b, d, e);
    CanonicalKeeps(g, inp, e);
    KeepsTrans(g, inp, b, e, f);
    CanonicalKeeps(g, inp, f);
    KeepsTrans(g, inp, b, f, Canonical(g.n, f));
    DeduplicateKeeps(g, inp, Canonical(g.n, f));
    KeepsTrans(g, inp, b, Canonical(g.n, f), Prepare(g.n, b));
  }

  ghost predicate VectorizeSafe(g: Signature, o: UseOrder, b: Body)
    requires Ordered(b) && EndsInReturn(b)
  {
    && AllBatchable(b) && FoldsSafe(g, Slotted(o, b))
    && FoldsSafe(g, Deduplicate(Simplified(Deduplicate(Canonical(g.n, Slotted(o, b))))))
  }

  lemma {:induction false} VectorizeKeeps(g: Signature, inp: nat -> Val, o: UseOrder, b: Body)
    requires WellTyped(g, b) && Ordered(b) && EndsInReturn(b) && g.n > 0 && InputsOk(g, inp) && Enumerates(o) && VectorizeSafe(g, o, b)
    ensures Keeps(g, inp, b, Vectorize(g.n, o, b))
  {
    var c := Slotted(o, b);
    var d := Canonical(g.n, c);
    var e := Deduplicate(d);
    var f := Simplified(e);
    var h := Deduplicate(f);
    SlottedKeeps(g, inp, o, b);
    CanonicalKeeps(g, inp, c);
    KeepsTrans(g, inp, b, c, d);
    DeduplicateKeeps(g, inp, d);
    KeepsTrans(g, inp, b, d, e);
    SimplifiedKeeps(g, inp, e);
    KeepsTrans(g, inp, b, e, f);
    DeduplicateKeeps(g, inp, f);
    KeepsTrans(g, inp, b, f, h);
    CanonicalKeeps(g, inp, h);
    KeepsTrans(g, inp, b, h, Vectorize(g.n, o, b));
  }

  /** Every stage meets its pass's condition. */
  ghost predicate StagesSafe(g: Signature, o: UseOrder, b: Body)
    requires Ordered(b) && EndsInReturn(b) && g.n > 0
  {
    && PrepareSafe(g, b)
    && VectorizeSafe(g, o, Prepare(g.n, b))
    && var v := Vectorize(g.n, o, Prepare(g.n, b)); Internal.AllSafeInternal(g, v) && FoldsSafe(g, Reduced(v))
  }

  /** Whatever the function: if every stage meets its pass's condition, the pass sequence keeps its result on all
      inputs, and the function stays well typed; nothing in it is dead, and no operation but a return is there
      twice. */
  lemma {:induction false} OptimizeKeeps(g: Signature, inp: nat -> Val, o: UseOrder, b: Body)
    requires WellTyped(g, b) && Ordered(b) && EndsInReturn(b) && g.n > 0 && InputsOk(g, inp) && Enumerates(o) && StagesSafe(g, o, b)
    ensures var out := Optimize(g.n, o, b);
      WellTyped(g, out) && EndsInReturn(out) && Result(Denote(g.n, inp), out) == Result(Denote(g.n, inp), b)
    ensures AllLive(Optimize(g.n, o, b)) && Cse.Distinct(Optimize(g.n, o, b))
  {
    var p := Prepare(g.n, b);
    var v := Vectorize(g.n, o, p);
    var r := Reduced(v);
    PrepareKeeps(g, inp, b);
    VectorizeKeeps(g, inp, o, p);
    KeepsTrans(g, inp, b, p, v);
    ReducedKeeps(g, inp, v);
    KeepsTrans(g, inp, b, v, r);
    CanonicalKeeps(g, inp, r);
    KeepsTrans(g, inp, b, r, Canonical(g.n, r));
    DeduplicateKeeps(g, inp, Canonical(g.n, r));
    KeepsTrans(g, inp, b, Canonical(g.n, r), Optimize(g.n, o, b));
    CanonicalLive(g, inp, r);
    MergeLive(g, Canonical(g.n, r));
    OptimizeDistinct(g.n, o, b);
  }
}
