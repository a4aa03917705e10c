/** Functions that compute on whole vectors only, except for one slot read at the end. */
module Vectors {
  import opened Ir
  import opened Folding
  import opened Dce
  import opened Terms
  import opened Cse
  import Combining
  import Pipeline

  /** Rotations and arithmetic over vector parameters. */
  predicate Vec(g: Signature, t: Term)
  {
    if t.head.Arg? then t.kids == [] && t.head.arg < |g.params| && g.params[t.head.arg] == Batched
    else (Arith(t.head) || (t.head.Rotate? && |t.kids| == 1)) && t.kids != [] && forall j :: 0 <= j < |t.kids| ==> Vec(g, t.kids[j])
  }

  /** One slot of such a vector. */
  predicate Lane(g: Signature, t: Term)
  {
    t.head.Extract? && 0 <= t.head.i < g.n && |t.kids| == 1 && Vec(g, t.kids[0])
  }

  predicate VecReturn(g: Signature, r: Term)
  {
    r.head.Return? && |r.kids| == 1 && (Vec(g, r.kids[0]) || Lane(g, r.kids[0]))
  }

  predicate VecPart(g: Signature, t: Term) { Vec(g, t) || Lane(g, t) || VecReturn(g, t) }

  lemma {:induction false} VecKid(g: Signature, t: Term, j: nat)
    requires VecPart(g, t) && j < |t.kids|
    ensures VecPart(g, t.kids[j]) && !t.kids[j].head.Return?
  {
    assert Vec(g, t.kids[j]) ==> !t.kids[j].head.Return?;
  }

  lemma {:induction false} VecWithin(g: Signature, t: Term, r: Term)
    requires Within(t, r) && VecPart(g, r)
    ensures VecPart(g, t) && (t != r ==> !t.head.Return?)
    decreases r
  {
    if t != r {
      var j :| 0 <= j < |r.kids| && Within(t, r.kids[j]);
      VecKid(g, r, j);
      VecWithin(g, t, r.kids[j]);
    }
  }

  ghost predicate VecBody(g: Signature, b: Body)
  {
    WellTyped(g, b) && Ordered(b) && EndsInReturn(b) && AllLive(b) && VecReturn(g, Result(Unfold(), b))
  }

  lemma {:induction false} VecLive(g: Signature, b: Body, k: nat)
    requires VecBody(g, b) && k < |b|
    ensures VecPart(g, Run(Unfold(), b)[k]) && b[k].head == Run(Unfold(), b)[k].head
  {
    TermAt(b, k);
    assert Within(Run(Unfold(), b)[k], Result(Unfold(), b));
    VecWithin(g, Run(Unfold(), b)[k], Result(Unfold(), b));
  }

  lemma {:induction false} VecTyped(g: Signature, b: Body, k: nat)
    requires WellTyped(g, b) && Ordered(b) && k < |b| && Vec(g, Run(Unfold(), b)[k])
    ensures b[k].ty == Batched
    decreases k
  {
    TermAt(b, k);
    assert OpOk(g, b[..k], b[k]);
    if Arith(b[k].head) {
      VecTyped(g, b, b[k].args[0]);
      assert b[..k][b[k].args[0]].ty == Batched;
      assert SomeOperand(b[..k], b[k].args, Batched);
    }
  }

  lemma {:induction false} VecTame(g: Signature, t: Term)
    requires VecPart(g, t)
    ensures Tame(g.n, t)
    decreases t
  {
    forall j | 0 <= j < |t.kids| ensures Tame(g.n, t.kids[j]) {
      VecKid(g, t, j);
      VecTame(g, t.kids[j]);
    }
  }

  lemma {:induction false} VecClean(g: Signature, t: Term)
    requires VecPart(g, t) && !t.head.Return?
    ensures Clean(t)
    decreases t
  {
    forall j | 0 <= j < |t.kids| ensures Clean(t.kids[j]) {
      VecKid(g, t, j);
      VecClean(g, t.kids[j]);
    }
  }

  lemma {:induction false} VecReturnOnly(g: Signature, r: Term)
    requires VecReturn(g, r)
    ensures ReturnOnly(r)
  {
    VecKid(g, r, 0);
    VecClean(g, r.kids[0]);
  }

  /** Without combines there is nothing to simplify. */
  lemma {:induction false} SimplifyIdle(b: Body)
    requires Ordered(b) && EndsInReturn(b) && forall k :: 0 <= k < |b| ==> !b[k].head.Combine?
    ensures Pipeline.Simplified(b) == b
  {
    Combining.SimplifyInPlace(b, |b|);
    forall k | 0 <= k < |b| ensures Pipeline.Simplified(b)[k] == b[k] {
      Combining.SimplifyAt(b, k);
    }
  }

  /** Cleanup and merging of such a function: its folded term, one operation for each subterm. */
  lemma {:induction false} CleanVec(g: Signature, b: Body)
    requires WellTyped(g, b) && Ordered(b) && EndsInReturn(b) && VecReturn(g, Result(Unfold(), b))
    requires VecReturn(g, EvalTerm(FoldTop(g.n), Result(Unfold(), b)))
    ensures var r := Pipeline.Deduplicate(Canonical(g.n, b));
      VecBody(g, r) && TermUnique(r) && OneReturn(r) && Result(Unfold(), r) == EvalTerm(FoldTop(g.n), Result(Unfold(), b))
  {
    VecTame(g, Result(Unfold(), b));
    VecReturnOnly(g, EvalTerm(FoldTop(g.n), Result(Unfold(), b)));
    CleanTame(g, b);
  }

  /** Merging, simplifying and cleaning up once more changes nothing when nothing is left to fold. */
  lemma {:induction false} CleanAgain(g: Signature, b: Body)
    requires VecBody(g, b) && TermUnique(b) && OneReturn(b) && NoFold(g.n, Result(Unfold(), b))
    ensures var r := Canonical(g.n, Pipeline.Deduplicate(Pipeline.Simplified(b)));
      VecBody(g, r) && TermUnique(r) && Result(Unfold(), r) == Result(Unfold(), b)
  {
    forall k | 0 <= k < |b| ensures !b[k].head.Combine? { VecLive(g, b, k); }
    SimplifyIdle(b);
    VecReturnOnly(g, Result(Unfold(), b));
    MergeUnique(g, b);
    MergeTerm(g, b);
    NoFoldFixed(g.n, Result(Unfold(), b));
    VecTame(g, Result(Unfold(), b));
    CanonicalTame(g, Pipeline.Deduplicate(b));
    CanonicalUnique(g, Pipeline.Deduplicate(b));
  }
}
