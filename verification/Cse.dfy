/** Common subexpression elimination: operations with equal opcode and operands are merged. */
module Cse {
  import opened Ir
  import opened Walk

  function Find(b: Body, op: Op): (k: nat)
    ensures k <= |b|
    ensures k < |b| ==> b[k] == op
    ensures k == |b| ==> op !in b
  {
    if b == [] then 0 else
      var m := |b| - 1;
      assert b == b[..m] + [b[m]];
      var k := Find(b[..m], op);
      if k < m then k else if b[m] == op then m else |b|
  }

  function CseVisit(out: Body, op: Op): Emit
  {
    if op.head.Return? then Emit([op], |out|)
    else if Find(out, op) < |out| then Emit([], Find(out, op))
    else Emit([op], |out|)
  }

  function CseStep(): Step { (k: nat, out: Body, op: Op) => CseVisit(out, op) }

  function Merge(b: Body): (w: Walked)
    requires Ordered(b)
    ensures Ordered(w.out) && |w.ren| == |b| && Below(w.ren, |w.out|)
  {
    MergeOrdered(b);
    Apply(CseStep(), b)
  }

  lemma {:induction false} MergeOrdered(b: Body)
    requires Ordered(b)
    ensures var w := Apply(CseStep(), b); Ordered(w.out) && Below(w.ren, |w.out|)
  {
    forall j: nat, out: Body, op: Op | j < |b| ensures Links(out, op, CseStep()(j, out, op)) {
      LinksReplace(out, op, op);
      if Find(out, op) < |out| { LinksForward(out, op, Find(out, op)); }
    }
    WalkOrdered(CseStep(), b, |b|);
  }

  /** No operation but a return occurs twice. */
  ghost predicate Distinct(b: Body)
  {
    forall i, j :: 0 <= i < j < |b| && !b[i].head.Return? ==> b[i] != b[j]
  }

  lemma {:induction false} CseVisitOk<T>(g: Signature, alg: Algebra<T>, out: Body, op: Op)
    requires WellTyped(g, out) && Ordered(out) && OpOk(g, out, op)
    ensures EmitOk(g, out, op, CseVisit(out, op)) && VisitKeeps(alg, out, op, CseVisit(out, op))
  {
    TypedAppend(g, out, op);
    ReplaceKeeps(alg, out, op, op);
    var k := Find(out, op);
    if k < |out| {
      assert out + [] == out;
      RunAt(alg, out, k);
      ForwardKeeps(alg, out, op, k);
    }
  }

  /** Merging keeps every value, in every algebra: unfolded terms included. */
  lemma {:induction false} MergeCorrect<T(!new)>(g: Signature, b: Body, alg: Algebra<T>)
    requires WellTyped(g, b) && Ordered(b)
    ensures var w := Merge(b); WellTyped(g, w.out) && Ordered(w.out) && Tracks(b, w) && Agrees(alg, b, w)
  {
    forall k | 0 <= k < |b| ensures StepTyped(g, CseStep(), b, k) && StepKeeps(g, CseStep(), b, k, alg) {
      var w := Before(CseStep(), b, k);
      if WellTyped(g, w.out) && Tracks(b, w) {
        TypedOrdered(g, w.out);
        RenamedOk(g, b, k, w);
        CseVisitOk(g, alg, w.out, Visited(CseStep(), b, k));
      }
    }
    WalkTyped(g, CseStep(), b, |b|);
    WalkKeeps(g, CseStep(), b, alg, |b|);
  }

  lemma {:induction false} MergeDistinct(b: Body, k: nat)
    requires Ordered(b) && k <= |b|
    ensures Distinct(Before(CseStep(), b, k).out)
  {
    if k > 0 {
      MergeDistinct(b, k - 1);
      BeforeNext(CseStep(), b, k - 1);
      var w, op := Before(CseStep(), b, k - 1), Visited(CseStep(), b, k - 1);
      assert Visit(CseStep(), b, k - 1) == CseVisit(w.out, op);
      if op.head.Return? {
        assert forall i :: 0 <= i < |w.out| && !w.out[i].head.Return? ==> w.out[i] != op;
      }
    }
  }

  /** The type of an operation follows from its opcode and operands. */
  lemma {:induction false} TypeDetermined(g: Signature, b: Body, i: nat, j: nat)
    requires WellTyped(g, b) && Ordered(b) && i < |b| && j < |b|
    requires b[i].head == b[j].head && b[i].args == b[j].args
    ensures b[i].ty == b[j].ty
  {
    assert OpOk(g, b[..i], b[i]) && OpOk(g, b[..j], b[j]);
    if Arith(b[i].head) {
      SameTypes(b[..i], b[i].args, b[..j], b[j].args);
    }
  }

  /** After merging, distinct operations compute distinct terms. */
  lemma {:induction false} TermsDistinct(g: Signature, b: Body, i: nat, j: nat)
    requires WellTyped(g, b) && Ordered(b) && Distinct(b) && i < |b| && j < |b|
    requires Run(Unfold(), b)[i] == Run(Unfold(), b)[j] && !b[i].head.Return?
    requires forall k, a :: 0 <= k < |b| && a in b[k].args ==> !b[a].head.Return?
    ensures i == j
    decreases i
  {
    RunAt(Unfold(), b, i);
    RunAt(Unfold(), b, j);
    var t, xs, ys := Run(Unfold(), b), b[i].args, b[j].args;
    assert Pick(t, xs) == Pick(t, ys);
    forall k | 0 <= k < |xs| ensures xs[k] == ys[k] {
      assert t[xs[k]] == Pick(t, xs)[k] == Pick(t, ys)[k] == t[ys[k]];
      assert xs[k] in xs;
      TermsDistinct(g, b, xs[k], ys[k]);
    }
    assert xs == ys;
    TypeDetermined(g, b, i, j);
  }
}
