/** The shape shared by the rewriting passes: visit the operations in program order, emit replacement
    operations, and let every later use refer to the replacement. */
module Walk {
  import opened Ir

  /** What one visit does: the operations placed where the visited one was, and the value that
      replaces it everywhere behind. */
  datatype Emit = Emit(ops: seq<Op>, res: nat)

  /** A visit sees the original position, the list built so far, and the operation with its operands
      already replaced. */
  type Step = (nat, Body, Op) -> Emit

  /** The rewritten list, and for each original operation the value that replaced it. */
  datatype Walked = Walked(out: Body, ren: seq<nat>)

  function Renamed(op: Op, ren: seq<nat>): (r: Op)
    requires Below(op.args, |ren|)
  {
    op.(args := Pick(ren, op.args))
  }

  /** The state in which the walk reaches operation k. */
  function Before(step: Step, b: Body, k: nat): (w: Walked)
    requires Ordered(b) && k <= |b|
    ensures |w.ren| == k
  {
    if k == 0 then Walked([], []) else
      var w := Before(step, b, k - 1);
      var e := step(k - 1, w.out, Renamed(b[k - 1], w.ren));
      Walked(w.out + e.ops, w.ren + [e.res])
  }

  function Apply(step: Step, b: Body): (w: Walked)
    requires Ordered(b)
    ensures |w.ren| == |b|
  {
    Before(step, b, |b|)
  }

  /** Operation k as the walk meets it. */
  function Visited(step: Step, b: Body, k: nat): Op
    requires Ordered(b) && k < |b|
  {
    Renamed(b[k], Before(step, b, k).ren)
  }

  function Visit(step: Step, b: Body, k: nat): Emit
    requires Ordered(b) && k < |b|
  {
    step(k, Before(step, b, k).out, Visited(step, b, k))
  }

  lemma {:induction false} BeforeNext(step: Step, b: Body, k: nat)
    requires Ordered(b) && k < |b|
    ensures Before(step, b, k + 1)
         == Walked(Before(step, b, k).out + Visit(step, b, k).ops, Before(step, b, k).ren + [Visit(step, b, k).res])
  {}

  lemma {:induction false} WalkPrefix(step: Step, b: Body, k: nat, m: nat)
    requires Ordered(b) && k <= m <= |b|
    ensures Before(step, b, k).out <= Before(step, b, m).out
    ensures Before(step, b, k).ren == Before(step, b, m).ren[..k]
  {
    if k < m {
      WalkPrefix(step, b, k, m - 1);
      BeforeNext(step, b, m - 1);
    }
  }

  /** What a visit yields stays as it is. */
  lemma {:induction false} VisitStays(step: Step, b: Body, k: nat, m: nat, e: Emit)
    requires Ordered(b) && k < m <= |b| && Visit(step, b, k) == e && e.res < |Before(step, b, k).out + e.ops|
    ensures var w, w' := Before(step, b, k), Before(step, b, m);
      w'.ren[k] == e.res < |w'.out| && w'.out[e.res] == (w.out + e.ops)[e.res]
  {
    BeforeNext(step, b, k);
    WalkPrefix(step, b, k + 1, m);
  }

  /** Each original value has a replacement of the same type. */
  ghost predicate Tracks(b: Body, w: Walked)
  {
    && |w.ren| <= |b|
    && forall k :: 0 <= k < |w.ren| ==> w.ren[k] < |w.out| && w.out[w.ren[k]].ty == b[k].ty
  }

  ghost predicate EmitOk(g: Signature, out: Body, op: Op, e: Emit)
  {
    WellTyped(g, out + e.ops) && e.res < |out + e.ops| && (out + e.ops)[e.res].ty == op.ty
  }

  /** Visit k is fine once the walk before it was. */
  ghost predicate StepTyped(g: Signature, step: Step, b: Body, k: nat)
    requires Ordered(b) && k < |b|
  {
    var w := Before(step, b, k);
    WellTyped(g, w.out) && Tracks(b, w) ==> EmitOk(g, w.out, Visited(step, b, k), Visit(step, b, k))
  }

  lemma {:induction false} RenamedOk(g: Signature, b: Body, k: nat, w: Walked)
    requires WellTyped(g, b) && k < |b|
    requires Tracks(b, w) && |w.ren| == k
    ensures Below(b[k].args, k) && OpOk(g, w.out, Renamed(b[k], w.ren))
  {
    TypedOrdered(g, b);
    var op, args := b[k], b[k].args;
    var op' := Renamed(op, w.ren);
    assert OpOk(g, b[..k], op);
    assert forall j :: 0 <= j < |args| ==> w.out[op'.args[j]].ty == b[..k][args[j]].ty;
    if Arith(op.head) {
      SameTypes(b[..k], args, w.out, op'.args);
    }
  }

  lemma {:induction false} SameTypes(b: Body, xs: seq<nat>, c: Body, ys: seq<nat>)
    requires Below(xs, |b|) && Below(ys, |c|) && |xs| == |ys|
    requires forall j :: 0 <= j < |xs| ==> b[xs[j]].ty == c[ys[j]].ty
    ensures forall ty :: SomeOperand(b, xs, ty) == SomeOperand(c, ys, ty)
    ensures InferTy(b, xs) == InferTy(c, ys)
  {
    forall ty ensures SomeOperand(b, xs, ty) == SomeOperand(c, ys, ty) {
      if j :| 0 <= j < |xs| && b[xs[j]].ty == ty {
        assert c[ys[j]].ty == ty;
      }
      if j :| 0 <= j < |ys| && c[ys[j]].ty == ty {
        assert b[xs[j]].ty == ty;
      }
    }
  }

  lemma {:induction false} TracksExtend(b: Body, w: Walked, e: Emit)
    requires Tracks(b, w) && |w.ren| < |b|
    requires e.res < |w.out + e.ops| && (w.out + e.ops)[e.res].ty == b[|w.ren|].ty
    ensures Tracks(b, Walked(w.out + e.ops, w.ren + [e.res]))
  {}

  lemma {:induction false} WalkTyped(g: Signature, step: Step, b: Body, k: nat)
    requires WellTyped(g, b) && Ordered(b) && k <= |b|
    requires forall j :: 0 <= j < k ==> StepTyped(g, step, b, j)
    ensures WellTyped(g, Before(step, b, k).out) && Tracks(b, Before(step, b, k))
  {
    if k > 0 {
      WalkTyped(g, step, b, k - 1);
      assert StepTyped(g, step, b, k - 1);
      BeforeNext(step, b, k - 1);
      TracksExtend(b, Before(step, b, k - 1), Visit(step, b, k - 1));
    }
  }

  // ---------------------------------------------------------------- values

  /** Position k of the old values is found at position ren[k] of the new ones. */
  ghost predicate Carries<T>(old_: seq<T>, new_: seq<T>, ren: seq<nat>)
  {
    && |ren| <= |old_|
    && forall k :: 0 <= k < |ren| ==> ren[k] < |new_| && new_[ren[k]] == old_[k]
  }

  lemma {:induction false} CarriesExtend<T>(old_: seq<T>, new_: seq<T>, ren: seq<nat>, new': seq<T>, r: nat)
    requires Carries(old_, new_, ren) && |ren| < |old_| && new_ <= new'
    requires r < |new'| && new'[r] == old_[|ren|]
    ensures Carries(old_, new', ren + [r])
  {}

  lemma {:induction false} CarriesPick<T>(old_: seq<T>, new_: seq<T>, ren: seq<nat>, args: seq<nat>)
    requires Carries(old_, new_, ren) && Below(args, |ren|)
    ensures Below(Pick(ren, args), |new_|) && Pick(new_, Pick(ren, args)) == Pick(old_, args)
  {}

  /** Each replacement computes what the original computed. */
  ghost predicate Agrees<T>(alg: Algebra<T>, b: Body, w: Walked)
    requires Ordered(b) && Ordered(w.out)
  {
    Carries(Run(alg, b), Run(alg, w.out), w.ren)
  }

  lemma {:induction false} RunExtends<T>(alg: Algebra<T>, b: Body, c: Body)
    requires Ordered(c) && b <= c
    ensures Ordered(b) && Run(alg, b) <= Run(alg, c)
  {
    RunPrefix(alg, c, |b|);
    assert c[..|b|] == b;
  }

  /** Reading operands through the replacement sees the original operand values. */
  lemma {:induction false} OperandsAgree<T>(alg: Algebra<T>, b: Body, k: nat, w: Walked)
    requires Ordered(b) && k < |b| && Ordered(w.out) && |w.ren| == k
    requires Agrees(alg, b, w)
    ensures Below(b[k].args, k) && Below(Pick(w.ren, b[k].args), |w.out|)
    ensures Pick(Run(alg, w.out), Pick(w.ren, b[k].args)) == Pick(Run(alg, b), b[k].args)
    ensures Run(alg, b)[k] == alg(b[k].head, Pick(Run(alg, w.out), Pick(w.ren, b[k].args)))
  {
    RunAt(alg, b, k);
    CarriesPick(Run(alg, b), Run(alg, w.out), w.ren, b[k].args);
  }

  ghost predicate StepKeeps<T(!new)>(g: Signature, step: Step, b: Body, k: nat, alg: Algebra<T>)
    requires Ordered(b) && k < |b|
  {
    var w, op, e := Before(step, b, k), Visited(step, b, k), Visit(step, b, k);
    WellTyped(g, w.out) && Tracks(b, w) && Ordered(w.out) && Ordered(w.out + e.ops) && Agrees(alg, b, w)
    ==> e.res < |w.out + e.ops| && Below(op.args, |w.out|)
        && Run(alg, w.out + e.ops)[e.res] == alg(op.head, Pick(Run(alg, w.out), op.args))
  }

  /** If no visit changes the value it is responsible for, the whole walk changes none. */
  lemma {:induction false} WalkKeeps<T(!new)>(g: Signature, step: Step, b: Body, alg: Algebra<T>, k: nat)
    requires WellTyped(g, b) && Ordered(b) && k <= |b|
    requires forall j :: 0 <= j < k ==> StepTyped(g, step, b, j)
    requires forall j :: 0 <= j < k ==> StepKeeps(g, step, b, j, alg)
    ensures Ordered(Before(step, b, k).out)
    ensures Agrees(alg, b, Before(step, b, k))
  {
    WalkTyped(g, step, b, k);
    TypedOrdered(g, Before(step, b, k).out);
    if k > 0 {
      var m := k - 1;
      WalkKeeps(g, step, b, alg, m);
      WalkTyped(g, step, b, m);
      var w, e := Before(step, b, m), Visit(step, b, m);
      assert StepKeeps(g, step, b, m, alg);
      BeforeNext(step, b, m);
      OperandsAgree(alg, b, m, w);
      RunExtends(alg, w.out, w.out + e.ops);
      CarriesExtend(Run(alg, b), Run(alg, w.out), w.ren, Run(alg, w.out + e.ops), e.res);
    }
  }

  /** The value a visit stands for is the value the visited operation had. */
  ghost predicate VisitKeeps<T>(alg: Algebra<T>, out: Body, op: Op, e: Emit)
    requires Ordered(out) && Below(op.args, |out|)
  {
    Ordered(out + e.ops) ==>
      (e.res < |out + e.ops| && Run(alg, out + e.ops)[e.res] == alg(op.head, Pick(Run(alg, out), op.args)))
  }

  lemma {:induction false} ReplaceKeeps<T>(alg: Algebra<T>, out: Body, op: Op, op': Op)
    requires Ordered(out) && Below(op.args, |out|) && Below(op'.args, |out|)
    requires alg(op'.head, Pick(Run(alg, out), op'.args)) == alg(op.head, Pick(Run(alg, out), op.args))
    ensures VisitKeeps(alg, out, op, Emit([op'], |out|))
  {
    RunAppend(alg, out, op');
  }

  lemma {:induction false} ForwardKeeps<T>(alg: Algebra<T>, out: Body, op: Op, a: nat)
    requires Ordered(out) && Below(op.args, |out|) && a < |out|
    requires Run(alg, out)[a] == alg(op.head, Pick(Run(alg, out), op.args))
    ensures VisitKeeps(alg, out, op, Emit([], a))
  {
    assert out + [] == out;
  }

  /** Emitted operations only refer to earlier ones, and so does the replacement. */
  ghost predicate Links(out: Body, op: Op, e: Emit)
  {
    Ordered(out) && Below(op.args, |out|) ==> Ordered(out + e.ops) && e.res < |out + e.ops|
  }

  lemma {:induction false} WalkOrdered(step: Step, b: Body, k: nat)
    requires Ordered(b) && k <= |b|
    requires forall j: nat, out: Body, op: Op :: j < k ==> Links(out, op, step(j, out, op))
    ensures var w := Before(step, b, k); Ordered(w.out) && Below(w.ren, |w.out|)
  {
    if k > 0 {
      WalkOrdered(step, b, k - 1);
      var w := Before(step, b, k - 1);
      BeforeNext(step, b, k - 1);
      assert Links(w.out, Visited(step, b, k - 1), Visit(step, b, k - 1));
    }
  }

  lemma {:induction false} LinksReplace(out: Body, op: Op, op': Op)
    requires Below(op.args, |out|) ==> Below(op'.args, |out|)
    ensures Links(out, op, Emit([op'], |out|))
  {}

  lemma {:induction false} LinksForward(out: Body, op: Op, a: nat)
    requires Ordered(out) && Below(op.args, |out|) ==> a < |out|
    ensures Links(out, op, Emit([], a))
  {
    assert out + [] == out;
  }

  /** If each visit translates its operation from one algebra to the other, the walk translates the
      whole body: what the old body computes in `a` is what the new one computes in `c`. */
  lemma {:induction false} WalkTranslates<T(!new)>(step: Step, b: Body, a: Algebra<T>, c: Algebra<T>, k: nat)
    requires Ordered(b) && k <= |b| && Ordered(Before(step, b, k).out)
    requires forall j :: 0 <= j < k ==> VisitTranslates(step, b, a, c, j)
    ensures Carries(Run(a, b), Run(c, Before(step, b, k).out), Before(step, b, k).ren)
  {
    if k > 0 {
      var m := k - 1;
      var w, e := Before(step, b, m), Visit(step, b, m);
      BeforeNext(step, b, m);
      RunExtends(c, w.out, w.out + e.ops);
      WalkTranslates(step, b, a, c, m);
      assert VisitTranslates(step, b, a, c, m);
      RunAt(a, b, m);
      CarriesPick(Run(a, b), Run(c, w.out), w.ren, b[m].args);
      CarriesExtend(Run(a, b), Run(c, w.out), w.ren, Run(c, w.out + e.ops), e.res);
    }
  }

  ghost predicate VisitTranslates<T>(step: Step, b: Body, a: Algebra<T>, c: Algebra<T>, k: nat)
    requires Ordered(b) && k < |b|
  {
    var w, op, e := Before(step, b, k), Visited(step, b, k), Visit(step, b, k);
    Ordered(w.out) && Ordered(w.out + e.ops) && Below(w.ren, |w.out|) ==>
      e.res < |w.out + e.ops| && Below(op.args, |w.out|)
      && Run(c, w.out + e.ops)[e.res] == a(op.head, Pick(Run(c, w.out), op.args))
  }

  lemma {:induction false} OntoNext(ren: seq<nat>, res: nat, q: nat)
    requires q in ren || q == res
    ensures q in ren + [res]
  {
    assert (ren + [res])[|ren|] == res;
    if q in ren {
      var j :| 0 <= j < |ren| && ren[j] == q;
      assert (ren + [res])[j] == q;
    }
  }

  /** A walk that keeps the final return keeps it in final place. */
  lemma {:induction false} LastStaysLast(step: Step, b: Body)
    requires Ordered(b) && b != []
    requires var k := |b| - 1;
      Visit(step, b, k) == Emit([Visited(step, b, k)], |Before(step, b, k).out|)
    ensures var w := Apply(step, b);
      w.out != [] && w.ren[|b| - 1] == |w.out| - 1 && w.out[|w.out| - 1] == Visited(step, b, |b| - 1)
  {
    BeforeNext(step, b, |b| - 1);
  }
}
