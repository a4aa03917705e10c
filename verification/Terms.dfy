/** How the passes act on the tree a value unfolds to. */
module Terms {
  import opened Ir
  import opened Walk
  import opened Folding
  import opened Cse
  import opened Dce

  lemma {:induction false} TermAt(b: Body, k: nat)
    requires Ordered(b) && k < |b|
    ensures Run(Unfold(), b)[k] == Node(b[k].head, Pick(Run(Unfold(), b), b[k].args))
    ensures |Run(Unfold(), b)[k].kids| == |b[k].args|
    ensures forall j :: 0 <= j < |b[k].args| ==> b[k].args[j] < k && Run(Unfold(), b)[k].kids[j] == Run(Unfold(), b)[b[k].args[j]]
  {
    RunAt(Unfold(), b, k);
    assert Below(b[k].args, k);
  }

  lemma {:induction false} WithinTrans(s: Term, t: Term, r: Term)
    requires Within(s, t) && Within(t, r)
    ensures Within(s, r)
    decreases r
  {
    if t != r {
      var j :| 0 <= j < |r.kids| && Within(t, r.kids[j]);
      WithinTrans(s, t, r.kids[j]);
    }
  }

  // ---------------------------------------------------------------- folding

  predicate NeutralTerm(h: Head, t: Term)
    requires Arith(h)
  {
    match t.head
    case Const(c) => c == Unit(h)
    case Splat(c) => c == Unit(h)
    case _ => false
  }

  function KeptTerms(h: Head, ts: seq<Term>): (r: seq<Term>)
    requires Arith(h)
  {
    if ts == [] then [] else
      var m := |ts| - 1;
      var rest := KeptTerms(h, ts[..m]);
      if NeutralTerm(h, ts[m]) then rest else rest + [ts[m]]
  }

  /** What folding makes of one opcode applied to folded operands. */
  function FoldTerm(n: nat, h: Head, ts: seq<Term>): Term
  {
    match h
    case Rotate(k) =>
      if k == 0 && |ts| == 1 then ts[0]
      else if k < 0 && n > 0 then Node(Rotate(n + k), ts)
      else Node(h, ts)
    case Insert(i) =>
      if |ts| == 2 && ts[0].head == Extract(i) && |ts[0].kids| == 1 then Node(Combine([One(i), All]), [ts[0].kids[0], ts[1]])
      else Node(h, ts)
    case Combine(ix) =>
      var k := Covering(n, ix);
      if k < |ts| && k < |ix| then ts[k] else Node(h, ts)
    case _ =>
      if Arith(h) then
        var kept := KeptTerms(h, ts);
        if |kept| > 1 then Node(h, kept) else if |kept| == 1 then kept[0] else Node(h, ts)
      else Node(h, ts)
  }

  function FoldTop(n: nat): Algebra<Term> { (h: Head, ts: seq<Term>) => FoldTerm(n, h, ts) }

  lemma {:induction false} EvalNode<T>(alg: Algebra<T>, h: Head, ts: seq<Term>, vs: seq<T>)
    requires |vs| == |ts| && forall j :: 0 <= j < |ts| ==> vs[j] == EvalTerm(alg, ts[j])
    ensures EvalTerm(alg, Node(h, ts)) == alg(h, vs)
  {
    var t := Node(h, ts);
    assert seq(|t.kids|, j requires 0 <= j < |t.kids| => EvalTerm(alg, t.kids[j])) == vs;
  }

  function Folded(n: nat, ts: seq<Term>): (r: seq<Term>)
    ensures |r| == |ts| && forall j :: 0 <= j < |r| ==> r[j] == EvalTerm(FoldTop(n), ts[j])
  {
    seq(|ts|, j requires 0 <= j < |ts| => EvalTerm(FoldTop(n), ts[j]))
  }

  lemma {:induction false} EvalFold(n: nat, h: Head, ts: seq<Term>)
    ensures EvalTerm(FoldTop(n), Node(h, ts)) == FoldTerm(n, h, Folded(n, ts))
  {
    EvalNode(FoldTop(n), h, ts, Folded(n, ts));
  }

  lemma {:induction false} FoldLeaf(n: nat, h: Head)
    requires h.Arg? || h.Const?
    ensures EvalTerm(FoldTop(n), Node(h, [])) == Node(h, [])
  {
    EvalFold(n, h, []);
  }

  lemma {:induction false} FoldExtract(n: nat, i: int, t: Term)
    ensures EvalTerm(FoldTop(n), Node(Extract(i), [t])) == Node(Extract(i), [EvalTerm(FoldTop(n), t)])
  {
    EvalFold(n, Extract(i), [t]);
    assert Folded(n, [t]) == [EvalTerm(FoldTop(n), t)];
  }

  /** Two operands that are no constants stay. */
  lemma {:induction false} FoldPair(n: nat, h: Head, s: Term, t: Term)
    requires Arith(h) && !Constant(EvalTerm(FoldTop(n), s).head) && !Constant(EvalTerm(FoldTop(n), t).head)
    ensures EvalTerm(FoldTop(n), Node(h, [s, t])) == Node(h, [EvalTerm(FoldTop(n), s), EvalTerm(FoldTop(n), t)])
  {
    var s', t' := EvalTerm(FoldTop(n), s), EvalTerm(FoldTop(n), t);
    EvalFold(n, h, [s, t]);
    assert Folded(n, [s, t]) == [s', t'];
    assert [s', t'][..1] == [s'] && [s'][..0] == [];
    assert KeptTerms(h, [s']) == [s'];
    assert KeptTerms(h, [s', t']) == [s', t'];
  }

  lemma {:induction false} FoldReturn(n: nat, t: Term)
    ensures EvalTerm(FoldTop(n), Node(Return, [t])) == Node(Return, [EvalTerm(FoldTop(n), t)])
  {
    EvalFold(n, Return, [t]);
    assert Folded(n, [t]) == [EvalTerm(FoldTop(n), t)];
  }

  lemma {:induction false} KeptIsKept(b: Body, h: Head, args: seq<nat>)
    requires Ordered(b) && Arith(h) && Below(args, |b|)
    ensures KeptTerms(h, Pick(Run(Unfold(), b), args)) == Pick(Run(Unfold(), b), Kept(b, h, args))
  {
    forall a | 0 <= a < |b| ensures Run(Unfold(), b)[a].head == b[a].head { TermAt(b, a); }
    KeptPicked(b, Run(Unfold(), b), h, args);
  }

  lemma {:induction false} KeptPicked(b: Body, v: seq<Term>, h: Head, args: seq<nat>)
    requires Arith(h) && Below(args, |b|) && |v| == |b| && forall a :: 0 <= a < |b| ==> v[a].head == b[a].head
    ensures KeptTerms(h, Pick(v, args)) == Pick(v, Kept(b, h, args))
  {
    if args != [] {
      var m := |args| - 1;
      KeptPicked(b, v, h, args[..m]);
      assert Pick(v, args)[..m] == Pick(v, args[..m]);
    }
  }

  lemma {:induction false} UnfoldAppend(b: Body, op: Op)
    requires Ordered(b) && Below(op.args, |b|)
    ensures Ordered(b + [op])
    ensures Run(Unfold(), b + [op])[|b|] == Node(op.head, Pick(Run(Unfold(), b), op.args))
  {
    RunAppend(Unfold(), b, op);
  }

  /** The value a visit stands for is the folded tree. */
  ghost predicate Rewrites(n: nat, out: Body, op: Op, e: Emit)
    requires Ordered(out) && Below(op.args, |out|)
  {
    Ordered(out + e.ops) ==>
      (e.res < |out + e.ops| && Run(Unfold(), out + e.ops)[e.res] == FoldTerm(n, op.head, Pick(Run(Unfold(), out), op.args)))
  }

  lemma {:induction false} ReplaceRewrites(n: nat, out: Body, op: Op, op': Op)
    requires Ordered(out) && Below(op.args, |out|) && Below(op'.args, |out|)
    requires Node(op'.head, Pick(Run(Unfold(), out), op'.args)) == FoldTerm(n, op.head, Pick(Run(Unfold(), out), op.args))
    ensures Rewrites(n, out, op, Emit([op'], |out|))
  {
    UnfoldAppend(out, op');
  }

  lemma {:induction false} ForwardRewrites(n: nat, out: Body, op: Op, a: nat)
    requires Ordered(out) && Below(op.args, |out|) && a < |out|
    requires Run(Unfold(), out)[a] == FoldTerm(n, op.head, Pick(Run(Unfold(), out), op.args))
    ensures Rewrites(n, out, op, Emit([], a))
  {
    assert out + [] == out;
  }

  lemma {:induction false} FoldRotateTerm(n: nat, out: Body, op: Op)
    requires Ordered(out) && Below(op.args, |out|) && op.head.Rotate?
    ensures Rewrites(n, out, op, FoldVisit(n, out, op))
  {
    var k := op.head.off;
    if k == 0 && |op.args| == 1 {
      ForwardRewrites(n, out, op, op.args[0]);
    } else if k < 0 && n > 0 {
      ReplaceRewrites(n, out, op, op.(head := Rotate(n + k)));
    } else {
      ReplaceRewrites(n, out, op, op);
    }
  }

  lemma {:induction false} FoldInsertTerm(n: nat, out: Body, op: Op)
    requires Ordered(out) && Below(op.args, |out|) && op.head.Insert?
    ensures Rewrites(n, out, op, FoldVisit(n, out, op))
  {
    var ts := Pick(Run(Unfold(), out), op.args);
    if |op.args| == 2 {
      var a := op.args[0];
      TermAt(out, a);
      if out[a].head == Extract(op.head.i) && |out[a].args| == 1 {
        var op' := InsertToCombine(out, op).ops[0];
        assert Pick(Run(Unfold(), out), op'.args) == [ts[0].kids[0], ts[1]];
        ReplaceRewrites(n, out, op, op');
      } else {
        ReplaceRewrites(n, out, op, op);
      }
    } else {
      ReplaceRewrites(n, out, op, op);
    }
  }

  lemma {:induction false} FoldCombineTerm(n: nat, out: Body, op: Op)
    requires Ordered(out) && Below(op.args, |out|) && op.head.Combine?
    ensures Rewrites(n, out, op, FoldVisit(n, out, op))
  {
    var k := Covering(n, op.head.ix);
    if k < |op.args| && k < |op.head.ix| {
      ForwardRewrites(n, out, op, op.args[k]);
    } else {
      ReplaceRewrites(n, out, op, op);
    }
  }

  lemma {:induction false} FoldVisitTerm(n: nat, out: Body, op: Op)
    requires Ordered(out) && Below(op.args, |out|)
    ensures Rewrites(n, out, op, FoldVisit(n, out, op))
  {
    match op.head
    case Rotate(k) => FoldRotateTerm(n, out, op);
    case Insert(i) => FoldInsertTerm(n, out, op);
    case Combine(ix) => FoldCombineTerm(n, out, op);
    case Add => FoldArithTerm(n, out, op);
    case Sub => FoldArithTerm(n, out, op);
    case Mul => FoldArithTerm(n, out, op);
    case _ => ReplaceRewrites(n, out, op, op);
  }

  lemma {:induction false} FoldArithTerm(n: nat, out: Body, op: Op)
    requires Ordered(out) && Below(op.args, |out|) && Arith(op.head)
    ensures Rewrites(n, out, op, FoldVisit(n, out, op))
  {
    var kept := Kept(out, op.head, op.args);
    KeptIsKept(out, op.head, op.args);
    if |kept| > 1 {
      ReplaceRewrites(n, out, op, op.(args := kept));
    } else if |kept| == 1 {
      ForwardRewrites(n, out, op, kept[0]);
    } else {
      ReplaceRewrites(n, out, op, op);
    }
  }

  /** Folding rewrites the returned tree bottom-up. */
  lemma {:induction false} FoldAllTerm(n: nat, b: Body, k: nat)
    requires Ordered(b) && k < |b|
    ensures var w := FoldAll(n, b); Run(Unfold(), w.out)[w.ren[k]] == EvalTerm(FoldTop(n), Run(Unfold(), b)[k])
  {
    var step := FoldStep(n);
    forall j | 0 <= j < |b| ensures VisitTranslates(step, b, FoldTop(n), Unfold(), j) {
      var w, op := Before(step, b, j), Visited(step, b, j);
      if Below(w.ren, |w.out|) {
        assert Below(b[j].args, j);
        assert Below(op.args, |w.out|);
        if Ordered(w.out) { FoldVisitTerm(n, w.out, op); assert Visit(step, b, j) == FoldVisit(n, w.out, op); }
      }
    }
    FoldOrdered(n, b);
    WalkTranslates(step, b, FoldTop(n), Unfold(), |b|);
    TermIsFree(FoldTop(n), b, k);
  }

  lemma {:induction false} FoldEnds(n: nat, b: Body)
    requires Ordered(b) && EndsInReturn(b)
    ensures var w := FoldAll(n, b); EndsInReturn(w.out) && w.ren[|b| - 1] == |w.out| - 1
  {
    var step, k := FoldStep(n), |b| - 1;
    assert Visit(step, b, k) == Emit([Visited(step, b, k)], |Before(step, b, k).out|);
    LastStaysLast(step, b);
  }

  lemma {:induction false} PruneEnds(b: Body)
    requires Ordered(b) && EndsInReturn(b)
    ensures EndsInReturn(Prune(b))
  {
    LiveOk(b);
    BeforeNext(DceStep(Live(b)), b, |b| - 1);
  }

  /** The canonicalizer: dead operations removed, everything folded, dead operations removed again. */
  function Canonical(n: nat, b: Body): (r: Body)
    requires Ordered(b) && EndsInReturn(b)
    ensures Ordered(r) && EndsInReturn(r)
  {
    PruneEnds(b);
    FoldEnds(n, Prune(b));
    PruneEnds(FoldAll(n, Prune(b)).out);
    Prune(FoldAll(n, Prune(b)).out)
  }

  lemma {:induction false} CanonicalTerm(g: Signature, b: Body)
    requires WellTyped(g, b) && Ordered(b) && EndsInReturn(b)
    requires WellTyped(g, Prune(b)) && EndsInReturn(Prune(b)) ==> AllFoldSafe(g, Prune(b))
    ensures var r := Canonical(g.n, b);
      && WellTyped(g, r) && AllLive(r)
      && Result(Unfold(), r) == EvalTerm(FoldTop(g.n), Result(Unfold(), b))
  {
    var p := Prune(b);
    PruneCorrect(g, Unfold(), b);
    FoldTyped(g, p);
    FoldEnds(g.n, p);
    FoldAllTerm(g.n, p, |p| - 1);
    PruneCorrect(g, Unfold(), FoldAll(g.n, p).out);
    PruneLive(g, FoldAll(g.n, p).out);
  }

  lemma {:induction false} FoldTyped(g: Signature, b: Body)
    requires WellTyped(g, b) && Ordered(b) && AllFoldSafe(g, b)
    ensures WellTyped(g, FoldAll(g.n, b).out)
  {
    FoldInvariant(g, b, |b|);
  }

  // ---------------------------------------------------------------- merging

  lemma {:induction false} MergeOnto(b: Body, k: nat, q: nat)
    requires Ordered(b) && k <= |b| && q < |Before(CseStep(), b, k).out|
    ensures q in Before(CseStep(), b, k).ren
  {
    var w, e := Before(CseStep(), b, k - 1), Visit(CseStep(), b, k - 1);
    BeforeNext(CseStep(), b, k - 1);
    if q < |w.out| { MergeOnto(b, k - 1, q); }
    OntoNext(w.ren, e.res, q);
  }

  lemma {:induction false} MergeEnds(b: Body)
    requires Ordered(b) && EndsInReturn(b)
    ensures var w := Merge(b); EndsInReturn(w.out) && w.ren[|b| - 1] == |w.out| - 1
  {
    var step, k := CseStep(), |b| - 1;
    assert Visit(step, b, k) == Emit([Visited(step, b, k)], |Before(step, b, k).out|);
    LastStaysLast(step, b);
  }

  /** Merging keeps the returned tree and leaves only live, pairwise different operations. */
  lemma {:induction false} MergeTerm(g: Signature, b: Body)
    requires WellTyped(g, b) && Ordered(b) && EndsInReturn(b) && AllLive(b)
    ensures var out := Merge(b).out;
      && WellTyped(g, out) && EndsInReturn(out) && AllLive(out) && Distinct(out)
      && Result(Unfold(), out) == Result(Unfold(), b)
  {
    var w := Merge(b);
    MergeCorrect(g, b, Unfold());
    MergeDistinct(b, |b|);
    MergeEnds(b);
    forall q | 0 <= q < |w.out| ensures Within(Run(Unfold(), w.out)[q], Result(Unfold(), w.out)) {
      MergeOnto(b, |b|, q);
      var j :| 0 <= j < |w.ren| && w.ren[j] == q;
      assert Within(Run(Unfold(), b)[j], Result(Unfold(), b));
    }
  }

  // ---------------------------------------------------------------- one operation for each term

  /** Different operations compute different terms. */
  ghost predicate TermUnique(b: Body)
    requires Ordered(b)
  {
    forall i, j :: 0 <= i < |b| && 0 <= j < |b| && Run(Unfold(), b)[i] == Run(Unfold(), b)[j] ==> i == j
  }

  /** No operation uses a return. */
  ghost predicate ReturnsUnused(b: Body)
    requires Ordered(b)
  {
    forall k, a :: 0 <= k < |b| && a in b[k].args ==> !b[a].head.Return?
  }

  /** Every subterm of the result is computed somewhere. */
  lemma {:induction false} WithinFound(b: Body, k: nat, t: Term) returns (i: nat)
    requires Ordered(b) && k < |b| && Within(t, Run(Unfold(), b)[k])
    ensures i <= k && Run(Unfold(), b)[i] == t
    decreases k
  {
    TermAt(b, k);
    if t == Run(Unfold(), b)[k] {
      i := k;
    } else {
      var j :| 0 <= j < |Run(Unfold(), b)[k].kids| && Within(t, Run(Unfold(), b)[k].kids[j]);
      i := WithinFound(b, b[k].args[j], t);
    }
  }

  lemma {:induction false} DistinctUnique(g: Signature, b: Body)
    requires WellTyped(g, b) && Ordered(b) && EndsInReturn(b) && Distinct(b) && ReturnsUnused(b)
    requires OneReturn(b)
    ensures TermUnique(b)
  {
    forall i, j | 0 <= i < |b| && 0 <= j < |b| && Run(Unfold(), b)[i] == Run(Unfold(), b)[j] ensures i == j {
      TermAt(b, i);
      TermAt(b, j);
      if i < |b| - 1 { TermsDistinct(g, b, i, j); } else if j < |b| - 1 { TermsDistinct(g, b, j, i); }
    }
  }

  /** Removing dead operations keeps terms unique. */
  lemma {:induction false} PruneUnique(b: Body)
    requires Ordered(b) && b != [] && TermUnique(b)
    ensures TermUnique(Prune(b))
  {
    LiveOk(b);
    DceKept(b, Live(b), |b|);
    var w, t := Apply(DceStep(Live(b)), b), Run(Unfold(), Prune(b));
    forall p, q | 0 <= p < |w.out| && 0 <= q < |w.out| && t[p] == t[q] ensures p == q {
      assert Holds(Live(b), w.ren, p) && Holds(Live(b), w.ren, q);
      var i :| 0 <= i < |w.ren| && i in Live(b) && w.ren[i] == p;
      var j :| 0 <= j < |w.ren| && j in Live(b) && w.ren[j] == q;
      PruneAt(Unfold(), b, i);
      PruneAt(Unfold(), b, j);
    }
  }

  lemma {:induction false} FoldEmitsOne(n: nat, b: Body, k: nat)
    requires Ordered(b) && k < |b|
    ensures var e := Visit(FoldStep(n), b, k); e.ops == [] || (|e.ops| == 1 && e.res == |Before(FoldStep(n), b, k).out|)
  {
    var w, op := Before(FoldStep(n), b, k), Visited(FoldStep(n), b, k);
    if Below(op.args, |w.out|) { assert Visit(FoldStep(n), b, k) == FoldVisit(n, w.out, op); }
  }

  lemma {:induction false} FoldOnto(n: nat, b: Body, k: nat, q: nat)
    requires Ordered(b) && k <= |b| && q < |Before(FoldStep(n), b, k).out|
    ensures q in Before(FoldStep(n), b, k).ren
  {
    var w, e := Before(FoldStep(n), b, k - 1), Visit(FoldStep(n), b, k - 1);
    BeforeNext(FoldStep(n), b, k - 1);
    FoldEmitsOne(n, b, k - 1);
    if q < |w.out| { FoldOnto(n, b, k - 1, q); }
    OntoNext(w.ren, e.res, q);
  }

  /** Nothing in the tree can be folded. */
  predicate NoFold(n: nat, t: Term)
  {
    FoldTerm(n, t.head, t.kids) == t && forall j :: 0 <= j < |t.kids| ==> NoFold(n, t.kids[j])
  }

  lemma {:induction false} NoFoldFixed(n: nat, t: Term)
    requires NoFold(n, t)
    ensures EvalTerm(FoldTop(n), t) == t
    decreases t
  {
    forall j | 0 <= j < |t.kids| ensures EvalTerm(FoldTop(n), t.kids[j]) == t.kids[j] {
      NoFoldFixed(n, t.kids[j]);
    }
    EvalNode(FoldTop(n), t.head, t.kids, t.kids);
    assert t == Node(t.head, t.kids);
  }

  lemma {:induction false} NoFoldWithin(n: nat, t: Term, r: Term)
    requires NoFold(n, r) && Within(t, r)
    ensures NoFold(n, t)
    decreases r
  {
    if t != r {
      var j :| 0 <= j < |r.kids| && Within(t, r.kids[j]);
      NoFoldWithin(n, t, r.kids[j]);
    }
  }

  /** Folding where there is nothing to fold keeps terms unique. */
  lemma {:induction false} FoldUnique(n: nat, b: Body)
    requires Ordered(b) && b != [] && AllLive(b) && NoFold(n, Result(Unfold(), b)) && TermUnique(b)
    ensures TermUnique(FoldAll(n, b).out)
  {
    var w, t := FoldAll(n, b), Run(Unfold(), FoldAll(n, b).out);
    forall k | 0 <= k < |b| ensures t[w.ren[k]] == Run(Unfold(), b)[k] {
      FoldAllTerm(n, b, k);
      assert Within(Run(Unfold(), b)[k], Result(Unfold(), b));
      NoFoldWithin(n, Run(Unfold(), b)[k], Result(Unfold(), b));
      NoFoldFixed(n, Run(Unfold(), b)[k]);
    }
    forall p, q | 0 <= p < |w.out| && 0 <= q < |w.out| && t[p] == t[q] ensures p == q {
      FoldOnto(n, b, |b|, p);
      FoldOnto(n, b, |b|, q);
      var i :| 0 <= i < |w.ren| && w.ren[i] == p;
      var j :| 0 <= j < |w.ren| && w.ren[j] == q;
    }
  }

  lemma {:induction false} CanonicalUnique(g: Signature, b: Body)
    requires WellTyped(g, b) && Ordered(b) && EndsInReturn(b) && TermUnique(b) && NoFold(g.n, Result(Unfold(), b))
    ensures TermUnique(Canonical(g.n, b))
  {
    PruneCorrect(g, Unfold(), b);
    PruneLive(g, b);
    PruneUnique(b);
    FoldUnique(g.n, Prune(b));
    FoldEnds(g.n, Prune(b));
    PruneUnique(FoldAll(g.n, Prune(b)).out);
  }

  // ---------------------------------------------------------------- one return

  predicate Clean(t: Term) { !t.head.Return? && forall j :: 0 <= j < |t.kids| ==> Clean(t.kids[j]) }

  /** A return of something that involves no return. */
  predicate ReturnOnly(r: Term) { r.head.Return? && forall j :: 0 <= j < |r.kids| ==> Clean(r.kids[j]) }

  /** Only the last operation is a return. */
  predicate OneReturn(b: Body) { forall k :: 0 <= k < |b| - 1 ==> !b[k].head.Return? }

  lemma {:induction false} CleanWithin(t: Term, r: Term)
    requires Within(t, r) && Clean(r)
    ensures Clean(t)
    decreases r
  {
    if t != r {
      var j :| 0 <= j < |r.kids| && Within(t, r.kids[j]);
      CleanWithin(t, r.kids[j]);
    }
  }

  /** The operands of what occurs in such a return are no returns. */
  lemma {:induction false} OperandClean(b: Body, u: nat, a: nat)
    requires Ordered(b) && b != [] && ReturnOnly(Result(Unfold(), b)) && u < |b| && a in b[u].args
    requires Within(Run(Unfold(), b)[u], Result(Unfold(), b))
    ensures a < |b| && !b[a].head.Return?
  {
    var t, r := Run(Unfold(), b)[u], Result(Unfold(), b);
    TermAt(b, u);
    var i :| 0 <= i < |b[u].args| && b[u].args[i] == a;
    TermAt(b, a);
    if t != r {
      var j :| 0 <= j < |r.kids| && Within(t, r.kids[j]);
      CleanWithin(t, r.kids[j]);
    }
  }

  lemma {:induction false} LiveReturnsUnused(b: Body)
    requires Ordered(b) && b != [] && AllLive(b) && ReturnOnly(Result(Unfold(), b))
    ensures ReturnsUnused(b)
  {
    forall k, a | 0 <= k < |b| && a in b[k].args ensures !b[a].head.Return? {
      assert Within(Run(Unfold(), b)[k], Result(Unfold(), b));
      OperandClean(b, k, a);
    }
  }

  predicate UsedIn(b: Body, live: set<nat>, k: nat) { exists u :: u in live && u < |b| && k in b[u].args }

  /** Marked positions are the last one and operands of marked ones. */
  ghost predicate MarkedUses(b: Body, live: set<nat>)
  {
    forall k :: k in live ==> k == |b| - 1 || UsedIn(b, live, k)
  }

  lemma {:induction false} MarkMore(b: Body, live: set<nat>, u: nat)
    requires u in live && u < |b| && MarkedUses(b, live)
    ensures MarkedUses(b, live + OperandSet(b[u]))
  {
    var more := live + OperandSet(b[u]);
    assert u in more;
    forall k | k in more ensures k == |b| - 1 || UsedIn(b, more, k) {
      if k in live && k != |b| - 1 {
        var v :| v in live && v < |b| && k in b[v].args;
        assert v in more;
      }
    }
  }

  lemma {:induction false} MarkUses(b: Body, i: nat, live: set<nat>)
    requires i <= |b| && MarkedUses(b, live)
    ensures MarkedUses(b, Mark(b, i, live))
    decreases i
  {
    if i > 0 {
      if i - 1 in live {
        MarkMore(b, live, i - 1);
        MarkUses(b, i - 1, live + OperandSet(b[i - 1]));
      } else {
        MarkUses(b, i - 1, live);
      }
    }
  }

  /** Removing dead operations leaves one return. */
  lemma {:induction false} PruneOne(b: Body)
    requires Ordered(b) && EndsInReturn(b) && ReturnOnly(Result(Unfold(), b))
    ensures OneReturn(Prune(b))
  {
    LiveOk(b);
    DceKept(b, Live(b), |b|);
    MarkUses(b, |b|, {|b| - 1});
    BeforeNext(DceStep(Live(b)), b, |b| - 1);
    var w := Apply(DceStep(Live(b)), b);
    forall q | 0 <= q < |w.out| - 1 ensures !w.out[q].head.Return? {
      assert Holds(Live(b), w.ren, q);
      var j :| 0 <= j < |w.ren| && j in Live(b) && w.ren[j] == q;
      assert UsedIn(b, Live(b), j);
      var u :| u in Live(b) && u < |b| && j in b[u].args;
      OperandClean(b, u, j);
    }
  }

  /** Merging leaves one return. */
  lemma {:induction false} MergeOne(g: Signature, b: Body)
    requires WellTyped(g, b) && Ordered(b) && EndsInReturn(b) && OneReturn(b)
    ensures OneReturn(Merge(b).out)
  {
    var w := Merge(b);
    MergeCorrect(g, b, Unfold());
    MergeEnds(b);
    forall q | 0 <= q < |w.out| - 1 ensures !w.out[q].head.Return? {
      MergeOnto(b, |b|, q);
      var j :| 0 <= j < |w.ren| && w.ren[j] == q;
      TermAt(b, j);
      TermAt(w.out, q);
    }
  }

  /** A merged function without dead operations has one operation for each term. */
  lemma {:induction false} MergeUnique(g: Signature, b: Body)
    requires WellTyped(g, b) && Ordered(b) && EndsInReturn(b) && AllLive(b) && OneReturn(b)
    requires ReturnOnly(Result(Unfold(), b))
    ensures TermUnique(Merge(b).out) && OneReturn(Merge(b).out)
  {
    MergeTerm(g, b);
    MergeOne(g, b);
    LiveReturnsUnused(Merge(b).out);
    DistinctUnique(g, Merge(b).out);
  }

  /** Cleanup leaves one return. */
  lemma {:induction false} CanonicalOne(g: Signature, b: Body)
    requires WellTyped(g, b) && Ordered(b) && EndsInReturn(b) && ReturnOnly(EvalTerm(FoldTop(g.n), Result(Unfold(), b)))
    ensures OneReturn(Canonical(g.n, b))
  {
    PruneCorrect(g, Unfold(), b);
    FoldEnds(g.n, Prune(b));
    FoldAllTerm(g.n, Prune(b), |Prune(b)| - 1);
    PruneOne(FoldAll(g.n, Prune(b)).out);
  }

  // ---------------------------------------------------------------- functions without constants

  /** No constants, and only combines of disjoint runs. */
  predicate Tame(n: nat, t: Term)
  {
    && !Constant(t.head)
    && (t.head.Combine? ==> Runs(t.head.ix) && Disjoint(n, t.head.ix))
    && forall j :: 0 <= j < |t.kids| ==> Tame(n, t.kids[j])
  }

  lemma {:induction false} TameWithin(n: nat, t: Term, r: Term)
    requires Tame(n, r) && Within(t, r)
    ensures Tame(n, t)
    decreases r
  {
    if t != r {
      var j :| 0 <= j < |r.kids| && Within(t, r.kids[j]);
      TameWithin(n, t, r.kids[j]);
    }
  }

  lemma {:induction false} TameSettled(n: nat, b: Body, a: nat)
    requires Ordered(b) && a < |b| && Tame(n, Run(Unfold(), b)[a])
    ensures !Constant(b[Settled(n, b, a)].head)
    decreases a
  {
    TermAt(b, a);
    var args := b[a].args;
    forall j | 0 <= j < |args| ensures args[j] < a && !Constant(b[Settled(n, b, args[j])].head) {
      assert Tame(n, Run(Unfold(), b)[a].kids[j]);
      TameSettled(n, b, args[j]);
    }
    if Arith(b[a].head) { LeftMembers(n, b, b[a].head, args, a); }
  }

  lemma {:induction false} TameSafeAt(g: Signature, b: Body, k: nat)
    requires WellTyped(g, b) && Ordered(b) && k < |b| && Tame(g.n, Run(Unfold(), b)[k])
    ensures FoldSafe(g.n, b, b[k])
  {
    TermAt(b, k);
    if Arith(b[k].head) { TameArith(g, b, k); }
  }

  lemma {:induction false} TameArith(g: Signature, b: Body, k: nat)
    requires WellTyped(g, b) && Ordered(b) && k < |b| && Arith(b[k].head) && Tame(g.n, Run(Unfold(), b)[k])
    ensures ArithSafe(g.n, b, b[k])
  {
    TermAt(b, k);
    var op := b[k];
    assert OpOk(g, b[..k], op);
    forall j | 0 <= j < |op.args| ensures !Dropped(g.n, b, op.head, op.args[j]) {
      assert Tame(g.n, Run(Unfold(), b)[k].kids[j]);
      TameSettled(g.n, b, op.args[j]);
    }
    assert SomeOperand(b[..k], op.args, op.ty);
    var j :| 0 <= j < |op.args| && b[..k][op.args[j]].ty == op.ty;
  }

  /** Such a function is safe to fold. */
  lemma {:induction false} TameSafe(g: Signature, b: Body)
    requires WellTyped(g, b) && Ordered(b) && EndsInReturn(b) && AllLive(b) && Tame(g.n, Result(Unfold(), b))
    ensures AllFoldSafe(g, b)
  {
    forall k | 0 <= k < |b| ensures FoldSafe(g.n, b, b[k]) {
      assert Within(Run(Unfold(), b)[k], Result(Unfold(), b));
      TameWithin(g.n, Run(Unfold(), b)[k], Result(Unfold(), b));
      TameSafeAt(g, b, k);
    }
  }

  lemma {:induction false} CanonicalTame(g: Signature, b: Body)
    requires WellTyped(g, b) && Ordered(b) && EndsInReturn(b) && Tame(g.n, Result(Unfold(), b))
    ensures var r := Canonical(g.n, b);
      WellTyped(g, r) && AllLive(r) && Result(Unfold(), r) == EvalTerm(FoldTop(g.n), Result(Unfold(), b))
  {
    PruneCorrect(g, Unfold(), b);
    PruneLive(g, b);
    TameSafe(g, Prune(b));
    CanonicalTerm(g, b);
  }

  /** What cleanup followed by merging leaves: only live operations, one for each term. */
  ghost predicate Tidy(g: Signature, b: Body)
  {
    && WellTyped(g, b) && Ordered(b) && EndsInReturn(b) && AllLive(b)
    && TermUnique(b) && OneReturn(b) && ReturnOnly(Result(Unfold(), b))
  }

  lemma {:induction false} CleanTame(g: Signature, b: Body)
    requires WellTyped(g, b) && Ordered(b) && EndsInReturn(b) && Tame(g.n, Result(Unfold(), b))
    requires ReturnOnly(EvalTerm(FoldTop(g.n), Result(Unfold(), b)))
    ensures EndsInReturn(Merge(Canonical(g.n, b)).out)
    ensures var r := Merge(Canonical(g.n, b)).out;
      Tidy(g, r) && Result(Unfold(), r) == EvalTerm(FoldTop(g.n), Result(Unfold(), b))
  {
    CanonicalTame(g, b);
    CanonicalOne(g, b);
    MergeUnique(g, Canonical(g.n, b));
    MergeTerm(g, Canonical(g.n, b));
  }
}
