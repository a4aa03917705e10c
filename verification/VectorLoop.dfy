/** The elementwise theorem: a loop out[i] = x[i] op y[i] over all slots compiles to one vector operation. */
module VectorLoop {
  import opened Ir
  import opened Walk
  import opened Meaning
  import opened Folding
  import opened Combining
  import opened Dce
  import opened Terms
  import opened Vectors
  import opened Reduction
  import opened Elementwise
  import opened Counting
  import Batching
  import Cse
  import Internal
  import Pipeline

  // ---------------------------------------------------------------- the chain of combines

  /** The position of a term that is computed. */
  ghost function Place(b: Body, t: Term): (k: nat)
    requires Ordered(b) && t in Run(Unfold(), b)
    ensures k < |b| && Run(Unfold(), b)[k] == t
  {
    var k: nat :| k < |b| && Run(Unfold(), b)[k] == t;
    k
  }

  ghost predicate Chained(h: Head, c: nat, n: nat, b: Body)
  {
    && Arith(h) && n > 1 && c < 3
    && Tidy(ThreeVectors(n), b) && Result(Unfold(), b) == Node(Return, [Joined(h, c, n)])
  }

  lemma {:induction false} JoinedWithin(h: Head, c: nat, n: nat, m: nat)
    requires m <= n
    ensures Within(Joined(h, c, m), Node(Return, [Joined(h, c, n)]))
    decreases n - m
  {
    var r := Node(Return, [Joined(h, c, n)]);
    if m == n {
      assert Within(Joined(h, c, n), r.kids[0]);
    } else {
      JoinedWithin(h, c, n, m + 1);
      assert Within(Joined(h, c, m), Joined(h, c, m + 1).kids[1]);
      WithinTrans(Joined(h, c, m), Joined(h, c, m + 1), r);
    }
  }

  lemma {:induction false} OpWithin(h: Head, c: nat, n: nat)
    requires n > 0
    ensures Within(VectorOp(h), Node(Return, [Joined(h, c, n)]))
  {
    JoinedWithin(h, c, n, n);
    assert Within(VectorOp(h), Joined(h, c, n).kids[0]);
    WithinTrans(VectorOp(h), Joined(h, c, n), Node(Return, [Joined(h, c, n)]));
  }

  lemma {:induction false} ChainedComputes(h: Head, c: nat, n: nat, b: Body, m: nat)
    requires Chained(h, c, n, b) && m <= n
    ensures Joined(h, c, m) in Run(Unfold(), b) && VectorOp(h) in Run(Unfold(), b)
  {
    JoinedWithin(h, c, n, m);
    OpWithin(h, c, n);
    ComputedSubterms(b, Joined(h, c, m));
    ComputedSubterms(b, VectorOp(h));
  }

  /** Where the chain's links stand. */
  ghost function Links(h: Head, c: nat, n: nat, b: Body): (ks: seq<nat>)
    requires Chained(h, c, n, b)
    ensures |ks| == n && forall t :: 0 <= t < n ==> ks[t] < |b| && Run(Unfold(), b)[ks[t]] == Joined(h, c, t + 1)
  {
    seq(n, t requires 0 <= t < n => (ChainedComputes(h, c, n, b, t + 1); Place(b, Joined(h, c, t + 1))))
  }

  lemma {:induction false} LinkOp(h: Head, c: nat, n: nat, b: Body, k: nat, m: nat, v: nat, p: nat)
    requires Chained(h, c, n, b) && m < n && k < |b| && v < |b| && p < |b|
    requires Run(Unfold(), b)[k] == Joined(h, c, m + 1)
    requires Run(Unfold(), b)[v] == VectorOp(h) && Run(Unfold(), b)[p] == Joined(h, c, m)
    ensures b[k] == Op(Combine([One(m), All]), [v, p], Batched)
  {
    TermAt(b, k);
    assert b[k].args[0] == v && b[k].args[1] == p;
    assert OpOk(ThreeVectors(n), b[..k], b[k]);
  }

  lemma {:induction false} LoopChain(h: Head, c: nat, n: nat, b: Body, v: nat, w: nat)
    requires Chained(h, c, n, b) && v < |b| && w < |b|
    requires Run(Unfold(), b)[v] == VectorOp(h) && Run(Unfold(), b)[w] == Param(c)
    ensures Chain(b, Links(h, c, n, b), v, w, 0)
  {
    var ks := Links(h, c, n, b);
    LinkOp(h, c, n, b, ks[0], 0, v, w);
    forall t | 0 < t < |ks| ensures b[ks[t]] == Op(Combine([One(0 + t), All]), [v, ks[t - 1]], Batched) {
      LinkOp(h, c, n, b, ks[t], t, v, ks[t - 1]);
    }
  }

  /** What involves no combine is not touched by the sweep. */
  predicate Uncombined(t: Term) { !t.head.Combine? && forall j :: 0 <= j < |t.kids| ==> Uncombined(t.kids[j]) }

  lemma {:induction false} SimplifyKeeps(b: Body, out: Body, k: nat)
    requires Ordered(b) && out == Simplify(b).out && k < |b| && Uncombined(Run(Unfold(), b)[k])
    ensures |out| == |b| && Ordered(out) && Run(Unfold(), out)[k] == Run(Unfold(), b)[k]
    decreases k
  {
    SimplifyAt(b, k);
    TermAt(b, k);
    assert out[k] == b[k];
    TermAt(out, k);
    forall j | 0 <= j < |b[k].args| ensures Run(Unfold(), out)[b[k].args[j]] == Run(Unfold(), b)[b[k].args[j]] {
      SimplifyKeeps(b, out, b[k].args[j]);
    }
    assert Pick(Run(Unfold(), out), b[k].args) == Pick(Run(Unfold(), b), b[k].args);
  }

  /** All slots of one vector, and none of the other. */
  function Covered(h: Head, c: nat, n: nat): Term
    requires n > 0
  {
    Node(Combine([RunIndex(0, n - 1), All]), [VectorOp(h), Param(c)])
  }

  lemma {:induction false} PairTerm(out: Body, k: nat, x: Head, v: nat, w: nat)
    requires Ordered(out) && k < |out| && out[k] == Op(x, [v, w], Batched)
    ensures v < k && w < k && Run(Unfold(), out)[k] == Node(x, [Run(Unfold(), out)[v], Run(Unfold(), out)[w]])
  {
    TermAt(out, k);
    assert out[k].args[0] == v && out[k].args[1] == w;
    assert Run(Unfold(), out)[k].kids == [Run(Unfold(), out)[v], Run(Unfold(), out)[w]];
  }

  /** One sweep makes the whole chain a single combine. */
  lemma {:induction false} SweptLink(h: Head, c: nat, n: nat, b: Body, out: Body) returns (k: nat)
    requires Chained(h, c, n, b) && out == Simplify(b).out
    ensures k < |b| == |out| && Run(Unfold(), b)[k] == Joined(h, c, n) && Run(Unfold(), out)[k] == Covered(h, c, n)
  {
    ChainedComputes(h, c, n, b, 0);
    var v, w, ks := Place(b, VectorOp(h)), Place(b, Param(c)), Links(h, c, n, b);
    LoopChain(h, c, n, b, v, w);
    SimplifyAt(b, w);
    TermAt(b, w);
    ChainCollapses(b, out, ks, v, w, 0, n - 1);
    assert Uncombined(VectorOp(h)) by { assert Uncombined(Param(0)) && Uncombined(Param(1)); }
    SimplifyKeeps(b, out, v);
    SimplifyKeeps(b, out, w);
    k := ks[n - 1];
    PairTerm(out, k, out[k].head, v, w);
  }

  lemma {:induction false} SweptChain(h: Head, c: nat, n: nat, b: Body)
    requires Chained(h, c, n, b)
    ensures var out := Pipeline.Simplified(b);
      WellTyped(ThreeVectors(n), out) && Result(Unfold(), out) == Node(Return, [Covered(h, c, n)])
  {
    var out, e := Simplify(b).out, |b| - 1;
    var k := SweptLink(h, c, n, b, out);
    SimplifyCorrect(ThreeVectors(n), b, k => S(0));
    TermAt(b, e);
    assert b[e].args[0] == k;
    SimplifyAt(b, e);
    TermAt(out, e);
    assert Pick(Run(Unfold(), out), b[e].args) == [Run(Unfold(), out)[k]];
  }

  // ---------------------------------------------------------------- the combine folds away

  lemma {:induction false} CoveredFolds(h: Head, c: nat, n: nat)
    requires Arith(h) && n > 1
    ensures EvalTerm(FoldTop(n), Node(Return, [Covered(h, c, n)])) == Node(Return, [VectorOp(h)])
    ensures EvalTerm(FoldTop(n), VectorOp(h)) == VectorOp(h)
  {
    var ts := [VectorOp(h), Param(c)];
    FoldLeaf(n, Arg(0));
    FoldLeaf(n, Arg(1));
    FoldLeaf(n, Arg(c));
    FoldPair(n, h, Param(0), Param(1));
    EvalFold(n, Combine([RunIndex(0, n - 1), All]), ts);
    assert Folded(n, ts) == ts;
    assert RunIndex(0, n - 1) == Many(Span(0, n - 1));
    FoldReturn(n, Covered(h, c, n));
  }

  lemma {:induction false} CoveredTame(h: Head, c: nat, n: nat)
    requires Arith(h) && n > 1
    ensures Tame(n, Node(Return, [Covered(h, c, n)])) && Tame(n, Node(Return, [VectorOp(h)]))
    ensures ReturnOnly(Node(Return, [VectorOp(h)]))
  {
    var ix := [RunIndex(0, n - 1), All];
    assert Contiguous(Span(0, n - 1));
    assert Runs(ix) && Disjoint(n, ix);
    assert Tame(n, Param(0)) && Tame(n, Param(1)) && Tame(n, Param(c));
    assert Tame(n, VectorOp(h));
    assert Tame(n, Covered(h, c, n));
    assert Clean(Param(0)) && Clean(Param(1));
    assert Clean(VectorOp(h));
  }

  /** What internal batching gets to see: the vector operation. */
  lemma {:induction false} VectorizeLoop(h: Head, c: nat, n: nat, o: Batching.UseOrder, b: Body)
    requires Laid(h, c, n, b) && Batching.Enumerates(o)
    ensures var r := Pipeline.Vectorize(n, o, b);
      WellTyped(ThreeVectors(n), r) && AllLive(r) && Result(Unfold(), r) == Node(Return, [VectorOp(h)])
  {
    var g := ThreeVectors(n);
    JoinedLoop(h, c, n, o, b);
    var b1 := Pipeline.Deduplicate(Canonical(n, Pipeline.Slotted(o, b)));
    SweptChain(h, c, n, b1);
    var b2 := Pipeline.Simplified(b1);
    Cse.MergeCorrect(g, b2, Unfold());
    MergeEnds(b2);
    CoveredTame(h, c, n);
    CoveredFolds(h, c, n);
    CanonicalTame(g, Pipeline.Deduplicate(b2));
  }

  // ---------------------------------------------------------------- internal batching finds nothing

  predicate OpPart(h: Head, t: Term)
  {
    t == Node(Return, [VectorOp(h)]) || t == VectorOp(h) || t == Param(0) || t == Param(1)
  }

  lemma {:induction false} OpPartWithin(h: Head, t: Term, r: Term)
    requires OpPart(h, r) && Within(t, r)
    ensures OpPart(h, t)
    decreases r
  {
    if t != r {
      var j :| 0 <= j < |r.kids| && Within(t, r.kids[j]);
      OpPartWithin(h, t, r.kids[j]);
    }
  }

  lemma {:induction false} IdleVisit(h: Head, b: Body, k: nat)
    requires Arith(h) && Ordered(b) && b != [] && AllLive(b) && Result(Unfold(), b) == Node(Return, [VectorOp(h)]) && k < |b|
    ensures Below(b[k].args, k) && Internal.InternalVisit(b[..k], b[k]) == Emit([b[k]], k)
  {
    assert Within(Run(Unfold(), b)[k], Result(Unfold(), b));
    OpPartWithin(h, Run(Unfold(), b)[k], Result(Unfold(), b));
    TermAt(b, k);
    var args := b[k].args;
    if Arith(b[k].head) {
      TermAt(b, args[0]);
      TermAt(b, args[1]);
      forall o ensures !Internal.Collapsible(b[..k], args, o) { TwoOrigins(b[..k], args, o); }
      InternalIdle(b[..k], b[k]);
    }
  }

  /** The walk has changed nothing yet. */
  predicate IdleUpTo(b: Body, k: nat)
    requires Ordered(b) && k <= |b|
  {
    var w := Before(Internal.InternalStep(), b, k);
    w.out == b[..k] && forall j :: 0 <= j < k ==> w.ren[j] == j
  }

  lemma {:induction false} IdleStep(b: Body, m: nat)
    requires Ordered(b) && m < |b| && Below(b[m].args, m) && Internal.InternalVisit(b[..m], b[m]) == Emit([b[m]], m)
    requires IdleUpTo(b, m)
    ensures IdleUpTo(b, m + 1)
  {
    BeforeNext(Internal.InternalStep(), b, m);
    var op := Visited(Internal.InternalStep(), b, m);
    assert op.args == b[m].args;
    assert op == b[m];
    assert b[..m + 1] == b[..m] + [b[m]];
  }

  lemma {:induction false} IdleWalk(h: Head, b: Body, k: nat)
    requires Arith(h) && Ordered(b) && b != [] && AllLive(b) && Result(Unfold(), b) == Node(Return, [VectorOp(h)]) && k <= |b|
    ensures IdleUpTo(b, k)
  {
    if k > 0 {
      IdleWalk(h, b, k - 1);
      IdleVisit(h, b, k - 1);
      IdleStep(b, k - 1);
    }
  }

  /** The whole pipeline leaves the vector operation on the two parameters. */
  lemma {:induction false} OptimizedLoop(h: Head, c: nat, n: nat, o: Batching.UseOrder, b: Body)
    requires Arith(h) && n > 1 && c < 3 && Batching.Enumerates(o)
    requires WellTyped(ThreeVectors(n), b) && Ordered(b) && EndsInReturn(b) && Result(Unfold(), b) == Loop(h, c, n)
    ensures var out := Pipeline.Optimize(n, o, b);
      Tidy(ThreeVectors(n), out) && Result(Unfold(), out) == Node(Return, [VectorOp(h)])
  {
    PrepareLoop(h, c, n, b);
    var p := Pipeline.Prepare(n, b);
    VectorizeLoop(h, c, n, o, p);
    var v := Pipeline.Vectorize(n, o, p);
    IdleWalk(h, v, |v|);
    assert v[..|v|] == v;
    CoveredTame(h, c, n);
    CoveredFolds(h, c, n);
    FoldReturn(n, VectorOp(h));
    CleanTame(ThreeVectors(n), v);
  }

  // ---------------------------------------------------------------- values

  function ThreeInputs(x: seq<int>, y: seq<int>, z: seq<int>): nat -> Val
  {
    (k: nat) => if k == 0 then V(x) else if k == 1 then V(y) else V(z)
  }

  /** x op y, slot by slot. */
  function Pointwise(h: Head, x: seq<int>, y: seq<int>): (r: seq<int>)
    requires Arith(h) && |x| == |y|
    ensures |r| == |x| && forall j :: 0 <= j < |x| ==> r[j] == Scalar(h, [x[j], y[j]])
  {
    seq(|x|, j requires 0 <= j < |x| => Scalar(h, [x[j], y[j]]))
  }

  lemma {:induction false} ParamValue(n: nat, inp: nat -> Val, k: nat)
    ensures EvalTerm(Denote(n, inp), Param(k)) == inp(k)
  {
    EvalNode(Denote(n, inp), Arg(k), [], []);
    assert Denote(n, inp)(Arg(k), []) == Compute(n, inp, Arg(k), []);
  }

  lemma {:induction false} ReturnTermValue(n: nat, inp: nat -> Val, t: Term)
    ensures EvalTerm(Denote(n, inp), Node(Return, [t])) == EvalTerm(Denote(n, inp), t)
  {
    var v := EvalTerm(Denote(n, inp), t);
    EvalNode(Denote(n, inp), Return, [t], [v]);
    assert Denote(n, inp)(Return, [v]) == Compute(n, inp, Return, [v]);
  }

  lemma {:induction false} VectorOpValue(h: Head, n: nat, inp: nat -> Val, x: seq<int>, y: seq<int>)
    requires Arith(h) && |x| == |y| == n && inp(0) == V(x) && inp(1) == V(y)
    ensures EvalTerm(Denote(n, inp), VectorOp(h)) == V(Pointwise(h, x, y))
  {
    var alg, vs := Denote(n, inp), [V(x), V(y)];
    ParamValue(n, inp, 0);
    ParamValue(n, inp, 1);
    EvalNode(alg, h, [Param(0), Param(1)], vs);
    ArithSlots(n, inp, h, vs);
    assert vs[0].V?;
    var r := alg(h, vs);
    forall j | 0 <= j < n ensures r.s[j] == Pointwise(h, x, y)[j] {
      assert Slots(vs, j) == [x[j], y[j]];
    }
    assert r.s == Pointwise(h, x, y);
  }

  lemma {:induction false} SlotwiseValue(h: Head, n: nat, inp: nat -> Val, x: seq<int>, y: seq<int>, i: nat)
    requires Arith(h) && |x| == |y| == n && inp(0) == V(x) && inp(1) == V(y) && i < n
    ensures EvalTerm(Denote(n, inp), Slotwise(h, i)) == S(Pointwise(h, x, y)[i])
  {
    var alg, vs := Denote(n, inp), [S(x[i]), S(y[i])];
    ParamValue(n, inp, 0);
    ParamValue(n, inp, 1);
    EvalNode(alg, Extract(i), [Param(0)], [V(x)]);
    EvalNode(alg, Extract(i), [Param(1)], [V(y)]);
    assert alg(Extract(i), [V(x)]) == Compute(n, inp, Extract(i), [V(x)]) == S(x[i]);
    assert alg(Extract(i), [V(y)]) == Compute(n, inp, Extract(i), [V(y)]) == S(y[i]);
    EvalNode(alg, h, Slotwise(h, i).kids, vs);
    ArithScalars(n, inp, h, vs);
    assert Slots(vs, 0) == [x[i], y[i]];
  }

  lemma {:induction false} InsertValue(h: Head, n: nat, inp: nat -> Val, x: seq<int>, y: seq<int>, i: nat, t: Term, s: seq<int>)
    requires Arith(h) && |x| == |y| == |s| == n && i < n && inp(0) == V(x) && inp(1) == V(y)
    requires EvalTerm(Denote(n, inp), t) == V(s)
    ensures EvalTerm(Denote(n, inp), Node(Insert(i), [Slotwise(h, i), t])) == V(s[i := Pointwise(h, x, y)[i]])
  {
    SlotwiseValue(h, n, inp, x, y, i);
    var e := Pointwise(h, x, y)[i];
    EvalNode(Denote(n, inp), Insert(i), [Slotwise(h, i), t], [S(e), V(s)]);
    assert Denote(n, inp)(Insert(i), [S(e), V(s)]) == Compute(n, inp, Insert(i), [S(e), V(s)]);
  }

  /** The first m slots of p, then those of z. */
  function Overwritten(p: seq<int>, z: seq<int>, m: nat): (r: seq<int>)
    requires |p| == |z|
    ensures |r| == |p| && forall j :: 0 <= j < |p| ==> r[j] == if j < m then p[j] else z[j]
  {
    seq(|p|, j requires 0 <= j < |p| => if j < m then p[j] else z[j])
  }

  lemma {:induction false} OverwrittenNext(p: seq<int>, z: seq<int>, m: nat)
    requires |p| == |z| && m < |p|
    ensures Overwritten(p, z, m)[m := p[m]] == Overwritten(p, z, m + 1)
    ensures Overwritten(p, z, 0) == z && Overwritten(p, z, |p|) == p
  {}

  /** After m rounds the first m slots are computed, the others are as they were. */
  lemma {:induction false} InsertedValue(h: Head, c: nat, n: nat, inp: nat -> Val, x: seq<int>, y: seq<int>, z: seq<int>, m: nat)
    requires Arith(h) && |x| == |y| == |z| == n && 0 < n && m <= n
    requires inp(0) == V(x) && inp(1) == V(y) && inp(c) == V(z)
    ensures EvalTerm(Denote(n, inp), Inserted(h, c, m)) == V(Overwritten(Pointwise(h, x, y), z, m))
  {
    if m == 0 {
      InsertedNone(h, c, n, inp, x, y, z);
    } else {
      var i: nat, t := m - 1, Inserted(h, c, m - 1);
      assert Inserted(h, c, m) == Node(Insert(i), [Slotwise(h, i), t]);
      InsertedValue(h, c, n, inp, x, y, z, i);
      InsertedNext(h, n, inp, x, y, z, i, t);
    }
  }

  lemma {:induction false} InsertedNone(h: Head, c: nat, n: nat, inp: nat -> Val, x: seq<int>, y: seq<int>, z: seq<int>)
    requires Arith(h) && |x| == |y| == |z| == n && 0 < n && inp(c) == V(z)
    ensures EvalTerm(Denote(n, inp), Param(c)) == V(Overwritten(Pointwise(h, x, y), z, 0))
  {
    ParamValue(n, inp, c);
    OverwrittenNext(Pointwise(h, x, y), z, 0);
  }

  lemma {:induction false} InsertedNext(h: Head, n: nat, inp: nat -> Val, x: seq<int>, y: seq<int>, z: seq<int>, i: nat, t: Term)
    requires Arith(h) && |x| == |y| == |z| == n && i < n
    requires inp(0) == V(x) && inp(1) == V(y)
    requires EvalTerm(Denote(n, inp), t) == V(Overwritten(Pointwise(h, x, y), z, i))
    ensures EvalTerm(Denote(n, inp), Node(Insert(i), [Slotwise(h, i), t])) == V(Overwritten(Pointwise(h, x, y), z, i + 1))
  {
    InsertValue(h, n, inp, x, y, i, t, Overwritten(Pointwise(h, x, y), z, i));
    OverwrittenNext(Pointwise(h, x, y), z, i);
  }

  /** The subterms of the result, and the one operation among them. */
  lemma {:induction false} OpTerms(h: Head)
    requires Arith(h)
    ensures Subterms([Param(0), Param(1), VectorOp(h), Node(Return, [VectorOp(h)])], Node(Return, [VectorOp(h)]))
  {
    var e := VectorOp(h);
    var r := Node(Return, [e]);
    assert Within(e, r.kids[0]);
    assert Within(Param(0), e.kids[0]) && Within(Param(1), e.kids[1]);
    WithinTrans(Param(0), e, r);
    WithinTrans(Param(1), e, r);
    assert Param(0).head != Param(1).head && e.head == h && r.head == Return;
    forall t ensures t in [Param(0), Param(1), e, r] <==> Within(t, r) {
      if Within(t, r) { OpPartWithin(h, t, r); }
    }
  }

  lemma {:induction false} OpTally(h: Head)
    requires Arith(h)
    ensures TallyTerms([Param(0), Param(1), VectorOp(h), Node(Return, [VectorOp(h)])], Arith) == 1
  {
    var ts, r := [Param(0), Param(1), VectorOp(h)], Node(Return, [VectorOp(h)]);
    TallyThree(Param(0), Param(1), VectorOp(h), Arith);
    TallyConcat(ts, [r], Arith);
    TallyOne(r, Arith);
    assert ts + [r] == [Param(0), Param(1), VectorOp(h), r];
  }

  lemma {:induction false} LoopValue(h: Head, c: nat, n: nat, b: Body, x: seq<int>, y: seq<int>, z: seq<int>)
    requires Arith(h) && c < 3 && |x| == |y| == |z| == n > 0
    requires Ordered(b) && b != [] && Result(Unfold(), b) == Loop(h, c, n)
    ensures Result(Denote(n, ThreeInputs(x, y, z)), b) == V(Pointwise(h, x, y))
  {
    var inp := ThreeInputs(x, y, z);
    TermIsFree(Denote(n, inp), b, |b| - 1);
    ReturnTermValue(n, inp, Inserted(h, c, n));
    var base := if c == 0 then x else if c == 1 then y else z;
    InsertedValue(h, c, n, inp, x, y, base, n);
    OverwrittenNext(Pointwise(h, x, y), base, 0);
  }

  lemma {:induction false} OpValue(h: Head, n: nat, b: Body, x: seq<int>, y: seq<int>, z: seq<int>)
    requires Arith(h) && |x| == |y| == |z| == n
    requires Ordered(b) && b != [] && Result(Unfold(), b) == Node(Return, [VectorOp(h)])
    ensures Result(Denote(n, ThreeInputs(x, y, z)), b) == V(Pointwise(h, x, y))
  {
    var inp := ThreeInputs(x, y, z);
    TermIsFree(Denote(n, inp), b, |b| - 1);
    ReturnTermValue(n, inp, VectorOp(h));
    VectorOpValue(h, n, inp, x, y);
  }

  /** The elementwise theorem. For n >= 2 slots, any of add, subtract and multiply, and any order of
      users: a function that overwrites the slots of a vector, in order, with x[i] op y[i] becomes the
      single operation op(x, y) on its two parameters, and returns the vector it returned before. */
  lemma {:induction false} ElementwiseTheorem(h: Head, c: nat, n: nat, o: Batching.UseOrder, b: Body,
                                              x: seq<int>, y: seq<int>, z: seq<int>)
    requires Arith(h) && n > 1 && c < 3 && Batching.Enumerates(o) && |x| == |y| == |z| == n
    requires WellTyped(ThreeVectors(n), b) && Ordered(b) && EndsInReturn(b) && Result(Unfold(), b) == Loop(h, c, n)
    ensures var out := Pipeline.Optimize(n, o, b); var alg := Denote(n, ThreeInputs(x, y, z));
      && Result(Unfold(), out) == Node(Return, [Node(h, [Node(Arg(0), []), Node(Arg(1), [])])])
      && |out| == 4 && Tally(out, Arith) == 1
      && Result(alg, out) == V(Pointwise(h, x, y))
      && Result(alg, b) == V(Pointwise(h, x, y))
  {
    OptimizedLoop(h, c, n, o, b);
    var out := Pipeline.Optimize(n, o, b);
    OpTerms(h);
    OpTally(h);
    TallySubterms(out, [Param(0), Param(1), VectorOp(h), Node(Return, [VectorOp(h)])], Arith);
    LoopValue(h, c, n, b, x, y, z);
    OpValue(h, n, out, x, y, z);
  }
}
