/** Merging chains of single-slot combines over one source vector. */
module Combining {
  import opened Ir
  import opened Walk
  import opened Meaning
  import opened Folding

  /** The slots an index lists, in order. */
  function Listed(x: Index): seq<int>
  {
    match x
    case One(i) => [i]
    case Many(run) => run
    case All => []
  }

  /** A combine of two vectors whose second one fills the remaining slots. */
  predicate Plain2(op: Op)
  {
    op.head.Combine? && |op.args| == 2 && |op.head.ix| == 2 && op.head.ix[1].All?
  }

  /** `op` takes slot i of a vector over a combine that takes the slots ending at i - 1 of that vector. */
  predicate Continues(out: Body, op: Op)
    requires Below(op.args, |out|)
  {
    && Plain2(op) && op.head.ix[0].One?
    && var c := out[op.args[1]];
      && Plain2(c) && !c.head.ix[0].All? && Listed(c.head.ix[0]) != []
      && var l := Listed(c.head.ix[0]);
         op.head.ix[0].i == l[|l| - 1] + 1 && op.args[0] == c.args[0]
  }

  function SimplifyVisit(out: Body, op: Op): Emit
    requires Below(op.args, |out|)
  {
    if Continues(out, op) then
      var c := out[op.args[1]];
      Emit([Op(Combine([Many(Listed(c.head.ix[0]) + [op.head.ix[0].i]), All]), c.args, op.ty)], |out|)
    else
      Emit([op], |out|)
  }

  function SimplifyStep(): Step
  {
    (k: nat, out: Body, op: Op) => if Below(op.args, |out|) then SimplifyVisit(out, op) else Emit([op], |out|)
  }

  function Simplify(b: Body): (w: Walked)
    requires Ordered(b)
    ensures Ordered(w.out) && |w.ren| == |b| && Below(w.ren, |w.out|)
  {
    SimplifyOrdered(b);
    Apply(SimplifyStep(), b)
  }

  lemma {:induction false} SimplifyOrdered(b: Body)
    requires Ordered(b)
    ensures var w := Apply(SimplifyStep(), b); Ordered(w.out) && Below(w.ren, |w.out|)
  {
    forall j: nat, out: Body, op: Op | j < |b| ensures Links(out, op, SimplifyStep()(j, out, op)) {
      LinksReplace(out, op, op);
      if Ordered(out) && Below(op.args, |out|) && Continues(out, op) {
        var k := op.args[1];
        assert Below(out[k].args, k);
        LinksReplace(out, op, SimplifyVisit(out, op).ops[0]);
      }
    }
    WalkOrdered(SimplifyStep(), b, |b|);
  }

  lemma {:induction false} ListsIsListed(x: Index, s: int)
    ensures Lists(x, s) <==> s in Listed(x)
  {}

  /** Two vectors combined by one list of slots. */
  lemma {:induction false} PairSlot(x: Index, a: Val, b: Val, s: int)
    requires !x.All? && s >= 0
    ensures CombineSlot([x, All], [a, b], s) == if s in Listed(x) then Slot(a, s) else Slot(b, s)
  {
    ListsIsListed(x, s);
    assert [x, All][1..] == [All] && [All][1..] == [];
    assert Owner([x, All], s) == if Lists(x, s) then 0 else 2;
    assert Remaining([x, All]) == 1;
  }

  /** Taking slot i over taking the slots l is taking the slots l and i. */
  lemma {:induction false} ChainValue(n: nat, inp: nat -> Val, x: Index, i: int, a: Val, w: Val)
    requires !x.All?
    ensures var alg := Denote(n, inp);
      alg(Combine([One(i), All]), [a, alg(Combine([x, All]), [a, w])]) == alg(Combine([Many(Listed(x) + [i]), All]), [a, w])
  {
    var inner := Compute(n, inp, Combine([x, All]), [a, w]);
    var l := Compute(n, inp, Combine([One(i), All]), [a, inner]);
    var r := Compute(n, inp, Combine([Many(Listed(x) + [i]), All]), [a, w]);
    forall s | 0 <= s < n ensures l.s[s] == r.s[s] {
      PairSlot(One(i), a, inner, s);
      PairSlot(x, a, w, s);
      PairSlot(Many(Listed(x) + [i]), a, w, s);
    }
    assert l.s == r.s;
  }

  lemma {:induction false} SimplifyVisitOk(g: Signature, out: Body, op: Op)
    requires WellTyped(g, out) && OpOk(g, out, op)
    ensures EmitOk(g, out, op, SimplifyVisit(out, op))
  {
    TypedAppend(g, out, op);
    if Continues(out, op) {
      var k := op.args[1];
      assert OpOk(g, out[..k], out[k]);
      TypedAppend(g, out, SimplifyVisit(out, op).ops[0]);
    }
  }

  lemma {:induction false} SimplifyVisitKeeps(g: Signature, inp: nat -> Val, out: Body, op: Op)
    requires WellTyped(g, out) && Ordered(out) && OpOk(g, out, op)
    ensures VisitKeeps(Denote(g.n, inp), out, op, SimplifyVisit(out, op))
  {
    var alg := Denote(g.n, inp);
    if Continues(out, op) {
      var v, k, op' := Run(alg, out), op.args[1], SimplifyVisit(out, op).ops[0];
      var c := out[k];
      RunAt(alg, out, k);
      var a, w := v[c.args[0]], v[c.args[1]];
      assert Pick(v, c.args) == [a, w];
      assert c.head.ix == [c.head.ix[0], All];
      assert op.head.ix == [op.head.ix[0], All];
      assert Pick(v, op.args) == [a, v[k]];
      ChainValue(g.n, inp, c.head.ix[0], op.head.ix[0].i, a, w);
      ReplaceKeeps(alg, out, op, op');
    } else {
      ReplaceKeeps(alg, out, op, op);
    }
  }

  /** The sweep over all combines keeps every slot of every result. */
  lemma {:induction false} SimplifyCorrect(g: Signature, b: Body, inp: nat -> Val)
    requires WellTyped(g, b) && Ordered(b)
    ensures var w := Simplify(b);
      WellTyped(g, w.out) && Ordered(w.out) && Tracks(b, w) && Agrees(Denote(g.n, inp), b, w)
  {
    var step, alg := SimplifyStep(), Denote(g.n, inp);
    forall k | 0 <= k < |b| ensures StepTyped(g, step, b, k) && StepKeeps(g, step, b, k, alg) {
      var w := Before(step, b, k);
      if WellTyped(g, w.out) && Tracks(b, w) {
        TypedOrdered(g, w.out);
        RenamedOk(g, b, k, w);
        SimplifyVisitOk(g, w.out, Visited(step, b, k));
        SimplifyVisitKeeps(g, inp, w.out, Visited(step, b, k));
      }
    }
    WalkTyped(g, step, b, |b|);
    WalkKeeps(g, step, b, alg, |b|);
  }

  ghost predicate AllRuns(b: Body)
  {
    forall k :: 0 <= k < |b| && b[k].head.Combine? ==> Runs(b[k].head.ix)
  }

  /** Every index list stays a contiguous increasing run. */
  lemma {:induction false} SimplifyRuns(b: Body, k: nat)
    requires Ordered(b) && k <= |b| && AllRuns(b)
    ensures AllRuns(Before(SimplifyStep(), b, k).out)
  {
    if k > 0 {
      SimplifyRuns(b, k - 1);
      BeforeNext(SimplifyStep(), b, k - 1);
      var w, op := Before(SimplifyStep(), b, k - 1), Visited(SimplifyStep(), b, k - 1);
      if Below(op.args, |w.out|) && Continues(w.out, op) {
        var c := w.out[op.args[1]];
        assert Runs(c.head.ix);
        ExtendedRun(c.head.ix[0], op.head.ix[0].i);
      }
    }
  }

  lemma {:induction false} ExtendedRun(x: Index, i: int)
    requires Listed(x) != [] && (x.Many? ==> Contiguous(x.run)) && i == Listed(x)[|Listed(x)| - 1] + 1
    ensures Contiguous(Listed(x) + [i])
  {}

  /** The numbers a, a + 1, ..., a + m. */
  function Span(a: int, m: nat): (r: seq<int>)
    ensures |r| == m + 1 && forall j :: 0 <= j <= m ==> r[j] == a + j
  {
    seq(m + 1, j requires 0 <= j => a + j)
  }

  /** Operations ks form a chain: each takes the next slot of vector v over the one before. */
  ghost predicate Chain(b: Body, ks: seq<nat>, v: nat, w: nat, a: int)
  {
    && ks != []
    && (forall t :: 0 <= t < |ks| ==> ks[t] < |b|)
    && b[ks[0]] == Op(Combine([One(a), All]), [v, w], Batched)
    && (forall t :: 0 < t < |ks| ==> b[ks[t]] == Op(Combine([One(a + t), All]), [v, ks[t - 1]], Batched))
  }

  /** Each visit puts exactly one operation where one was, so positions do not move. */
  lemma {:induction false} SimplifyInPlace(b: Body, k: nat)
    requires Ordered(b) && k <= |b|
    ensures var w := Before(SimplifyStep(), b, k); |w.out| == k && forall j :: 0 <= j < k ==> w.ren[j] == j
  {
    if k > 0 {
      SimplifyInPlace(b, k - 1);
      BeforeNext(SimplifyStep(), b, k - 1);
    }
  }

  lemma {:induction false} SimplifyAt(b: Body, k: nat)
    requires Ordered(b) && k < |b|
    ensures var out := Simplify(b).out;
      && |out| == |b| && Simplify(b).ren[k] == k
      && Below(b[k].args, k) && out[k] == SimplifyVisit(out[..k], b[k]).ops[0]
  {
    SimplifyInPlace(b, k);
    SimplifyInPlace(b, |b|);
    BeforeNext(SimplifyStep(), b, k);
    WalkPrefix(SimplifyStep(), b, k, |b|);
    WalkPrefix(SimplifyStep(), b, k + 1, |b|);
    assert Visited(SimplifyStep(), b, k).args == b[k].args;
    assert Simplify(b).out[..k] == Before(SimplifyStep(), b, k).out;
  }

  lemma {:induction false} ChainLink(b: Body, out: Body, k: nat, j: nat, v: nat, x: Index, i: int, w: nat)
    requires Ordered(b) && out == Simplify(b).out && k < |b| && b[k] == Op(Combine([One(i), All]), [v, j], Batched)
    requires j < |out| && out[j] == Op(Combine([x, All]), [v, w], Batched)
    requires !x.All? && Listed(x) != [] && i == Listed(x)[|Listed(x)| - 1] + 1
    ensures k < |out| && out[k] == Op(Combine([Many(Listed(x) + [i]), All]), [v, w], Batched)
  {
    SimplifyAt(b, k);
    assert b[k].args[1] == j;
    assert out[..k][j] == out[j];
  }

  lemma {:induction false} ChainHead(b: Body, out: Body, k: nat, v: nat, i: int, w: nat)
    requires Ordered(b) && out == Simplify(b).out && k < |b| && b[k] == Op(Combine([One(i), All]), [v, w], Batched)
    requires w < |out| && !Plain2(out[w])
    ensures k < |out| && out[k] == b[k]
  {
    SimplifyAt(b, k);
    assert b[k].args[1] == w;
    assert out[..k][w] == out[w];
  }

  /** The index that lists a, ..., a + t after a sweep. */
  function RunIndex(a: int, t: nat): (x: Index)
    ensures !x.All? && Listed(x) == Span(a, t)
  {
    if t == 0 then One(a) else Many(Span(a, t))
  }

  lemma {:induction false} RunIndexNext(a: int, t: nat)
    ensures Many(Listed(RunIndex(a, t)) + [a + t + 1]) == RunIndex(a, t + 1)
  {
    assert Listed(RunIndex(a, t)) + [a + t + 1] == Span(a, t + 1);
  }

  /** One sweep turns a whole chain into a single combine of its source with its base, unless the first
      link itself continues something. */
  lemma {:induction false} ChainCollapses(b: Body, out: Body, ks: seq<nat>, v: nat, w: nat, a: int, t: nat)
    requires Ordered(b) && out == Simplify(b).out && Chain(b, ks, v, w, a) && t < |ks| && w < |out|
    requires !Plain2(out[w])
    ensures ks[t] < |out| && out[ks[t]] == Op(Combine([RunIndex(a, t), All]), [v, w], Batched)
  {
    assert ks[t] < |b|;
    if t == 0 {
      ChainHead(b, out, ks[0], v, a, w);
    } else {
      ChainCollapses(b, out, ks, v, w, a, t - 1);
      ChainLink(b, out, ks[t], ks[t - 1], v, RunIndex(a, t - 1), a + t, w);
      RunIndexNext(a, t - 1);
    }
  }
}
