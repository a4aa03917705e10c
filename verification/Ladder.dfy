/** Internal batching of the spread sum: the n rotated copies become a ladder of log2(n) rotations. */
module Ladder {
  import opened Ir
  import opened Walk
  import opened Meaning
  import opened Dce
  import opened Terms
  import opened Sums
  import opened SlotSums
  import opened Vectors
  import opened Internal
  import opened Windows
  import opened Reduction
  import Folding
  import Pipeline

  /** What internal batching gets to see for a sum over n = 2^k slots. */
  ghost predicate Vectorized(n: nat, b: Body, sigma: seq<int>)
  {
    && n > 1 && PowerOfTwo(n) && multiset(sigma) == multiset(Upto(n))
    && VecBody(TwoVectors(n), b) && TermUnique(b) && Result(Unfold(), b) == SpreadReturn(n, sigma)
  }

  predicate SpreadPart(n: nat, sigma: seq<int>, t: Term)
  {
    || t == SpreadReturn(n, sigma) || t == Node(Extract(0), [Spread(n, sigma)]) || t == Spread(n, sigma)
    || (t.head.Rotate? && t.kids == [Hadamard()])
    || t == Hadamard() || t == X() || t == Y()
  }

  lemma {:induction false} SpreadPartWithin(n: nat, sigma: seq<int>, t: Term, r: Term)
    requires SpreadPart(n, sigma, r) && Within(t, r)
    ensures SpreadPart(n, sigma, t)
    decreases r
  {
    if t != r {
      var j :| 0 <= j < |r.kids| && Within(t, r.kids[j]);
      assert SpreadPart(n, sigma, r.kids[j]);
      SpreadPartWithin(n, sigma, t, r.kids[j]);
    }
  }

  lemma {:induction false} LivePart(n: nat, b: Body, sigma: seq<int>, k: nat)
    requires Vectorized(n, b, sigma) && k < |b|
    ensures SpreadPart(n, sigma, Run(Unfold(), b)[k]) && b[k].head == Run(Unfold(), b)[k].head
  {
    TermAt(b, k);
    assert Within(Run(Unfold(), b)[k], Result(Unfold(), b));
    SpreadPartWithin(n, sigma, Run(Unfold(), b)[k], Result(Unfold(), b));
  }

  /** The operand of the spread addition for slot i: a rotation of the product by n - i, or itself. */
  lemma {:induction false} SpreadOperand(n: nat, b: Body, sigma: seq<int>, k: nat, j: nat) returns (m: nat)
    requires Vectorized(n, b, sigma) && k < |b| && b[k].head == Add && j < |b[k].args|
    ensures |b[k].args| == |sigma| && b[k].args[j] < k && m < k && Run(Unfold(), b)[m] == Hadamard()
    ensures Origin(b, b[k].args[j]) == m && Index0(b, b[k].args[j]) == Turn(n, sigma[j])
  {
    LivePart(n, b, sigma, k);
    TermAt(b, k);
    var a := b[k].args[j];
    TermAt(b, a);
    LivePart(n, b, sigma, a);
    VecLive(TwoVectors(n), b, a);
    VecTyped(TwoVectors(n), b, a);
    m := if sigma[j] == 0 then a else b[a].args[0];
  }

  /** All operands of the spread addition come from the one product, in all rotations. */
  lemma {:induction false} SpreadUses(n: nat, b: Body, sigma: seq<int>, k: nat) returns (m: nat)
    requires Vectorized(n, b, sigma) && k < |b| && b[k].head == Add
    ensures m < k && Below(b[k].args, k) && b[k].args != [] && Run(Unfold(), b)[m] == Hadamard()
    ensures forall j :: 0 <= j < |b[k].args| ==> Origin(b, b[k].args[j]) == m
    ensures Uses(b[..k], b[k].args, m) == Turns(n, sigma) && Collapsible(b[..k], b[k].args, m) && |Turns(n, sigma)| == n
  {
    LivePart(n, b, sigma, k);
    TermAt(b, k);
    TurnsPermute(n, sigma);
    assert |b[k].args| == n;
    m := SpreadOperand(n, b, sigma, k, 0);
    forall j | 0 <= j < |b[k].args|
      ensures Origin(b, b[k].args[j]) == m && Origin(b[..k], b[k].args[j]) == m && Index0(b[..k], b[k].args[j]) == Turns(n, sigma)[j]
    {
      var m' := SpreadOperand(n, b, sigma, k, j);
    }
    UsesAll(b[..k], b[k].args, m, Turns(n, sigma));
  }

  /** The product's operands are two different parameters. */
  lemma {:induction false} ProductOperands(n: nat, b: Body, sigma: seq<int>, k: nat)
    requires Vectorized(n, b, sigma) && k < |b| && b[k].head == Mul
    ensures var args := b[k].args;
      |args| == 2 && args[0] < k && args[1] < k && args[0] != args[1] && b[args[0]].head.Arg? && b[args[1]].head.Arg?
  {
    LivePart(n, b, sigma, k);
    TermAt(b, k);
    TermAt(b, b[k].args[0]);
    TermAt(b, b[k].args[1]);
  }

  lemma {:induction false} SpreadSafeAt(n: nat, b: Body, sigma: seq<int>, k: nat)
    requires Vectorized(n, b, sigma) && k < |b|
    ensures Below(b[k].args, k) && SafeInternal(n, b[..k], b[k])
  {
    assert Below(b[k].args, k);
    if b[k].head == Add {
      SpreadSafeSum(n, b, sigma, k);
    } else if b[k].head == Mul {
      ProductOperands(n, b, sigma, k);
      forall o ensures !Collapsible(b[..k], b[k].args, o) { TwoOrigins(b[..k], b[k].args, o); }
    } else {
      LivePart(n, b, sigma, k);
    }
  }

  lemma {:induction false} SpreadSafeSum(n: nat, b: Body, sigma: seq<int>, k: nat)
    requires Vectorized(n, b, sigma) && k < |b| && b[k].head == Add && Below(b[k].args, k)
    ensures SafeInternal(n, b[..k], b[k])
  {
    var m := SpreadUses(n, b, sigma, k);
    OriginsOne(b[..k], b[k].args, m);
  }

  lemma {:induction false} SpreadSafe(n: nat, b: Body, sigma: seq<int>)
    requires Vectorized(n, b, sigma)
    ensures AllSafeInternal(TwoVectors(n), b)
  {
    forall k | 0 <= k < |b| ensures SafeInternal(n, b[..k], b[k]) {
      SpreadSafeAt(n, b, sigma, k);
    }
  }

  // ---------------------------------------------------------------- the walk

  function OriginTerm(t: Term): Term { if t.head.Rotate? && |t.kids| == 1 then t.kids[0] else t }

  /** An addition becomes the ladder over the vector its operands are rotations of. */
  function ReduceTerm(n: nat, h: Head, ts: seq<Term>): Term
  {
    if h.Add? && ts != [] then Node(Add, [ChainVal(Unfold(), OriginTerm(ts[0]), n / 2)]) else Node(h, ts)
  }

  function ReduceTop(n: nat): Algebra<Term> { (h: Head, ts: seq<Term>) => ReduceTerm(n, h, ts) }

  lemma {:induction false} CollapseSingle(out: Body, args: seq<nat>, o: nat, c: Chain)
    requires Below(args, |out|) && Collapsible(out, args, o) && Others(out, args, o, args) == []
    requires c == Halve(out, o, |Uses(out, args, o)| / 2)
    ensures CollapseAll(out, args, [o], out, args) == Collapsed(c.out, [c.last])
  {
    assert [o][1..] == [];
    assert CollapseAll(out, args, [], c.out, [c.last]) == Collapsed(c.out, [c.last]);
    assert [] + [c.last] == [c.last];
  }

  /** All uses of one origin are replaced by its reduction. */
  lemma {:induction false} CollapseOrigin(out: Body, args: seq<nat>, o: nat, c: Chain)
    requires Below(args, |out|) && args != [] && Collapsible(out, args, o)
    requires c == Halve(out, o, |Uses(out, args, o)| / 2)
    requires forall p :: 0 <= p < |args| ==> Origin(out, args[p]) == o
    ensures CollapseAll(out, args, Origins(out, args), out, args) == Collapsed(c.out, [c.last])
  {
    OriginsOne(out, args, o);
    OthersNone(out, args, o, args);
    CollapseSingle(out, args, o, c);
  }

  /** What the visit emits for such an addition. */
  lemma {:induction false} ReduceEmits(out: Body, op: Op, o: nat, c: Chain)
    requires Below(op.args, |out|) && op.args != [] && Arith(op.head) && op.ty == Batched
    requires Collapsible(out, op.args, o) && c == Halve(out, o, |Uses(out, op.args, o)| / 2) && out <= c.out
    requires forall p :: 0 <= p < |op.args| ==> Origin(out, op.args[p]) == o
    ensures var e := InternalVisit(out, op);
      out + e.ops == c.out + [op.(args := [c.last])] && e.res == |c.out|
  {
    CollapseOrigin(out, op.args, o, c);
    assert out + (c.out[|out|..] + [op.(args := [c.last])]) == c.out + [op.(args := [c.last])];
  }

  lemma {:induction false} OriginIsTerm(out: Body, a: nat)
    requires Ordered(out) && a < |out| && out[a].ty == Batched
    ensures Origin(out, a) < |out| && OriginTerm(Run(Unfold(), out)[a]) == Run(Unfold(), out)[Origin(out, a)]
  {
    TermAt(out, a);
  }

  /** The ladder over origin o, as a term. */
  lemma {:induction false} ReduceVisit(g: Signature, out: Body, op: Op, o: nat, n: nat)
    requires WellTyped(g, out) && Ordered(out) && Below(op.args, |out|) && op.args != [] && op.head == Add && op.ty == Batched
    requires Collapsible(out, op.args, o) && |Uses(out, op.args, o)| == n && o < |out| && out[o].ty == Batched
    requires forall p :: 0 <= p < |op.args| ==> Origin(out, op.args[p]) == o && out[op.args[p]].ty == Batched
    ensures var e := InternalVisit(out, op);
      && Ordered(out + e.ops) && e.res < |out + e.ops|
      && Run(Unfold(), out + e.ops)[e.res] == ReduceTerm(n, Add, Pick(Run(Unfold(), out), op.args))
  {
    var c := Halve(out, o, n / 2);
    HalveOk(g, Unfold(), out, o, n / 2);
    ReduceEmits(out, op, o, c);
    OriginIsTerm(out, op.args[0]);
    OneOperand(c, op);
  }

  lemma {:induction false} OneOperand(c: Chain, op: Op)
    requires Ordered(c.out) && c.last < |c.out|
    ensures var all := c.out + [op.(args := [c.last])];
      Ordered(all) && Run(Unfold(), all)[|c.out|] == Node(op.head, [Run(Unfold(), c.out)[c.last]])
  {
    UnfoldAppend(c.out, op.(args := [c.last]));
    assert Pick(Run(Unfold(), c.out), [c.last]) == [Run(Unfold(), c.out)[c.last]];
  }

  lemma {:induction false} AddMet(n: nat, b: Body, sigma: seq<int>, k: nat, w: Walked)
    requires Vectorized(n, b, sigma) && k < |b| && b[k].head == Add
    requires WellTyped(TwoVectors(n), w.out) && Ordered(w.out) && Tracks(b, w) && Faithful(b, w) && |w.ren| == k
    ensures Below(b[k].args, k)
    ensures var op, e := Renamed(b[k], w.ren), InternalVisit(w.out, Renamed(b[k], w.ren));
      && Ordered(w.out + e.ops) && e.res < |w.out + e.ops|
      && Run(Unfold(), w.out + e.ops)[e.res] == ReduceTerm(n, Add, Pick(Run(Unfold(), w.out), op.args))
  {
    var g, op := TwoVectors(n), Renamed(b[k], w.ren);
    var m := SpreadUses(n, b, sigma, k);
    UsesRenamed(b, w, b[k].args, m);
    VecLive(g, b, k);
    VecTyped(g, b, k);
    VecLive(g, b, m);
    VecTyped(g, b, m);
    forall p | 0 <= p < |op.args| ensures Origin(w.out, op.args[p]) == w.ren[m] && w.out[op.args[p]].ty == Batched {
      OriginRenamed(b, w, b[k].args[p]);
      var a := b[k].args[p];
      VecLive(g, b, a);
      LivePart(n, b, sigma, k);
      TermAt(b, k);
      VecTyped(g, b, a);
    }
    ReduceVisit(g, w.out, op, w.ren[m], n);
  }

  lemma {:induction false} MulMet(n: nat, b: Body, sigma: seq<int>, k: nat, w: Walked)
    requires Vectorized(n, b, sigma) && k < |b| && b[k].head == Mul
    requires Ordered(w.out) && Faithful(b, w) && |w.ren| == k
    ensures Below(b[k].args, k) && InternalVisit(w.out, Renamed(b[k], w.ren)) == Emit([Renamed(b[k], w.ren)], |w.out|)
  {
    ProductOperands(n, b, sigma, k);
    var op := Renamed(b[k], w.ren);
    forall o ensures !Collapsible(w.out, op.args, o) { TwoOrigins(w.out, op.args, o); }
    InternalIdle(w.out, op);
  }

  /** Any inputs of the right shape. */
  function Zeros(n: nat): nat -> Val { (k: nat) => V(seq(n, j => 0)) }

  lemma {:induction false} OneMet(n: nat, b: Body, sigma: seq<int>, k: nat, w: Walked)
    requires Vectorized(n, b, sigma) && k < |b|
    requires WellTyped(TwoVectors(n), w.out) && Ordered(w.out) && Tracks(b, w) && Faithful(b, w) && |w.ren| == k
    ensures Below(b[k].args, k)
    ensures var op, e := Renamed(b[k], w.ren), InternalVisit(w.out, Renamed(b[k], w.ren));
      && Ordered(w.out + e.ops) && e.res < |w.out + e.ops|
      && Run(Unfold(), w.out + e.ops)[e.res] == ReduceTerm(n, op.head, Pick(Run(Unfold(), w.out), op.args))
  {
    assert Below(b[k].args, k);
    var op := Renamed(b[k], w.ren);
    if b[k].head == Add {
      AddMet(n, b, sigma, k, w);
    } else {
      LivePart(n, b, sigma, k);
      if b[k].head == Mul { MulMet(n, b, sigma, k, w); }
      UnfoldAppend(w.out, op);
    }
  }

  lemma {:induction false} ReduceTranslates(n: nat, b: Body, sigma: seq<int>, k: nat)
    requires Vectorized(n, b, sigma) && k < |b|
    ensures VisitTranslates(InternalStep(), b, ReduceTop(n), Unfold(), k)
  {
    var w := Before(InternalStep(), b, k);
    SpreadSafe(n, b, sigma);
    InternalInvariant(TwoVectors(n), Zeros(n), b, k);
    TypedOrdered(TwoVectors(n), w.out);
    OneMet(n, b, sigma, k, w);
  }

  lemma {:induction false} ReduceLeaf(n: nat, t: Term, vs: seq<Term>)
    requires !t.head.Add? && |vs| == |t.kids| && forall j :: 0 <= j < |vs| ==> vs[j] == EvalTerm(ReduceTop(n), t.kids[j])
    ensures EvalTerm(ReduceTop(n), t) == Node(t.head, vs)
  {
    assert t == Node(t.head, t.kids);
    EvalNode(ReduceTop(n), t.head, t.kids, vs);
  }

  /** The sum once reduced, still wrapped in the addition it was. */
  function LadderReturn(n: nat): Term
  {
    Node(Return, [Node(Extract(0), [Node(Add, [ChainVal(Unfold(), Hadamard(), n / 2)])])])
  }

  lemma {:induction false} ReduceHadamard(n: nat)
    ensures EvalTerm(ReduceTop(n), Hadamard()) == Hadamard()
  {
    ReduceLeaf(n, X(), []);
    ReduceLeaf(n, Y(), []);
    ReduceLeaf(n, Hadamard(), [X(), Y()]);
  }

  lemma {:induction false} ReduceSpread(n: nat, sigma: seq<int>)
    requires sigma != []
    ensures EvalTerm(ReduceTop(n), SpreadReturn(n, sigma)) == LadderReturn(n)
  {
    var ts := Spread(n, sigma).kids;
    var vs := ts;
    ReduceHadamard(n);
    forall p | 0 <= p < |sigma| ensures vs[p] == EvalTerm(ReduceTop(n), ts[p]) {
      if sigma[p] != 0 { ReduceLeaf(n, ts[p], [Hadamard()]); }
    }
    EvalNode(ReduceTop(n), Add, ts, vs);
    var s := Node(Add, [ChainVal(Unfold(), Hadamard(), n / 2)]);
    assert OriginTerm(vs[0]) == Hadamard();
    ReduceLeaf(n, Node(Extract(0), [Spread(n, sigma)]), [s]);
    ReduceLeaf(n, SpreadReturn(n, sigma), [Node(Extract(0), [s])]);
  }

  lemma {:induction false} ReducedSum(n: nat, b: Body, sigma: seq<int>)
    requires Vectorized(n, b, sigma)
    ensures var out := Pipeline.Reduced(b); WellTyped(TwoVectors(n), out) && Result(Unfold(), out) == LadderReturn(n)
  {
    SpreadSafe(n, b, sigma);
    InternalInvariant(TwoVectors(n), Zeros(n), b, |b|);
    Pipeline.InternalEnds(b);
    forall j | 0 <= j < |b| ensures VisitTranslates(InternalStep(), b, ReduceTop(n), Unfold(), j) {
      ReduceTranslates(n, b, sigma, j);
    }
    WalkTranslates(InternalStep(), b, ReduceTop(n), Unfold(), |b|);
    TermIsFree(ReduceTop(n), b, |b| - 1);
    PermutationSlots(n, sigma);
    ReduceSpread(n, sigma);
  }
}
