/** What the passes leave behind: nothing they would rewrite again. */
module NormalForms {
  import opened Ir
  import opened Walk
  import opened Folding
  import opened Terms
  import opened Pipeline
  import Batching
  import Combining
  import opened Dce
  import Cse

  // ---------------------------------------------------------------- folds

  /** A constant 0, or 1 for a multiplication. */
  predicate UnitOperand(b: Body, h: Head, a: nat)
    requires a < |b|
  {
    var u := if h == Mul then 1 else 0;
    b[a].head == Const(u) || b[a].head == Splat(u)
  }

  ghost predicate SomeUnit(b: Body, op: Op)
    requires Below(op.args, |b|)
  {
    exists p :: 0 <= p < |op.args| && UnitOperand(b, op.head, op.args[p])
  }

  ghost predicate SomeOther(b: Body, op: Op)
    requires Below(op.args, |b|)
  {
    exists p :: 0 <= p < |op.args| && !UnitOperand(b, op.head, op.args[p])
  }

  /** A rotation by 0 or by a negative offset; the insert of a slot that was read from the same place; a combine with
      an index list for all slots; arithmetic with a unit among other operands, or on a single operand. */
  ghost predicate Reducible(n: nat, b: Body, op: Op)
    requires Below(op.args, |b|)
  {
    match op.head
    case Rotate(k) => k < 0 || (k == 0 && |op.args| == 1)
    case Insert(i) => |op.args| == 2 && b[op.args[0]].head == Extract(i) && |b[op.args[0]].args| == 1
    case Combine(ix) => exists k :: 0 <= k < |ix| && k < |op.args| && ix[k].Many? && |ix[k].run| == n > 0 && ix[k].run[0] == 0
    case Add => SomeOther(b, op) && (|op.args| == 1 || SomeUnit(b, op))
    case Sub => SomeOther(b, op) && (|op.args| == 1 || SomeUnit(b, op))
    case Mul => SomeOther(b, op) && (|op.args| == 1 || SomeUnit(b, op))
    case _ => false
  }

  ghost predicate Irreducible(n: nat, b: Body)
    requires Ordered(b) && n > 0
  {
    forall k :: 0 <= k < |b| ==> !Reducible(n, b[..k], b[k])
  }

  /** Offsets that one turn brings above 0. */
  predicate SmallOffset(n: nat, op: Op) { op.head.Rotate? ==> -(n as int) < op.head.off }

  lemma {:induction false} KeptOthers(b: Body, h: Head, args: seq<nat>)
    requires Arith(h) && Below(args, |b|)
    ensures forall p :: 0 <= p < |Kept(b, h, args)| ==> !UnitOperand(b, h, Kept(b, h, args)[p])
    ensures (exists p :: 0 <= p < |args| && !UnitOperand(b, h, args[p])) ==> Kept(b, h, args) != []
  {
    if args != [] {
      var m := |args| - 1;
      KeptOthers(b, h, args[..m]);
      assert Neutral(b, h, args[m]) <==> UnitOperand(b, h, args[m]);
      if p :| 0 <= p < |args| && !UnitOperand(b, h, args[p]) {
        if p < m { assert args[..m][p] == args[p]; }
      }
    }
  }

  lemma {:induction false} CoveringNone(n: nat, ix: seq<Index>, k: nat)
    requires n > 0 && k < |ix| && CoversAll(n, ix[k])
    ensures Covering(n, ix) <= k
  {
    if k > 0 && !CoversAll(n, ix[0]) { CoveringNone(n, ix[1..], k - 1); }
  }

  lemma {:induction false} ArithDone(n: nat, out: Body, op: Op)
    requires n > 0 && Below(op.args, |out|) && Arith(op.head)
    ensures var e := FoldArith(out, op);
      e.ops == [] || (|e.ops| == 1 && Below(e.ops[0].args, |out|) && !Reducible(n, out, e.ops[0]))
  {
    var kept := Kept(out, op.head, op.args);
    KeptOthers(out, op.head, op.args);
    if |kept| > 1 {
      assert !SomeUnit(out, op.(args := kept));
    } else if |kept| == 0 {
      assert !SomeOther(out, op);
    }
  }

  lemma {:induction false} CombineDone(n: nat, out: Body, op: Op)
    requires n > 0 && Below(op.args, |out|) && op.head.Combine? && !(Covering(n, op.head.ix) < |op.args| && Covering(n, op.head.ix) < |op.head.ix|)
    ensures !Reducible(n, out, op)
  {
    forall k | 0 <= k < |op.head.ix| && k < |op.args| && CoversAll(n, op.head.ix[k]) ensures false {
      CoveringNone(n, op.head.ix, k);
    }
  }

  lemma {:induction false} VisitDone(n: nat, out: Body, op: Op)
    requires n > 0 && Below(op.args, |out|) && SmallOffset(n, op) && Ordered(out)
    ensures var e := FoldVisit(n, out, op);
      e.ops == [] || (|e.ops| == 1 && Below(e.ops[0].args, |out|) && !Reducible(n, out, e.ops[0]))
  {
    if Arith(op.head) {
      ArithDone(n, out, op);
    } else if op.head.Combine? {
      if FoldVisit(n, out, op).ops != [] { CombineDone(n, out, op); }
    } else if op.head.Insert? {
      InsertDone(n, out, op);
    }
  }

  lemma {:induction false} InsertDone(n: nat, out: Body, op: Op)
    requires n > 0 && Below(op.args, |out|) && op.head.Insert? && Ordered(out)
    ensures var e := InsertToCombine(out, op); |e.ops| == 1 && Below(e.ops[0].args, |out|) && !Reducible(n, out, e.ops[0])
  {
    if InsertToCombine(out, op) != Emit([op], |out|) {
      var a := op.args[0];
      assert Below(out[a].args, a);
      assert [One(op.head.i), All][0] == One(op.head.i);
    }
  }

  lemma {:induction false} IrreducibleMore(n: nat, b: Body, op: Op)
    requires n > 0 && Ordered(b) && Irreducible(n, b) && Below(op.args, |b|) && !Reducible(n, b, op)
    ensures Ordered(b + [op]) && Irreducible(n, b + [op])
  {
    var c := b + [op];
    forall k | 0 <= k < |c| ensures Below(c[k].args, k) {}
    forall k | 0 <= k < |c| ensures !Reducible(n, c[..k], c[k]) {
      if k < |b| { assert c[..k] == b[..k] && c[k] == b[k]; } else { assert c[..k] == b; }
    }
  }

  lemma {:induction false} FoldedSoFar(n: nat, b: Body, k: nat)
    requires n > 0 && Ordered(b) && k <= |b| && forall j :: 0 <= j < |b| ==> SmallOffset(n, b[j])
    ensures var w := Before(FoldStep(n), b, k); Ordered(w.out) && Below(w.ren, |w.out|) && Irreducible(n, w.out)
  {
    if k > 0 {
      var step, m := FoldStep(n), k - 1;
      FoldedSoFar(n, b, m);
      var w, op := Before(step, b, m), Visited(step, b, m);
      BeforeNext(step, b, m);
      VisitDone(n, w.out, op);
      FoldLinks(n, w.out, op);
      var e := FoldVisit(n, w.out, op);
      if e.ops == [] { assert w.out + e.ops == w.out; } else {
        IrreducibleMore(n, w.out, e.ops[0]);
        assert e.ops == [e.ops[0]];
      }
    }
  }

  /** After the fold nothing can be folded any more, if no rotation turns back by a whole vector or more. */
  lemma {:induction false} FoldDone(n: nat, b: Body)
    requires n > 0 && Ordered(b) && forall j :: 0 <= j < |b| ==> SmallOffset(n, b[j])
    ensures Irreducible(n, FoldAll(n, b).out)
  {
    FoldedSoFar(n, b, |b|);
  }

  // ---------------------------------------------------------------- combines

  /** The last slot an index lists. */
  predicate LastIs(x: Index, i: int)
  {
    match x
    case One(j) => j == i
    case Many(run) => run != [] && run[|run| - 1] == i
    case All => false
  }

  /** The operation takes slot i of a vector over a combine that takes slots of it up to i - 1. */
  predicate Extends(b: Body, op: Op)
    requires Below(op.args, |b|)
  {
    && |op.args| == 2 && op.head.Combine? && |op.head.ix| == 2 && op.head.ix[0].One? && op.head.ix[1] == All
    && var c := b[op.args[1]];
      && |c.args| == 2 && c.head.Combine? && |c.head.ix| == 2 && LastIs(c.head.ix[0], op.head.ix[0].i - 1) && c.head.ix[1] == All
      && op.args[0] == c.args[0]
  }

  ghost predicate Inextensible(b: Body)
    requires Ordered(b)
  {
    forall k :: 0 <= k < |b| ==> !Extends(b[..k], b[k])
  }

  lemma {:induction false} CombineVisitDone(out: Body, op: Op)
    requires Ordered(out) && Below(op.args, |out|)
    ensures var e := Combining.SimplifyVisit(out, op); |e.ops| == 1 && Below(e.ops[0].args, |out|) && !Extends(out, e.ops[0])
  {
    if Combining.Continues(out, op) { assert Below(out[op.args[1]].args, op.args[1]); }
  }

  lemma {:induction false} SimplifiedMore(b: Body, op: Op)
    requires Ordered(b) && Inextensible(b) && Below(op.args, |b|) && !Extends(b, op)
    ensures Ordered(b + [op]) && Inextensible(b + [op])
  {
    var c := b + [op];
    forall k | 0 <= k < |c| ensures Below(c[k].args, k) {}
    forall k | 0 <= k < |c| ensures !Extends(c[..k], c[k]) {
      if k < |b| { assert c[..k] == b[..k] && c[k] == b[k]; } else { assert c[..k] == b; }
    }
  }

  lemma {:induction false} SimplifiedSoFar(b: Body, k: nat)
    requires Ordered(b) && k <= |b|
    ensures var w := Before(Combining.SimplifyStep(), b, k); Ordered(w.out) && Below(w.ren, |w.out|) && Inextensible(w.out)
  {
    if k > 0 {
      var step, m := Combining.SimplifyStep(), k - 1;
      SimplifiedSoFar(b, m);
      var w, op := Before(step, b, m), Visited(step, b, m);
      BeforeNext(step, b, m);
      CombineVisitDone(w.out, op);
      var e := Combining.SimplifyVisit(w.out, op);
      SimplifiedMore(w.out, e.ops[0]);
      assert e.ops == [e.ops[0]];
    }
  }

  /** After the sweep over the combines none takes one slot more than the combine it is laid over. */
  lemma {:induction false} SimplifyDone(b: Body)
    requires Ordered(b)
    ensures Inextensible(Combining.Simplify(b).out)
  {
    SimplifiedSoFar(b, |b|);
  }

  // ---------------------------------------------------------------- the whole sequence

  /** Merging leaves nothing dead where nothing was. */
  lemma {:induction false} MergeLive(g: Signature, b: Body)
    requires WellTyped(g, b) && Ordered(b) && EndsInReturn(b) && AllLive(b)
    ensures AllLive(Deduplicate(b))
  {
    var w := Cse.Merge(b);
    Cse.MergeCorrect(g, b, Unfold());
    MergeEnds(b);
    forall q | 0 <= q < |w.out| ensures Within(Run(Unfold(), w.out)[q], Result(Unfold(), w.out)) {
      MergeOnto(b, |b|, q);
      var j :| 0 <= j < |w.ren| && w.ren[j] == q;
    }
  }

  /** Whatever goes in, no operation but a return comes out twice. */
  lemma {:induction false} OptimizeDistinct(n: nat, o: Batching.UseOrder, b: Body)
    requires Ordered(b) && EndsInReturn(b)
    ensures Cse.Distinct(Optimize(n, o, b))
  {
    var c := Canonical(n, Reduced(Vectorize(n, o, Prepare(n, b))));
    Cse.MergeDistinct(c, |c|);
  }
}
