/** Elementwise loops before and during batching: out[i] = x[i] op y[i], one slot after the other. */
module Elementwise {
  import opened Ir
  import opened Walk
  import opened Folding
  import opened Batching
  import opened Dce
  import opened Terms
  import opened Unnested
  import opened Reduction
  import Nary
  import Sums
  import SlotSums
  import Pipeline

  function ThreeVectors(n: nat): Signature { Signature(n, [Batched, Batched, Batched]) }

  function Param(k: nat): Term { Node(Arg(k), []) }
  function At(i: int, t: Term): Term { Node(Extract(i), [t]) }

  /** x[i] op y[i] */
  function Slotwise(h: Head, i: int): Term { Node(h, [At(i, Param(0)), At(i, Param(1))]) }

  /** Parameter c with its first m slots overwritten, in order. */
  function Inserted(h: Head, c: nat, m: nat): Term
  {
    if m == 0 then Param(c) else Node(Insert(m - 1), [Slotwise(h, m - 1), Inserted(h, c, m - 1)])
  }

  function Loop(h: Head, c: nat, n: nat): Term { Node(Return, [Inserted(h, c, n)]) }

  /** The two operands are the same slot of the two vectors. */
  predicate IsSlotwise(h: Head, n: nat, t: Term)
  {
    |t.kids| == 2 && t.kids[0].head.Extract? && 0 <= t.kids[0].head.i < n && t == Slotwise(h, t.kids[0].head.i)
  }

  /** Everything that occurs in the loop. */
  predicate Part(h: Head, c: nat, n: nat, t: Term)
  {
    || t == Loop(h, c, n)
    || (t.head.Insert? && 0 <= t.head.i < n && t == Inserted(h, c, t.head.i + 1))
    || IsSlotwise(h, n, t)
    || (t.head.Extract? && 0 <= t.head.i < n && (t.kids == [Param(0)] || t.kids == [Param(1)]))
    || t == Param(0) || t == Param(1) || t == Param(c)
  }

  lemma {:induction false} InsertedPart(h: Head, c: nat, n: nat, m: nat)
    requires m <= n
    ensures Part(h, c, n, Inserted(h, c, m))
  {}

  lemma {:induction false} PartKid(h: Head, c: nat, n: nat, t: Term, j: nat)
    requires Part(h, c, n, t) && j < |t.kids| && Arith(h)
    ensures Part(h, c, n, t.kids[j])
    ensures Arith(t.head) ==> IsSlotwise(h, n, t) && t.kids[j].head == Extract(t.kids[0].head.i)
    ensures t.kids[j].head == h ==> t.head == Insert(t.kids[j].kids[0].head.i)
  {
    if t == Loop(h, c, n) {
      InsertedPart(h, c, n, n);
    } else if t.head.Insert? {
      InsertedPart(h, c, n, t.head.i);
    }
  }

  lemma {:induction false} PartWithin(h: Head, c: nat, n: nat, t: Term, r: Term)
    requires Part(h, c, n, r) && Within(t, r) && Arith(h)
    ensures Part(h, c, n, t)
    decreases r
  {
    if t != r {
      var j :| 0 <= j < |r.kids| && Within(t, r.kids[j]);
      PartKid(h, c, n, r, j);
      PartWithin(h, c, n, t, r.kids[j]);
    }
  }

  /** A function that returns the loop, cleaned up. */
  ghost predicate Laid(h: Head, c: nat, n: nat, b: Body)
  {
    Arith(h) && n > 1 && c < 3 && Tidy(ThreeVectors(n), b) && Result(Unfold(), b) == Loop(h, c, n)
  }

  lemma {:induction false} LaidPart(h: Head, c: nat, n: nat, b: Body, k: nat)
    requires Laid(h, c, n, b) && k < |b|
    ensures Part(h, c, n, Run(Unfold(), b)[k]) && b[k].head == Run(Unfold(), b)[k].head
  {
    TermAt(b, k);
    assert Within(Run(Unfold(), b)[k], Result(Unfold(), b));
    PartWithin(h, c, n, Run(Unfold(), b)[k], Result(Unfold(), b));
  }

  // ---------------------------------------------------------------- before batching

  lemma {:induction false} SlotwiseInert(h: Head, n: nat, i: int)
    requires Arith(h)
    ensures NoFold(n, Slotwise(h, i)) && Tame(n, Slotwise(h, i)) && Clean(Slotwise(h, i))
  {
    KeptAll(h, Slotwise(h, i).kids);
    NoFoldNode(n, Extract(i), [Param(0)]);
    NoFoldNode(n, Extract(i), [Param(1)]);
    NoFoldNode(n, h, Slotwise(h, i).kids);
    assert Tame(n, At(i, Param(0))) && Tame(n, At(i, Param(1)));
  }

  lemma {:induction false} InsertInert(h: Head, n: nat, i: int, t: Term)
    requires Arith(h) && NoFold(n, t) && Tame(n, t) && Clean(t)
    ensures var u := Node(Insert(i), [Slotwise(h, i), t]); NoFold(n, u) && Tame(n, u) && Clean(u)
  {
    SlotwiseInert(h, n, i);
    NoFoldNode(n, Insert(i), [Slotwise(h, i), t]);
  }

  lemma {:induction false} InsertedInert(h: Head, c: nat, n: nat, m: nat)
    requires Arith(h)
    ensures NoFold(n, Inserted(h, c, m)) && Tame(n, Inserted(h, c, m)) && Clean(Inserted(h, c, m))
  {
    if m > 0 {
      InsertedInert(h, c, n, m - 1);
      InsertInert(h, n, m - 1, Inserted(h, c, m - 1));
    }
  }

  lemma {:induction false} LoopInert(h: Head, c: nat, n: nat)
    requires Arith(h)
    ensures NoFold(n, Loop(h, c, n)) && Tame(n, Loop(h, c, n)) && ReturnOnly(Loop(h, c, n))
    ensures EvalTerm(FoldTop(n), Loop(h, c, n)) == Loop(h, c, n)
  {
    InsertedInert(h, c, n, n);
    NoFoldNode(n, Return, [Inserted(h, c, n)]);
    NoFoldFixed(n, Loop(h, c, n));
  }

  /** Nothing in the loop is nested, so flattening changes nothing. */
  lemma {:induction false} LoopFlat(h: Head, c: nat, n: nat, b: Body)
    requires Laid(h, c, n, b)
    ensures Pipeline.Flatten(b) == b
  {
    forall q, a | 0 <= q < |b| && Arith(b[q].head) && a in b[q].args ensures !Arith(b[a].head) {
      var j :| 0 <= j < |b[q].args| && b[q].args[j] == a;
      TermAt(b, q);
      LaidPart(h, c, n, b, q);
      PartKid(h, c, n, Run(Unfold(), b)[q], j);
      LaidPart(h, c, n, b, a);
    }
    SweepIdle(Add, b, 0);
    SweepIdle(Sub, b, 0);
    SweepIdle(Mul, b, 0);
  }

  /** Cleanup and flattening leave the loop as it is. */
  lemma {:induction false} PrepareLoop(h: Head, c: nat, n: nat, b: Body)
    requires Arith(h) && n > 1 && c < 3
    requires WellTyped(ThreeVectors(n), b) && Ordered(b) && EndsInReturn(b) && Result(Unfold(), b) == Loop(h, c, n)
    ensures Laid(h, c, n, Pipeline.Prepare(n, b))
  {
    var g := ThreeVectors(n);
    LoopInert(h, c, n);
    CleanTame(g, b);
    var b1 := Pipeline.Deduplicate(Canonical(n, b));
    LoopFlat(h, c, n, b1);
    CanonicalTame(g, b1);
    CleanTame(g, Canonical(n, b1));
  }

  // ---------------------------------------------------------------- batching

  lemma {:induction false} SlotwiseSecret(h: Head, c: nat, n: nat, b: Body, k: nat)
    requires Laid(h, c, n, b) && k < |b| && Arith(b[k].head)
    ensures ScalarArith(b[k]) && IsSlotwise(h, n, Run(Unfold(), b)[k]) && |b[k].args| == 2 && b[k].head == h
    ensures forall j :: 0 <= j < 2 ==>
      var a := b[k].args[j]; a < k && b[a].ty == Secret && b[a].head == Extract(Run(Unfold(), b)[k].kids[0].head.i)
  {
    LaidPart(h, c, n, b, k);
    TermAt(b, k);
    PartKid(h, c, n, Run(Unfold(), b)[k], 0);
    assert OpOk(ThreeVectors(n), b[..k], b[k]);
    forall j | 0 <= j < 2 ensures b[k].args[j] < k && b[..k][b[k].args[j]].ty == Secret
      && b[b[k].args[j]].head == Extract(Run(Unfold(), b)[k].kids[0].head.i)
    {
      var a := b[k].args[j];
      TermAt(b, a);
      assert OpOk(ThreeVectors(n), b[..a], b[a]);
    }
  }

  lemma {:induction false} LoopBatchable(h: Head, c: nat, n: nat, b: Body)
    requires Laid(h, c, n, b)
    ensures AllBatchable(b)
  {
    forall k | 0 <= k < |b| ensures Batchable(b, b[k]) && HasSlot(b, k) {
      if Arith(b[k].head) {
        SlotwiseSecret(h, c, n, b, k);
        assert b[b[k].args[0]].ty == Secret && !b[b[k].args[0]].head.Const?;
        assert SlottedOperand(b, b[k]);
      }
    }
  }

  /** The result for slot i is used by the insert into slot i alone. */
  lemma {:induction false} InsertUser(h: Head, c: nat, n: nat, o: UseOrder, b: Body, k: nat)
    requires Laid(h, c, n, b) && Enumerates(o) && k < |b| && Arith(b[k].head)
    requires IsSlotwise(h, n, Run(Unfold(), b)[k])
    ensures var i := Run(Unfold(), b)[k].kids[0].head.i;
      UserSlot(b, o(Users(b, k))) == -1 || UserSlot(b, o(Users(b, k))) == i
  {
    var us := o(Users(b, k));
    if us != [] {
      assert us[0] in us;
      var u := us[0];
      var j :| 0 <= j < |b[u].args| && b[u].args[j] == k;
      TermAt(b, u);
      TermAt(b, k);
      LaidPart(h, c, n, b, u);
      LaidPart(h, c, n, b, k);
      PartKid(h, c, n, Run(Unfold(), b)[u], j);
    }
  }

  /** The operands of arithmetic, as the walk meets them. */
  lemma {:induction false} MetOperands(h: Head, c: nat, n: nat, b: Body, k: nat, w: Walked)
    requires Laid(h, c, n, b) && k < |b| && Arith(b[k].head)
    requires WellTyped(ThreeVectors(n), w.out) && Ordered(w.out) && Tracks(b, w) && Images(b, w) && |w.ren| == k
    ensures Below(b[k].args, k) && IsSlotwise(h, n, Run(Unfold(), b)[k])
    ensures var args := Renamed(b[k], w.ren).args; |args| == 2 && forall j :: 0 <= j < 2 ==>
      && FromExtract(w.out, args[j]) && |w.out[args[j]].args| == 1
      && w.out[args[j]].head == Extract(Run(Unfold(), b)[k].kids[0].head.i)
  {
    SlotwiseSecret(h, c, n, b, k);
    var args := Renamed(b[k], w.ren).args;
    forall j | 0 <= j < 2
      ensures FromExtract(w.out, args[j]) && |w.out[args[j]].args| == 1
      ensures w.out[args[j]].head == Extract(Run(Unfold(), b)[k].kids[0].head.i)
    {
      assert args[j] == w.ren[b[k].args[j]];
      assert OpOk(ThreeVectors(n), w.out[..args[j]], w.out[args[j]]);
    }
  }

  lemma {:induction false} LoopVisitArith(h: Head, c: nat, n: nat, o: UseOrder, b: Body, k: nat)
    requires Laid(h, c, n, b) && Enumerates(o) && k < |b| && Arith(b[k].head) && AllBatchable(b)
    requires var w := Before(BatchStep(o, b), b, k);
      WellTyped(ThreeVectors(n), w.out) && Ordered(w.out) && Tracks(b, w) && Images(b, w)
    ensures VisitTranslates(BatchStep(o, b), b, SlotSums.BatchTop(Return), Unfold(), k)
  {
    var g, w, op := ThreeVectors(n), Before(BatchStep(o, b), b, k), Visited(BatchStep(o, b), b, k);
    var user := UserSlot(b, o(Users(b, k)));
    SlotwiseSecret(h, c, n, b, k);
    RenamedOk(g, b, k, w);
    BatchReady(g, o, b, k);
    MetOperands(h, c, n, b, k, w);
    InsertUser(h, c, n, o, b, k);
    var i := Run(Unfold(), b)[k].kids[0].head.i;
    SlotSums.OperandSlotTwo(w.out, op.args, i);
    assert TargetSlot(user, w.out, op.args) == i;
    SlotSums.SlotVisit(g, o, b, k, Return);
  }

  lemma {:induction false} LoopVisit(h: Head, c: nat, n: nat, o: UseOrder, b: Body, k: nat)
    requires Laid(h, c, n, b) && Enumerates(o) && k < |b|
    ensures VisitTranslates(BatchStep(o, b), b, SlotSums.BatchTop(Return), Unfold(), k)
  {
    var g, w, op := ThreeVectors(n), Before(BatchStep(o, b), b, k), Visited(BatchStep(o, b), b, k);
    LoopBatchable(h, c, n, b);
    BatchInvariant(g, o, b, k);
    TypedOrdered(g, w.out);
    if Arith(b[k].head) {
      LoopVisitArith(h, c, n, o, b, k);
    } else {
      BatchVisits(o, b, k);
      RenamedOk(g, b, k, w);
      UnfoldAppend(w.out, op);
    }
  }

  /** The vector operation with operands still rotated by 0. */
  function RawOp(h: Head): Term { Node(h, [Node(Rotate(0), [Param(0)]), Node(Rotate(0), [Param(1)])]) }

  function Placed(h: Head, c: nat, m: nat): Term
  {
    if m == 0 then Param(c) else Node(Insert(m - 1), [At(m - 1, RawOp(h)), Placed(h, c, m - 1)])
  }

  lemma {:induction false} BatchLeaf(t: Term, vs: seq<Term>)
    requires !Arith(t.head) && |vs| == |t.kids|
    requires forall j :: 0 <= j < |vs| ==> vs[j] == EvalTerm(SlotSums.BatchTop(Return), t.kids[j])
    ensures EvalTerm(SlotSums.BatchTop(Return), t) == Node(t.head, vs)
  {
    assert t == Node(t.head, t.kids);
    EvalNode(SlotSums.BatchTop(Return), t.head, t.kids, vs);
  }

  lemma {:induction false} BatchSlotwise(h: Head, i: int)
    requires Arith(h)
    ensures EvalTerm(SlotSums.BatchTop(Return), Slotwise(h, i)) == At(i, RawOp(h))
  {
    BatchLeaf(Param(0), []);
    BatchLeaf(Param(1), []);
    var x, y := At(i, Param(0)), At(i, Param(1));
    BatchLeaf(x, [Param(0)]);
    BatchLeaf(y, [Param(1)]);
    EvalNode(SlotSums.BatchTop(Return), h, [x, y], [x, y]);
    assert SlotSums.Rotated(i, [x, y]) == RawOp(h).kids;
  }

  lemma {:induction false} BatchInsert(h: Head, i: int, t: Term, u: Term)
    requires Arith(h) && EvalTerm(SlotSums.BatchTop(Return), t) == u
    ensures EvalTerm(SlotSums.BatchTop(Return), Node(Insert(i), [Slotwise(h, i), t])) == Node(Insert(i), [At(i, RawOp(h)), u])
  {
    BatchSlotwise(h, i);
    BatchLeaf(Node(Insert(i), [Slotwise(h, i), t]), [At(i, RawOp(h)), u]);
  }

  lemma {:induction false} BatchInserted(h: Head, c: nat, m: nat)
    requires Arith(h)
    ensures EvalTerm(SlotSums.BatchTop(Return), Inserted(h, c, m)) == Placed(h, c, m)
  {
    if m == 0 {
      BatchLeaf(Param(c), []);
    } else {
      BatchInserted(h, c, m - 1);
      BatchInsert(h, m - 1, Inserted(h, c, m - 1), Placed(h, c, m - 1));
    }
  }

  /** After batching every slot is taken from the one vector operation and put into place. */
  lemma {:induction false} BatchedLoop(h: Head, c: nat, n: nat, o: UseOrder, b: Body)
    requires Laid(h, c, n, b) && Enumerates(o)
    ensures var out := Pipeline.Slotted(o, b);
      WellTyped(ThreeVectors(n), out) && Result(Unfold(), out) == Node(Return, [Placed(h, c, n)])
  {
    LoopBatchable(h, c, n, b);
    BatchInvariant(ThreeVectors(n), o, b, |b|);
    Pipeline.BatchEnds(o, b);
    forall j | 0 <= j < |b| ensures VisitTranslates(BatchStep(o, b), b, SlotSums.BatchTop(Return), Unfold(), j) {
      LoopVisit(h, c, n, o, b, j);
    }
    WalkTranslates(BatchStep(o, b), b, SlotSums.BatchTop(Return), Unfold(), |b|);
    TermIsFree(SlotSums.BatchTop(Return), b, |b| - 1);
    BatchInserted(h, c, n);
    BatchLeaf(Loop(h, c, n), [Placed(h, c, n)]);
  }

  // ---------------------------------------------------------------- inserts become combines

  function VectorOp(h: Head): Term { Node(h, [Param(0), Param(1)]) }

  function Joined(h: Head, c: nat, m: nat): Term
  {
    if m == 0 then Param(c) else Node(Combine([One(m - 1), All]), [VectorOp(h), Joined(h, c, m - 1)])
  }

  lemma {:induction false} FoldRawOp(h: Head, n: nat)
    requires Arith(h)
    ensures EvalTerm(FoldTop(n), RawOp(h)) == VectorOp(h)
  {
    FoldRotateZero(n, Param(0));
    FoldRotateZero(n, Param(1));
    FoldLeaf(n, Arg(0));
    FoldLeaf(n, Arg(1));
    FoldPair(n, h, Node(Rotate(0), [Param(0)]), Node(Rotate(0), [Param(1)]));
  }

  lemma {:induction false} FoldInsertAt(n: nat, i: int, t: Term, u: Term, e: Term, r: Term)
    requires EvalTerm(FoldTop(n), t) == At(i, e) && EvalTerm(FoldTop(n), u) == r
    ensures EvalTerm(FoldTop(n), Node(Insert(i), [t, u])) == Node(Combine([One(i), All]), [e, r])
  {
    EvalFold(n, Insert(i), [t, u]);
    assert Folded(n, [t, u]) == [At(i, e), r];
  }

  lemma {:induction false} FoldPlaced(h: Head, c: nat, n: nat, m: nat)
    requires Arith(h)
    ensures EvalTerm(FoldTop(n), Placed(h, c, m)) == Joined(h, c, m)
  {
    if m == 0 {
      FoldLeaf(n, Arg(c));
    } else {
      FoldRawOp(h, n);
      FoldExtract(n, m - 1, RawOp(h));
      FoldPlaced(h, c, n, m - 1);
      FoldInsertAt(n, m - 1, At(m - 1, RawOp(h)), Placed(h, c, m - 1), VectorOp(h), Joined(h, c, m - 1));
    }
  }

  lemma {:induction false} PlacedTame(h: Head, c: nat, n: nat, m: nat)
    requires Arith(h)
    ensures Tame(n, Placed(h, c, m))
  {
    if m > 0 {
      PlacedTame(h, c, n, m - 1);
      assert Tame(n, RawOp(h).kids[0]) && Tame(n, RawOp(h).kids[1]);
      assert Tame(n, RawOp(h));
      assert Tame(n, At(m - 1, RawOp(h)));
    }
  }

  lemma {:induction false} JoinedClean(h: Head, c: nat, m: nat)
    requires Arith(h)
    ensures Clean(Joined(h, c, m))
  {
    if m > 0 {
      JoinedClean(h, c, m - 1);
      assert Clean(VectorOp(h));
    }
  }

  /** Cleanup turns the inserts into a chain of single-slot combines. */
  lemma {:induction false} JoinedLoop(h: Head, c: nat, n: nat, o: UseOrder, b: Body)
    requires Laid(h, c, n, b) && Enumerates(o)
    ensures var r := Pipeline.Deduplicate(Canonical(n, Pipeline.Slotted(o, b)));
      Tidy(ThreeVectors(n), r) && Result(Unfold(), r) == Node(Return, [Joined(h, c, n)])
  {
    BatchedLoop(h, c, n, o, b);
    PlacedTame(h, c, n, n);
    assert Tame(n, Node(Return, [Placed(h, c, n)]));
    FoldPlaced(h, c, n, n);
    FoldReturn(n, Placed(h, c, n));
    JoinedClean(h, c, n);
    CleanTame(ThreeVectors(n), Pipeline.Slotted(o, b));
  }
}
