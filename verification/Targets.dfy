/** In which slot the batching walk leaves a scalar result, told by the operations that use it and those it uses. */
module Targets {
  import opened Ir
  import opened Walk
  import opened Folding
  import opened Batching

  // ---------------------------------------------------------------- what users ask for

  /** User number i is the first that asks for a slot. */
  predicate FirstAsking(b: Body, us: seq<nat>, i: nat)
  {
    && i < |us| && us[i] < |b| && Asks(b[us[i]])
    && forall j :: 0 <= j < i ==> us[j] < |b| && !Asks(b[us[j]])
  }

  /** An extract or an insert asks for its slot, the return of a secret for slot 0. */
  predicate AsksFor(b: Body, u: nat, s: int)
    requires u < |b|
  {
    || b[u].head == Extract(s)
    || b[u].head == Insert(s)
    || (b[u].head == Return && |b[u].args| == 1 && b[u].args[0] < |b| && b[b[u].args[0]].ty == Secret && s == 0)
  }

  lemma {:induction false} FirstSlot(b: Body, us: seq<nat>, i: nat, s: int)
    requires FirstAsking(b, us, i) && AsksFor(b, us[i], s)
    ensures UserSlot(b, us) == s
  {
    if i > 0 {
      assert us[0] < |b| && !Asks(b[us[0]]);
      FirstSlot(b, us[1..], i - 1, s);
    }
  }

  lemma {:induction false} NobodyAsks(b: Body, us: seq<nat>)
    requires forall j :: 0 <= j < |us| ==> us[j] < |b| && !Asks(b[us[j]])
    ensures UserSlot(b, us) == -1
  {
    if us != [] {
      assert us[0] < |b| && !Asks(b[us[0]]);
      NobodyAsks(b, us[1..]);
    }
  }

  // ---------------------------------------------------------------- where operands sit

  /** Operand p is read from slot s. */
  predicate SitsIn(out: Body, args: seq<nat>, p: nat, s: int)
  {
    p < |args| && args[p] < |out| && out[args[p]].ty == Secret && out[args[p]].head == Extract(s)
  }

  predicate Seated(out: Body, args: seq<nat>, p: nat) { p < |args| && FromExtract(out, args[p]) }

  lemma {:induction false} OperandSeated(g: Signature, out: Body, args: seq<nat>, p: nat)
    requires WellTyped(g, out) && Seated(out, args, p)
    ensures 0 <= out[args[p]].head.i < g.n && OperandSlot(out, args) >= 0
  {
    assert OpOk(g, out[..args[p]], out[args[p]]);
    OperandSlotRange(g, out, args);
  }

  /** Slot 0 is preferred, whichever operand sits there. */
  lemma {:induction false} ZeroPreferred(out: Body, args: seq<nat>, p: nat)
    requires SitsIn(out, args, p, 0)
    ensures OperandSlot(out, args) == 0
  {
    var m := |args| - 1;
    if p < m { ZeroPreferred(out, args[..m], p); }
  }

  /** Otherwise it is the slot of the first operand that sits in one. */
  lemma {:induction false} FirstSeated(g: Signature, out: Body, args: seq<nat>, p: nat)
    requires WellTyped(g, out) && Seated(out, args, p) && forall q :: 0 <= q < p ==> !Seated(out, args, q)
    requires forall q :: 0 <= q < |args| ==> !SitsIn(out, args, q, 0)
    ensures SitsIn(out, args, p, OperandSlot(out, args))
  {
    var m := |args| - 1;
    var front := args[..m];
    assert !SitsIn(out, args, m, 0);
    if p < m {
      assert forall q :: 0 <= q < m ==> (Seated(out, front, q) <==> Seated(out, args, q)) && (SitsIn(out, front, q, 0) <==> SitsIn(out, args, q, 0));
      OperandSeated(g, out, front, p);
      FirstSeated(g, out, front, p);
    } else {
      OperandSlotRange(g, out, front);
      assert forall q :: 0 <= q < m ==> (Seated(out, args, q) <==> FromExtract(out, front[q]));
    }
  }

  // ---------------------------------------------------------------- the whole walk

  /** The value that replaces operation k is read from slot s. */
  predicate Lands(w: Walked, k: nat, s: int)
  {
    k < |w.ren| && w.ren[k] < |w.out| && w.out[w.ren[k]].head == Extract(s)
  }

  lemma {:induction false} LandsLater(step: Step, b: Body, k: nat, m: nat, s: int)
    requires Ordered(b) && m <= |b| && k < m
    requires Before(step, b, m).ren[k] < |Before(step, b, m).out|
    ensures Lands(Before(step, b, m), k, s) <==> Lands(Apply(step, b), k, s)
  {
    WalkPrefix(step, b, m, |b|);
  }

  /** A scalar operation lands in the slot its visit aims at. */
  lemma {:induction false} VisitLands(g: Signature, o: UseOrder, b: Body, k: nat)
    requires WellTyped(g, b) && Ordered(b) && g.n > 0 && Enumerates(o) && AllBatchable(b) && k < |b| && ScalarArith(b[k])
    ensures var w, op := Before(BatchStep(o, b), b, k), Visited(BatchStep(o, b), b, k);
      && WellTyped(g, w.out) && Tracks(b, w) && Images(b, w) && Below(b[k].args, k)
      && Lands(Batch(o, b), k, TargetSlot(UserSlot(b, o(Users(b, k))), w.out, op.args))
  {
    var step, user := BatchStep(o, b), UserSlot(b, o(Users(b, k)));
    BatchInvariant(g, o, b, k);
    BatchReady(g, o, b, k);
    var w, op := Before(step, b, k), Visited(step, b, k);
    TypedOrdered(g, w.out);
    BatchVisitValue(g, Unfold(), user, w.out, op);
    BatchVisits(o, b, k);
    BeforeNext(step, b, k);
    LandsLater(step, b, k, k + 1, TargetSlot(user, w.out, op.args));
  }

  lemma {:induction false} EnumeratedUser(o: UseOrder, b: Body, k: nat, i: nat)
    requires Enumerates(o) && i < |o(Users(b, k))|
    ensures var u := o(Users(b, k))[i]; u < |b| && k in b[u].args
  {
    assert o(Users(b, k))[i] in o(Users(b, k));
  }

  lemma {:induction false} UserAsksFor(g: Signature, b: Body, k: nat, u: nat, s: int)
    requires WellTyped(g, b) && k < |b| && b[k].ty == Secret && u < |b| && k in b[u].args
    requires b[u].head == Insert(s) || (b[u].head == Return && s == 0)
    ensures AsksFor(b, u, s) && 0 <= s && (b[u].head.Insert? ==> s < g.n)
  {
    assert OpOk(g, b[..u], b[u]);
  }

  /** A result that is wanted in a slot lands there: the first enumerated user that asks decides. In a well-typed
      function only inserts and returns can ask for a scalar. */
  lemma {:induction false} UserDecides(g: Signature, o: UseOrder, b: Body, k: nat, i: nat, s: int)
    requires WellTyped(g, b) && Ordered(b) && g.n > 0 && Enumerates(o) && AllBatchable(b) && k < |b| && ScalarArith(b[k])
    requires var us := o(Users(b, k)); FirstAsking(b, us, i) && (b[us[i]].head == Insert(s) || (b[us[i]].head == Return && s == 0))
    ensures Lands(Batch(o, b), k, s)
  {
    var us := o(Users(b, k));
    EnumeratedUser(o, b, k, i);
    UserAsksFor(g, b, k, us[i], s);
    FirstSlot(b, us, i, s);
    VisitLands(g, o, b, k);
    assert TargetSlot(s, Before(BatchStep(o, b), b, k).out, Visited(BatchStep(o, b), b, k).args) == s;
  }

  /** The operand holds a secret that is no constant. */
  predicate Moving(b: Body, args: seq<nat>, p: nat)
  {
    p < |args| && args[p] < |b| && b[args[p]].ty == Secret && !b[args[p]].head.Const?
  }

  /** Operand p lands in slot s. */
  predicate LandsIn(b: Body, w: Walked, args: seq<nat>, p: nat, s: int)
  {
    Moving(b, args, p) && Lands(w, args[p], s)
  }

  ghost predicate SomeInZero(b: Body, w: Walked, args: seq<nat>) { exists p: nat :: LandsIn(b, w, args, p, 0) }

  /** The operands of operation k sit, when the walk meets it, where they are at its end. */
  lemma {:induction false} OperandMet(o: UseOrder, b: Body, k: nat, p: nat, s: int)
    requires Ordered(b) && k < |b| && ScalarArith(b[k]) && Batchable(b, b[k]) && Below(b[k].args, k)
    requires var w := Before(BatchStep(o, b), b, k); Tracks(b, w) && Images(b, w)
    ensures var w, args := Before(BatchStep(o, b), b, k), Visited(BatchStep(o, b), b, k).args;
      && (Moving(b, b[k].args, p) <==> Seated(w.out, args, p))
      && (LandsIn(b, Batch(o, b), b[k].args, p, s) <==> SitsIn(w.out, args, p, s))
  {
    var step := BatchStep(o, b);
    var w := Before(step, b, k);
    if p < |b[k].args| {
      var a := b[k].args[p];
      assert Visited(step, b, k).args[p] == w.ren[a] && w.out[w.ren[a]].ty == b[a].ty;
      LandsLater(step, b, a, k, s);
    }
  }

  /** Slot 0 if some operand sits there, otherwise the slot of the first operand that sits in one. */
  lemma {:induction false} SeatRule(g: Signature, out: Body, args: seq<nat>, p: nat)
    requires WellTyped(g, out) && Seated(out, args, p) && forall q: nat :: q < p ==> !Seated(out, args, q)
    ensures if exists q: nat :: SitsIn(out, args, q, 0) then OperandSlot(out, args) == 0
            else SitsIn(out, args, p, OperandSlot(out, args))
  {
    if q: nat :| SitsIn(out, args, q, 0) { ZeroPreferred(out, args, q); } else { FirstSeated(g, out, args, p); }
  }

  lemma {:induction false} NobodyEnumerated(o: UseOrder, b: Body, k: nat)
    requires Enumerates(o) && !Wanted(b, k)
    ensures UserSlot(b, o(Users(b, k))) == -1
  {
    var us := o(Users(b, k));
    forall j | 0 <= j < |us| ensures us[j] < |b| && !Asks(b[us[j]]) { EnumeratedUser(o, b, k, j); }
    NobodyAsks(b, us);
  }

  /** A result that nobody asks for lands in slot 0 if some operand did, otherwise where the first operand that is
      no constant did. */
  lemma {:induction false} OperandsDecide(g: Signature, o: UseOrder, b: Body, k: nat, p: nat) returns (s: int)
    requires WellTyped(g, b) && Ordered(b) && g.n > 0 && Enumerates(o) && AllBatchable(b) && k < |b| && ScalarArith(b[k])
    requires !Wanted(b, k) && Moving(b, b[k].args, p) && forall q: nat :: q < p ==> !Moving(b, b[k].args, q)
    ensures Lands(Batch(o, b), k, s)
    ensures if SomeInZero(b, Batch(o, b), b[k].args) then s == 0 else LandsIn(b, Batch(o, b), b[k].args, p, s)
  {
    var step, xs := BatchStep(o, b), b[k].args;
    VisitLands(g, o, b, k);
    NobodyEnumerated(o, b, k);
    var out, args := Before(step, b, k).out, Visited(step, b, k).args;
    s := OperandSlot(out, args);
    OperandsSettled(g, o, b, k, p);
  }

  lemma {:induction false} OperandsSettled(g: Signature, o: UseOrder, b: Body, k: nat, p: nat)
    requires Ordered(b) && k < |b| && ScalarArith(b[k]) && Batchable(b, b[k]) && Below(b[k].args, k)
    requires var w := Before(BatchStep(o, b), b, k); WellTyped(g, w.out) && Tracks(b, w) && Images(b, w)
    requires Moving(b, b[k].args, p) && forall q: nat :: q < p ==> !Moving(b, b[k].args, q)
    ensures var s := OperandSlot(Before(BatchStep(o, b), b, k).out, Visited(BatchStep(o, b), b, k).args);
      if SomeInZero(b, Batch(o, b), b[k].args) then s == 0 else LandsIn(b, Batch(o, b), b[k].args, p, s)
  {
    var out, args := Before(BatchStep(o, b), b, k).out, Visited(BatchStep(o, b), b, k).args;
    forall q: nat
      ensures Moving(b, b[k].args, q) <==> Seated(out, args, q)
      ensures LandsIn(b, Batch(o, b), b[k].args, q, 0) <==> SitsIn(out, args, q, 0)
    {
      OperandMet(o, b, k, q, 0);
    }
    SeatRule(g, out, args, p);
    OperandMet(o, b, k, p, OperandSlot(out, args));
  }

  // ---------------------------------------------------------------- inserts become combines

  lemma {:induction false} ExtractVisit(n: nat, k: nat, out: Body, op: Op)
    requires op.head.Extract?
    ensures FoldStep(n)(k, out, op) == Emit([op], |out|)
  {}

  lemma {:induction false} InsertVisit(n: nat, k: nat, out: Body, op: Op, i: int)
    requires op.head == Insert(i) && |op.args| == 2 && Below(op.args, |out|)
    requires out[op.args[0]].head == Extract(i) && |out[op.args[0]].args| == 1
    ensures var e := FoldStep(n)(k, out, op); |e.ops| == 1 && e.res == |out| && e.ops[0].head == Combine([One(i), All])
  {}

  /** Folding leaves an extract an extract. */
  lemma {:induction false} ExtractStays(n: nat, b: Body, a: nat, m: nat)
    requires Ordered(b) && a < m <= |b| && b[a].head.Extract?
    ensures var w := Before(FoldStep(n), b, m);
      w.ren[a] < |w.out| && w.out[w.ren[a]].head == b[a].head && |w.out[w.ren[a]].args| == |b[a].args|
  {
    var step := FoldStep(n);
    var w, op := Before(step, b, a), Visited(step, b, a);
    ExtractVisit(n, a, w.out, op);
    VisitStays(step, b, a, m, Emit([op], |w.out|));
  }

  lemma {:induction false} FoldedBelow(n: nat, b: Body, k: nat)
    requires Ordered(b) && k <= |b|
    ensures var w := Before(FoldStep(n), b, k); Below(w.ren, |w.out|)
  {
    forall j: nat, out: Body, op: Op | j < k ensures Links(out, op, FoldStep(n)(j, out, op)) {
      if Below(op.args, |out|) && Ordered(out) { FoldLinks(n, out, op); } else { LinksReplace(out, op, op); }
    }
    WalkOrdered(FoldStep(n), b, k);
  }

  lemma {:induction false} InsertFolds(n: nat, b: Body, u: nat, i: int)
    requires Ordered(b) && u < |b| && b[u].head == Insert(i) && |b[u].args| == 2
    requires b[u].args[0] < u && b[b[u].args[0]].head == Extract(i) && |b[b[u].args[0]].args| == 1
    ensures var w := FoldAll(n, b); w.out[w.ren[u]].head == Combine([One(i), All])
  {
    var step := FoldStep(n);
    var w, op := Before(step, b, u), Visited(step, b, u);
    ExtractStays(n, b, b[u].args[0], u);
    FoldedBelow(n, b, u);
    InsertVisit(n, u, w.out, op, i);
    FoldedAt(n, b, u, Combine([One(i), All]));
  }

  /** What a visit emits last is found at the end of the walk. */
  lemma {:induction false} FoldedAt(n: nat, b: Body, u: nat, h: Head)
    requires Ordered(b) && u < |b|
    requires var w, e := Before(FoldStep(n), b, u), Visit(FoldStep(n), b, u); |e.ops| == 1 && e.res == |w.out| && e.ops[0].head == h
    ensures var w := FoldAll(n, b); w.out[w.ren[u]].head == h
  {
    VisitStays(FoldStep(n), b, u, |b|, Visit(FoldStep(n), b, u));
  }

  /** A scalar operation whose result is inserted into slot i, and asked for by nobody else before, ends as a combine
      of the batched operation by [i] with what the slot is inserted into. */
  lemma {:induction false} InsertedCombines(g: Signature, o: UseOrder, b: Body, k: nat, j: nat, i: int)
    requires WellTyped(g, b) && Ordered(b) && g.n > 0 && Enumerates(o) && AllBatchable(b) && k < |b| && ScalarArith(b[k])
    requires var us := o(Users(b, k)); FirstAsking(b, us, j) && b[us[j]].head == Insert(i)
    ensures var u, w := o(Users(b, k))[j], Batch(o, b);
      var c := FoldAll(g.n, w.out);
      c.out[c.ren[w.ren[u]]].head == Combine([One(i), All])
  {
    var u, w := o(Users(b, k))[j], Batch(o, b);
    UserDecides(g, o, b, k, j, i);
    EnumeratedUser(o, b, k, j);
    InsertMoved(g, o, b, k, u, i);
    InsertFolds(g.n, w.out, w.ren[u], i);
  }

  lemma {:induction false} InsertShape(g: Signature, b: Body, k: nat, u: nat)
    requires WellTyped(g, b) && u < |b| && b[u].head.Insert? && k < |b| && b[k].ty == Secret && k in b[u].args
    ensures |b[u].args| == 2 && b[u].args[0] == k < u
  {
    assert OpOk(g, b[..u], b[u]);
  }

  /** Other operations are carried over. */
  lemma {:induction false} OtherMoved(o: UseOrder, b: Body, u: nat)
    requires Ordered(b) && u < |b| && !ScalarArith(b[u])
    ensures var w := Batch(o, b); w.out[w.ren[u]] == Renamed(b[u], w.ren[..u])
  {
    var step := BatchStep(o, b);
    BatchVisits(o, b, u);
    VisitStays(step, b, u, |b|, Visit(step, b, u));
    WalkPrefix(step, b, u, |b|);
  }

  lemma {:induction false} ExtractShape(g: Signature, b: Body, a: nat)
    requires WellTyped(g, b) && a < |b| && b[a].head.Extract?
    ensures |b[a].args| == 1
  {
    assert OpOk(g, b[..a], b[a]);
  }

  /** The insert is still there and takes what replaced its operand. */
  lemma {:induction false} InsertMoved(g: Signature, o: UseOrder, b: Body, k: nat, u: nat, i: int)
    requires WellTyped(g, b) && Ordered(b) && g.n > 0 && Enumerates(o) && AllBatchable(b) && u < |b|
    requires b[u].head == Insert(i) && k < |b| && b[k].ty == Secret && k in b[u].args && Lands(Batch(o, b), k, i)
    ensures var w := Batch(o, b);
      var op := w.out[w.ren[u]];
      op.head == Insert(i) && |op.args| == 2 && op.args[0] == w.ren[k] < w.ren[u] && |w.out[w.ren[k]].args| == 1
  {
    var w := Batch(o, b);
    InsertShape(g, b, k, u);
    OtherMoved(o, b, u);
    BatchInvariant(g, o, b, |b|);
    ExtractShape(g, w.out, w.ren[k]);
    assert Below(w.out[w.ren[u]].args, w.ren[u]);
  }
}
