/** Removing operations whose results do not reach the return. */
module Dce {
  import opened Ir
  import opened Walk

  /** The term t occurs in the term r. */
  predicate Within(t: Term, r: Term)
  {
    t == r || exists j :: 0 <= j < |r.kids| && Within(t, r.kids[j])
  }

  lemma {:induction false} WithinKid(t: Term, r: Term, j: nat)
    requires Within(t, r) && j < |t.kids|
    ensures Within(t.kids[j], r)
    decreases r
  {
    if t == r {
      assert Within(t.kids[j], r.kids[j]);
    } else {
      var i :| 0 <= i < |r.kids| && Within(t, r.kids[i]);
      WithinKid(t, r.kids[i], j);
    }
  }

  /** Every operation contributes to the returned value. */
  ghost predicate AllLive(b: Body)
    requires Ordered(b) && b != []
  {
    forall k :: 0 <= k < |b| ==> Within(Run(Unfold(), b)[k], Result(Unfold(), b))
  }

  function OperandSet(op: Op): (r: set<nat>)
    ensures forall a :: a in r <==> a in op.args
  {
    set a | a in op.args
  }

  /** Marks, from position i - 1 downwards, the operands of everything marked. */
  function Mark(b: Body, i: nat, live: set<nat>): set<nat>
    requires i <= |b|
  {
    if i == 0 then live
    else if i - 1 in live then Mark(b, i - 1, live + OperandSet(b[i - 1]))
    else Mark(b, i - 1, live)
  }

  /** Positions the return depends on. */
  function Live(b: Body): set<nat>
    requires b != []
  {
    Mark(b, |b|, {|b| - 1})
  }

  function DceVisit(live: set<nat>, k: nat, out: Body, op: Op): Emit
  {
    if k in live then Emit([op], |out|) else Emit([], 0)
  }

  function DceStep(live: set<nat>): Step { (k: nat, out: Body, op: Op) => DceVisit(live, k, out, op) }

  ghost predicate Closed(b: Body, live: set<nat>, i: nat)
  {
    forall k, a :: k in live && i <= k < |b| && a in b[k].args ==> a in live
  }

  ghost predicate Reached(b: Body, live: set<nat>)
    requires Ordered(b) && b != []
  {
    forall k :: k in live ==> k < |b| && Within(Run(Unfold(), b)[k], Result(Unfold(), b))
  }

  lemma {:induction false} OperandReached(b: Body, k: nat, a: nat)
    requires Ordered(b) && b != [] && k < |b| && a in b[k].args
    requires Within(Run(Unfold(), b)[k], Result(Unfold(), b))
    ensures a < k && Within(Run(Unfold(), b)[a], Result(Unfold(), b))
  {
    RunAt(Unfold(), b, k);
    var j :| 0 <= j < |b[k].args| && b[k].args[j] == a;
    assert Run(Unfold(), b)[k].kids[j] == Run(Unfold(), b)[a];
    WithinKid(Run(Unfold(), b)[k], Result(Unfold(), b), j);
  }

  lemma {:induction false} MarkOk(b: Body, i: nat, live: set<nat>)
    requires Ordered(b) && b != [] && i <= |b| && Closed(b, live, i) && Reached(b, live)
    ensures live <= Mark(b, i, live) && Closed(b, Mark(b, i, live), 0) && Reached(b, Mark(b, i, live))
    decreases i
  {
    if i > 0 {
      if i - 1 in live {
        forall a | a in OperandSet(b[i - 1]) ensures a < i - 1 && Within(Run(Unfold(), b)[a], Result(Unfold(), b)) {
          OperandReached(b, i - 1, a);
        }
        MarkOk(b, i - 1, live + OperandSet(b[i - 1]));
      } else {
        MarkOk(b, i - 1, live);
      }
    }
  }

  lemma {:induction false} LiveOk(b: Body)
    requires Ordered(b) && b != []
    ensures |b| - 1 in Live(b) && Closed(b, Live(b), 0) && Reached(b, Live(b))
  {
    MarkOk(b, |b|, {|b| - 1});
  }

  /** Position q holds a live operation. */
  ghost predicate Holds(live: set<nat>, ren: seq<nat>, q: nat)
  {
    exists j :: 0 <= j < |ren| && j in live && ren[j] == q
  }

  /** The live operations keep their places relative to each other. */
  ghost predicate KeptLive(b: Body, live: set<nat>, w: Walked)
  {
    && |w.ren| <= |b| && Ordered(w.out)
    && (forall j :: 0 <= j < |w.ren| && j in live ==>
          w.ren[j] < |w.out| && Below(b[j].args, |w.ren|) && w.out[w.ren[j]] == Renamed(b[j], w.ren))
    && (forall q :: 0 <= q < |w.out| ==> Holds(live, w.ren, q))
  }

  lemma {:induction false} KeptExtend(b: Body, live: set<nat>, w: Walked)
    requires Ordered(b) && Closed(b, live, 0) && KeptLive(b, live, w) && |w.ren| < |b|
    ensures var k := |w.ren|; var e := DceVisit(live, k, w.out, Renamed(b[k], w.ren));
      KeptLive(b, live, Walked(w.out + e.ops, w.ren + [e.res]))
  {
    var k := |w.ren|;
    var op := Renamed(b[k], w.ren);
    var e := DceVisit(live, k, w.out, op);
    var w' := Walked(w.out + e.ops, w.ren + [e.res]);
    if k in live {
      forall j | 0 <= j < |op.args| ensures op.args[j] < |w.out| {
        assert b[k].args[j] in b[k].args;
      }
      assert Ordered(w'.out);
    }
    forall j | 0 <= j < |w'.ren| && j in live
      ensures w'.ren[j] < |w'.out| && Below(b[j].args, |w'.ren|) && w'.out[w'.ren[j]] == Renamed(b[j], w'.ren)
    {
      assert Below(b[j].args, j);
      PickPrefix(w.ren, w'.ren, b[j].args);
    }
    forall q | 0 <= q < |w'.out| ensures Holds(live, w'.ren, q) {
      if q < |w.out| {
        assert Holds(live, w.ren, q);
        var j :| 0 <= j < |w.ren| && j in live && w.ren[j] == q;
        assert w'.ren[j] == q;
      } else {
        assert w'.ren[k] == q;
      }
    }
  }

  lemma {:induction false} DceKept(b: Body, live: set<nat>, k: nat)
    requires Ordered(b) && Closed(b, live, 0) && k <= |b|
    ensures KeptLive(b, live, Before(DceStep(live), b, k))
  {
    if k > 0 {
      DceKept(b, live, k - 1);
      KeptExtend(b, live, Before(DceStep(live), b, k - 1));
      BeforeNext(DceStep(live), b, k - 1);
    }
  }

  /** The list without its dead operations. */
  function Prune(b: Body): (out: Body)
    requires Ordered(b) && b != []
    ensures Ordered(out)
  {
    LiveOk(b);
    DceKept(b, Live(b), |b|);
    Apply(DceStep(Live(b)), b).out
  }

  /** Live values are kept, in every algebra. */
  lemma {:induction false} PruneAt<T>(alg: Algebra<T>, b: Body, k: nat)
    requires Ordered(b) && b != [] && k in Live(b) && k < |b|
    ensures var w := Apply(DceStep(Live(b)), b);
      Ordered(w.out) && w.ren[k] < |w.out| && Run(alg, w.out)[w.ren[k]] == Run(alg, b)[k]
    decreases k
  {
    LiveOk(b);
    DceKept(b, Live(b), |b|);
    var w := Apply(DceStep(Live(b)), b);
    RunAt(alg, b, k);
    RunAt(alg, w.out, w.ren[k]);
    var args := b[k].args;
    forall j | 0 <= j < |args| ensures w.ren[args[j]] < |w.out| && Run(alg, w.out)[w.ren[args[j]]] == Run(alg, b)[args[j]] {
      assert args[j] in args;
      PruneAt(alg, b, args[j]);
    }
    assert Pick(Run(alg, w.out), Pick(w.ren, args)) == Pick(Run(alg, b), args);
  }

  ghost predicate LiveTypes(b: Body, live: set<nat>, w: Walked)
  {
    && |w.ren| <= |b|
    && forall j :: 0 <= j < |w.ren| && j in live ==> w.ren[j] < |w.out| && w.out[w.ren[j]].ty == b[j].ty
  }

  lemma {:induction false} LiveOperandsOk(g: Signature, b: Body, live: set<nat>, w: Walked)
    requires WellTyped(g, b) && Ordered(b) && Closed(b, live, 0) && LiveTypes(b, live, w) && |w.ren| < |b| && |w.ren| in live
    ensures OpOk(g, w.out, Renamed(b[|w.ren|], w.ren))
  {
    var m := |w.ren|;
    var op, args := Renamed(b[m], w.ren), b[m].args;
    assert OpOk(g, b[..m], b[m]);
    forall j | 0 <= j < |args| ensures op.args[j] < |w.out| && w.out[op.args[j]].ty == b[..m][args[j]].ty {
      assert args[j] in args;
    }
    if Arith(op.head) { SameTypes(b[..m], args, w.out, op.args); }
  }

  lemma {:induction false} LiveTypesExtend(b: Body, live: set<nat>, w: Walked, e: Emit)
    requires LiveTypes(b, live, w) && |w.ren| < |b|
    requires |w.ren| in live ==> e.res < |w.out + e.ops| && (w.out + e.ops)[e.res].ty == b[|w.ren|].ty
    ensures LiveTypes(b, live, Walked(w.out + e.ops, w.ren + [e.res]))
  {}

  lemma {:induction false} DceNext(g: Signature, b: Body, live: set<nat>, w: Walked)
    requires WellTyped(g, b) && Ordered(b) && Closed(b, live, 0) && LiveTypes(b, live, w) && |w.ren| < |b| && WellTyped(g, w.out)
    requires Below(b[|w.ren|].args, |w.ren|)
    ensures var e := DceVisit(live, |w.ren|, w.out, Renamed(b[|w.ren|], w.ren));
      WellTyped(g, w.out + e.ops) && LiveTypes(b, live, Walked(w.out + e.ops, w.ren + [e.res]))
  {
    var op := Renamed(b[|w.ren|], w.ren);
    if |w.ren| in live {
      LiveOperandsOk(g, b, live, w);
      TypedAppend(g, w.out, op);
      LiveTypesExtend(b, live, w, Emit([op], |w.out|));
    } else {
      assert w.out + [] == w.out;
      LiveTypesExtend(b, live, w, Emit([], 0));
    }
  }

  lemma {:induction false} PruneTypedTo(g: Signature, b: Body, live: set<nat>, k: nat)
    requires WellTyped(g, b) && Ordered(b) && Closed(b, live, 0) && k <= |b|
    ensures var w := Before(DceStep(live), b, k); WellTyped(g, w.out) && LiveTypes(b, live, w)
  {
    if k > 0 {
      PruneTypedTo(g, b, live, k - 1);
      BeforeNext(DceStep(live), b, k - 1);
      DceNext(g, b, live, Before(DceStep(live), b, k - 1));
    }
  }

  /** Pruning keeps the result in every algebra, types and the final return, and leaves only live
      operations. */
  lemma {:induction false} PruneCorrect<T>(g: Signature, alg: Algebra<T>, b: Body)
    requires WellTyped(g, b) && Ordered(b) && EndsInReturn(b)
    ensures var out := Prune(b);
      && WellTyped(g, out) && EndsInReturn(out) && Result(alg, out) == Result(alg, b)
  {
    LiveOk(b);
    PruneTypedTo(g, b, Live(b), |b|);
    DceKept(b, Live(b), |b|);
    PruneAt(alg, b, |b| - 1);
    BeforeNext(DceStep(Live(b)), b, |b| - 1);
  }

  lemma {:induction false} PruneLive(g: Signature, b: Body)
    requires WellTyped(g, b) && Ordered(b) && EndsInReturn(b)
    ensures EndsInReturn(Prune(b)) && AllLive(Prune(b))
  {
    PruneCorrect(g, Unfold(), b);
    LiveOk(b);
    DceKept(b, Live(b), |b|);
    var w := Apply(DceStep(Live(b)), b);
    forall q | 0 <= q < |w.out| ensures Within(Run(Unfold(), w.out)[q], Result(Unfold(), w.out)) {
      assert Holds(Live(b), w.ren, q);
      var j :| 0 <= j < |w.ren| && j in Live(b) && w.ren[j] == q;
      PruneAt(Unfold(), b, j);
    }
  }
}
