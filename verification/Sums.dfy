/** Sums of the products x[i] * y[i], nested in any way, and what cleanup and flattening make of them. */
module Sums {
  import opened Ir
  import opened Walk
  import opened Folding
  import opened Dce
  import opened Terms
  import opened Windows

  /** Two vector parameters of n slots. */
  function TwoVectors(n: nat): Signature { Signature(n, [Batched, Batched]) }

  function X(): Term { Node(Arg(0), []) }
  function Y(): Term { Node(Arg(1), []) }
  function Zero(): Term { Node(Const(0), []) }
  function Product(i: int): Term { Node(Mul, [Node(Extract(i), [X()]), Node(Extract(i), [Y()])]) }

  predicate IsProduct(n: nat, t: Term)
  {
    && t.head.Mul? && |t.kids| == 2 && t.kids[0].head.Extract?
    && 0 <= t.kids[0].head.i < n && t == Product(t.kids[0].head.i)
  }

  /** A zero, a product, or an addition of such in which not every operand is a zero. */
  predicate Summand(n: nat, t: Term)
  {
    || t == Zero()
    || IsProduct(n, t)
    || (t.head.Add? && (forall j :: 0 <= j < |t.kids| ==> Summand(n, t.kids[j]))
        && exists j :: 0 <= j < |t.kids| && t.kids[j] != Zero())
  }

  function Flat<T>(xss: seq<seq<T>>): (r: seq<T>)
  {
    if xss == [] then [] else Flat(xss[..|xss| - 1]) + xss[|xss| - 1]
  }

  /** The i of the products x[i] * y[i] summed up, from left to right. */
  function Indices(t: Term): seq<int>
  {
    if t.head.Add? then Flat(seq(|t.kids|, j requires 0 <= j < |t.kids| => Indices(t.kids[j])))
    else if t.head.Mul? && t.kids != [] && t.kids[0].head.Extract? then [t.kids[0].head.i]
    else []
  }

  function AllIndices(ts: seq<Term>): (r: seq<seq<int>>)
    ensures |r| == |ts| && forall j :: 0 <= j < |r| ==> r[j] == Indices(ts[j])
  {
    seq(|ts|, j requires 0 <= j < |ts| => Indices(ts[j]))
  }

  lemma {:induction false} IndicesAdd(ts: seq<Term>)
    ensures Indices(Node(Add, ts)) == Flat(AllIndices(ts))
  {
    var t := Node(Add, ts);
    assert seq(|t.kids|, j requires 0 <= j < |t.kids| => Indices(t.kids[j])) == AllIndices(ts);
  }

  /** The function returns a sum in which each product x[i] * y[i], i < n, occurs exactly once. */
  predicate SumsProducts(n: nat, r: Term)
  {
    && r.head.Return? && |r.kids| == 1 && Summand(n, r.kids[0])
    && multiset(Indices(r.kids[0])) == multiset(Upto(n))
  }

  // ---------------------------------------------------------------- subterms

  /** Everything that occurs below such a return. */
  predicate Part(n: nat, t: Term)
  {
    || (t.head.Return? && |t.kids| == 1 && Summand(n, t.kids[0]))
    || Summand(n, t)
    || t == X() || t == Y()
    || (t.head.Extract? && 0 <= t.head.i < n && (t.kids == [X()] || t.kids == [Y()]))
  }

  lemma {:induction false} PartKid(n: nat, t: Term, j: nat)
    requires Part(n, t) && j < |t.kids|
    ensures Part(n, t.kids[j]) && !t.kids[j].head.Return?
  {
    if t.head.Return? || t.head.Add? { SummandHead(n, t.kids[j]); }
  }

  lemma {:induction false} SummandHead(n: nat, t: Term)
    requires Summand(n, t)
    ensures t == Zero() || t.head.Mul? || t.head.Add?
  {}

  lemma {:induction false} PartsWithin(n: nat, t: Term, r: Term)
    requires Within(t, r) && Part(n, r)
    ensures Part(n, t) && (t != r ==> !t.head.Return?)
    decreases r
  {
    if t != r {
      var j :| 0 <= j < |r.kids| && Within(t, r.kids[j]);
      PartKid(n, r, j);
      PartsWithin(n, t, r.kids[j]);
    }
  }

  lemma {:induction false} LiveParts(n: nat, b: Body, k: nat)
    requires Ordered(b) && EndsInReturn(b) && AllLive(b) && SumsProducts(n, Result(Unfold(), b)) && k < |b|
    ensures Part(n, Run(Unfold(), b)[k]) && b[k].head == Run(Unfold(), b)[k].head
  {
    TermAt(b, k);
    assert Within(Run(Unfold(), b)[k], Result(Unfold(), b));
    PartsWithin(n, Run(Unfold(), b)[k], Result(Unfold(), b));
  }

  lemma {:induction false} SummandSecret(n: nat, b: Body, k: nat)
    requires WellTyped(TwoVectors(n), b) && Ordered(b) && k < |b| && Summand(n, Run(Unfold(), b)[k])
    ensures b[k].ty == Secret
    decreases k
  {
    var g, t := TwoVectors(n), Run(Unfold(), b)[k];
    TermAt(b, k);
    assert OpOk(g, b[..k], b[k]);
    if t != Zero() {
      forall j | 0 <= j < |b[k].args| ensures b[..k][b[k].args[j]].ty == Secret {
        var a := b[k].args[j];
        TermAt(b, a);
        assert OpOk(g, b[..a], b[a]);
        if !IsProduct(n, t) { SummandSecret(n, b, a); }
      }
      assert !SomeOperand(b[..k], b[k].args, Batched);
    }
  }

  /** What a product is made of is not folded away. */
  lemma {:induction false} ProductSettled(n: nat, b: Body, k: nat)
    requires Ordered(b) && k < |b| && IsProduct(n, Run(Unfold(), b)[k])
    ensures forall j :: 0 <= j < |b[k].args| ==> b[k].args[j] < k && !Dropped(n, b, Mul, b[k].args[j])
    ensures Settled(n, b, k) == k
  {
    TermAt(b, k);
    var args := b[k].args;
    forall j | 0 <= j < |args| ensures args[j] < k && Settled(n, b, args[j]) == args[j] && b[args[j]].head.Extract? {
      TermAt(b, args[j]);
    }
    assert args == [args[0], args[1]] && args[..1] == [args[0]] && args[..1][..0] == [];
    assert Left(n, b, Mul, args[..1], k) == [args[0]];
    assert Left(n, b, Mul, args, k) == [args[0], args[1]];
  }

  /** What is no zero stays an addend. */
  lemma {:induction false} SummandSettled(n: nat, b: Body, k: nat)
    requires Ordered(b) && k < |b| && Summand(n, Run(Unfold(), b)[k]) && Run(Unfold(), b)[k] != Zero()
    ensures !Dropped(n, b, Add, k)
  {
    TermAt(b, k);
    if IsProduct(n, Run(Unfold(), b)[k]) {
      ProductSettled(n, b, k);
    } else {
      LeftMembers(n, b, Add, b[k].args, k);
      var left := Left(n, b, Add, b[k].args, k);
      if |left| == 1 { assert left[0] in left; }
    }
  }

  lemma {:induction false} SummandSafe(n: nat, b: Body, k: nat)
    requires WellTyped(TwoVectors(n), b) && Ordered(b) && k < |b| && Summand(n, Run(Unfold(), b)[k])
    ensures FoldSafe(n, b, b[k])
  {
    var t, op := Run(Unfold(), b)[k], b[k];
    TermAt(b, k);
    SummandSecret(n, b, k);
    if t != Zero() {
      var j: nat := 0;
      if !IsProduct(n, t) { j :| 0 <= j < |t.kids| && t.kids[j] != Zero(); }
      OperandSecret(n, b, k, j);
      if IsProduct(n, t) { ProductSettled(n, b, k); } else { SummandSettled(n, b, op.args[j]); }
      assert b[op.args[j]].ty == op.ty && !Dropped(n, b, op.head, op.args[j]);
    }
  }

  lemma {:induction false} OperandSecret(n: nat, b: Body, k: nat, j: nat)
    requires WellTyped(TwoVectors(n), b) && Ordered(b) && k < |b| && Summand(n, Run(Unfold(), b)[k]) && j < |b[k].args|
    ensures b[k].args[j] < k && b[b[k].args[j]].ty == Secret
  {
    TermAt(b, k);
    var a := b[k].args[j];
    TermAt(b, a);
    assert OpOk(TwoVectors(n), b[..a], b[a]);
    if !IsProduct(n, Run(Unfold(), b)[k]) { SummandSecret(n, b, a); }
  }

  /** Such a function is safe to fold. */
  lemma {:induction false} SumsSafe(n: nat, b: Body)
    requires WellTyped(TwoVectors(n), b) && Ordered(b) && EndsInReturn(b) && AllLive(b)
    requires SumsProducts(n, Result(Unfold(), b))
    ensures AllFoldSafe(TwoVectors(n), b)
  {
    forall k | 0 <= k < |b| ensures FoldSafe(n, b, b[k]) {
      LiveParts(n, b, k);
      if Summand(n, Run(Unfold(), b)[k]) { SummandSafe(n, b, k); }
    }
  }

  // ---------------------------------------------------------------- folding a sum

  lemma {:induction false} FlatAppend<T>(xss: seq<seq<T>>, xs: seq<T>)
    ensures Flat(xss + [xs]) == Flat(xss) + xs
  {
    assert (xss + [xs])[..|xss|] == xss;
  }

  /** Dropping zeros keeps the indices. */
  lemma {:induction false} KeptIndices(ts: seq<Term>)
    ensures Flat(AllIndices(KeptTerms(Add, ts))) == Flat(AllIndices(ts))
    ensures forall t :: t in KeptTerms(Add, ts) <==> t in ts && !NeutralTerm(Add, t)
  {
    if ts != [] {
      var m := |ts| - 1;
      KeptIndices(ts[..m]);
      assert ts == ts[..m] + [ts[m]];
      assert AllIndices(ts) == AllIndices(ts[..m]) + [Indices(ts[m])];
      FlatAppend(AllIndices(ts[..m]), Indices(ts[m]));
      if !NeutralTerm(Add, ts[m]) {
        assert AllIndices(KeptTerms(Add, ts)) == AllIndices(KeptTerms(Add, ts[..m])) + [Indices(ts[m])];
        FlatAppend(AllIndices(KeptTerms(Add, ts[..m])), Indices(ts[m]));
      }
    }
  }

  lemma {:induction false} FoldProduct(n: nat, i: int)
    ensures EvalTerm(FoldTop(n), Product(i)) == Product(i)
  {
    FoldLeaf(n, Arg(0));
    FoldLeaf(n, Arg(1));
    FoldExtract(n, i, X());
    FoldExtract(n, i, Y());
    FoldPair(n, Mul, Node(Extract(i), [X()]), Node(Extract(i), [Y()]));
  }

  /** Folding a summand gives a summand with the same indices, and a zero only for a zero. */
  lemma {:induction false} FoldSummand(n: nat, t: Term)
    requires Summand(n, t)
    ensures var r := EvalTerm(FoldTop(n), t);
      Summand(n, r) && Indices(r) == Indices(t) && (r == Zero() <==> t == Zero())
    decreases t
  {
    if t == Zero() {
      FoldLeaf(n, Const(0));
    } else if IsProduct(n, t) {
      FoldProduct(n, t.kids[0].head.i);
    } else {
      forall j | 0 <= j < |t.kids|
        ensures Summand(n, Folded(n, t.kids)[j]) && Indices(Folded(n, t.kids)[j]) == Indices(t.kids[j])
        ensures Folded(n, t.kids)[j] == Zero() <==> t.kids[j] == Zero()
      {
        FoldSummand(n, t.kids[j]);
      }
      EvalFold(n, Add, t.kids);
      FoldAddends(n, t.kids, Folded(n, t.kids));
    }
  }

  lemma {:induction false} FoldAddends(n: nat, us: seq<Term>, ts: seq<Term>)
    requires |us| == |ts| && exists j :: 0 <= j < |us| && us[j] != Zero()
    requires forall j :: 0 <= j < |us| ==> Summand(n, ts[j]) && Indices(ts[j]) == Indices(us[j]) && (ts[j] == Zero() <==> us[j] == Zero())
    ensures var r := FoldTerm(n, Add, ts);
      Summand(n, r) && Indices(r) == Indices(Node(Add, us)) && r != Zero()
  {
    IndicesAdd(us);
    assert AllIndices(ts) == AllIndices(us);
    var j :| 0 <= j < |us| && us[j] != Zero();
    assert ts[j] != Zero();
    FoldedSum(n, ts);
  }

  lemma {:induction false} FoldOfAdd(n: nat, ts: seq<Term>)
    ensures var kept := KeptTerms(Add, ts);
      FoldTerm(n, Add, ts) == if |kept| > 1 then Node(Add, kept) else if |kept| == 1 then kept[0] else Node(Add, ts)
  {}

  lemma {:induction false} FoldedSum(n: nat, ts: seq<Term>)
    requires (forall j :: 0 <= j < |ts| ==> Summand(n, ts[j])) && exists j :: 0 <= j < |ts| && ts[j] != Zero()
    ensures var r := FoldTerm(n, Add, ts);
      Summand(n, r) && Indices(r) == Flat(AllIndices(ts)) && r != Zero()
  {
    var kept := KeptTerms(Add, ts);
    FoldOfAdd(n, ts);
    KeptAddends(n, ts);
    if |kept| == 1 { FlatOne(kept); } else { IndicesAdd(kept); }
  }

  lemma {:induction false} FlatOne(ts: seq<Term>)
    requires |ts| == 1
    ensures Flat(AllIndices(ts)) == Indices(ts[0])
  {
    assert AllIndices(ts) == [] + [Indices(ts[0])];
    FlatAppend([], Indices(ts[0]));
  }

  lemma {:induction false} KeptAddends(n: nat, ts: seq<Term>)
    requires (forall j :: 0 <= j < |ts| ==> Summand(n, ts[j])) && exists j :: 0 <= j < |ts| && ts[j] != Zero()
    ensures var kept := KeptTerms(Add, ts);
      && Flat(AllIndices(kept)) == Flat(AllIndices(ts)) && Summand(n, Node(Add, kept))
      && kept != [] && Summand(n, kept[0]) && kept[0] != Zero()
  {
    var kept := KeptTerms(Add, ts);
    KeptIndices(ts);
    var j :| 0 <= j < |ts| && ts[j] != Zero();
    SummandHead(n, ts[j]);
    assert ts[j] in ts && ts[j] in kept;
    forall i | 0 <= i < |kept| ensures Summand(n, kept[i]) && kept[i] != Zero() {
      assert kept[i] in kept;
    }
    assert Node(Add, kept).kids[0] != Zero();
  }

  /** Cleanup keeps a sum of products one, in the same order of products. */
  lemma {:induction false} FoldSums(n: nat, r: Term)
    requires SumsProducts(n, r)
    ensures var r' := EvalTerm(FoldTop(n), r); SumsProducts(n, r') && Indices(r'.kids[0]) == Indices(r.kids[0])
  {
    assert r == Node(Return, [r.kids[0]]);
    FoldReturn(n, r.kids[0]);
    FoldSummand(n, r.kids[0]);
  }

  lemma {:induction false} CanonicalSums(n: nat, b: Body)
    requires WellTyped(TwoVectors(n), b) && Ordered(b) && EndsInReturn(b) && SumsProducts(n, Result(Unfold(), b))
    ensures var r := Canonical(n, b);
      && WellTyped(TwoVectors(n), r) && AllLive(r)
      && Result(Unfold(), r) == EvalTerm(FoldTop(n), Result(Unfold(), b))
      && SumsProducts(n, Result(Unfold(), r)) && Indices(Result(Unfold(), r).kids[0]) == Indices(Result(Unfold(), b).kids[0])
  {
    PruneCorrect(TwoVectors(n), Unfold(), b);
    PruneLive(TwoVectors(n), b);
    SumsSafe(n, Prune(b));
    CanonicalTerm(TwoVectors(n), b);
    FoldSums(n, Result(Unfold(), b));
  }

  // ---------------------------------------------------------------- flat sums

  function Products(sigma: seq<int>): (r: Term)
  {
    Node(Add, seq(|sigma|, p requires 0 <= p < |sigma| => Product(sigma[p])))
  }

  predicate Leaves(n: nat, ts: seq<Term>)
  {
    forall j :: 0 <= j < |ts| ==> ts[j] == Zero() || IsProduct(n, ts[j])
  }

  lemma {:induction false} ProductsNext(sigma: seq<int>, i: int)
    ensures Products(sigma + [i]).kids == Products(sigma).kids + [Product(i)]
  {}

  lemma {:induction false} KeptLeavesNext(n: nat, ts: seq<Term>, t: Term)
    requires KeptTerms(Add, ts) == Products(Flat(AllIndices(ts))).kids && (t == Zero() || IsProduct(n, t))
    ensures KeptTerms(Add, ts + [t]) == Products(Flat(AllIndices(ts + [t]))).kids
  {
    var ids := Flat(AllIndices(ts));
    AllIndicesNext(ts, t);
    KeptNext(ts, t);
    if t == Zero() {
      assert ids + [] == ids;
    } else {
      ProductsNext(ids, t.kids[0].head.i);
    }
  }

  lemma {:induction false} AllIndicesNext(ts: seq<Term>, t: Term)
    ensures Flat(AllIndices(ts + [t])) == Flat(AllIndices(ts)) + Indices(t)
  {
    assert AllIndices(ts + [t]) == AllIndices(ts) + [Indices(t)];
    FlatAppend(AllIndices(ts), Indices(t));
  }

  lemma {:induction false} KeptNext(ts: seq<Term>, t: Term)
    ensures KeptTerms(Add, ts + [t]) == if NeutralTerm(Add, t) then KeptTerms(Add, ts) else KeptTerms(Add, ts) + [t]
  {
    assert (ts + [t])[..|ts|] == ts;
  }

  lemma {:induction false} KeptLeaves(n: nat, ts: seq<Term>)
    requires Leaves(n, ts)
    ensures KeptTerms(Add, ts) == Products(Flat(AllIndices(ts))).kids
  {
    if ts != [] {
      var m := |ts| - 1;
      KeptLeaves(n, ts[..m]);
      KeptLeavesNext(n, ts[..m], ts[m]);
      assert ts == ts[..m] + [ts[m]];
    }
  }

  /** A flat sum folds to the plain sum of its products. */
  lemma {:induction false} FoldFlat(n: nat, ts: seq<Term>)
    requires Leaves(n, ts) && |Flat(AllIndices(ts))| > 1
    ensures EvalTerm(FoldTop(n), Node(Add, ts)) == Products(Flat(AllIndices(ts)))
  {
    EvalFold(n, Add, ts);
    forall j | 0 <= j < |ts| ensures Folded(n, ts)[j] == ts[j] {
      if ts[j] == Zero() { FoldLeaf(n, Const(0)); } else { FoldProduct(n, ts[j].kids[0].head.i); }
    }
    assert Folded(n, ts) == ts;
    KeptLeaves(n, ts);
  }

  lemma {:induction false} ProductsIndices(n: nat, sigma: seq<int>)
    requires forall p :: 0 <= p < |sigma| ==> 0 <= sigma[p] < n
    ensures Leaves(n, Products(sigma).kids) && Flat(AllIndices(Products(sigma).kids)) == sigma
  {
    if sigma == [] {
      assert Products(sigma).kids == [];
    } else {
      var m := |sigma| - 1;
      ProductsIndices(n, sigma[..m]);
      assert sigma == sigma[..m] + [sigma[m]];
      ProductsNext(sigma[..m], sigma[m]);
      assert AllIndices(Products(sigma).kids) == AllIndices(Products(sigma[..m]).kids) + [[sigma[m]]];
      FlatAppend(AllIndices(Products(sigma[..m]).kids), [sigma[m]]);
    }
  }
}
