/** Flattening a sum of products: one addition whose operands are the products, each still once. */
module Flattened {
  import opened Ir
  import opened Walk
  import opened Nary
  import opened Dce
  import opened Terms
  import opened Sums
  import opened Windows
  import opened Unnested
  import Pipeline

  // ---------------------------------------------------------------- sums as bags of addends

  datatype Bagged = Atom(t: Term) | Sum(m: multiset<Term>)

  function Bag(x: Bagged): multiset<Term>
  {
    match x
    case Atom(t) => multiset{t}
    case Sum(m) => m
  }

  function Bags(xs: seq<Bagged>): multiset<Term>
  {
    if xs == [] then multiset{} else Bags(xs[..|xs| - 1]) + Bag(xs[|xs| - 1])
  }

  predicate AllAtoms(xs: seq<Bagged>) { forall j :: 0 <= j < |xs| ==> xs[j].Atom? }

  function TermsOf(xs: seq<Bagged>): (r: seq<Term>)
    requires AllAtoms(xs)
    ensures |r| == |xs| && forall j :: 0 <= j < |r| ==> xs[j] == Atom(r[j])
  {
    seq(|xs|, j requires 0 <= j < |xs| => xs[j].t)
  }

  /** Reads additions as bags of their addends, looks through the return, and keeps anything else that
      uses no sum as it is. */
  function FlatTerm(h: Head, xs: seq<Bagged>): Bagged
  {
    if h.Add? then Sum(Bags(xs))
    else if h.Return? && |xs| == 1 then xs[0]
    else if AllAtoms(xs) then Atom(Node(h, TermsOf(xs)))
    else Atom(Node(Return, []))
  }

  function FlatTop(): Algebra<Bagged> { (h: Head, xs: seq<Bagged>) => FlatTerm(h, xs) }

  lemma {:induction false} BagsConcat(xs: seq<Bagged>, ys: seq<Bagged>)
    ensures Bags(xs + ys) == Bags(xs) + Bags(ys)
  {
    if ys == [] {
      assert xs + ys == xs;
    } else {
      var m := |ys| - 1;
      BagsConcat(xs, ys[..m]);
      assert (xs + ys)[..|xs + ys| - 1] == xs + ys[..m];
    }
  }

  lemma {:induction false} BagsSplice(xs: seq<Bagged>, zs: seq<Bagged>, ys: seq<Bagged>)
    ensures Bags(xs + [Sum(Bags(zs))] + ys) == Bags(xs + ys + zs)
  {
    var z := [Sum(Bags(zs))];
    BagsConcat(xs, z);
    BagsConcat(xs + z, ys);
    BagsConcat(xs, ys);
    BagsConcat(xs + ys, zs);
    assert z[..0] == [];
    assert Bags(z) == Bags(zs);
  }

  lemma {:induction false} FlatSplices()
    ensures Splices(FlatTop(), Add)
  {
    forall xs, zs, ys ensures SpliceAt(FlatTop(), Add, xs, zs, ys) {
      BagsSplice(xs, zs, ys);
    }
  }

  lemma {:induction false} BagsAtoms(xs: seq<Bagged>)
    requires AllAtoms(xs)
    ensures Bags(xs) == multiset(TermsOf(xs))
  {
    if xs != [] {
      var m := |xs| - 1;
      BagsAtoms(xs[..m]);
      assert TermsOf(xs) == TermsOf(xs[..m]) + [xs[m].t];
    }
  }

  /** A value that is an atom and does not mention a return is the unfolded tree. */
  lemma {:induction false} AtomTerm(b: Body, k: nat, t: Term)
    requires Ordered(b) && k < |b| && Unused(Return, b) && !b[k].head.Return?
    requires Run(FlatTop(), b)[k] == Atom(t) && Clean(t)
    ensures Run(Unfold(), b)[k] == t
    decreases k
  {
    RunAt(FlatTop(), b, k);
    TermAt(b, k);
    var xs := Pick(Run(FlatTop(), b), b[k].args);
    assert t == Node(b[k].head, TermsOf(xs));
    forall j | 0 <= j < |b[k].args| ensures Run(Unfold(), b)[b[k].args[j]] == t.kids[j] {
      assert b[k].args[j] in b[k].args;
      AtomTerm(b, b[k].args[j], t.kids[j]);
    }
    assert Pick(Run(Unfold(), b), b[k].args) == t.kids;
  }

  // ---------------------------------------------------------------- the addends of a sum

  lemma {:induction false} EvalProduct(i: int)
    ensures EvalTerm(FlatTop(), Product(i)) == Atom(Product(i)) && Clean(Product(i))
  {
    EvalAtom(X(), []);
    EvalAtom(Y(), []);
    EvalAtom(Node(Extract(i), [X()]), [Atom(X())]);
    EvalAtom(Node(Extract(i), [Y()]), [Atom(Y())]);
    EvalAtom(Product(i), [Atom(Node(Extract(i), [X()])), Atom(Node(Extract(i), [Y()]))]);
  }

  lemma {:induction false} EvalAtom(t: Term, xs: seq<Bagged>)
    requires !t.head.Add? && !t.head.Return? && |xs| == |t.kids|
    requires forall j :: 0 <= j < |xs| ==> xs[j] == Atom(t.kids[j]) && EvalTerm(FlatTop(), t.kids[j]) == xs[j]
    ensures EvalTerm(FlatTop(), t) == Atom(t)
  {
    assert t == Node(t.head, t.kids);
    EvalNode(FlatTop(), t.head, t.kids, xs);
    assert TermsOf(xs) == t.kids;
  }

  predicate IsLeaf(n: nat, t: Term) { t == Zero() || IsProduct(n, t) }

  /** The bag holds zeros and products only, product i as often as i occurs in the list. */
  ghost predicate Lists(n: nat, m: multiset<Term>, ids: seq<int>)
  {
    && (forall u :: u in m ==> IsLeaf(n, u))
    && forall i :: m[Product(i)] == multiset(ids)[i]
  }

  function Addends(ts: seq<Term>): (xs: seq<Bagged>)
    ensures |xs| == |ts| && forall j :: 0 <= j < |xs| ==> xs[j] == EvalTerm(FlatTop(), ts[j])
  {
    seq(|ts|, j requires 0 <= j < |ts| => EvalTerm(FlatTop(), ts[j]))
  }

  lemma {:induction false} ListsConcat(n: nat, l: multiset<Term>, m: multiset<Term>, xs: seq<int>, ys: seq<int>)
    requires Lists(n, l, xs) && Lists(n, m, ys)
    ensures Lists(n, l + m, xs + ys)
  {}

  lemma {:induction false} BagsListNext(n: nat, ts: seq<Term>, t: Term)
    requires Lists(n, Bags(Addends(ts)), Flat(AllIndices(ts))) && Lists(n, Bag(EvalTerm(FlatTop(), t)), Indices(t))
    ensures Lists(n, Bags(Addends(ts + [t])), Flat(AllIndices(ts + [t])))
  {
    assert Addends(ts + [t])[..|ts|] == Addends(ts);
    assert AllIndices(ts + [t]) == AllIndices(ts) + [Indices(t)];
    FlatAppend(AllIndices(ts), Indices(t));
    ListsConcat(n, Bags(Addends(ts)), Bag(EvalTerm(FlatTop(), t)), Flat(AllIndices(ts)), Indices(t));
  }

  lemma {:induction false} BagsList(n: nat, ts: seq<Term>)
    requires forall j :: 0 <= j < |ts| ==> Lists(n, Bag(EvalTerm(FlatTop(), ts[j])), Indices(ts[j]))
    ensures Lists(n, Bags(Addends(ts)), Flat(AllIndices(ts)))
  {
    if ts == [] {
      assert Lists(n, multiset{}, []);
    } else {
      var m := |ts| - 1;
      BagsList(n, ts[..m]);
      BagsListNext(n, ts[..m], ts[m]);
      assert ts == ts[..m] + [ts[m]];
    }
  }

  lemma {:induction false} SummandBag(n: nat, t: Term)
    requires Summand(n, t)
    ensures Lists(n, Bag(EvalTerm(FlatTop(), t)), Indices(t))
    ensures t.head.Add? ==> EvalTerm(FlatTop(), t).Sum?
    ensures !t.head.Add? ==> EvalTerm(FlatTop(), t) == Atom(t)
    decreases t
  {
    if t == Zero() {
      EvalAtom(t, []);
    } else if IsProduct(n, t) {
      ProductBag(n, t.kids[0].head.i);
    } else {
      forall j | 0 <= j < |t.kids| ensures Lists(n, Bag(EvalTerm(FlatTop(), t.kids[j])), Indices(t.kids[j])) {
        SummandBag(n, t.kids[j]);
      }
      BagsList(n, t.kids);
      assert t == Node(Add, t.kids);
      EvalNode(FlatTop(), Add, t.kids, Addends(t.kids));
      IndicesAdd(t.kids);
    }
  }

  lemma {:induction false} ProductBag(n: nat, i: int)
    requires 0 <= i < n
    ensures EvalTerm(FlatTop(), Product(i)) == Atom(Product(i))
    ensures Lists(n, multiset{Product(i)}, Indices(Product(i)))
  {
    EvalProduct(i);
    forall j ensures multiset{Product(i)}[Product(j)] == multiset(Indices(Product(i)))[j] {
      assert Product(j).kids[0].head.i == j;
    }
  }

  // ---------------------------------------------------------------- no sum occurs twice

  lemma {:induction false} FlatOneOf(xss: seq<seq<int>>, i: nat)
    requires i < |xss|
    ensures multiset(xss[i]) <= multiset(Flat(xss))
  {
    var m := |xss| - 1;
    if i < m { FlatOneOf(xss[..m], i); }
  }

  lemma {:induction false} FlatTwoOf(xss: seq<seq<int>>, i: nat, j: nat)
    requires i < j < |xss|
    ensures multiset(xss[i]) + multiset(xss[j]) <= multiset(Flat(xss))
  {
    var m := |xss| - 1;
    if j < m { FlatTwoOf(xss[..m], i, j); } else { FlatOneOf(xss[..m], i); }
  }

  lemma {:induction false} IndicesWithin(n: nat, t: Term, s: Term)
    requires Summand(n, s) && Within(t, s) && Summand(n, t)
    ensures multiset(Indices(t)) <= multiset(Indices(s))
    decreases s
  {
    if t != s {
      var j :| 0 <= j < |s.kids| && Within(t, s.kids[j]);
      if s.head.Add? {
        IndicesWithin(n, t, s.kids[j]);
        assert s == Node(Add, s.kids);
        IndicesAdd(s.kids);
        FlatOneOf(AllIndices(s.kids), j);
      } else {
        BelowProduct(n, t, s);
      }
    }
  }

  lemma {:induction false} BelowProduct(n: nat, t: Term, s: Term)
    requires IsProduct(n, s) && Within(t, s) && t != s
    ensures !Summand(n, t)
  {
    var j :| 0 <= j < |s.kids| && Within(t, s.kids[j]);
    if t != s.kids[j] {
      var i :| 0 <= i < |s.kids[j].kids| && Within(t, s.kids[j].kids[i]);
      assert t == s.kids[j].kids[i];
    }
  }

  lemma {:induction false} NonzeroIndex(n: nat, t: Term)
    requires Summand(n, t) && t != Zero()
    ensures Indices(t) != []
    decreases t
  {
    if t.head.Add? {
      var j :| 0 <= j < |t.kids| && t.kids[j] != Zero();
      NonzeroIndex(n, t.kids[j]);
      assert t == Node(Add, t.kids);
      IndicesAdd(t.kids);
      FlatOneOf(AllIndices(t.kids), j);
      assert Indices(t.kids[j])[0] in multiset(Indices(t.kids[j]));
      assert Indices(t.kids[j])[0] in multiset(Indices(t));
    }
  }

  lemma {:induction false} TwoPlaces(args: seq<nat>, a: nat) returns (i: nat, j: nat)
    requires Count(args, a) >= 2
    ensures i < j < |args| && args[i] == args[j] == a
  {
    var m := |args| - 1;
    if args[m] == a {
      assert a in args[..m];
      i :| 0 <= i < m && args[..m][i] == a;
      j := m;
    } else {
      i, j := TwoPlaces(args[..m], a);
    }
  }

  /** No addition lists the same addition twice, or some product would be summed twice. */
  lemma {:induction false} SumsNoDup(n: nat, b: Body)
    requires Ordered(b) && EndsInReturn(b) && AllLive(b) && SumsProducts(n, Result(Unfold(), b))
    ensures NoDup(Add, b, 0)
  {
    forall q, a | 0 <= q < |b| && b[q].head == Add && 0 <= a < q && b[a].head == Add ensures Count(b[q].args, a) <= 1 {
      if Count(b[q].args, a) >= 2 {
        var i, j := TwoPlaces(b[q].args, a);
        TermAt(b, q);
        LiveParts(n, b, q);
        LiveParts(n, b, a);
        var t := Run(Unfold(), b)[q];
        RepeatedAddend(n, t, i, j, Result(Unfold(), b));
      }
    }
  }

  lemma {:induction false} RepeatedAddend(n: nat, t: Term, i: nat, j: nat, r: Term)
    requires SumsProducts(n, r) && Within(t, r) && Summand(n, t) && t.head.Add? && i < j < |t.kids|
    requires t.kids[i] == t.kids[j]
    ensures t.kids[i] == Zero()
  {
    if t.kids[i] != Zero() {
      var s := r.kids[0];
      assert Within(t, s) by { var k :| 0 <= k < |r.kids| && Within(t, r.kids[k]); }
      IndicesWithin(n, t, s);
      assert t == Node(Add, t.kids);
      IndicesAdd(t.kids);
      FlatTwoOf(AllIndices(t.kids), i, j);
      NonzeroIndex(n, t.kids[i]);
      var x := Indices(t.kids[i])[0];
      assert x in multiset(Indices(t.kids[i]));
      assert multiset(Indices(s))[x] >= 2;
      UptoBag(n, x);
      assert false;
    }
  }

  // ---------------------------------------------------------------- after the sweep

  lemma {:induction false} ReturnValue<T>(g: Signature, alg: Algebra<T>, b: Body)
    requires WellTyped(g, b) && Ordered(b) && EndsInReturn(b)
    ensures var k := |b| - 1;
      |b[k].args| == 1 && b[k].args[0] < k && Result(alg, b) == alg(Return, [Run(alg, b)[b[k].args[0]]])
  {
    var k := |b| - 1;
    assert OpOk(g, b[..k], b[k]);
    RunAt(alg, b, k);
    assert Pick(Run(alg, b), b[k].args) == [Run(alg, b)[b[k].args[0]]];
  }

  /** An addition none of whose operands is an addition or a return unfolds to its addends. */
  lemma {:induction false} FlatAddition(n: nat, b: Body, a: nat, ids: seq<int>)
    requires Ordered(b) && a < |b| && b[a].head == Add && Unused(Return, b)
    requires forall x :: x in b[a].args ==> b[x].head != Add
    requires Run(FlatTop(), b)[a].Sum? && Lists(n, Run(FlatTop(), b)[a].m, ids)
    ensures var t := Run(Unfold(), b)[a];
      t.head == Add && multiset(t.kids) == Run(FlatTop(), b)[a].m && Leaves(n, t.kids)
  {
    var xs := Pick(Run(FlatTop(), b), b[a].args);
    RunAt(FlatTop(), b, a);
    TermAt(b, a);
    forall j | 0 <= j < |xs| ensures xs[j].Atom? {
      var x := b[a].args[j];
      assert x in b[a].args;
      RunAt(FlatTop(), b, x);
    }
    BagsAtoms(xs);
    var ts := TermsOf(xs);
    forall j | 0 <= j < |ts| ensures Run(Unfold(), b)[b[a].args[j]] == ts[j] && IsLeaf(n, ts[j]) {
      assert ts[j] in multiset(ts);
      assert b[a].args[j] in b[a].args;
      if ts[j] != Zero() { EvalProduct(ts[j].kids[0].head.i); }
      AtomTerm(b, b[a].args[j], ts[j]);
    }
    assert Run(Unfold(), b)[a].kids == ts;
  }

  /** A flat addition of the bag the sum had is such a sum again. */
  lemma {:induction false} SameBag(n: nat, ts: seq<Term>, ids: seq<int>)
    requires n > 0 && Leaves(n, ts) && Lists(n, multiset(ts), ids) && multiset(ids) == multiset(Upto(n))
    ensures SumsProducts(n, Node(Return, [Node(Add, ts)]))
  {
    UptoBag(n, 0);
    assert multiset(ts)[Product(0)] == 1;
    LeavesSummand(n, ts);
    LeavesIndices(n, ts, ids);
  }

  lemma {:induction false} LeavesSummand(n: nat, ts: seq<Term>)
    requires Leaves(n, ts) && Product(0) in multiset(ts)
    ensures Summand(n, Node(Add, ts))
  {
    assert Product(0) in ts;
    var j :| 0 <= j < |ts| && ts[j] == Product(0);
    assert Node(Add, ts).kids[j] != Zero();
  }

  lemma {:induction false} LeavesIndices(n: nat, ts: seq<Term>, ids: seq<int>)
    requires Leaves(n, ts) && Lists(n, multiset(ts), ids)
    ensures multiset(Indices(Node(Add, ts))) == multiset(ids)
  {
    forall j | 0 <= j < |ts| ensures Lists(n, Bag(EvalTerm(FlatTop(), ts[j])), Indices(ts[j])) {
      SummandBag(n, ts[j]);
    }
    LeavesBags(n, ts);
    BagsList(n, ts);
    IndicesAdd(ts);
    ListsOnce(n, multiset(ts), Indices(Node(Add, ts)), ids);
  }

  lemma {:induction false} ListsOnce(n: nat, m: multiset<Term>, ids: seq<int>, ids': seq<int>)
    requires Lists(n, m, ids) && Lists(n, m, ids')
    ensures multiset(ids) == multiset(ids')
  {
    forall i ensures multiset(ids)[i] == multiset(ids')[i] {
      assert m[Product(i)] == multiset(ids)[i];
    }
  }

  lemma {:induction false} LeavesBags(n: nat, ts: seq<Term>)
    requires Leaves(n, ts)
    ensures Bags(Addends(ts)) == multiset(ts)
  {
    forall j | 0 <= j < |ts| ensures Addends(ts)[j] == Atom(ts[j]) {
      SummandBag(n, ts[j]);
      SummandHead(n, ts[j]);
    }
    BagsAtoms(Addends(ts));
    assert TermsOf(Addends(ts)) == ts;
  }

  lemma {:induction false} SumsNests(n: nat, b: Body)
    requires WellTyped(TwoVectors(n), b) && Ordered(b) && EndsInReturn(b) && AllLive(b) && SumsProducts(n, Result(Unfold(), b))
    ensures NoNest(Sub, b, 0) && NoNest(Mul, b, 0) && Unused(Return, b)
  {
    forall q, a | 0 <= q < |b| && a in b[q].args
      ensures b[a].head != Return && b[q].head != Sub && (b[q].head == Mul ==> b[a].head != Mul)
    {
      var j :| 0 <= j < |b[q].args| && b[q].args[j] == a;
      TermAt(b, q);
      TermAt(b, a);
      LiveParts(n, b, q);
      PartKid(n, Run(Unfold(), b)[q], j);
    }
  }

  /** The n-ary pass makes one flat addition of the whole sum. */
  lemma {:induction false} FlattenSums(n: nat, b: Body)
    requires n > 1 && WellTyped(TwoVectors(n), b) && Ordered(b) && EndsInReturn(b) && AllLive(b)
    requires SumsProducts(n, Result(Unfold(), b))
    ensures var out := Pipeline.Flatten(b); var r := Result(Unfold(), out);
      && WellTyped(TwoVectors(n), out)
      && SumsProducts(n, r) && r.kids[0].head == Add && Leaves(n, r.kids[0].kids)
  {
    var g, w, ids := TwoVectors(n), Sweep(Add, b, 0), Indices(Result(Unfold(), b).kids[0]);
    SumsNests(n, b);
    SweepTyped(g, Add, b, 0);
    SweepNests(g, Add, b, 0, Sub);
    SweepNests(g, Add, b, 0, Mul);
    SweepNests(g, Add, b, 0, Return);
    SweepIdle(Sub, w.out, 0);
    SweepIdle(Mul, w.out, 0);
    assert Pipeline.Flatten(b) == w.out;
    SweptSum(n, b);
    FlatResult(n, w.out, ids);
  }

  /** A returned flat addition with these addends is a sum of products. */
  lemma {:induction false} FlatResult(n: nat, out: Body, ids: seq<int>)
    requires n > 1 && WellTyped(TwoVectors(n), out) && Ordered(out) && Unused(Return, out)
    requires ReturnsFlat(n, out, ids) && multiset(ids) == multiset(Upto(n))
    ensures var r := Result(Unfold(), out);
      SumsProducts(n, r) && r.kids[0].head == Add && Leaves(n, r.kids[0].kids)
  {
    var a := out[|out| - 1].args[0];
    FlatAddition(n, out, a, ids);
    ReturnValue(TwoVectors(n), Unfold(), out);
    SameBag(n, Run(Unfold(), out)[a].kids, ids);
  }

  /** The return's operand is one flat addition with these addends. */
  ghost predicate ReturnsFlat(n: nat, out: Body, ids: seq<int>)
    requires Ordered(out)
  {
    && EndsInReturn(out) && |out[|out| - 1].args| == 1
    && var a := out[|out| - 1].args[0];
    && a < |out| && out[a].head == Add && (forall x :: x in out[a].args ==> x < |out| && out[x].head != Add)
    && Run(FlatTop(), out)[a].Sum? && Lists(n, Run(FlatTop(), out)[a].m, ids)
  }

  /** After the sweep the return's operand is one flat addition with the addends the sum had. */
  lemma {:induction false} SweptSum(n: nat, b: Body)
    requires n > 1 && WellTyped(TwoVectors(n), b) && Ordered(b) && EndsInReturn(b) && AllLive(b)
    requires SumsProducts(n, Result(Unfold(), b)) && Unused(Return, Sweep(Add, b, 0).out)
    ensures ReturnsFlat(n, Sweep(Add, b, 0).out, Indices(Result(Unfold(), b).kids[0]))
  {
    var g, out := TwoVectors(n), Sweep(Add, b, 0).out;
    SumsNoDup(n, b);
    FlatSplices();
    SweepKeeps(g, FlatTop(), Add, b, 0);
    SweepFlat(g, Add, b, 0);
    SweepLast(Add, b, 0);
    SweepTyped(g, Add, b, 0);
    ReturnedBag(n, b);
    ReturnedAddition(g, out, Result(FlatTop(), b));
  }

  /** In a flat function that returns a sum, the sum is an addition of other things. */
  lemma {:induction false} ReturnedAddition(g: Signature, out: Body, v: Bagged)
    requires WellTyped(g, out) && Ordered(out) && EndsInReturn(out) && Unused(Return, out) && FlatUpTo(Add, out, |out|)
    requires Result(FlatTop(), out) == v && v.Sum?
    ensures |out[|out| - 1].args| == 1
    ensures var a := out[|out| - 1].args[0];
      && a < |out| && out[a].head == Add && Run(FlatTop(), out)[a] == v
      && forall x :: x in out[a].args ==> x < |out| && out[x].head != Add
  {
    ReturnValue(g, FlatTop(), out);
    var k := |out| - 1;
    var a := out[k].args[0];
    assert a in out[k].args && Used(out, a);
    RunAt(FlatTop(), out, a);
    forall x | x in out[a].args ensures x < |out| && out[x].head != Add { assert Below(out[a].args, a); }
  }

  lemma {:induction false} ReturnedBag(n: nat, b: Body)
    requires n > 1 && WellTyped(TwoVectors(n), b) && Ordered(b) && EndsInReturn(b) && SumsProducts(n, Result(Unfold(), b))
    ensures var v := Result(FlatTop(), b); v.Sum? && Lists(n, v.m, Indices(Result(Unfold(), b).kids[0]))
  {
    var r := Result(Unfold(), b);
    TermIsFree(FlatTop(), b, |b| - 1);
    assert r == Node(Return, [r.kids[0]]);
    EvalNode(FlatTop(), Return, [r.kids[0]], [EvalTerm(FlatTop(), r.kids[0])]);
    SummandBag(n, r.kids[0]);
    assert |multiset(Indices(r.kids[0]))| == |multiset(Upto(n))| == n;
    SummandHead(n, r.kids[0]);
  }
}
