/** The reduction theorem: a dot product of two vectors of 2^k slots compiles to one vector product and
    k rotations, and still computes the dot product. */
module DotProduct {
  import opened Ir
  import opened Meaning
  import opened Dce
  import opened Terms
  import opened Sums
  import opened SlotSums
  import opened Vectors
  import opened Internal
  import opened Windows
  import opened Reduction
  import opened Ladder
  import opened Counting
  import Batching
  import Folding
  import Nary
  import Pipeline

  // ---------------------------------------------------------------- the final term

  /** Rotate by n - i, add, halve i. */
  function Rungs(n: nat, x: Term, i: nat): Term
    decreases i
  {
    if i == 0 then x else Rungs(n, Node(Add, [x, Node(Rotate(n - i), [x])]), i / 2)
  }

  /** One product, log2(n) rungs, one slot. */
  function FinalTerm(n: nat): Term { Node(Return, [Node(Extract(0), [Rungs(n, Hadamard(), n / 2)])]) }

  lemma {:induction false} FoldRung(n: nat, t: Term, i: nat)
    requires 0 < i < n && !Constant(EvalTerm(FoldTop(n), t).head)
    ensures var x := EvalTerm(FoldTop(n), t);
      EvalTerm(FoldTop(n), Node(Add, [t, Node(Rotate(-(i as int)), [t])])) == Node(Add, [x, Node(Rotate(n - i), [x])])
  {
    var x := EvalTerm(FoldTop(n), t);
    EvalFold(n, Rotate(-(i as int)), [t]);
    assert Folded(n, [t]) == [x];
    FoldPair(n, Add, t, Node(Rotate(-(i as int)), [t]));
  }

  lemma {:induction false} FoldRungs(n: nat, t: Term, i: nat)
    requires i < n && !Constant(EvalTerm(FoldTop(n), t).head)
    ensures EvalTerm(FoldTop(n), ChainVal(Unfold(), t, i)) == Rungs(n, EvalTerm(FoldTop(n), t), i)
    decreases i
  {
    if i > 0 {
      FoldRung(n, t, i);
      FoldRungs(n, Node(Add, [t, Node(Rotate(-(i as int)), [t])]), i / 2);
    }
  }

  lemma {:induction false} RungsHead(n: nat, x: Term, i: nat)
    requires !Constant(x.head)
    ensures !Constant(Rungs(n, x, i).head)
    decreases i
  {
    if i > 0 { RungsHead(n, Node(Add, [x, Node(Rotate(n - i), [x])]), i / 2); }
  }

  lemma {:induction false} FoldLadder(n: nat)
    requires n > 1
    ensures EvalTerm(FoldTop(n), LadderReturn(n)) == FinalTerm(n)
  {
    LeafNoFold(n);
    NoFoldFixed(n, Hadamard());
    FoldRungs(n, Hadamard(), n / 2);
    RungsHead(n, Hadamard(), n / 2);
    FoldWrapped(n, ChainVal(Unfold(), Hadamard(), n / 2));
  }

  lemma {:induction false} FoldWrapped(n: nat, c: Term)
    requires !Constant(EvalTerm(FoldTop(n), c).head)
    ensures EvalTerm(FoldTop(n), Node(Return, [Node(Extract(0), [Node(Add, [c])])]))
         == Node(Return, [Node(Extract(0), [EvalTerm(FoldTop(n), c)])])
  {
    FoldSingle(n, c);
    FoldExtract(n, 0, Node(Add, [c]));
    FoldReturn(n, Node(Extract(0), [Node(Add, [c])]));
  }

  lemma {:induction false} FoldSingle(n: nat, c: Term)
    requires !Constant(EvalTerm(FoldTop(n), c).head)
    ensures EvalTerm(FoldTop(n), Node(Add, [c])) == EvalTerm(FoldTop(n), c)
  {
    var ts := [EvalTerm(FoldTop(n), c)];
    EvalFold(n, Add, [c]);
    assert Folded(n, [c]) == ts;
    KeptAll(Add, ts);
    FoldOfAdd(n, ts);
  }

  lemma {:induction false} RungsVec(g: Signature, n: nat, x: Term, i: nat)
    requires Vec(g, x)
    ensures Vec(g, Rungs(n, x, i)) && Vec(g, ChainVal(Unfold(), x, i))
    decreases i
  {
    if i > 0 {
      RungsVec(g, n, Node(Add, [x, Node(Rotate(n - i), [x])]), i / 2);
      RungsVec(g, n, Node(Add, [x, Node(Rotate(-(i as int)), [x])]), i / 2);
    }
  }

  lemma {:induction false} FinalVec(n: nat)
    requires n > 1
    ensures VecReturn(TwoVectors(n), LadderReturn(n)) && VecReturn(TwoVectors(n), FinalTerm(n))
  {
    var g := TwoVectors(n);
    assert Vec(g, X()) && Vec(g, Y());
    assert Vec(g, Hadamard());
    RungsVec(g, n, Hadamard(), n / 2);
    assert Vec(g, Node(Add, [ChainVal(Unfold(), Hadamard(), n / 2)]));
  }

  /** Whatever shape the sum of products has, the pipeline brings it to the one final term. */
  lemma {:induction false} OptimizedSum(n: nat, o: Batching.UseOrder, b: Body)
    requires n > 1 && PowerOfTwo(n) && Batching.Enumerates(o)
    requires WellTyped(TwoVectors(n), b) && Ordered(b) && EndsInReturn(b) && SumsProducts(n, Result(Unfold(), b))
    ensures var out := Pipeline.Optimize(n, o, b);
      VecBody(TwoVectors(n), out) && TermUnique(out) && Result(Unfold(), out) == FinalTerm(n)
  {
    var sigma := PrepareSums(n, b);
    var p := Pipeline.Prepare(n, b);
    VectorizeSum(n, o, p, sigma);
    var v := Pipeline.Vectorize(n, o, p);
    ReducedSum(n, v, sigma);
    FinalVec(n);
    FoldLadder(n);
    CleanVec(TwoVectors(n), Pipeline.Reduced(v));
  }

  // ---------------------------------------------------------------- its value

  function Dot(x: seq<int>, y: seq<int>, m: nat): int
    requires m <= |x| == |y|
  {
    if m == 0 then 0 else Dot(x, y, m - 1) + x[m - 1] * y[m - 1]
  }

  /** The two vectors as arguments. */
  function Inputs(x: seq<int>, y: seq<int>): nat -> Val { (k: nat) => if k == 0 then V(x) else V(y) }

  function Products2(x: seq<int>, y: seq<int>): (p: seq<int>)
    requires |x| == |y|
    ensures |p| == |x| && forall j :: 0 <= j < |x| ==> p[j] == x[j] * y[j]
  {
    seq(|x|, j requires 0 <= j < |x| => x[j] * y[j])
  }

  lemma {:induction false} MulPair(n: nat, inp: nat -> Val, x: Val, y: Val)
    ensures Denote(n, inp)(Mul, [x, y]) == Lift(Times(), x, y)
  {
    MultiplicationLawful();
    assert Denote(n, inp)(Mul, [x, y]) == Compute(n, inp, Mul, [x, y]);
    assert [x, y][..1] == [x];
    FoldOne(Multiplication(), x);
  }

  lemma {:induction false} ParameterValues(n: nat, x: seq<int>, y: seq<int>)
    ensures EvalTerm(Denote(n, Inputs(x, y)), X()) == V(x) && EvalTerm(Denote(n, Inputs(x, y)), Y()) == V(y)
  {
    var alg := Denote(n, Inputs(x, y));
    EvalNode(alg, Arg(0), [], []);
    EvalNode(alg, Arg(1), [], []);
    assert alg(Arg(0), []) == Compute(n, Inputs(x, y), Arg(0), []);
    assert alg(Arg(1), []) == Compute(n, Inputs(x, y), Arg(1), []);
  }

  lemma {:induction false} HadamardValue(n: nat, x: seq<int>, y: seq<int>)
    requires |x| == |y| == n
    ensures EvalTerm(Denote(n, Inputs(x, y)), Hadamard()) == V(Products2(x, y))
  {
    var alg := Denote(n, Inputs(x, y));
    ParameterValues(n, x, y);
    EvalNode(alg, Mul, [X(), Y()], [V(x), V(y)]);
    MulPair(n, Inputs(x, y), V(x), V(y));
    assert Lift(Times(), V(x), V(y)).s == Products2(x, y);
  }

  /** On vectors of n slots a rung with n - i computes what one with -i does. */
  lemma {:induction false} RungsValue(n: nat, inp: nat -> Val, t: Term, i: nat)
    requires EvalTerm(Denote(n, inp), t).V? && |EvalTerm(Denote(n, inp), t).s| == n
    ensures EvalTerm(Denote(n, inp), Rungs(n, t, i)) == ChainVal(Denote(n, inp), EvalTerm(Denote(n, inp), t), i)
    decreases i
  {
    if i > 0 {
      RungValue(n, inp, t, i);
      RungsValue(n, inp, Node(Add, [t, Node(Rotate(n - i), [t])]), i / 2);
    }
  }

  lemma {:induction false} RungValue(n: nat, inp: nat -> Val, t: Term, i: nat)
    requires EvalTerm(Denote(n, inp), t).V? && |EvalTerm(Denote(n, inp), t).s| == n
    ensures var alg := Denote(n, inp);
      var v := EvalTerm(alg, t);
      var r := EvalTerm(alg, Node(Add, [t, Node(Rotate(n - i), [t])]));
      r == alg(Add, [v, alg(Rotate(-(i as int)), [v])]) && r.V? && |r.s| == n
  {
    var alg := Denote(n, inp);
    var v := EvalTerm(alg, t);
    EvalNode(alg, Rotate(n - i), [t], [v]);
    Folding.RotateValue(n, inp, n - i, v.s);
    Folding.RotateValue(n, inp, -(i as int), v.s);
    Folding.RotWraps(v.s, -(i as int));
    var w := V(Rot(v.s, n - i));
    EvalNode(alg, Add, [t, Node(Rotate(n - i), [t])], [v, w]);
    AddPair(n, inp, v, w);
  }

  function PrefixSum(p: seq<int>, m: nat): int
    requires m <= |p|
  {
    if m == 0 then 0 else PrefixSum(p, m - 1) + p[m - 1]
  }

  lemma {:induction false} WindowIsPrefix(p: seq<int>, m: nat)
    requires m <= |p| && |p| > 0
    ensures Window(p, 0, m) == PrefixSum(p, m)
  {
    if m > 0 {
      WindowIsPrefix(p, m - 1);
      assert At(p, m - 1) == p[m - 1];
      assert Stride(p, 0, 1, m) == Stride(p, 0, 1, m - 1) + At(p, 0 + (m - 1) * 1);
    }
  }

  lemma {:induction false} PrefixIsDot(x: seq<int>, y: seq<int>, m: nat)
    requires m <= |x| == |y|
    ensures PrefixSum(Products2(x, y), m) == Dot(x, y, m)
  {
    if m > 0 { PrefixIsDot(x, y, m - 1); }
  }

  lemma {:induction false} ReadSlot(n: nat, inp: nat -> Val, t: Term, i: nat)
    requires var v := EvalTerm(Denote(n, inp), t); v.V? && i < |v.s|
    ensures EvalTerm(Denote(n, inp), Node(Return, [Node(Extract(i), [t])])) == S(EvalTerm(Denote(n, inp), t).s[i])
  {
    var alg, v := Denote(n, inp), EvalTerm(Denote(n, inp), t);
    var e := Node(Extract(i), [t]);
    EvalNode(alg, Extract(i), [t], [v]);
    assert alg(Extract(i), [v]) == Compute(n, inp, Extract(i), [v]) == S(v.s[i]);
    EvalNode(alg, Return, [e], [S(v.s[i])]);
    assert alg(Return, [S(v.s[i])]) == Compute(n, inp, Return, [S(v.s[i])]);
  }

  /** The final term computes the dot product. */
  lemma {:induction false} FinalValue(n: nat, x: seq<int>, y: seq<int>)
    requires n > 1 && PowerOfTwo(n) && |x| == |y| == n
    ensures EvalTerm(Denote(n, Inputs(x, y)), FinalTerm(n)) == S(Dot(x, y, n))
  {
    var inp, p := Inputs(x, y), Products2(x, y);
    HadamardValue(n, x, y);
    RungsValue(n, inp, Hadamard(), n / 2);
    HalvingSums(n, inp, p, n);
    WindowIsPrefix(p, n);
    PrefixIsDot(x, y, n);
    ReadSlot(n, inp, Rungs(n, Hadamard(), n / 2), 0);
  }

  // ---------------------------------------------------------------- the source's value

  function SumAt(p: seq<int>, sigma: seq<int>): int
    requires SlotList(|p|, sigma)
  {
    if sigma == [] then 0 else SumAt(p, sigma[..|sigma| - 1]) + p[sigma[|sigma| - 1]]
  }

  lemma {:induction false} SumAtConcat(p: seq<int>, s: seq<int>, t: seq<int>)
    requires SlotList(|p|, s) && SlotList(|p|, t)
    ensures SlotList(|p|, s + t) && SumAt(p, s + t) == SumAt(p, s) + SumAt(p, t)
  {
    if t == [] {
      assert s + t == s;
    } else {
      var m := |t| - 1;
      SumAtConcat(p, s, t[..m]);
      assert (s + t)[..|s + t| - 1] == s + t[..m];
    }
  }

  lemma {:induction false} SumAtWithout(p: seq<int>, sigma: seq<int>, q: nat)
    requires SlotList(|p|, sigma) && q < |sigma|
    ensures var rest := sigma[..q] + sigma[q + 1..];
      && SlotList(|p|, rest) && SumAt(p, sigma) == SumAt(p, rest) + p[sigma[q]]
      && multiset(rest) == multiset(sigma) - multiset{sigma[q]}
  {
    var l, r, x := sigma[..q], sigma[q + 1..], sigma[q];
    assert sigma == l + [x] + r;
    SumAtConcat(p, l, [x]);
    SumAtConcat(p, l + [x], r);
    SumAtConcat(p, l, r);
    assert [x][..0] == [];
  }

  lemma {:induction false} LastSlot(sigma: seq<int>, m: nat) returns (q: nat)
    requires multiset(sigma) == multiset(Upto(m)) && m > 0
    ensures q < |sigma| && sigma[q] == m - 1
    ensures multiset(sigma[..q] + sigma[q + 1..]) == multiset(Upto(m - 1))
  {
    assert Upto(m) == Upto(m - 1) + [m - 1];
    assert multiset(Upto(m)) == multiset(Upto(m - 1)) + multiset{m - 1};
    assert (m - 1) in multiset(sigma);
    q :| 0 <= q < |sigma| && sigma[q] == m - 1;
    assert sigma == sigma[..q] + [sigma[q]] + sigma[q + 1..];
    assert multiset(sigma) == multiset(sigma[..q]) + multiset{m - 1} + multiset(sigma[q + 1..]);
    assert multiset(sigma[..q] + sigma[q + 1..]) == multiset(sigma) - multiset{m - 1};
    assert multiset(Upto(m - 1)) == multiset(Upto(m)) - multiset{m - 1};
  }

  /** Summing in another order gives the same. */
  lemma {:induction false} SumAtPermutes(p: seq<int>, sigma: seq<int>, m: nat)
    requires m <= |p| && SlotList(|p|, sigma) && multiset(sigma) == multiset(Upto(m))
    ensures SumAt(p, sigma) == PrefixSum(p, m)
    decreases m
  {
    assert |multiset(sigma)| == |multiset(Upto(m))|;
    if m > 0 {
      var q := LastSlot(sigma, m);
      SumAtWithout(p, sigma, q);
      SumAtPermutes(p, sigma[..q] + sigma[q + 1..], m - 1);
    }
  }

  lemma {:induction false} ProductValue(n: nat, x: seq<int>, y: seq<int>, i: int)
    requires |x| == |y| == n && 0 <= i < n
    ensures EvalTerm(Denote(n, Inputs(x, y)), Product(i)) == S(x[i] * y[i])
  {
    var alg, inp := Denote(n, Inputs(x, y)), Inputs(x, y);
    ParameterValues(n, x, y);
    EvalNode(alg, Extract(i), [X()], [V(x)]);
    EvalNode(alg, Extract(i), [Y()], [V(y)]);
    assert alg(Extract(i), [V(x)]) == Compute(n, inp, Extract(i), [V(x)]) == S(x[i]);
    assert alg(Extract(i), [V(y)]) == Compute(n, inp, Extract(i), [V(y)]) == S(y[i]);
    EvalNode(alg, Mul, Product(i).kids, [S(x[i]), S(y[i])]);
    MulPair(n, inp, S(x[i]), S(y[i]));
  }

  function Values(n: nat, x: seq<int>, y: seq<int>, ts: seq<Term>): (vs: seq<Val>)
    ensures |vs| == |ts| && forall j :: 0 <= j < |vs| ==> vs[j] == EvalTerm(Denote(n, Inputs(x, y)), ts[j])
  {
    seq(|ts|, j requires 0 <= j < |ts| => EvalTerm(Denote(n, Inputs(x, y)), ts[j]))
  }

  /** Sums of sums are sums over the concatenated lists. */
  lemma {:induction false} FoldSums(p: seq<int>, vs: seq<Val>, xss: seq<seq<int>>)
    requires |vs| == |xss| && forall j :: 0 <= j < |xss| ==> SlotList(|p|, xss[j]) && vs[j] == S(SumAt(p, xss[j]))
    ensures SlotList(|p|, Flat(xss)) && Fold(Addition(), vs) == S(SumAt(p, Flat(xss)))
  {
    if vs != [] {
      var m := |vs| - 1;
      FoldSums(p, vs[..m], xss[..m]);
      SumAtConcat(p, Flat(xss[..m]), xss[m]);
    }
  }

  lemma {:induction false} AdditionValue(n: nat, x: seq<int>, y: seq<int>, ts: seq<Term>)
    requires |x| == |y| == n
    requires forall j :: 0 <= j < |ts| ==>
      SlotList(n, Indices(ts[j])) && EvalTerm(Denote(n, Inputs(x, y)), ts[j]) == S(SumAt(Products2(x, y), Indices(ts[j])))
    ensures SlotList(n, Indices(Node(Add, ts)))
    ensures EvalTerm(Denote(n, Inputs(x, y)), Node(Add, ts)) == S(SumAt(Products2(x, y), Indices(Node(Add, ts))))
  {
    var alg := Denote(n, Inputs(x, y));
    FoldSums(Products2(x, y), Values(n, x, y, ts), AllIndices(ts));
    EvalNode(alg, Add, ts, Values(n, x, y, ts));
    assert alg(Add, Values(n, x, y, ts)) == Compute(n, Inputs(x, y), Add, Values(n, x, y, ts));
    IndicesAdd(ts);
  }

  /** A sum of products, however nested, computes the sum of its products. */
  lemma {:induction false} SummandValue(n: nat, x: seq<int>, y: seq<int>, t: Term)
    requires |x| == |y| == n && Summand(n, t)
    ensures SlotList(n, Indices(t)) && EvalTerm(Denote(n, Inputs(x, y)), t) == S(SumAt(Products2(x, y), Indices(t)))
    decreases t
  {
    var alg := Denote(n, Inputs(x, y));
    if t == Zero() {
      EvalNode(alg, Const(0), [], []);
      assert alg(Const(0), []) == Compute(n, Inputs(x, y), Const(0), []);
    } else if IsProduct(n, t) {
      var i := t.kids[0].head.i;
      ProductValue(n, x, y, i);
      assert [i][..0] == [];
      assert SumAt(Products2(x, y), [i]) == Products2(x, y)[i];
    } else {
      forall j | 0 <= j < |t.kids|
        ensures SlotList(n, Indices(t.kids[j])) && EvalTerm(alg, t.kids[j]) == S(SumAt(Products2(x, y), Indices(t.kids[j])))
      {
        SummandValue(n, x, y, t.kids[j]);
      }
      assert t == Node(Add, t.kids);
      AdditionValue(n, x, y, t.kids);
    }
  }

  lemma {:induction false} SourceValue(n: nat, x: seq<int>, y: seq<int>, r: Term)
    requires |x| == |y| == n && SumsProducts(n, r)
    ensures EvalTerm(Denote(n, Inputs(x, y)), r) == S(Dot(x, y, n))
  {
    var alg, t := Denote(n, Inputs(x, y)), r.kids[0];
    SummandValue(n, x, y, t);
    SumAtPermutes(Products2(x, y), Indices(t), n);
    PrefixIsDot(x, y, n);
    assert r == Node(Return, [t]);
    EvalNode(alg, Return, [t], [EvalTerm(alg, t)]);
    assert alg(Return, [EvalTerm(alg, t)]) == Compute(n, Inputs(x, y), Return, [EvalTerm(alg, t)]);
  }

  // ---------------------------------------------------------------- its size

  predicate Multiplies(h: Head) { h.Mul? }
  predicate Rotates(h: Head) { h.Rotate? }
  predicate Adds(h: Head) { h.Add? }

  /** The subterms the rungs add to x. */
  function RungTerms(n: nat, x: Term, i: nat): seq<Term>
    decreases i
  {
    if i == 0 then [] else
      var r := Node(Rotate(n - i), [x]);
      var a := Node(Add, [x, r]);
      [r, a] + RungTerms(n, a, i / 2)
  }

  /** The subterms of the final term, smallest first. */
  function FinalTerms(n: nat): seq<Term>
  {
    [X(), Y(), Hadamard()] + RungTerms(n, Hadamard(), n / 2)
    + [Node(Extract(0), [Rungs(n, Hadamard(), n / 2)]), FinalTerm(n)]
  }

  function Height(t: Term): nat { if t.kids == [] then 0 else 1 + Highest(t, |t.kids|) }

  function Highest(t: Term, m: nat): nat
    requires m <= |t.kids|
    decreases t, m
  {
    if m == 0 then 0 else
      var rest := Highest(t, m - 1);
      if Height(t.kids[m - 1]) > rest then Height(t.kids[m - 1]) else rest
  }

  lemma {:induction false} HeightOne(h: Head, x: Term)
    ensures Height(Node(h, [x])) == 1 + Height(x)
  {
    var t := Node(h, [x]);
    assert Highest(t, 1) == Height(x) by { assert Highest(t, 0) == 0; }
  }

  lemma {:induction false} HeightTwo(h: Head, x: Term, y: Term)
    requires Height(x) <= Height(y)
    ensures Height(Node(h, [x, y])) == 1 + Height(y)
  {
    var t := Node(h, [x, y]);
    assert Highest(t, 1) == Height(x) by { assert Highest(t, 0) == 0; }
    assert Highest(t, 2) == Height(y);
  }

  /** Heights strictly increase. */
  ghost predicate Rising(ts: seq<Term>) { forall i, j :: 0 <= i < j < |ts| ==> Height(ts[i]) < Height(ts[j]) }

  lemma {:induction false} RisingCons(t: Term, ts: seq<Term>)
    requires Rising(ts) && (ts != [] ==> Height(t) < Height(ts[0]))
    ensures Rising([t] + ts)
  {}

  /** The rungs, from x up to the top, rise. */
  lemma {:induction false} RungsRise(n: nat, x: Term, i: nat, tail: seq<Term>)
    requires Rising([Rungs(n, x, i)] + tail)
    ensures Rising([x] + RungTerms(n, x, i) + tail)
    ensures Height(x) <= Height(Rungs(n, x, i))
    decreases i
  {
    if i == 0 {
      assert [x] + RungTerms(n, x, i) + tail == [Rungs(n, x, i)] + tail;
    } else {
      var r := Node(Rotate(n - i), [x]);
      var a := Node(Add, [x, r]);
      HeightOne(Rotate(n - i), x);
      HeightTwo(Add, x, r);
      RungsRise(n, a, i / 2, tail);
      var ts := [a] + RungTerms(n, a, i / 2) + tail;
      RisingCons(r, ts);
      RisingCons(x, [r] + ts);
      assert [x] + RungTerms(n, x, i) + tail == [x] + ([r] + ts);
    }
  }

  lemma {:induction false} FinalNoRepeat(n: nat)
    ensures NoRepeat(FinalTerms(n))
  {
    var top := Rungs(n, Hadamard(), n / 2);
    var e, r := Node(Extract(0), [top]), FinalTerm(n);
    HeightOne(Extract(0), top);
    HeightOne(Return, e);
    assert Rising([top] + [e, r]);
    RungsRise(n, Hadamard(), n / 2, [e, r]);
    var ts := [Hadamard()] + RungTerms(n, Hadamard(), n / 2) + [e, r];
    HeightTwo(Mul, X(), Y());
    RisingCons(Y(), ts);
    RisingCons(X(), ts);
    assert FinalTerms(n) == [X()] + ([Y()] + ts);
    assert X() != Y();
    forall i, j | 0 <= i < j < |FinalTerms(n)| ensures FinalTerms(n)[i] != FinalTerms(n)[j] {
      if i == 0 && j > 1 { assert FinalTerms(n)[j] == ([X()] + ts)[j - 1]; }
    }
  }

  /** The list of rung terms holds the kids of its members, x aside. */
  lemma {:induction false} RungKids(n: nat, x: Term, i: nat, t: Term, j: nat)
    requires t in RungTerms(n, x, i) && j < |t.kids|
    ensures t.kids[j] == x || t.kids[j] in RungTerms(n, x, i)
    decreases i
  {
    var r := Node(Rotate(n - i), [x]);
    var a := Node(Add, [x, r]);
    if t != r && t != a { RungKids(n, a, i / 2, t, j); }
  }

  lemma {:induction false} RungTop(n: nat, x: Term, i: nat)
    ensures Rungs(n, x, i) == x || Rungs(n, x, i) in RungTerms(n, x, i)
    decreases i
  {
    if i > 0 { RungTop(n, Node(Add, [x, Node(Rotate(n - i), [x])]), i / 2); }
  }

  lemma {:induction false} RungWithin(n: nat, x: Term, i: nat, t: Term)
    requires t == x || t in RungTerms(n, x, i)
    ensures Within(t, Rungs(n, x, i))
    decreases i
  {
    if i > 0 {
      var r := Node(Rotate(n - i), [x]);
      var a := Node(Add, [x, r]);
      RungWithin(n, a, i / 2, if t == x || t == r then a else t);
      if t == x {
        assert Within(x, a.kids[0]);
        WithinTrans(x, a, Rungs(n, x, i));
      } else if t == r {
        assert Within(r, a.kids[1]);
        WithinTrans(r, a, Rungs(n, x, i));
      }
    }
  }

  lemma {:induction false} FinalKids(n: nat, t: Term, j: nat)
    requires t in FinalTerms(n) && j < |t.kids|
    ensures t.kids[j] in FinalTerms(n)
  {
    RungTop(n, Hadamard(), n / 2);
    if t in RungTerms(n, Hadamard(), n / 2) { RungKids(n, Hadamard(), n / 2, t, j); }
  }

  lemma {:induction false} WithinFinal(n: nat, t: Term, r: Term)
    requires r in FinalTerms(n) && Within(t, r)
    ensures t in FinalTerms(n)
    decreases r
  {
    if t != r {
      var j :| 0 <= j < |r.kids| && Within(t, r.kids[j]);
      FinalKids(n, r, j);
      WithinFinal(n, t, r.kids[j]);
    }
  }

  lemma {:induction false} FinalMember(n: nat, t: Term)
    requires t in FinalTerms(n)
    ensures Within(t, FinalTerm(n))
  {
    var top, r := Rungs(n, Hadamard(), n / 2), FinalTerm(n);
    var e := Node(Extract(0), [top]);
    assert Within(top, e.kids[0]) && Within(e, r.kids[0]);
    assert Within(top, e);
    if t != e && t != r {
      if t == X() || t == Y() {
        assert Within(t, Hadamard()) by { assert Within(t, Hadamard().kids[if t == X() then 0 else 1]); }
        RungWithin(n, Hadamard(), n / 2, Hadamard());
        WithinTrans(t, Hadamard(), top);
      } else {
        RungWithin(n, Hadamard(), n / 2, t);
      }
      WithinTrans(t, top, e);
      WithinTrans(t, e, r);
    }
  }

  lemma {:induction false} FinalSubterms(n: nat)
    ensures Subterms(FinalTerms(n), FinalTerm(n))
  {
    FinalNoRepeat(n);
    forall t ensures t in FinalTerms(n) <==> Within(t, FinalTerm(n)) {
      if t in FinalTerms(n) { FinalMember(n, t); }
      if Within(t, FinalTerm(n)) { WithinFinal(n, t, FinalTerm(n)); }
    }
  }

  /** k rungs hold k rotations and k additions. */
  lemma {:induction false} RungTally(n: nat, x: Term, k: nat, p: Head -> bool)
    requires forall i, j: int :: p(Rotate(i)) == p(Rotate(j))
    ensures |RungTerms(n, x, Nary.Pow2(k) / 2)| == 2 * k
    ensures TallyTerms(RungTerms(n, x, Nary.Pow2(k) / 2), p) == k * ((if p(Rotate(0)) then 1 else 0) + (if p(Add) then 1 else 0))
    decreases k
  {
    if k > 0 {
      var i := Nary.Pow2(k) / 2;
      HalfPow2(k);
      var a := Node(Add, [x, Node(Rotate(n - i), [x])]);
      RungTally(n, a, k - 1, p);
      RungTallyNext(n, x, i, p);
      TimesNext(k, (if p(Rotate(0)) then 1 else 0) + (if p(Add) then 1 else 0));
    }
  }

  lemma {:induction false} TimesNext(k: int, c: int)
    ensures k * c == (k - 1) * c + c
  {}

  lemma {:induction false} HalfPow2(k: nat)
    requires k > 0
    ensures Nary.Pow2(k) / 2 == Nary.Pow2(k - 1) >= 1
  {
    Nary.PowPositive(k - 1);
  }

  lemma {:induction false} RungTallyNext(n: nat, x: Term, i: nat, p: Head -> bool)
    requires i > 0 && forall i, j: int :: p(Rotate(i)) == p(Rotate(j))
    ensures var a := Node(Add, [x, Node(Rotate(n - i), [x])]);
      && |RungTerms(n, x, i)| == 2 + |RungTerms(n, a, i / 2)|
      && TallyTerms(RungTerms(n, x, i), p)
         == TallyTerms(RungTerms(n, a, i / 2), p) + (if p(Rotate(0)) then 1 else 0) + (if p(Add) then 1 else 0)
  {
    var r := Node(Rotate(n - i), [x]);
    var a := Node(Add, [x, r]);
    TallyConcat([r, a], RungTerms(n, a, i / 2), p);
    TallyConcat([r], [a], p);
    assert [r] + [a] == [r, a];
    TallyOne(r, p);
    TallyOne(a, p);
  }

  lemma {:induction false} FinalTally(k: nat, p: Head -> bool)
    requires forall i, j: int :: p(Rotate(i)) == p(Rotate(j))
    requires !p(Arg(0)) && !p(Arg(1)) && !p(Extract(0)) && !p(Return)
    ensures var n := Nary.Pow2(k);
      && |FinalTerms(n)| == 2 * k + 5
      && TallyTerms(FinalTerms(n), p)
         == (if p(Mul) then 1 else 0) + k * ((if p(Rotate(0)) then 1 else 0) + (if p(Add) then 1 else 0))
  {
    var n := Nary.Pow2(k);
    var e, r, rungs := Node(Extract(0), [Rungs(n, Hadamard(), n / 2)]), FinalTerm(n), RungTerms(n, Hadamard(), n / 2);
    RungTally(n, Hadamard(), k, p);
    TallyConcat([X(), Y(), Hadamard()] + rungs, [e, r], p);
    TallyConcat([X(), Y(), Hadamard()], rungs, p);
    TallyThree(X(), Y(), Hadamard(), p);
    assert [e] + [r] == [e, r];
    TallyConcat([e], [r], p);
    TallyOne(e, p);
    TallyOne(r, p);
  }

  lemma {:induction false} PowerOfPow2(k: nat)
    ensures PowerOfTwo(Nary.Pow2(k)) && Nary.Pow2(k) >= 1
  {
    if k > 0 { PowerOfPow2(k - 1); }
  }

  // ---------------------------------------------------------------- the theorem

  /** The reduction theorem. For vectors of n = 2^k slots, k >= 1, a function that returns the sum of
      the products x[i] * y[i], each once, added up in any order and association and with any number of
      zeros among them, becomes one vector product, k rotations, k additions and a read of slot 0,
      whatever order users are enumerated in; and it returns the dot product, as it did before. */
  lemma {:induction false} ReductionTheorem(k: nat, o: Batching.UseOrder, b: Body, x: seq<int>, y: seq<int>)
    requires k >= 1 && Batching.Enumerates(o) && |x| == |y| == Nary.Pow2(k)
    requires WellTyped(TwoVectors(Nary.Pow2(k)), b) && Ordered(b) && EndsInReturn(b)
    requires SumsProducts(Nary.Pow2(k), Result(Unfold(), b))
    ensures var n := Nary.Pow2(k); var out := Pipeline.Optimize(n, o, b); var alg := Denote(n, Inputs(x, y));
      && Result(alg, b) == S(Dot(x, y, n))
      && Result(alg, out) == S(Dot(x, y, n))
      && WellTyped(TwoVectors(n), out) && |out| == 2 * k + 5
      && Tally(out, Multiplies) == 1 && Tally(out, Rotates) == k && Tally(out, Adds) == k
  {
    var n := Nary.Pow2(k);
    PowerOfPow2(k);
    PowerOfPow2(k - 1);
    OptimizedSum(n, o, b);
    SumValues(n, b, Pipeline.Optimize(n, o, b), x, y);
    FinalSize(k, Pipeline.Optimize(n, o, b));
  }

  lemma {:induction false} SumValues(n: nat, b: Body, out: Body, x: seq<int>, y: seq<int>)
    requires n > 1 && PowerOfTwo(n) && |x| == |y| == n
    requires Ordered(b) && b != [] && SumsProducts(n, Result(Unfold(), b))
    requires Ordered(out) && out != [] && Result(Unfold(), out) == FinalTerm(n)
    ensures Result(Denote(n, Inputs(x, y)), b) == S(Dot(x, y, n)) == Result(Denote(n, Inputs(x, y)), out)
  {
    TermIsFree(Denote(n, Inputs(x, y)), b, |b| - 1);
    TermIsFree(Denote(n, Inputs(x, y)), out, |out| - 1);
    SourceValue(n, x, y, Result(Unfold(), b));
    FinalValue(n, x, y);
  }

  lemma {:induction false} FinalSize(k: nat, out: Body)
    requires var n := Nary.Pow2(k); VecBody(TwoVectors(n), out) && TermUnique(out) && Result(Unfold(), out) == FinalTerm(n)
    ensures |out| == 2 * k + 5 && Tally(out, Multiplies) == 1 && Tally(out, Rotates) == k && Tally(out, Adds) == k
  {
    var n := Nary.Pow2(k);
    FinalSubterms(n);
    TallySubterms(out, FinalTerms(n), Multiplies);
    TallySubterms(out, FinalTerms(n), Rotates);
    TallySubterms(out, FinalTerms(n), Adds);
    FinalTally(k, Multiplies);
    FinalTally(k, Rotates);
    FinalTally(k, Adds);
  }
}
