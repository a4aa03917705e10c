/** Where a rewrite does not keep the value it stands for: exact conditions, for all operand values. */
module Limits {
  import opened Ir
  import opened Walk
  import opened Meaning
  import opened Windows
  import opened Folding
  import opened Nary
  import opened Unnested

  // ---------------------------------------------------------------- n-ary addition

  function Total(v: seq<int>, args: seq<nat>): int
    requires Below(args, |v|)
  {
    if args == [] then 0 else
      assert Below(args[..|args| - 1], |v|);
      Total(v, args[..|args| - 1]) + v[args[|args| - 1]]
  }

  lemma {:induction false} TotalConcat(v: seq<int>, xs: seq<nat>, ys: seq<nat>)
    requires Below(xs, |v|) && Below(ys, |v|)
    ensures Below(xs + ys, |v|) && Total(v, xs + ys) == Total(v, xs) + Total(v, ys)
  {
    if ys == [] {
      assert xs + ys == xs;
    } else {
      var m := |ys| - 1;
      TotalConcat(v, xs, ys[..m]);
      assert (xs + ys)[..|xs + ys| - 1] == xs + ys[..m];
    }
  }

  lemma {:induction false} TotalWithout(v: seq<int>, args: seq<nat>, p: nat)
    requires Below(args, |v|) && p < |v|
    ensures Below(Without(args, p), |v|) && Total(v, Without(args, p)) == Total(v, args) - Count(args, p) * v[p]
  {
    if args != [] {
      var m := |args| - 1;
      TotalWithout(v, args[..m], p);
      var c := Count(args[..m], p);
      TimesNext(c + 1, v[p]);
      assert Count(args, p) == if args[m] == p then c + 1 else c;
      if args[m] != p { TotalAppend(v, Without(args[..m], p), args[m]); }
    }
  }

  lemma {:induction false} TotalAppend(v: seq<int>, xs: seq<nat>, a: nat)
    requires Below(xs, |v|) && a < |v|
    ensures Below(xs + [a], |v|) && Total(v, xs + [a]) == Total(v, xs) + v[a]
  {
    assert (xs + [a])[..|xs|] == xs;
  }

  lemma {:induction false} TimesNext(c: int, x: int)
    ensures c * x == (c - 1) * x + x
  {}

  /** Values in which operation p adds up the operands zs. */
  ghost predicate Consistent(v: seq<int>, p: nat, zs: seq<nat>)
  {
    p < |v| && Below(zs, |v|) && v[p] == Total(v, zs)
  }

  /** All values 1, except that p holds its sum. */
  function Ones(m: nat, p: nat, zs: seq<nat>): (v: seq<int>)
    ensures |v| == m && forall k :: 0 <= k < m ==> v[k] == if k == p then |zs| else 1
  {
    seq(m, k => if k == p then |zs| else 1)
  }

  lemma {:induction false} OnesTotal(m: nat, p: nat, zs: seq<nat>, xs: seq<nat>)
    requires Below(xs, m) && p !in xs
    ensures Total(Ones(m, p, zs), xs) == |xs|
  {
    if xs != [] {
      assert xs[|xs| - 1] in xs;
      OnesTotal(m, p, zs, xs[..|xs| - 1]);
    }
  }

  /** By how much the merged copy falls short. */
  lemma {:induction false} MergedAddTotal(v: seq<int>, args: seq<nat>, p: nat, zs: seq<nat>)
    requires Below(args, |v|) && p < |v| && Below(zs, p) && Consistent(v, p, zs)
    ensures Below(Without(args, p) + zs, |v|)
    ensures Total(v, Without(args, p) + zs) == Total(v, args) - (Count(args, p) - 1) * v[p]
  {
    TotalWithout(v, args, p);
    TotalConcat(v, Without(args, p), zs);
    TimesNext(Count(args, p), v[p]);
  }

  /** With all ones the merged copy falls short. */
  lemma {:induction false} OnesShort(m: nat, args: seq<nat>, p: nat, zs: seq<nat>)
    requires Below(args, m) && p < m && Below(zs, p) && Count(args, p) > 1 && zs != []
    ensures var v := Ones(m, p, zs);
      Consistent(v, p, zs) && Below(Without(args, p) + zs, m) && Total(v, Without(args, p) + zs) < Total(v, args)
  {
    OnesTotal(m, p, zs, zs);
    MergedAddTotal(Ones(m, p, zs), args, p, zs);
    assert (Count(args, p) - 1) * |zs| > 0;
  }

  /** An addition that lists p may be replaced by the merged copy, whatever the values, exactly when it
      lists p once (or p adds up nothing). */
  lemma {:induction false} MergedAddExact(m: nat, args: seq<nat>, p: nat, zs: seq<nat>)
    requires Below(args, m) && p < m && p in args && Below(zs, p)
    ensures Below(Without(args, p) + zs, m)
    ensures (forall v: seq<int> :: |v| == m && Consistent(v, p, zs) ==> Total(v, Without(args, p) + zs) == Total(v, args))
            <==> Count(args, p) == 1 || zs == []
  {
    TotalWithout(Ones(m, p, zs), args, p);
    TotalConcat(Ones(m, p, zs), Without(args, p), zs);
    if Count(args, p) == 1 || zs == [] {
      forall v: seq<int> | |v| == m && Consistent(v, p, zs) ensures Total(v, Without(args, p) + zs) == Total(v, args) {
        MergedAddTotal(v, args, p, zs);
      }
    } else {
      OnesShort(m, args, p, zs);
    }
  }

  function Product(v: seq<int>, args: seq<nat>): int
    requires Below(args, |v|)
  {
    if args == [] then 1 else
      assert Below(args[..|args| - 1], |v|);
      Product(v, args[..|args| - 1]) * v[args[|args| - 1]]
  }

  function Power(x: int, k: nat): int { if k == 0 then 1 else Power(x, k - 1) * x }

  lemma {:induction false} ProductConcat(v: seq<int>, xs: seq<nat>, ys: seq<nat>)
    requires Below(xs, |v|) && Below(ys, |v|)
    ensures Below(xs + ys, |v|) && Product(v, xs + ys) == Product(v, xs) * Product(v, ys)
  {
    if ys == [] {
      assert xs + ys == xs;
    } else {
      var m := |ys| - 1;
      ProductConcat(v, xs, ys[..m]);
      assert (xs + ys)[..|xs + ys| - 1] == xs + ys[..m];
      TimesGroup(Product(v, xs), Product(v, ys[..m]), v[ys[m]]);
    }
  }

  lemma {:induction false} TimesGroup(a: int, b: int, c: int)
    ensures a * b * c == a * (b * c) && a * b * c == a * c * b
  {}

  lemma {:induction false} ProductAppend(v: seq<int>, xs: seq<nat>, a: nat)
    requires Below(xs, |v|) && a < |v|
    ensures Below(xs + [a], |v|) && Product(v, xs + [a]) == Product(v, xs) * v[a]
  {
    assert (xs + [a])[..|xs|] == xs;
  }

  lemma {:induction false} ProductWithout(v: seq<int>, args: seq<nat>, p: nat)
    requires Below(args, |v|) && p < |v|
    ensures Below(Without(args, p), |v|) && Product(v, args) == Product(v, Without(args, p)) * Power(v[p], Count(args, p))
  {
    if args != [] {
      var m := |args| - 1;
      ProductWithout(v, args[..m], p);
      var rest, c := Product(v, Without(args[..m], p)), Count(args[..m], p);
      TimesGroup(rest, Power(v[p], c), v[args[m]]);
      assert Count(args, p) == if args[m] == p then c + 1 else c;
      if args[m] != p { ProductAppend(v, Without(args[..m], p), args[m]); }
    }
  }

  /** Values in which operation p multiplies the operands zs. */
  ghost predicate ConsistentProduct(v: seq<int>, p: nat, zs: seq<nat>)
  {
    p < |v| && Below(zs, |v|) && v[p] == Product(v, zs)
  }

  /** All values 2, except that p holds its product. */
  function Twos(m: nat, p: nat, zs: seq<nat>): (v: seq<int>)
    ensures |v| == m && forall k :: 0 <= k < m ==> v[k] == if k == p then Pow2(|zs|) else 2
  {
    seq(m, k => if k == p then Pow2(|zs|) else 2)
  }

  lemma {:induction false} PowAdd(a: nat, b: nat)
    ensures Pow2(a + b) == Pow2(a) * Pow2(b)
  {
    if b > 0 { PowAdd(a, b - 1); }
  }

  lemma {:induction false} PowGrows(a: nat, b: nat)
    requires a < b
    ensures Pow2(a) < Pow2(b)
  {
    if a > 0 { PowGrows(a - 1, b - 1); } else { PowPositive(b - 1); }
  }

  /** Products of powers of two are sums of exponents. */
  lemma {:induction false} TwosProduct(m: nat, p: nat, zs: seq<nat>, xs: seq<nat>)
    requires Below(xs, m)
    ensures Total(Ones(m, p, zs), xs) >= 0 && Product(Twos(m, p, zs), xs) == Pow2(Total(Ones(m, p, zs), xs))
  {
    if xs != [] {
      var k := |xs| - 1;
      TwosProduct(m, p, zs, xs[..k]);
      PowAdd(Total(Ones(m, p, zs), xs[..k]), Ones(m, p, zs)[xs[k]]);
    }
  }

  lemma {:induction false} PowerOne(c: nat)
    ensures Power(1, c) == 1
  {
    if c > 0 { PowerOne(c - 1); }
  }

  /** A multiplication that lists p may be replaced by the merged copy, whatever the values, exactly when it
      lists p once (or p multiplies nothing). */
  lemma {:induction false} MergedMulExact(m: nat, args: seq<nat>, p: nat, zs: seq<nat>)
    requires Below(args, m) && p < m && p in args && Below(zs, p)
    ensures Below(Without(args, p) + zs, m)
    ensures (forall v: seq<int> :: |v| == m && ConsistentProduct(v, p, zs) ==> Product(v, Without(args, p) + zs) == Product(v, args))
            <==> Count(args, p) == 1 || zs == []
  {
    forall v: seq<int> | |v| == m
      ensures Below(Without(args, p) + zs, m)
      ensures ConsistentProduct(v, p, zs) && (Count(args, p) == 1 || zs == []) ==> Product(v, Without(args, p) + zs) == Product(v, args)
    {
      ProductWithout(v, args, p);
      ProductConcat(v, Without(args, p), zs);
      PowerOne(Count(args, p));
      assert Power(v[p], 1) == Power(v[p], 0) * v[p];
    }
    if Count(args, p) != 1 && zs != [] { TwosDiffer(m, args, p, zs); }
  }

  lemma {:induction false} TwosDiffer(m: nat, args: seq<nat>, p: nat, zs: seq<nat>)
    requires Below(args, m) && p < m && Below(zs, p) && Count(args, p) > 1 && zs != []
    ensures var v := Twos(m, p, zs);
      |v| == m && ConsistentProduct(v, p, zs) && Below(Without(args, p) + zs, m) && Product(v, Without(args, p) + zs) != Product(v, args)
  {
    OnesShort(m, args, p, zs);
    OnesTotal(m, p, zs, zs);
    TwosProduct(m, p, zs, zs);
    TwosProduct(m, p, zs, args);
    TwosProduct(m, p, zs, Without(args, p) + zs);
    PowGrows(Total(Ones(m, p, zs), Without(args, p) + zs), Total(Ones(m, p, zs), args));
  }

  /** The function x => (x + x) + (x + x), with the inner sum computed once. */
  function Doubled(): Body
  {
    [Op(Arg(0), [], Secret), Op(Add, [0, 0], Secret), Op(Add, [1, 1], Secret), Op(Return, [2], Secret)]
  }

  /** What the sweep makes of it: the returned copy adds x up only twice. */
  function DoubledSwept(): Body
  {
    [Op(Arg(0), [], Secret), Op(Add, [0, 0], Secret), Op(Add, [1, 1], Secret), Op(Add, [0, 0], Secret), Op(Add, [0, 0], Secret),
     Op(Return, [4], Secret)]
  }

  /** The first collapse. */
  lemma {:induction false} DoubledBefore()
    ensures Ordered(Doubled())
    ensures Before(CollapseStep(Add, 1), Doubled(), 2) == Walked([Doubled()[0], Doubled()[1]], [0, 1])
  {
    var step, b := CollapseStep(Add, 1), Doubled();
    assert Ordered(b);
    BeforeNext(step, b, 0);
    BeforeNext(step, b, 1);
    CollapseVisits(Add, 1, b, 0);
    CollapseVisits(Add, 1, b, 1);
    assert Before(step, b, 1) == Walked([b[0]], [0]);
    assert Visited(step, b, 1) == b[1];
  }

  lemma {:induction false} DoubledCollapse()
    ensures Ordered(Doubled()) && Collapse(Add, Doubled(), 1).out == DoubledSwept()
  {
    var step, b := CollapseStep(Add, 1), Doubled();
    DoubledBefore();
    BeforeNext(step, b, 2);
    BeforeNext(step, b, 3);
    CollapseVisits(Add, 1, b, 2);
    CollapseVisits(Add, 1, b, 3);
    assert Visited(step, b, 2) == b[2];
    DoubledMerge();
    assert Before(step, b, 3) == Walked(DoubledSwept()[..5], [0, 1, 4]);
    assert Visited(step, b, 3) == Op(Return, [4], Secret);
  }

  lemma {:induction false} DoubledMerge()
    ensures var b := Doubled(); CollapseVisit(Add, 1, b[..2], b[2]) == Emit(DoubledSwept()[2..5], 4)
  {
    var b := Doubled();
    assert [1, 1][..1] == [1] && [1][..0] == [];
    assert Count([1], 1) == 1 && Without([1], 1) == [];
    assert Count([1, 1], 1) == 2 && Without([1, 1], 1) == [];
    assert Merged(1, b[..2], b[2]) == Op(Add, [0, 0], Secret);
    assert seq(2, j => Merged(1, b[..2], b[2])) == [Op(Add, [0, 0], Secret), Op(Add, [0, 0], Secret)];
  }

  /** An addition that lists another one twice loses one of the two: the function that quadruples its
      argument comes out doubling it. */
  lemma {:induction false} RepeatedOperandLost(n: nat, inp: nat -> Val, x: int)
    requires inp(0) == S(x)
    ensures Ordered(Doubled()) && Result(Denote(n, inp), Doubled()) == S(4 * x)
    ensures Sweep(Add, Doubled(), 0).out == DoubledSwept() && Result(Denote(n, inp), DoubledSwept()) == S(2 * x)
  {
    DoubledSweep();
    DoubledValues(n, inp, x);
  }

  lemma {:induction false} DoubledSweep()
    ensures Ordered(Doubled()) && Sweep(Add, Doubled(), 0).out == DoubledSwept()
  {
    DoubledCollapse();
    assert Ordered(DoubledSwept());
    DoubledFlat();
    OneCollapse(Add, Doubled(), 1, DoubledSwept());
  }

  lemma {:induction false} DoubledFlat()
    ensures Ordered(DoubledSwept()) && NoNest(Add, DoubledSwept(), 2)
  {}

  /** A sweep with one collapse in it, at position p. */
  lemma {:induction false} OneCollapse(kind: Head, b: Body, p: nat, c: Body)
    requires Ordered(b) && Ordered(c) && p < |b| && b[p].head == kind && forall j :: 0 <= j < p ==> b[j].head != kind
    requires Collapse(kind, b, p).out == c && NoNest(kind, c, p + 1)
    ensures Sweep(kind, b, 0).out == c
  {
    SweepSkips(kind, b, 0, p);
    SweepNext(kind, b, p);
    SweepIdle(kind, c, p + 1);
  }

  lemma {:induction false} SweepSkips(kind: Head, b: Body, i: nat, p: nat)
    requires Ordered(b) && i <= p <= |b| && forall j :: i <= j < p ==> b[j].head != kind
    ensures Sweep(kind, b, i).out == Sweep(kind, b, p).out
    decreases p - i
  {
    if i < p {
      SweepNext(kind, b, i);
      SweepSkips(kind, b, i + 1, p);
    }
  }

  lemma {:induction false} TwiceValue(n: nat, inp: nat -> Val, b: Body, k: nat, a: nat, x: int)
    requires Ordered(b) && k < |b| && b[k].head == Add && b[k].args == [a, a] && a < |b| && Run(Denote(n, inp), b)[a] == S(x)
    ensures Run(Denote(n, inp), b)[k] == S(2 * x)
  {
    RunAt(Denote(n, inp), b, k);
    var xs := Pick(Run(Denote(n, inp), b), [a, a]);
    assert xs == [S(x), S(x)] && xs[..1] == [S(x)] && xs[..1][..0] == [];
    DenoteAdd(n, inp, xs);
    assert Fold(Addition(), xs[..1]) == S(0 + x);
  }

  lemma {:induction false} ReturnedValue(n: nat, inp: nat -> Val, b: Body, k: nat, a: nat)
    requires Ordered(b) && k < |b| && b[k].head == Return && b[k].args == [a] && a < |b|
    ensures Run(Denote(n, inp), b)[k] == Run(Denote(n, inp), b)[a]
  {
    RunAt(Denote(n, inp), b, k);
    var v := Run(Denote(n, inp), b)[a];
    assert Pick(Run(Denote(n, inp), b), [a]) == [v];
    assert Denote(n, inp)(Return, [v]) == Compute(n, inp, Return, [v]);
  }

  lemma {:induction false} DoubledValues(n: nat, inp: nat -> Val, x: int)
    requires inp(0) == S(x)
    ensures Ordered(Doubled()) && Result(Denote(n, inp), Doubled()) == S(4 * x)
    ensures Ordered(DoubledSwept()) && Result(Denote(n, inp), DoubledSwept()) == S(2 * x)
  {
    var b, c := Doubled(), DoubledSwept();
    assert Ordered(b) && Ordered(c);
    ArgumentValue(n, inp, b, 0, 0);
    TwiceValue(n, inp, b, 1, 0, x);
    TwiceValue(n, inp, b, 2, 1, 2 * x);
    ReturnedValue(n, inp, b, 3, 2);
    ArgumentValue(n, inp, c, 0, 0);
    TwiceValue(n, inp, c, 4, 0, x);
    ReturnedValue(n, inp, c, 5, 4);
  }

  lemma {:induction false} ArgumentValue(n: nat, inp: nat -> Val, b: Body, k: nat, i: nat)
    requires Ordered(b) && k < |b| && b[k].head == Arg(i)
    ensures Run(Denote(n, inp), b)[k] == inp(i)
  {
    var alg := Denote(n, inp);
    RunAt(alg, b, k);
    assert alg(Arg(i), Pick(Run(alg, b), b[k].args)) == Compute(n, inp, Arg(i), Pick(Run(alg, b), b[k].args));
  }

  // ---------------------------------------------------------------- n-ary subtraction

  lemma {:induction false} FoldPlus(xs: seq<int>, ys: seq<int>)
    ensures Fold(Monoid(0, Plus()), xs + ys) == Fold(Monoid(0, Plus()), xs) + Fold(Monoid(0, Plus()), ys)
  {
    FoldConcat(Monoid(0, Plus()), xs, ys);
  }

  function Sum(xs: seq<int>): int { Fold(Monoid(0, Plus()), xs) }

  lemma {:induction false} SubCons(x: int, xs: seq<int>)
    ensures Scalar(Sub, [x] + xs) == x - Sum(xs)
  {
    assert ([x] + xs)[1..] == xs;
  }

  lemma {:induction false} SumCons(x: int, xs: seq<int>)
    ensures Sum([x] + xs) == x + Sum(xs)
  {
    FoldPlus([x], xs);
    assert [x][..0] == [];
  }

  function Repeat(x: int, m: nat): (r: seq<int>)
    ensures |r| == m && forall j :: 0 <= j < m ==> r[j] == x
  {
    seq(m, j => x)
  }

  lemma {:induction false} SumRepeat(x: int, m: nat)
    ensures Sum(Repeat(x, m)) == x * m
  {
    if m > 0 {
      SumRepeat(x, m - 1);
      assert Repeat(x, m)[..m - 1] == Repeat(x, m - 1);
    }
  }

  ghost predicate SubSplices(xs: seq<int>, zs: seq<int>, ys: seq<int>)
  {
    Scalar(Sub, xs + [Scalar(Sub, zs)] + ys) == Scalar(Sub, xs + ys + zs)
  }

  /** The difference between a nested subtraction and its spliced form. */
  lemma {:induction false} SubSpliceLater(x: int, xs: seq<int>, z: int, zs: seq<int>, ys: seq<int>)
    ensures SubSplices([x] + xs, [z] + zs, ys) <==> Sum(zs) == 0
    ensures SubSplices([x] + xs, [], ys)
  {
    var d := Scalar(Sub, [z] + zs);
    SubCons(z, zs);
    assert [x] + xs + [d] + ys == [x] + (xs + ([d] + ys));
    assert [x] + xs + ys + ([z] + zs) == [x] + (xs + ys + ([z] + zs));
    SubCons(x, xs + ([d] + ys));
    SubCons(x, xs + ys + ([z] + zs));
    FoldPlus(xs, [d] + ys);
    SumCons(d, ys);
    FoldPlus(xs, ys);
    FoldPlus(xs + ys, [z] + zs);
    SumCons(z, zs);
    var e: seq<int> := [];
    assert Scalar(Sub, e) == 0;
    assert [x] + xs + [0] + ys == [x] + (xs + ([0] + ys)) && [x] + xs + ys + e == [x] + (xs + ys);
    SubCons(x, xs + ([0] + ys));
    SubCons(x, xs + ys);
    FoldPlus(xs, [0] + ys);
    SumCons(0, ys);
  }

  lemma {:induction false} SubSpliceFirst(y: int, ys: seq<int>, zs: seq<int>)
    ensures SubSplices([], zs, [])
    ensures SubSplices([], zs, [y] + ys) <==> Scalar(Sub, zs) - y == y - Sum(zs)
  {
    SubSpliceOnly(zs);
    var d := Scalar(Sub, zs);
    var e: seq<int> := [];
    assert e + [d] + ([y] + ys) == [d] + ([y] + ys) && e + ([y] + ys) + zs == [y] + (ys + zs);
    SubCons(d, [y] + ys);
    SumCons(y, ys);
    SubCons(y, ys + zs);
    FoldPlus(ys, zs);
  }

  lemma {:induction false} SubSpliceOnly(zs: seq<int>)
    ensures SubSplices([], zs, [])
  {
    var d := Scalar(Sub, zs);
    var e: seq<int> := [];
    assert e + [d] + e == [d] + e && e + e + zs == zs;
    SubCons(d, e);
  }

  /** Splicing a nested subtraction keeps the value, for all operand values, exactly when the nested one
      is a later operand and has at most one operand itself, or is the only operand. */
  lemma {:induction false} SubSpliceExact(q: nat, c: nat, m: nat)
    ensures (forall xs: seq<int>, zs: seq<int>, ys: seq<int> :: |xs| == q && |zs| == c && |ys| == m ==> SubSplices(xs, zs, ys))
            <==> (q > 0 && c <= 1) || (q == 0 && m == 0)
  {
    if (q > 0 && c <= 1) || (q == 0 && m == 0) {
      forall xs: seq<int>, zs: seq<int>, ys: seq<int> | |xs| == q && |zs| == c && |ys| == m ensures SubSplices(xs, zs, ys) {
        SubSpliceHolds(xs, zs, ys);
      }
    } else if q > 0 {
      SubSpliceMany(q, c, m);
    } else {
      SubSpliceFront(c, m);
    }
  }

  lemma {:induction false} SubSpliceHolds(xs: seq<int>, zs: seq<int>, ys: seq<int>)
    requires (xs != [] && |zs| <= 1) || (xs == [] && ys == [])
    ensures SubSplices(xs, zs, ys)
  {
    if xs != [] {
      assert xs == [xs[0]] + xs[1..];
      if |zs| == 1 { assert zs == [zs[0]] + []; }
      SubSpliceLater(xs[0], xs[1..], if |zs| == 1 then zs[0] else 0, [], ys);
    } else {
      SubSpliceFirst(0, [], zs);
    }
  }

  /** Something before it and several operands of its own: its later operands change sign. */
  lemma {:induction false} SubSpliceMany(q: nat, c: nat, m: nat)
    requires q > 0 && c > 1
    ensures !SubSplices(Repeat(0, q), Repeat(1, c), Repeat(0, m))
    ensures |Repeat(0, q)| == q && |Repeat(1, c)| == c && |Repeat(0, m)| == m
  {
    assert Repeat(0, q) == [0] + Repeat(0, q - 1) && Repeat(1, c) == [1] + Repeat(1, c - 1);
    SumRepeat(1, c - 1);
    SubSpliceLater(0, Repeat(0, q - 1), 1, Repeat(1, c - 1), Repeat(0, m));
  }

  /** Nothing before it and something behind: the first operand behind becomes the minuend. */
  lemma {:induction false} SubSpliceFront(c: nat, m: nat)
    requires m > 0
    ensures !SubSplices(Repeat(0, 0), Repeat(0, c), Repeat(1, m))
    ensures |Repeat(0, 0)| == 0 && |Repeat(0, c)| == c && |Repeat(1, m)| == m
  {
    var zs := Repeat(0, c);
    assert Repeat(0, 0) == [] && Repeat(1, m) == [1] + Repeat(1, m - 1);
    SumRepeat(0, c);
    if c > 0 {
      assert zs == [0] + Repeat(0, c - 1);
      SubCons(0, Repeat(0, c - 1));
      SumRepeat(0, c - 1);
    }
    SubSpliceFirst(1, Repeat(1, m - 1), zs);
  }

  // ---------------------------------------------------------------- internal batching

  /** Slot j of the rotations by 0, ..., m - 1. */
  function RotationSlots(s: seq<int>, j: int, m: nat): (r: seq<int>)
    requires |s| > 0
    ensures |r| == m && forall i :: 0 <= i < m ==> r[i] == At(s, j - i)
  {
    seq(m, i requires 0 <= i => At(s, j - i))
  }

  lemma {:induction false} RotationSlotsSum(s: seq<int>, j: int, m: nat)
    requires |s| > 0
    ensures Sum(RotationSlots(s, j, m)) == RotationSum(s, j, m)
  {
    if m > 0 {
      RotationSlotsSum(s, j, m - 1);
      assert RotationSlots(s, j, m)[..m - 1] == RotationSlots(s, j, m - 1);
      assert RotationSum(s, j, m) == RotationSum(s, j, m - 1) + At(s, j + (m - 1) * -1);
    }
  }

  /** One slot of an operation on the m rotations of a vector s and on the values xs and ys of other operands,
      before and after the collapse. */
  ghost predicate CollapseKeepsSlot(h: Head, s: seq<int>, j: int, m: nat, xs: seq<int>, ys: seq<int>)
    requires Arith(h) && |s| > 0
  {
    Scalar(h, xs + RotationSlots(s, j, m) + ys) == Scalar(h, xs + ys + [Window(s, j, m)])
  }

  lemma {:induction false} CollapseTotal(s: seq<int>, j: int, m: nat, xs: seq<int>, ys: seq<int>)
    requires |s| > 0
    ensures Sum(xs + RotationSlots(s, j, m) + ys) == Sum(xs) + RotationSum(s, j, m) + Sum(ys)
    ensures Sum(xs + ys + [Window(s, j, m)]) == Sum(xs) + Sum(ys) + Window(s, j, m)
  {
    var r, w := RotationSlots(s, j, m), Window(s, j, m);
    RotationSlotsSum(s, j, m);
    FoldPlus(xs, r);
    FoldPlus(xs + r, ys);
    FoldPlus(xs, ys);
    FoldPlus(xs + ys, [w]);
    SumCons(w, []);
    assert [w] + [] == [w];
  }

  /** Additions, and subtractions from an operand that is none of the rotations. */
  lemma {:induction false} CollapseSums(h: Head, s: seq<int>, j: int, m: nat, xs: seq<int>, ys: seq<int>)
    requires |s| > 0 && (h == Add || (h == Sub && xs != []))
    ensures CollapseKeepsSlot(h, s, j, m, xs, ys) <==> Window(s, j, m) == RotationSum(s, j, m)
  {
    CollapseTotal(s, j, m, xs, ys);
    if h == Sub {
      SubByTotal(xs + RotationSlots(s, j, m) + ys);
      SubByTotal(xs + ys + [Window(s, j, m)]);
    }
  }

  /** A subtraction from one of the rotations. */
  lemma {:induction false} CollapseFirst(n: nat, m: nat, ys: seq<int>)
    requires n > 0 && m > 1 && (ys != [] ==> ys[0] == 1)
    ensures !CollapseKeepsSlot(Sub, Repeat(if ys == [] then 1 else 0, n), 0, m, [], ys)
  {
    var x := if ys == [] then 1 else 0;
    var s := Repeat(x, n);
    CollapseTotal(s, 0, m, [], ys);
    SameWindow(s, x, 0, 1, m);
    SameWindow(s, x, 0, -1, m);
    SubByTotal([] + RotationSlots(s, 0, m) + ys);
    SubByTotal([] + ys + [Window(s, 0, m)]);
  }

  lemma {:induction false} SameWindow(s: seq<int>, x: int, j: int, d: int, m: nat)
    requires |s| > 0 && forall k :: 0 <= k < |s| ==> s[k] == x
    ensures Stride(s, j, d, m) == x * m
  {
    if m > 0 { SameWindow(s, x, j, d, m - 1); }
  }

  lemma {:induction false} AllOnesProduct(xs: seq<int>)
    requires forall k :: 0 <= k < |xs| ==> xs[k] == 1
    ensures Fold(Monoid(1, Times()), xs) == 1
  {
    if xs != [] { AllOnesProduct(xs[..|xs| - 1]); }
  }

  lemma {:induction false} CollapseProduct(n: nat, m: nat, p: nat, q: nat)
    requires n > 0 && m > 1
    ensures !CollapseKeepsSlot(Mul, Repeat(1, n), 0, m, Repeat(1, p), Repeat(1, q))
  {
    var s, xs, ys := Repeat(1, n), Repeat(1, p), Repeat(1, q);
    SameWindow(s, 1, 0, 1, m);
    AllOnesProduct(xs + RotationSlots(s, 0, m) + ys);
    AllOnesProduct(xs + ys);
    assert (xs + ys + [Window(s, 0, m)])[..p + q] == xs + ys;
  }

  ghost predicate CollapseAlways(h: Head, n: nat, m: nat, p: nat, q: nat)
    requires Arith(h) && n > 0
  {
    forall s: seq<int>, j: int, xs: seq<int>, ys: seq<int> :: |s| == n && |xs| == p && |ys| == q ==> CollapseKeepsSlot(h, s, j, m, xs, ys)
  }

  /** The window sum, put last, may replace the m > 1 rotations of one vector of n slots among p operands
      before and q behind them, for all values, exactly in additions and in subtractions from another
      operand, and if m leaves remainder 0 or 1 modulo n. */
  lemma {:induction false} CollapseExact(h: Head, n: nat, m: nat, p: nat, q: nat)
    requires Arith(h) && n > 0 && m > 1
    ensures CollapseAlways(h, n, m, p, q) <==> (h == Add || (h == Sub && p > 0)) && m % n <= 1
  {
    if h == Add || (h == Sub && p > 0) {
      if m % n <= 1 { CollapseHolds(h, n, m, p, q); }
      if CollapseAlways(h, n, m, p, q) { CollapseNeeds(h, n, m, p, q); }
    } else {
      CollapseFails(h, n, m, p, q);
    }
  }

  lemma {:induction false} CollapseFails(h: Head, n: nat, m: nat, p: nat, q: nat)
    requires n > 0 && m > 1 && (h == Mul || (h == Sub && p == 0))
    ensures !CollapseAlways(h, n, m, p, q)
  {
    if h == Sub {
      var ys := Repeat(1, q);
      var s := Repeat(if ys == [] then 1 else 0, n);
      CollapseFirst(n, m, ys);
      assert |s| == n && |ys| == q && !CollapseKeepsSlot(h, s, 0, m, [], ys);
    } else {
      CollapseProduct(n, m, p, q);
      assert !CollapseKeepsSlot(h, Repeat(1, n), 0, m, Repeat(1, p), Repeat(1, q));
    }
  }

  lemma {:induction false} CollapseHolds(h: Head, n: nat, m: nat, p: nat, q: nat)
    requires n > 0 && (h == Add || (h == Sub && p > 0)) && m % n <= 1
    ensures CollapseAlways(h, n, m, p, q)
  {
    WindowsExact(n, m);
    forall s: seq<int>, j: int, xs: seq<int>, ys: seq<int> | |s| == n && |xs| == p && |ys| == q
      ensures CollapseKeepsSlot(h, s, j, m, xs, ys)
    {
      CollapseSums(h, s, j, m, xs, ys);
    }
  }

  lemma {:induction false} CollapseNeeds(h: Head, n: nat, m: nat, p: nat, q: nat)
    requires n > 0 && (h == Add || (h == Sub && p > 0)) && CollapseAlways(h, n, m, p, q)
    ensures m % n <= 1
  {
    WindowsExact(n, m);
    forall s: seq<int>, j: int | |s| == n ensures Window(s, j, m) == RotationSum(s, j, m) {
      var xs, ys := Repeat(0, p), Repeat(0, q);
      assert CollapseKeepsSlot(h, s, j, m, xs, ys);
      CollapseSums(h, s, j, m, xs, ys);
    }
  }

  // ---------------------------------------------------------------- folds

  /** All ones in vector k, zeros in the others. */
  function Marker(count: nat, k: nat, n: nat): (xs: seq<Val>)
    ensures |xs| == count && forall i :: 0 <= i < count ==> xs[i] == V(Repeat(if i == k then 1 else 0, n))
  {
    seq(count, i => V(Repeat(if i == k then 1 else 0, n)))
  }

  lemma {:induction false} RemainingAll(ix: seq<Index>)
    ensures Remaining(ix) < |ix| ==> ix[Remaining(ix)].All?
  {
    if ix != [] && !ix[0].All? { RemainingAll(ix[1..]); }
  }

  /** Slot s of the combine is slot s of operand k. */
  predicate TakesSlot(ix: seq<Index>, k: nat, xs: seq<Val>, s: nat)
    requires k < |ix|
  {
    |xs| == |ix| ==> CombineSlot(ix, xs, s) == Slot(xs[k], s)
  }

  lemma {:induction false} OwnerTakes(ix: seq<Index>, k: nat, n: nat, s: nat)
    requires k < |ix| && !ix[k].All? && s < n
    ensures (forall xs: seq<Val> :: TakesSlot(ix, k, xs, s)) <==> Owner(ix, s) == k
  {
    RemainingAll(ix);
    if Owner(ix, s) != k {
      var xs := Marker(|ix|, k, n);
      assert Slot(xs[k], s) == 1;
      assert CombineSlot(ix, xs, s) == 0;
      assert !TakesSlot(ix, k, xs, s);
    }
  }

  ghost predicate TakesAll(n: nat, ix: seq<Index>, k: nat)
    requires k < |ix|
  {
    forall xs: seq<Val>, s: nat :: s < n ==> TakesSlot(ix, k, xs, s)
  }

  /** The index list of operand k holds the slot and no list before it does. */
  predicate FirstToList(ix: seq<Index>, k: nat, s: int)
    requires k < |ix|
  {
    Lists(ix[k], s) && forall i :: 0 <= i < k ==> !Lists(ix[i], s)
  }

  lemma {:induction false} OwnerLists(ix: seq<Index>, k: nat, s: int)
    requires k < |ix|
    ensures Owner(ix, s) == k <==> FirstToList(ix, k, s)
  {
    if k > 0 {
      OwnerLists(ix[1..], k - 1, s);
      assert FirstToList(ix, k, s) <==> !Lists(ix[0], s) && FirstToList(ix[1..], k - 1, s) by {
        assert forall i :: 0 < i < k ==> ix[i] == ix[1..][i - 1];
      }
    }
  }

  /** Folding a combine to the operand its test finds is right, for all vectors, exactly when that operand
      lists every slot and no operand before it lists any. */
  lemma {:induction false} CombineFoldExact(n: nat, ix: seq<Index>)
    requires Covering(n, ix) < |ix|
    ensures TakesAll(n, ix, Covering(n, ix)) <==> forall s: nat :: s < n ==> FirstToList(ix, Covering(n, ix), s)
  {
    var k := Covering(n, ix);
    if TakesAll(n, ix, k) {
      forall s: nat | s < n ensures FirstToList(ix, k, s) {
        assert forall xs: seq<Val> :: TakesSlot(ix, k, xs, s);
        OwnerTakes(ix, k, n, s);
        OwnerLists(ix, k, s);
      }
    }
    if forall s: nat :: s < n ==> FirstToList(ix, k, s) {
      forall xs: seq<Val>, s: nat | s < n ensures TakesSlot(ix, k, xs, s) {
        OwnerLists(ix, k, s);
        OwnerTakes(ix, k, n, s);
      }
    }
  }

  /** The operands that are not constant zeros. */
  function Rest(zero: seq<bool>, ns: seq<int>): seq<int>
    requires |zero| == |ns|
  {
    if ns == [] then [] else
      var m := |ns| - 1;
      var rest := Rest(zero[..m], ns[..m]);
      if zero[m] then rest else rest + [ns[m]]
  }

  /** The values are zero where the operands are constant zeros. */
  predicate Zeroed(zero: seq<bool>, ns: seq<int>)
  {
    |zero| == |ns| && forall j :: 0 <= j < |ns| && zero[j] ==> ns[j] == 0
  }

  lemma {:induction false} RestSum(zero: seq<bool>, ns: seq<int>)
    requires Zeroed(zero, ns)
    ensures Sum(Rest(zero, ns)) == Sum(ns)
  {
    if ns != [] {
      var m := |ns| - 1;
      RestSum(zero[..m], ns[..m]);
      if !zero[m] { assert (Rest(zero[..m], ns[..m]) + [ns[m]])[..|Rest(zero[..m], ns[..m])|] == Rest(zero[..m], ns[..m]); }
    }
  }

  lemma {:induction false} RestFirst(zero: seq<bool>, ns: seq<int>)
    requires |zero| == |ns| > 0 && !zero[0]
    ensures Rest(zero, ns) != [] && Rest(zero, ns)[0] == ns[0]
  {
    if |ns| > 1 { RestFirst(zero[..|ns| - 1], ns[..|ns| - 1]); }
  }

  lemma {:induction false} SubByTotal(ns: seq<int>)
    requires ns != []
    ensures Scalar(Sub, ns) == 2 * ns[0] - Sum(ns)
  {
    assert ns == [ns[0]] + ns[1..];
    SubCons(ns[0], ns[1..]);
    SumCons(ns[0], ns[1..]);
  }

  lemma {:induction false} RestOnes(zero: seq<bool>, ns: seq<int>)
    requires |zero| == |ns| && forall j :: 0 <= j < |ns| && !zero[j] ==> ns[j] == 1
    ensures forall j :: 0 <= j < |Rest(zero, ns)| ==> Rest(zero, ns)[j] == 1
    ensures Rest(zero, ns) == [] <==> forall j :: 0 <= j < |ns| ==> zero[j]
  {
    if ns != [] {
      var m := |ns| - 1;
      RestOnes(zero[..m], ns[..m]);
      assert forall j :: 0 <= j < m ==> zero[..m][j] == zero[j];
    }
  }

  /** Which operands are constant zeros. */
  function Zeros(b: Body, args: seq<nat>): (zero: seq<bool>)
    requires Below(args, |b|)
    ensures |zero| == |args| && forall j :: 0 <= j < |args| ==> zero[j] == Neutral(b, Sub, args[j])
  {
    seq(|args|, j requires 0 <= j < |args| => Neutral(b, Sub, args[j]))
  }

  /** What the fold keeps are the values of the others. */
  lemma {:induction false} KeptRest(b: Body, args: seq<nat>, v: seq<int>)
    requires Below(args, |b|) && |v| == |b|
    ensures Pick(v, Kept(b, Sub, args)) == Rest(Zeros(b, args), Pick(v, args))
  {
    if args != [] {
      var m := |args| - 1;
      KeptRest(b, args[..m], v);
      assert Zeros(b, args)[..m] == Zeros(b, args[..m]) && Pick(v, args)[..m] == Pick(v, args[..m]);
    }
  }

  /** Values that hold 0 for every constant zero. */
  ghost predicate ZerosHold(b: Body, v: seq<int>)
  {
    |v| == |b| && forall a :: 0 <= a < |b| && Neutral(b, Sub, a) ==> v[a] == 0
  }

  function ZerosAndOnes(b: Body): (v: seq<int>)
    ensures |v| == |b| && forall a :: 0 <= a < |b| ==> v[a] == if Neutral(b, Sub, a) then 0 else 1
  {
    seq(|b|, a requires 0 <= a < |b| => if Neutral(b, Sub, a) then 0 else 1)
  }

  lemma {:induction false} KeptSubtracts(b: Body, args: seq<nat>, v: seq<int>)
    requires Below(args, |b|) && args != [] && ZerosHold(b, v) && !Neutral(b, Sub, args[0])
    ensures Scalar(Sub, Pick(v, Kept(b, Sub, args))) == Scalar(Sub, Pick(v, args))
  {
    var zero, ns := Zeros(b, args), Pick(v, args);
    KeptRest(b, args, v);
    assert Zeroed(zero, ns);
    RestSum(zero, ns);
    RestFirst(zero, ns);
    SubByTotal(ns);
    SubByTotal(Rest(zero, ns));
  }

  lemma {:induction false} KeptDiffers(b: Body, args: seq<nat>)
    requires Below(args, |b|) && Kept(b, Sub, args) != [] && args != [] && Neutral(b, Sub, args[0])
    ensures var v := ZerosAndOnes(b);
      ZerosHold(b, v) && Scalar(Sub, Pick(v, Kept(b, Sub, args))) != Scalar(Sub, Pick(v, args))
  {
    var v := ZerosAndOnes(b);
    var zero, ns := Zeros(b, args), Pick(v, args);
    KeptRest(b, args, v);
    assert Zeroed(zero, ns);
    RestSum(zero, ns);
    RestOnes(zero, ns);
    SubByTotal(ns);
    SubByTotal(Rest(zero, ns));
  }

  /** Dropping the constant zeros of a subtraction that has other operands too is right, for all values, exactly
      when its first operand is not one of them. */
  lemma {:induction false} SubFoldExact(b: Body, args: seq<nat>)
    requires Below(args, |b|) && args != [] && Kept(b, Sub, args) != []
    ensures (forall v: seq<int> :: ZerosHold(b, v) ==> Scalar(Sub, Pick(v, Kept(b, Sub, args))) == Scalar(Sub, Pick(v, args)))
            <==> !Neutral(b, Sub, args[0])
  {
    if Neutral(b, Sub, args[0]) {
      KeptDiffers(b, args);
    } else {
      forall v: seq<int> | ZerosHold(b, v) ensures Scalar(Sub, Pick(v, Kept(b, Sub, args))) == Scalar(Sub, Pick(v, args)) {
        KeptSubtracts(b, args, v);
      }
    }
  }
}
