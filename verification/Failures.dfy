/** Functions that a pass does not keep: one for each pass that changes values. */
module Failures {
  import opened Ir
  import opened Walk
  import opened Meaning
  import opened Folding
  import opened Nary
  import opened Unnested
  import opened Limits
  import Internal
  import Ladder

  // ---------------------------------------------------------------- walks with one change

  function Numbers(k: nat): (r: seq<nat>)
    ensures |r| == k && forall j :: 0 <= j < k ==> r[j] == j
  {
    seq(k, j => j)
  }

  /** The visit leaves operation k as it is. */
  predicate Idle(step: Step, b: Body, k: nat)
    requires k < |b|
  {
    step(k, b[..k], b[k]) == Emit([b[k]], k)
  }

  lemma {:induction false} IdlePrefix(step: Step, b: Body, k: nat)
    requires Ordered(b) && k <= |b| && forall j :: 0 <= j < k ==> Idle(step, b, j)
    ensures Before(step, b, k) == Walked(b[..k], Numbers(k))
  {
    if k > 0 {
      var m := k - 1;
      IdlePrefix(step, b, m);
      BeforeNext(step, b, m);
      assert Idle(step, b, m);
      assert Renamed(b[m], Numbers(m)).args == b[m].args;
      assert b[..k] == b[..m] + [b[m]] && Numbers(k) == Numbers(m) + [m];
    }
  }

  /** A function of p + 2 operations that returns operation p, the only one the walk changes. */
  lemma {:induction false} OneRewrite(step: Step, b: Body, p: nat, e: Emit)
    requires Ordered(b) && |b| == p + 2 && b[p + 1].args == [p] && e.res < p + |e.ops|
    requires forall j :: 0 <= j < p ==> Idle(step, b, j)
    requires step(p, b[..p], b[p]) == e
    requires var out, last := b[..p] + e.ops, b[p + 1].(args := [e.res]); step(p + 1, out, last) == Emit([last], |out|)
    ensures Apply(step, b).out == b[..p] + e.ops + [b[p + 1].(args := [e.res])]
  {
    IdlePrefix(step, b, p);
    BeforeNext(step, b, p);
    BeforeNext(step, b, p + 1);
    assert Renamed(b[p], Numbers(p)).args == b[p].args;
    assert (Numbers(p) + [e.res])[p] == e.res;
    assert Renamed(b[p + 1], Numbers(p) + [e.res]) == b[p + 1].(args := [e.res]);
  }

  /** Arithmetic on scalars, in a function. */
  lemma {:induction false} ScalarAt(n: nat, inp: nat -> Val, b: Body, k: nat, ns: seq<int>)
    requires Ordered(b) && k < |b| && Arith(b[k].head) && |ns| == |b[k].args| && Below(b[k].args, |b|)
    requires forall j :: 0 <= j < |ns| ==> Run(Denote(n, inp), b)[b[k].args[j]] == S(ns[j])
    ensures Run(Denote(n, inp), b)[k] == S(Scalar(b[k].head, ns))
  {
    RunAt(Denote(n, inp), b, k);
    var xs := Pick(Run(Denote(n, inp), b), b[k].args);
    ArithScalars(n, inp, b[k].head, xs);
    assert Slots(xs, 0) == ns;
  }

  lemma {:induction false} SubTwo(x: int, y: int)
    ensures Scalar(Sub, [x, y]) == x - y
  {
    SubCons(x, [y]);
    SumCons(y, []);
    assert [x] + [y] == [x, y] && [y] + [] == [y];
  }

  lemma {:induction false} SubThree(x: int, y: int, z: int)
    ensures Scalar(Sub, [x, y, z]) == x - y - z
  {
    SubCons(x, [y, z]);
    SumCons(y, [z]);
    SumCons(z, []);
    assert [x] + [y, z] == [x, y, z] && [y] + [z] == [y, z] && [z] + [] == [z];
  }

  // ---------------------------------------------------------------- flattening a subtraction

  /** (x, y, z) => x - (y - z) */
  function Nested(): Body
  {
    [Op(Arg(0), [], Secret), Op(Arg(1), [], Secret), Op(Arg(2), [], Secret),
     Op(Sub, [1, 2], Secret), Op(Sub, [0, 3], Secret), Op(Return, [4], Secret)]
  }

  function NestedSwept(): Body
  {
    [Op(Arg(0), [], Secret), Op(Arg(1), [], Secret), Op(Arg(2), [], Secret),
     Op(Sub, [1, 2], Secret), Op(Sub, [0, 3], Secret), Op(Sub, [0, 1, 2], Secret), Op(Return, [5], Secret)]
  }

  lemma {:induction false} NestedMerge()
    ensures CollapseVisit(Sub, 3, Nested()[..4], Nested()[4]) == Emit([Nested()[4], Op(Sub, [0, 1, 2], Secret)], 5)
  {
    var b := Nested();
    OneOfTwo(0, 3);
    assert Merged(3, b[..4], b[4]) == Op(Sub, [0, 1, 2], Secret);
    assert seq(1, j => Merged(3, b[..4], b[4])) == [Op(Sub, [0, 1, 2], Secret)];
  }

  lemma {:induction false} OneOfTwo(a: nat, p: nat)
    requires a != p
    ensures Count([a, p], p) == 1 && Without([a, p], p) == [a]
  {
    assert [a, p][..1] == [a] && [a][..0] == [];
    assert Count([a], p) == 0 && Without([a], p) == [a];
  }

  lemma {:induction false} NestedCollapse()
    ensures Ordered(Nested()) && Collapse(Sub, Nested(), 3).out == NestedSwept()
  {
    var b, step := Nested(), CollapseStep(Sub, 3);
    NestedMerge();
    forall j | 0 <= j < 4 ensures Idle(step, b, j) {}
    OneRewrite(step, b, 4, Emit([b[4], Op(Sub, [0, 1, 2], Secret)], 5));
  }

  lemma {:induction false} NestedSweep()
    ensures Ordered(Nested()) && Ordered(NestedSwept()) && Sweep(Sub, Nested(), 0).out == NestedSwept()
  {
    NestedCollapse();
    assert Ordered(NestedSwept());
    OneCollapse(Sub, Nested(), 3, NestedSwept());
  }

  /** The sweep over the subtractions turns x - (y - z) into x - y - z. */
  lemma {:induction false} NestedSubtractionChanged(n: nat, inp: nat -> Val, x: int, y: int, z: int)
    requires inp(0) == S(x) && inp(1) == S(y) && inp(2) == S(z)
    ensures Ordered(Nested()) && Result(Denote(n, inp), Nested()) == S(x - (y - z))
    ensures Sweep(Sub, Nested(), 0).out == NestedSwept() && Ordered(NestedSwept())
    ensures Result(Denote(n, inp), NestedSwept()) == S(x - y - z)
  {
    NestedSweep();
    NestedValue(n, inp, Nested(), x, y, z);
    ThreeSubtracted(n, inp, NestedSwept(), x, y, z);
  }

  lemma {:induction false} NestedValue(n: nat, inp: nat -> Val, b: Body, x: int, y: int, z: int)
    requires inp(0) == S(x) && inp(1) == S(y) && inp(2) == S(z) && Ordered(b) && |b| == 6
    requires b[0].head == Arg(0) && b[1].head == Arg(1) && b[2].head == Arg(2) && b[3].head == Sub && b[3].args == [1, 2]
    requires b[4].head == Sub && b[4].args == [0, 3] && b[5].head == Return && b[5].args == [4]
    ensures Result(Denote(n, inp), b) == S(x - (y - z))
  {
    ArgumentValue(n, inp, b, 0, 0);
    ArgumentValue(n, inp, b, 1, 1);
    ArgumentValue(n, inp, b, 2, 2);
    ScalarAt(n, inp, b, 3, [y, z]);
    SubTwo(y, z);
    ScalarAt(n, inp, b, 4, [x, y - z]);
    SubTwo(x, y - z);
    ReturnedValue(n, inp, b, 5, 4);
  }

  lemma {:induction false} ThreeSubtracted(n: nat, inp: nat -> Val, b: Body, x: int, y: int, z: int)
    requires inp(0) == S(x) && inp(1) == S(y) && inp(2) == S(z) && Ordered(b) && |b| == 7
    requires b[0].head == Arg(0) && b[1].head == Arg(1) && b[2].head == Arg(2)
    requires b[5].head == Sub && b[5].args == [0, 1, 2] && b[6].head == Return && b[6].args == [5]
    ensures Result(Denote(n, inp), b) == S(x - y - z)
  {
    ArgumentValue(n, inp, b, 0, 0);
    ArgumentValue(n, inp, b, 1, 1);
    ArgumentValue(n, inp, b, 2, 2);
    ScalarAt(n, inp, b, 5, [x, y, z]);
    SubThree(x, y, z);
    ReturnedValue(n, inp, b, 6, 5);
  }

  // ---------------------------------------------------------------- folding a subtraction

  /** x => 0 - x */
  function Negated(): Body
  {
    [Op(Arg(0), [], Secret), Op(Const(0), [], Secret), Op(Sub, [1, 0], Secret), Op(Return, [2], Secret)]
  }

  function NegatedFolded(): Body { [Op(Arg(0), [], Secret), Op(Const(0), [], Secret), Op(Return, [0], Secret)] }

  lemma {:induction false} NegatedFold(n: nat)
    ensures Ordered(Negated()) && FoldAll(n, Negated()).out == NegatedFolded()
  {
    var b, step := Negated(), FoldStep(n);
    assert [1, 0][..1] == [1] && [1][..0] == [];
    assert Kept(b[..2], Sub, [1]) == [] && Kept(b[..2], Sub, [1, 0]) == [0];
    NegatedIdle(n);
    OneRewrite(step, b, 2, Emit([], 0));
    assert b[..2] + [] + [Op(Return, [0], Secret)] == NegatedFolded();
  }

  lemma {:induction false} NegatedIdle(n: nat)
    ensures Ordered(Negated()) && forall j :: 0 <= j < 2 ==> Idle(FoldStep(n), Negated(), j)
  {
    forall j | 0 <= j < 2 ensures Idle(FoldStep(n), Negated(), j) {}
  }

  /** Folding turns 0 - x into x. */
  lemma {:induction false} LeadingZeroLost(n: nat, inp: nat -> Val, x: int)
    requires inp(0) == S(x)
    ensures Ordered(Negated()) && Result(Denote(n, inp), Negated()) == S(-x)
    ensures FoldAll(n, Negated()).out == NegatedFolded() && Ordered(NegatedFolded())
    ensures Result(Denote(n, inp), NegatedFolded()) == S(x)
  {
    var b, c := Negated(), NegatedFolded();
    NegatedFold(n);
    assert Ordered(c);
    ArgumentValue(n, inp, b, 0, 0);
    ConstantValue(n, inp, b, 1, 0);
    ScalarAt(n, inp, b, 2, [0, x]);
    SubTwo(0, x);
    ReturnedValue(n, inp, b, 3, 2);
    ArgumentValue(n, inp, c, 0, 0);
    ReturnedValue(n, inp, c, 2, 0);
  }

  lemma {:induction false} ConstantValue(n: nat, inp: nat -> Val, b: Body, k: nat, c: int)
    requires Ordered(b) && k < |b| && b[k].head == Const(c)
    ensures Run(Denote(n, inp), b)[k] == S(c)
  {
    var alg := Denote(n, inp);
    RunAt(alg, b, k);
    assert alg(Const(c), Pick(Run(alg, b), b[k].args)) == Compute(n, inp, Const(c), Pick(Run(alg, b), b[k].args));
  }

  // ---------------------------------------------------------------- folding a combine

  /** (x, y) => slot 0 of x, listed twice, and slot 1 of y */
  function Repeated(): Body
  {
    [Op(Arg(0), [], Batched), Op(Arg(1), [], Batched), Op(Combine([Many([0, 0]), All]), [0, 1], Batched), Op(Return, [2], Batched)]
  }

  function RepeatedFolded(): Body { [Op(Arg(0), [], Batched), Op(Arg(1), [], Batched), Op(Return, [0], Batched)] }

  lemma {:induction false} RepeatedFold()
    ensures Ordered(Repeated()) && FoldAll(2, Repeated()).out == RepeatedFolded()
  {
    var b, step := Repeated(), FoldStep(2);
    assert Covering(2, [Many([0, 0]), All]) == 0;
    forall j | 0 <= j < 2 ensures Idle(step, b, j) {}
    OneRewrite(step, b, 2, Emit([], 0));
    assert b[..2] + [] + [Op(Return, [0], Batched)] == RepeatedFolded();
  }

  /** Folding takes a list of the right length that begins with 0 for all slots. */
  lemma {:induction false} RepeatedSlotLost(inp: nat -> Val, x: seq<int>, y: seq<int>)
    requires |x| == |y| == 2 && inp(0) == V(x) && inp(1) == V(y)
    ensures Ordered(Repeated()) && Result(Denote(2, inp), Repeated()) == V([x[0], y[1]])
    ensures FoldAll(2, Repeated()).out == RepeatedFolded() && Ordered(RepeatedFolded())
    ensures Result(Denote(2, inp), RepeatedFolded()) == V(x)
  {
    var b, c := Repeated(), RepeatedFolded();
    RepeatedFold();
    assert Ordered(c);
    ArgumentValue(2, inp, b, 0, 0);
    ArgumentValue(2, inp, b, 1, 1);
    RepeatedCombined(inp, b, x, y);
    ReturnedValue(2, inp, b, 3, 2);
    ArgumentValue(2, inp, c, 0, 0);
    ReturnedValue(2, inp, c, 2, 0);
  }

  lemma {:induction false} RepeatedCombined(inp: nat -> Val, b: Body, x: seq<int>, y: seq<int>)
    requires |x| == |y| == 2 && Ordered(b) && b == Repeated()
    requires Run(Denote(2, inp), b)[0] == V(x) && Run(Denote(2, inp), b)[1] == V(y)
    ensures Run(Denote(2, inp), b)[2] == V([x[0], y[1]])
  {
    var alg, ix, xs := Denote(2, inp), [Many([0, 0]), All], [V(x), V(y)];
    RunAt(alg, b, 2);
    assert Pick(Run(alg, b), [0, 1]) == xs;
    assert alg(Combine(ix), xs) == Compute(2, inp, Combine(ix), xs);
    assert ix[1..] == [All] && [All][1..] == [];
    assert Owner(ix, 0) == 0 && Owner(ix, 1) == 2 && Remaining(ix) == 1;
    assert CombineSlot(ix, xs, 0) == x[0] && CombineSlot(ix, xs, 1) == y[1];
    assert seq(2, j requires 0 <= j => CombineSlot(ix, xs, j)) == [x[0], y[1]];
  }

  // ---------------------------------------------------------------- batching inside a product or a difference

  /** x => x h rotate(x, 1), on vectors of two slots */
  function Turned(h: Head): Body
  {
    [Op(Arg(0), [], Batched), Op(Rotate(1), [0], Batched), Op(h, [0, 1], Batched), Op(Return, [2], Batched)]
  }

  function TurnedSummed(h: Head): Body
  {
    [Op(Arg(0), [], Batched), Op(Rotate(1), [0], Batched), Op(Rotate(-1), [0], Batched), Op(Add, [0, 2], Batched),
     Op(h, [3], Batched), Op(Return, [4], Batched)]
  }

  lemma {:induction false} TurnedUses(h: Head)
    ensures var out := Turned(h)[..2];
      && Internal.Uses(out, [0, 1], 0) == [0, 1] && Internal.Collapsible(out, [0, 1], 0)
      && forall p :: 0 <= p < 2 ==> Internal.Origin(out, [0, 1][p]) == 0
  {
    var out := Turned(h)[..2];
    assert [0, 1][..1] == [0] && [0][..0] == [];
    assert Internal.Uses(out, [0], 0) == [0] && Internal.Uses(out, [0, 1], 0) == [0, 1];
    assert Internal.Sort([0]) == [0] && Internal.Sort([0, 1]) == [0, 1] by {
      assert Internal.InsertSorted(0, []) == [0];
      assert [0][1..] == [] && Internal.InsertSorted(1, []) == [1] && Internal.InsertSorted(1, [0]) == [0, 1];
    }
    assert Internal.PowerOfTwo(2);
  }

  lemma {:induction false} TurnedHalve(out: Body)
    requires |out| == 2
    ensures Internal.Halve(out, 0, 1) == Internal.Chain(out + [Op(Rotate(-1), [0], Batched)] + [Op(Add, [0, 2], Batched)], 3)
  {}

  lemma {:induction false} TurnedVisit(h: Head)
    requires Arith(h)
    ensures Internal.InternalVisit(Turned(h)[..2], Turned(h)[2])
         == Emit([Op(Rotate(-1), [0], Batched), Op(Add, [0, 2], Batched), Op(h, [3], Batched)], 4)
  {
    var out, op := Turned(h)[..2], Turned(h)[2];
    TurnedUses(h);
    TurnedHalve(out);
    Ladder.ReduceEmits(out, op, 0, Internal.Halve(out, 0, 1));
    SameTail(out, Internal.InternalVisit(out, op).ops, Op(Rotate(-1), [0], Batched), Op(Add, [0, 2], Batched), Op(h, [3], Batched));
  }

  lemma {:induction false} SameTail<T>(s: seq<T>, t: seq<T>, x: T, y: T, z: T)
    requires s + t == s + [x] + [y] + [z]
    ensures t == [x, y, z]
  {
    assert t == (s + t)[|s|..];
  }

  lemma {:induction false} TurnedBatched(h: Head)
    requires Arith(h)
    ensures Ordered(Turned(h)) && Internal.InternalBatch(Turned(h)).out == TurnedSummed(h)
  {
    var b, step := Turned(h), Internal.InternalStep();
    TurnedVisit(h);
    TurnedIdle(h);
    var e := Emit([Op(Rotate(-1), [0], Batched), Op(Add, [0, 2], Batched), Op(h, [3], Batched)], 4);
    assert b[..2] + e.ops + [Op(Return, [4], Batched)] == TurnedSummed(h);
    assert step(2, b[..2], b[2]) == e;
    OneRewrite(step, b, 2, e);
  }

  lemma {:induction false} TurnedIdle(h: Head)
    ensures Ordered(Turned(h)) && forall j :: 0 <= j < 2 ==> Idle(Internal.InternalStep(), Turned(h), j)
  {
    forall j | 0 <= j < 2 ensures Idle(Internal.InternalStep(), Turned(h), j) {}
  }

  lemma {:induction false} VectorAt(n: nat, inp: nat -> Val, b: Body, k: nat, xs: seq<Val>)
    requires Ordered(b) && k < |b| && Arith(b[k].head) && Pick(Run(Denote(n, inp), b), b[k].args) == xs
    requires AllFit(n, xs) && xs != [] && xs[0].V?
    ensures var r := Run(Denote(n, inp), b)[k];
      r.V? && |r.s| == n && forall j :: 0 <= j < n ==> r.s[j] == Scalar(b[k].head, Slots(xs, j))
  {
    RunAt(Denote(n, inp), b, k);
    ArithSlots(n, inp, b[k].head, xs);
    var r := Run(Denote(n, inp), b)[k];
    forall j | 0 <= j < n ensures r.s[j] == Scalar(b[k].head, Slots(xs, j)) { assert Slot(r, j) == r.s[j]; }
  }

  lemma {:induction false} RotatedAt(n: nat, inp: nat -> Val, b: Body, k: nat, s: seq<int>)
    requires Ordered(b) && k < |b| && b[k].head.Rotate? && b[k].args == [0] && Run(Denote(n, inp), b)[0] == V(s)
    ensures Run(Denote(n, inp), b)[k] == V(Rot(s, b[k].head.off))
  {
    RunAt(Denote(n, inp), b, k);
    assert Pick(Run(Denote(n, inp), b), [0]) == [V(s)];
    RotateValue(n, inp, b[k].head.off, s);
  }

  lemma {:induction false} ScalarOne(h: Head, x: int)
    requires Arith(h)
    ensures Scalar(h, [x]) == x
  {
    SubCons(x, []);
    SumCons(x, []);
    assert [x] + [] == [x] && [x][..0] == [] && Sum([]) == 0;
    if h.Mul? { assert Fold(Monoid(1, Times()), [x]) == Times()(1, x) == 1 * x; }
  }

  lemma {:induction false} AddTwo(x: int, y: int)
    ensures Scalar(Add, [x, y]) == x + y
  {
    SumCons(x, [y]);
    SumCons(y, []);
    assert [x] + [y] == [x, y] && [y] + [] == [y];
  }

  lemma {:induction false} RotatedTwo(x: int, y: int)
    ensures Rot([x, y], 1) == [y, x] && Rot([x, y], -1) == [y, x]
  {}

  /** An operation on a vector of two slots and its rotation. */
  lemma {:induction false} PairAt(inp: nat -> Val, b: Body, k: nat, i: nat, x: int, y: int)
    requires Ordered(b) && i < |b| && k < |b| && Arith(b[k].head) && b[k].args == [0, i]
    requires Run(Denote(2, inp), b)[0] == V([x, y]) && Run(Denote(2, inp), b)[i] == V([y, x])
    ensures Run(Denote(2, inp), b)[k] == V([Scalar(b[k].head, [x, y]), Scalar(b[k].head, [y, x])])
  {
    var xs := [V([x, y]), V([y, x])];
    assert Pick(Run(Denote(2, inp), b), [0, i]) == xs;
    VectorAt(2, inp, b, k, xs);
    assert Slots(xs, 0) == [x, y] && Slots(xs, 1) == [y, x];
    var r := Run(Denote(2, inp), b)[k];
    assert r.s == [r.s[0], r.s[1]];
  }

  /** An operation on a single vector. */
  lemma {:induction false} AloneAt(inp: nat -> Val, b: Body, k: nat, i: nat, x: int)
    requires Ordered(b) && i < |b| && k < |b| && Arith(b[k].head) && b[k].args == [i]
    requires Run(Denote(2, inp), b)[i] == V([x, x])
    ensures Run(Denote(2, inp), b)[k] == V([x, x])
  {
    var xs := [V([x, x])];
    assert Pick(Run(Denote(2, inp), b), [i]) == xs;
    VectorAt(2, inp, b, k, xs);
    assert Slots(xs, 0) == [x] && Slots(xs, 1) == [x];
    ScalarOne(b[k].head, x);
    var r := Run(Denote(2, inp), b)[k];
    assert r.s == [r.s[0], r.s[1]];
  }

  lemma {:induction false} TurnedValue(h: Head, inp: nat -> Val, x: int, y: int)
    requires Arith(h) && inp(0) == V([x, y])
    ensures Ordered(Turned(h)) && Result(Denote(2, inp), Turned(h)) == V([Scalar(h, [x, y]), Scalar(h, [y, x])])
  {
    var b, s := Turned(h), [x, y];
    ArgumentValue(2, inp, b, 0, 0);
    RotatedAt(2, inp, b, 1, s);
    RotatedTwo(x, y);
    PairAt(inp, b, 2, 1, x, y);
    ReturnedValue(2, inp, b, 3, 2);
  }

  lemma {:induction false} SummedAt(inp: nat -> Val, b: Body, x: int, y: int)
    requires inp(0) == V([x, y]) && Ordered(b) && |b| > 3 && b[0].head == Arg(0)
    requires b[2].head == Rotate(-1) && b[2].args == [0] && b[3].head == Add && b[3].args == [0, 2]
    ensures Run(Denote(2, inp), b)[3] == V([x + y, x + y])
  {
    TurnedBack(inp, b, x, y);
    PairAt(inp, b, 3, 2, x, y);
    SumBoth(x, y);
  }

  lemma {:induction false} TurnedBack(inp: nat -> Val, b: Body, x: int, y: int)
    requires inp(0) == V([x, y]) && Ordered(b) && |b| > 3 && b[0].head == Arg(0) && b[2].head == Rotate(-1) && b[2].args == [0]
    ensures Run(Denote(2, inp), b)[0] == V([x, y]) && Run(Denote(2, inp), b)[2] == V([y, x])
  {
    ArgumentValue(2, inp, b, 0, 0);
    RotatedAt(2, inp, b, 2, [x, y]);
    RotatedTwo(x, y);
  }

  lemma {:induction false} SumBoth(x: int, y: int)
    ensures [Scalar(Add, [x, y]), Scalar(Add, [y, x])] == [x + y, x + y]
  {
    AddTwo(x, y);
    AddTwo(y, x);
  }

  lemma {:induction false} SummedResult(inp: nat -> Val, b: Body, k: nat, s: int)
    requires Ordered(b) && |b| == k + 3 && Run(Denote(2, inp), b)[k] == V([s, s])
    requires Arith(b[k + 1].head) && b[k + 1].args == [k] && b[k + 2].head == Return && b[k + 2].args == [k + 1]
    ensures Result(Denote(2, inp), b) == V([s, s])
  {
    AloneAt(inp, b, k + 1, k, s);
    ReturnedValue(2, inp, b, k + 2, k + 1);
  }

  lemma {:induction false} TurnedSummedValue(h: Head, inp: nat -> Val, x: int, y: int)
    requires Arith(h) && inp(0) == V([x, y])
    ensures Ordered(TurnedSummed(h)) && Result(Denote(2, inp), TurnedSummed(h)) == V([x + y, x + y])
  {
    SummedAt(inp, TurnedSummed(h), x, y);
    SummedResult(inp, TurnedSummed(h), 3, x + y);
  }

  /** Batching inside the operands makes a sum of every operation on all rotations of a vector: right for an
      addition, wrong for a product and for a difference. */
  lemma {:induction false} EverythingSummed(h: Head, inp: nat -> Val, x: int, y: int)
    requires Arith(h) && inp(0) == V([x, y])
    ensures Ordered(Turned(h)) && Result(Denote(2, inp), Turned(h)) == V([Scalar(h, [x, y]), Scalar(h, [y, x])])
    ensures Internal.InternalBatch(Turned(h)).out == TurnedSummed(h) && Ordered(TurnedSummed(h))
    ensures Result(Denote(2, inp), TurnedSummed(h)) == V([x + y, x + y])
  {
    TurnedBatched(h);
    TurnedValue(h, inp, x, y);
    TurnedSummedValue(h, inp, x, y);
  }
}
