/** The two programs the headline theorems are for, as the unrolled loops they come from. */
module Loops {
  import opened Ir
  import opened Terms
  import opened Sums
  import opened Windows
  import opened DotProduct
  import opened VectorLoop
  import opened Counting
  import opened Meaning
  import Batching
  import Elementwise
  import Nary
  import Pipeline

  /** Read slot i of both vectors and combine. */
  function Front(h: Head, i: nat, b: Body): Body
  {
    b + [Op(Extract(i), [0], Secret)] + [Op(Extract(i), [1], Secret)] + [Op(h, [|b|, |b| + 1], Secret)]
  }

  /** Update the running value, which is the last one before the round: acc = acc + x[i] * y[i], or
      out[i] = x[i] op y[i]. */
  function Update(dot: bool, i: nat, l: nat): Op
    requires l > 0
  {
    if dot then Op(Add, [l - 1, l + 2], Secret) else Op(Insert(i), [l + 2, l - 1], Batched)
  }

  function Round(dot: bool, h: Head, i: nat, b: Body): Body
    requires b != []
  {
    Front(h, i, b) + [Update(dot, i, |b|)]
  }

  function Start(dot: bool): Body
  {
    [Op(Arg(0), [], Batched)] + [Op(Arg(1), [], Batched)] + [if dot then Op(Const(0), [], Secret) else Op(Arg(2), [], Batched)]
  }

  function Unrolled(dot: bool, h: Head, m: nat): (b: Body)
    ensures |b| == 3 + 4 * m
  {
    if m == 0 then Start(dot) else Round(dot, h, m - 1, Unrolled(dot, h, m - 1))
  }

  function Program(dot: bool, h: Head, n: nat): Body
  {
    Unrolled(dot, h, n) + [Op(Return, [2 + 4 * n], if dot then Secret else Batched)]
  }

  function DotProgram(n: nat): Body { Program(true, Mul, n) }
  function ElementwiseProgram(h: Head, n: nat): Body { Program(false, h, n) }

  /** ((0 + x[0] * y[0]) + x[1] * y[1]) + ..., or the overwritten third parameter. */
  function Running(dot: bool, h: Head, m: nat): Term
    requires dot ==> h == Mul
  {
    if !dot then Elementwise.Inserted(h, 2, m)
    else if m == 0 then Zero()
    else Node(Add, [Running(dot, h, m - 1), Product(m - 1)])
  }

  function Inputs0(dot: bool, n: nat): Signature { if dot then TwoVectors(n) else Elementwise.ThreeVectors(n) }

  ghost predicate Unrolling(dot: bool, h: Head, n: nat, m: nat, b: Body)
  {
    && Arith(h) && (dot ==> h == Mul)
    && WellTyped(Inputs0(dot, n), b) && Ordered(b) && |b| == 3 + 4 * m
    && b[0].ty == Batched && b[1].ty == Batched && b[|b| - 1].ty == (if dot then Secret else Batched)
    && Run(Unfold(), b)[0] == X() && Run(Unfold(), b)[1] == Y() && Run(Unfold(), b)[|b| - 1] == Running(dot, h, m)
  }

  lemma {:induction false} AppendOne(g: Signature, b: Body, op: Op)
    requires WellTyped(g, b) && Ordered(b) && OpOk(g, b, op)
    ensures WellTyped(g, b + [op]) && Ordered(b + [op])
    ensures Run(Unfold(), b + [op]) == Run(Unfold(), b) + [Node(op.head, Pick(Run(Unfold(), b), op.args))]
  {
    TypedAppend(g, b, op);
    RunAppend(Unfold(), b, op);
  }

  lemma {:induction false} TwoParameters(g: Signature)
    requires |g.params| >= 2 && g.params[0] == g.params[1] == Batched
    ensures var b := [Op(Arg(0), [], Batched)] + [Op(Arg(1), [], Batched)];
      WellTyped(g, b) && Ordered(b) && Run(Unfold(), b) == [X(), Y()]
  {
    var x := Op(Arg(0), [], Batched);
    AppendOne(g, [], x);
    assert [] + [x] == [x];
    AppendOne(g, [x], Op(Arg(1), [], Batched));
  }

  lemma {:induction false} UnrollingStart(dot: bool, h: Head, n: nat)
    requires Arith(h) && (dot ==> h == Mul)
    ensures Unrolling(dot, h, n, 0, Unrolled(dot, h, 0))
  {
    var b := [Op(Arg(0), [], Batched)] + [Op(Arg(1), [], Batched)];
    TwoParameters(Inputs0(dot, n));
    if dot { AppendOne(TwoVectors(n), b, Op(Const(0), [], Secret)); } else { AppendOne(Elementwise.ThreeVectors(n), b, Op(Arg(2), [], Batched)); }
  }

  lemma {:induction false} RoundReads(g: Signature, b: Body, i: nat)
    requires WellTyped(g, b) && Ordered(b) && |b| >= 2 && b[0].ty == Batched && b[1].ty == Batched && i < g.n
    requires Run(Unfold(), b)[0] == X() && Run(Unfold(), b)[1] == Y()
    ensures var c := b + [Op(Extract(i), [0], Secret)] + [Op(Extract(i), [1], Secret)];
      && WellTyped(g, c) && Ordered(c)
      && Run(Unfold(), c) == Run(Unfold(), b) + [Node(Extract(i), [X()])] + [Node(Extract(i), [Y()])]
  {
    var t, e := Run(Unfold(), b), Op(Extract(i), [0], Secret);
    AppendOne(g, b, e);
    AppendOne(g, b + [e], Op(Extract(i), [1], Secret));
    assert Pick(t, [0]) == [X()];
    assert Pick(t + [Node(Extract(i), [X()])], [1]) == [Y()];
  }

  lemma {:induction false} ArithOk(b: Body, args: seq<nat>)
    requires Below(args, |b|) && args != [] && forall j :: 0 <= j < |args| ==> b[args[j]].ty == Secret
    ensures SomeOperand(b, args, Secret) && InferTy(b, args) == Secret
  {
    assert b[args[0]].ty == Secret;
  }

  lemma {:induction false} RoundOp(g: Signature, h: Head, c: Body, l: nat, i: int)
    requires Arith(h) && WellTyped(g, c) && Ordered(c) && |c| == l + 2 && c[l].ty == Secret && c[l + 1].ty == Secret
    requires var t := Run(Unfold(), c); t[l] == Node(Extract(i), [X()]) && t[l + 1] == Node(Extract(i), [Y()])
    ensures var d := c + [Op(h, [l, l + 1], Secret)];
      WellTyped(g, d) && Ordered(d) && Run(Unfold(), d) == Run(Unfold(), c) + [Elementwise.Slotwise(h, i)]
  {
    ArithOk(c, [l, l + 1]);
    AppendOne(g, c, Op(h, [l, l + 1], Secret));
    assert Pick(Run(Unfold(), c), [l, l + 1]) == [Node(Extract(i), [X()]), Node(Extract(i), [Y()])];
  }

  lemma {:induction false} RoundUpdate(dot: bool, h: Head, n: nat, d: Body, l: nat, m: nat)
    requires Arith(h) && (dot ==> h == Mul) && WellTyped(Inputs0(dot, n), d) && Ordered(d) && l > 0 && |d| == l + 3 && m < n
    requires d[l + 2].ty == Secret && d[l - 1].ty == (if dot then Secret else Batched)
    requires var t := Run(Unfold(), d); t[l - 1] == Running(dot, h, m) && t[l + 2] == Elementwise.Slotwise(h, m)
    ensures var op := Update(dot, m, l);
      && WellTyped(Inputs0(dot, n), d + [op]) && Ordered(d + [op]) && op.ty == d[l - 1].ty
      && Run(Unfold(), d + [op]) == Run(Unfold(), d) + [Running(dot, h, m + 1)]
  {
    var t := Run(Unfold(), d);
    if dot {
      ArithOk(d, [l - 1, l + 2]);
      AppendOne(Inputs0(dot, n), d, Op(Add, [l - 1, l + 2], Secret));
      assert Pick(t, [l - 1, l + 2]) == [t[l - 1], t[l + 2]];
    } else {
      AppendOne(Inputs0(dot, n), d, Op(Insert(m), [l + 2, l - 1], Batched));
      assert Pick(t, [l + 2, l - 1]) == [t[l + 2], t[l - 1]];
    }
  }

  lemma {:induction false} RoundFront(g: Signature, h: Head, b: Body, i: nat)
    requires Arith(h) && WellTyped(g, b) && Ordered(b) && |b| >= 2 && b[0].ty == Batched && b[1].ty == Batched && i < g.n
    requires Run(Unfold(), b)[0] == X() && Run(Unfold(), b)[1] == Y()
    ensures var l, d := |b|, Front(h, i, b);
      && WellTyped(g, d) && Ordered(d) && b <= d && |d| == l + 3 && d[l + 2].ty == Secret
      && Run(Unfold(), b) <= Run(Unfold(), d) && Run(Unfold(), d)[l + 2] == Elementwise.Slotwise(h, i)
  {
    RoundReads(g, b, i);
    RoundOp(g, h, b + [Op(Extract(i), [0], Secret)] + [Op(Extract(i), [1], Secret)], |b|, i);
  }

  lemma {:induction false} UnrollingNext(dot: bool, h: Head, n: nat, m: nat, b: Body)
    requires Unrolling(dot, h, n, m, b) && m < n
    ensures Unrolling(dot, h, n, m + 1, Round(dot, h, m, b))
  {
    RoundFront(Inputs0(dot, n), h, b, m);
    RoundUpdate(dot, h, n, Front(h, m, b), |b|, m);
  }

  lemma {:induction false} UnrollingAll(dot: bool, h: Head, n: nat, m: nat)
    requires Arith(h) && (dot ==> h == Mul) && m <= n
    ensures Unrolling(dot, h, n, m, Unrolled(dot, h, m))
  {
    if m == 0 {
      UnrollingStart(dot, h, n);
    } else {
      UnrollingAll(dot, h, n, m - 1);
      UnrollingNext(dot, h, n, m - 1, Unrolled(dot, h, m - 1));
    }
  }

  lemma {:induction false} AppendReturn(g: Signature, b: Body)
    requires WellTyped(g, b) && Ordered(b) && b != []
    ensures var r := b + [Op(Return, [|b| - 1], b[|b| - 1].ty)];
      WellTyped(g, r) && Ordered(r) && EndsInReturn(r) && Result(Unfold(), r) == Node(Return, [Result(Unfold(), b)])
  {
    AppendOne(g, b, Op(Return, [|b| - 1], b[|b| - 1].ty));
    assert Pick(Run(Unfold(), b), [|b| - 1]) == [Result(Unfold(), b)];
  }

  lemma {:induction false} ProgramTerm(dot: bool, h: Head, n: nat)
    requires Arith(h) && (dot ==> h == Mul)
    ensures var b := Program(dot, h, n);
      && WellTyped(Inputs0(dot, n), b) && Ordered(b) && EndsInReturn(b)
      && Result(Unfold(), b) == Node(Return, [Running(dot, h, n)])
  {
    UnrollingAll(dot, h, n, n);
    AppendReturn(Inputs0(dot, n), Unrolled(dot, h, n));
  }

  // ---------------------------------------------------------------- the dot product

  lemma {:induction false} AddedIndices(t: Term, i: int)
    ensures Indices(Node(Add, [t, Product(i)])) == Indices(t) + [i]
  {
    var ts := [t, Product(i)];
    IndicesAdd(ts);
    assert AllIndices(ts) == [] + [Indices(t)] + [[i]];
    FlatAppend([], Indices(t));
    FlatAppend([] + [Indices(t)], [i]);
  }

  lemma {:induction false} AddedSummand(n: nat, t: Term, i: int)
    requires Summand(n, t) && 0 <= i < n
    ensures Summand(n, Node(Add, [t, Product(i)]))
  {
    var s := Node(Add, [t, Product(i)]);
    assert IsProduct(n, Product(i));
    assert s.kids[1] != Zero();
  }

  lemma {:induction false} RunningSums(n: nat, m: nat)
    requires m <= n
    ensures Summand(n, Running(true, Mul, m)) && Indices(Running(true, Mul, m)) == Upto(m)
  {
    if m > 0 {
      RunningSums(n, m - 1);
      AddedSummand(n, Running(true, Mul, m - 1), m - 1);
      AddedIndices(Running(true, Mul, m - 1), m - 1);
      assert Upto(m) == Upto(m - 1) + [m - 1];
    }
  }

  /** The dot-product loop over 2^k slots, 4 * 2^k + 4 operations long, compiles to 2 k + 5 operations:
      one vector product and k rotations. Both compute the dot product, for all inputs. */
  lemma {:induction false} DotLoopTheorem(k: nat, o: Batching.UseOrder, x: seq<int>, y: seq<int>)
    requires k >= 1 && Batching.Enumerates(o) && |x| == |y| == Nary.Pow2(k)
    ensures var n := Nary.Pow2(k); var alg := Denote(n, Inputs(x, y));
      && Ordered(DotProgram(n)) && EndsInReturn(DotProgram(n)) && |DotProgram(n)| == 4 * n + 4
      && var out := Pipeline.Optimize(n, o, DotProgram(n));
      && Result(alg, DotProgram(n)) == S(Dot(x, y, n)) && Result(alg, out) == S(Dot(x, y, n))
      && |out| == 2 * k + 5
      && Tally(out, Multiplies) == 1 && Tally(out, Rotates) == k && Tally(out, Adds) == k
  {
    var n := Nary.Pow2(k);
    ProgramTerm(true, Mul, n);
    RunningSums(n, n);
    ReductionTheorem(k, o, DotProgram(n), x, y);
  }

  /** The elementwise loop over n >= 2 slots compiles to the one vector operation. */
  lemma {:induction false} ElementwiseLoopTheorem(h: Head, n: nat, o: Batching.UseOrder, x: seq<int>, y: seq<int>, z: seq<int>)
    requires Arith(h) && n > 1 && Batching.Enumerates(o) && |x| == |y| == |z| == n
    ensures var b := ElementwiseProgram(h, n); var alg := Denote(n, ThreeInputs(x, y, z));
      && Ordered(b) && EndsInReturn(b)
      && var out := Pipeline.Optimize(n, o, b);
      && Result(Unfold(), out) == Node(Return, [Node(h, [Node(Arg(0), []), Node(Arg(1), [])])])
      && |out| == 4 && Tally(out, Arith) == 1
      && Result(alg, b) == V(Pointwise(h, x, y)) && Result(alg, out) == V(Pointwise(h, x, y))
  {
    ProgramTerm(false, h, n);
    ElementwiseTheorem(h, 2, n, o, ElementwiseProgram(h, n), x, y, z);
  }
}
