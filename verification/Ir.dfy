/** The high-level intermediate representation: a function is a list of SSA operations.
    A value is named by the position of the operation that defines it, so inserting an operation
    renumbers the ones behind it, as MLIR's printed form does. */
module Ir {
  /** Plain is any non-secret type; Secret is `!fhe.secret`, Batched is `!fhe.batched_secret`. */
  datatype Ty = Plain | Secret | Batched

  /** One entry of a combine's `indices` attribute: an integer, an array of integers, or "all". */
  datatype Index = One(i: int) | Many(run: seq<int>) | All

  datatype Head =
    | Arg(arg: nat)
    | Const(c: int)            // fhe.constant holding a scalar
    | Splat(c: int)            // fhe.constant holding a one-element dense attribute
    | Extract(i: int)
    | Insert(i: int)
    | Rotate(off: int)
    | Add
    | Sub
    | Mul
    | Combine(ix: seq<Index>)
    | Return

  datatype Op = Op(head: Head, args: seq<nat>, ty: Ty)

  type Body = seq<Op>

  predicate Arith(h: Head) { h.Add? || h.Sub? || h.Mul? }

  predicate Constant(h: Head) { h.Const? || h.Splat? }

  /** Every operand is the position of an earlier operation. */
  predicate Below(args: seq<nat>, m: nat) { forall j :: 0 <= j < |args| ==> args[j] < m }

  predicate SomeOperand(b: Body, args: seq<nat>, ty: Ty)
    requires Below(args, |b|)
  {
    exists j :: 0 <= j < |args| && b[args[j]].ty == ty
  }

  /** What `inferReturnTypes` of add, sub and multiply computes. */
  function InferTy(b: Body, args: seq<nat>): Ty
    requires Below(args, |b|)
  {
    if SomeOperand(b, args, Batched) then Batched else Secret
  }

  /** The one vector size all batched secrets share, and the types of the function's parameters. */
  datatype Signature = Signature(n: nat, params: seq<Ty>)

  /** The verifier constraints of one operation placed after `b`. */
  predicate OpOk(g: Signature, b: Body, op: Op)
  {
    && Below(op.args, |b|)
    && match op.head
       case Arg(k) => op.args == [] && k < |g.params| && op.ty == g.params[k]
       case Const(_) => op.args == [] && op.ty == Secret
       case Splat(_) => op.args == [] && op.ty == Batched
       case Extract(i) => |op.args| == 1 && b[op.args[0]].ty == Batched && 0 <= i < g.n && op.ty == Secret
       case Insert(i) => |op.args| == 2 && b[op.args[0]].ty == Secret && b[op.args[1]].ty == Batched
                         && 0 <= i < g.n && op.ty == Batched
       case Rotate(_) => |op.args| == 1 && b[op.args[0]].ty == Batched && op.ty == Batched
       case Combine(ix) => |ix| == |op.args| && (forall j :: 0 <= j < |op.args| ==> b[op.args[j]].ty == Batched) && op.ty == Batched
                           && |ix| > 0
       case Return => |op.args| == 1 && op.ty == b[op.args[0]].ty
       case _ => (SomeOperand(b, op.args, Secret) || SomeOperand(b, op.args, Batched)) && op.ty == InferTy(b, op.args)
  }

  ghost predicate WellTyped(g: Signature, b: Body)
  {
    forall k {:trigger OpOk(g, b[..k], b[k])} :: 0 <= k < |b| ==> OpOk(g, b[..k], b[k])
  }

  /** Operands are defined before they are used. */
  ghost predicate Ordered(b: Body)
  {
    forall k :: 0 <= k < |b| ==> Below(b[k].args, k)
  }

  lemma {:induction false} TypedOrdered(g: Signature, b: Body)
    requires WellTyped(g, b)
    ensures Ordered(b)
  {
    forall k | 0 <= k < |b| ensures Below(b[k].args, k) {
      assert OpOk(g, b[..k], b[k]);
    }
  }

  lemma {:induction false} TypedAppend(g: Signature, b: Body, op: Op)
    requires WellTyped(g, b) && OpOk(g, b, op)
    ensures WellTyped(g, b + [op])
  {
    forall k | 0 <= k < |b + [op]| ensures OpOk(g, (b + [op])[..k], (b + [op])[k]) {
      if k < |b| {
        assert (b + [op])[..k] == b[..k];
        assert OpOk(g, b[..k], b[k]);
      } else {
        assert (b + [op])[..k] == b;
      }
    }
  }

  // ---------------------------------------------------------------- meaning

  /** An algebra gives every opcode a meaning on values of type T. */
  type Algebra<!T> = (Head, seq<T>) -> T

  function Pick<T>(v: seq<T>, args: seq<nat>): (r: seq<T>)
    requires Below(args, |v|)
    ensures |r| == |args|
    ensures forall j :: 0 <= j < |args| ==> r[j] == v[args[j]]
  {
    seq(|args|, j requires 0 <= j < |args| => v[args[j]])
  }

  lemma {:induction false} PickPrefix<T>(v: seq<T>, w: seq<T>, args: seq<nat>)
    requires Below(args, |v|)
    requires v <= w
    ensures Pick(w, args) == Pick(v, args)
  {}

  lemma {:induction false} BelowConcat(xs: seq<nat>, ys: seq<nat>, m: nat)
    ensures Below(xs + ys, m) <==> Below(xs, m) && Below(ys, m)
  {
    if Below(xs + ys, m) {
      assert forall j :: 0 <= j < |xs| ==> xs[j] == (xs + ys)[j];
      assert forall j :: 0 <= j < |ys| ==> ys[j] == (xs + ys)[|xs| + j];
    }
  }

  lemma {:induction false} PickConcat<T>(v: seq<T>, xs: seq<nat>, ys: seq<nat>)
    requires Below(xs, |v|) && Below(ys, |v|)
    ensures Below(xs + ys, |v|)
    ensures Pick(v, xs + ys) == Pick(v, xs) + Pick(v, ys)
  {}

  /** Executes a body from top to bottom; the result holds the value of every operation. */
  function Run<T>(alg: Algebra<T>, b: Body): (v: seq<T>)
    requires Ordered(b)
    ensures |v| == |b|
  {
    if b == [] then [] else
      var m := |b| - 1;
      assert b[..m] + [b[m]] == b;
      assert Ordered(b[..m]);
      var v := Run(alg, b[..m]);
      v + [alg(b[m].head, Pick(v, b[m].args))]
  }

  lemma {:induction false} RunAppend<T>(alg: Algebra<T>, b: Body, op: Op)
    requires Ordered(b) && Below(op.args, |b|)
    ensures Ordered(b + [op])
    ensures Run(alg, b + [op]) == Run(alg, b) + [alg(op.head, Pick(Run(alg, b), op.args))]
  {
    assert (b + [op])[..|b|] == b;
  }

  lemma {:induction false} RunPrefix<T>(alg: Algebra<T>, b: Body, k: nat)
    requires Ordered(b) && k <= |b|
    ensures Ordered(b[..k])
    ensures Run(alg, b[..k]) == Run(alg, b)[..k]
  {
    if k == |b| {
      assert b[..k] == b;
    } else {
      var m := |b| - 1;
      assert Ordered(b[..m]);
      RunPrefix(alg, b[..m], k);
      assert b[..m][..k] == b[..k];
    }
  }

  lemma {:induction false} RunAt<T>(alg: Algebra<T>, b: Body, k: nat)
    requires Ordered(b) && k < |b|
    ensures Run(alg, b)[k] == alg(b[k].head, Pick(Run(alg, b), b[k].args))
  {
    var m := |b| - 1;
    assert Ordered(b[..m]);
    if k < m {
      RunAt(alg, b[..m], k);
    }
    PickPrefix(Run(alg, b[..m]), Run(alg, b), b[k].args);
  }

  predicate EndsInReturn(b: Body) { b != [] && b[|b| - 1].head.Return? }

  /** The value a function returns: that of its last operation. */
  function Result<T>(alg: Algebra<T>, b: Body): T
    requires Ordered(b) && b != []
  {
    Run(alg, b)[|b| - 1]
  }

  // ---------------------------------------------------------------- unfolded terms

  /** The tree a value unfolds to; two operations that compute the same tree are interchangeable. */
  datatype Term = Node(head: Head, kids: seq<Term>)

  function Unfold(): Algebra<Term> { (h: Head, kids: seq<Term>) => Node(h, kids) }

  function EvalTerm<T>(alg: Algebra<T>, t: Term): T
  {
    alg(t.head, seq(|t.kids|, j requires 0 <= j < |t.kids| => EvalTerm(alg, t.kids[j])))
  }

  /** Terms are the free algebra: evaluating the unfolded term is running the body. */
  lemma {:induction false} TermIsFree<T>(alg: Algebra<T>, b: Body, k: nat)
    requires Ordered(b) && k < |b|
    ensures Run(alg, b)[k] == EvalTerm(alg, Run(Unfold(), b)[k])
    decreases k
  {
    RunAt(alg, b, k);
    RunAt(Unfold(), b, k);
    var t := Run(Unfold(), b)[k];
    var args := b[k].args;
    forall j | 0 <= j < |args|
      ensures Run(alg, b)[args[j]] == EvalTerm(alg, t.kids[j])
    {
      TermIsFree(alg, b, args[j]);
    }
    assert seq(|t.kids|, j requires 0 <= j < |t.kids| => EvalTerm(alg, t.kids[j])) == Pick(Run(alg, b), args);
  }
}
