/** What the operations compute on scalars and on vectors of `n` slots. */
module Meaning {
  import opened Ir

  // ---------------------------------------------------------------- commutative monoids

  datatype Monoid<!T> = Monoid(unit: T, op: (T, T) -> T)

  predicate UnitLaw<T(==)>(m: Monoid<T>, x: T) { m.op(m.unit, x) == x }

  predicate SwapLaw<T(==)>(m: Monoid<T>, x: T, y: T) { m.op(x, y) == m.op(y, x) }

  predicate GroupLaw<T(==)>(m: Monoid<T>, x: T, y: T, z: T) { m.op(m.op(x, y), z) == m.op(x, m.op(y, z)) }

  ghost predicate Lawful<T(!new)>(m: Monoid<T>)
  {
    && (forall x :: UnitLaw(m, x))
    && (forall x, y :: SwapLaw(m, x, y))
    && (forall x, y, z :: GroupLaw(m, x, y, z))
  }

  function Fold<T>(m: Monoid<T>, xs: seq<T>): T
  {
    if xs == [] then m.unit else m.op(Fold(m, xs[..|xs| - 1]), xs[|xs| - 1])
  }

  lemma {:induction false} FoldConcat<T(!new)>(m: Monoid<T>, xs: seq<T>, ys: seq<T>)
    requires Lawful(m)
    ensures Fold(m, xs + ys) == m.op(Fold(m, xs), Fold(m, ys))
  {
    if ys == [] {
      assert xs + ys == xs;
      assert UnitLaw(m, Fold(m, xs)) && SwapLaw(m, m.unit, Fold(m, xs));
    } else {
      var k := |ys| - 1;
      FoldConcat(m, xs, ys[..k]);
      assert (xs + ys)[..|xs + ys| - 1] == xs + ys[..k];
      assert GroupLaw(m, Fold(m, xs), Fold(m, ys[..k]), ys[k]);
    }
  }

  lemma {:induction false} FoldOne<T(!new)>(m: Monoid<T>, x: T)
    requires Lawful(m)
    ensures Fold(m, [x]) == x
  {
    assert [x][..0] == [];
    assert UnitLaw(m, x);
  }

  /** A nested application can be spliced in at the end of the operand list. */
  lemma {:induction false} FoldSplice<T(!new)>(m: Monoid<T>, xs: seq<T>, zs: seq<T>, ys: seq<T>)
    requires Lawful(m)
    ensures Fold(m, xs + [Fold(m, zs)] + ys) == Fold(m, xs + ys + zs)
  {
    var a, b, c := Fold(m, xs), Fold(m, ys), Fold(m, zs);
    FoldOne(m, c);
    FoldConcat(m, xs, [c]);
    FoldConcat(m, xs + [c], ys);
    FoldConcat(m, xs, ys);
    FoldConcat(m, xs + ys, zs);
    assert GroupLaw(m, a, c, b) && SwapLaw(m, c, b) && GroupLaw(m, a, b, c);
  }

  // ---------------------------------------------------------------- values

  datatype Val = S(n: int) | V(s: seq<int>)

  /** Slot j of a value; a scalar is the same in every slot. */
  function Slot(x: Val, j: nat): int
  {
    match x
    case S(n) => n
    case V(s) => if j < |s| then s[j] else 0
  }

  function Lift(f: (int, int) -> int, x: Val, y: Val): Val
  {
    match (x, y)
    case (S(a), S(b)) => S(f(a, b))
    case (S(a), V(t)) => V(seq(|t|, j requires 0 <= j < |t| => f(a, t[j])))
    case (V(s), S(b)) => V(seq(|s|, j requires 0 <= j < |s| => f(s[j], b)))
    case (V(s), V(t)) => if |s| != |t| then V([]) else V(seq(|s|, j requires 0 <= j < |s| => f(s[j], t[j])))
  }

  function Plus(): (int, int) -> int { (a, b) => a + b }
  function Times(): (int, int) -> int { (a, b) => a * b }
  function Minus(): (int, int) -> int { (a, b) => a - b }

  function Lifted(f: (int, int) -> int, u: int): Monoid<Val> { Monoid(S(u), (x, y) => Lift(f, x, y)) }
  function Addition(): Monoid<Val> { Lifted(Plus(), 0) }
  function Multiplication(): Monoid<Val> { Lifted(Times(), 1) }

  lemma {:induction false} LiftAssociative(f: (int, int) -> int, x: Val, y: Val, z: Val)
    requires forall a, b, c :: f(f(a, b), c) == f(a, f(b, c))
    ensures Lift(f, Lift(f, x, y), z) == Lift(f, x, Lift(f, y, z))
  {
    if x.V? || y.V? || z.V? {
      var l, r := Lift(f, Lift(f, x, y), z), Lift(f, x, Lift(f, y, z));
      assert l.V? && r.V? && |l.s| == |r.s|;
      forall j | 0 <= j < |l.s| ensures l.s[j] == r.s[j] {
        assert f(f(Slot(x, j), Slot(y, j)), Slot(z, j)) == f(Slot(x, j), f(Slot(y, j), Slot(z, j)));
      }
      assert l.s == r.s;
    }
  }

  lemma {:induction false} LiftCommutative(f: (int, int) -> int, x: Val, y: Val)
    requires forall a, b :: f(a, b) == f(b, a)
    ensures Lift(f, x, y) == Lift(f, y, x)
  {
    if x.V? || y.V? {
      var l, r := Lift(f, x, y), Lift(f, y, x);
      forall j | 0 <= j < |l.s| ensures l.s[j] == r.s[j] {
        assert f(Slot(x, j), Slot(y, j)) == f(Slot(y, j), Slot(x, j));
      }
      assert l.s == r.s;
    } else {
      assert f(x.n, y.n) == f(y.n, x.n);
    }
  }

  lemma {:induction false} LiftedLawful(f: (int, int) -> int, u: int)
    requires forall a :: f(u, a) == a
    requires forall a, b :: f(a, b) == f(b, a)
    requires forall a, b, c :: f(f(a, b), c) == f(a, f(b, c))
    ensures Lawful(Lifted(f, u))
  {
    var m := Lifted(f, u);
    forall x ensures UnitLaw(m, x) {
      if x.V? {
        forall j | 0 <= j < |x.s| ensures Lift(f, S(u), x).s[j] == x.s[j] { assert f(u, x.s[j]) == x.s[j]; }
        assert Lift(f, S(u), x).s == x.s;
      } else {
        assert f(u, x.n) == x.n;
      }
    }
    forall x, y ensures SwapLaw(m, x, y) {
      LiftCommutative(f, x, y);
    }
    forall x, y, z ensures GroupLaw(m, x, y, z) {
      LiftAssociative(f, x, y, z);
    }
  }

  lemma {:induction false} AdditionLawful()
    ensures Lawful(Addition())
  {
    LiftedLawful(Plus(), 0);
  }

  lemma {:induction false} MultiplicationLawful()
    ensures Lawful(Multiplication())
  {
    LiftedLawful(Times(), 1);
  }

  /** n-ary subtraction: the first operand minus all the others. */
  function Difference(xs: seq<Val>): Val
  {
    if xs == [] then S(0) else Lift(Minus(), xs[0], Fold(Addition(), xs[1..]))
  }

  /** Slot i of the operand appears in slot i + k, cyclically. */
  function Rot(s: seq<int>, k: int): (r: seq<int>)
    ensures |r| == |s|
    ensures forall j :: 0 <= j < |s| ==> r[j] == s[(j - k) % |s|]
  {
    seq(|s|, j requires 0 <= j < |s| => s[(j - k) % |s|])
  }

  predicate Lists(x: Index, j: int)
  {
    match x
    case One(i) => i == j
    case Many(run) => j in run
    case All => false
  }

  /** The first operand of a combine that lists slot j, or |ix| if none does. */
  function Owner(ix: seq<Index>, j: int): (k: nat)
    ensures k <= |ix|
  {
    if ix == [] then 0 else if Lists(ix[0], j) then 0 else 1 + Owner(ix[1..], j)
  }

  /** The operand marked "all", or |ix| if there is none. */
  function Remaining(ix: seq<Index>): (k: nat)
    ensures k <= |ix|
  {
    if ix == [] then 0 else if ix[0].All? then 0 else 1 + Remaining(ix[1..])
  }

  function CombineSlot(ix: seq<Index>, xs: seq<Val>, j: nat): int
    requires |ix| == |xs|
  {
    var k := if Owner(ix, j) < |ix| then Owner(ix, j) else Remaining(ix);
    if k < |ix| then Slot(xs[k], j) else 0
  }

  /** The operations' meaning for vectors of n slots and arguments `inp`. */
  function Denote(n: nat, inp: nat -> Val): Algebra<Val>
  {
    (h: Head, xs: seq<Val>) => Compute(n, inp, h, xs)
  }

  function Compute(n: nat, inp: nat -> Val, h: Head, xs: seq<Val>): Val
  {
      match h
      case Arg(k) => inp(k)
      case Const(c) => S(c)
      case Splat(c) => V(seq(n, j => c))
      case Extract(i) => if |xs| == 1 && xs[0].V? && 0 <= i < |xs[0].s| then S(xs[0].s[i]) else S(0)
      case Insert(i) =>
        if |xs| == 2 && xs[0].S? && xs[1].V? && 0 <= i < |xs[1].s| then V(xs[1].s[i := xs[0].n]) else S(0)
      case Rotate(k) => if |xs| == 1 && xs[0].V? then V(Rot(xs[0].s, k)) else S(0)
      case Add => Fold(Addition(), xs)
      case Mul => Fold(Multiplication(), xs)
      case Sub => Difference(xs)
      case Combine(ix) => if |ix| == |xs| then V(seq(n, j requires 0 <= j => CombineSlot(ix, xs, j))) else S(0)
      case Return => if |xs| == 1 then xs[0] else S(0)
  }

  // ---------------------------------------------------------------- shapes

  predicate Fits(n: nat, x: Val, ty: Ty)
  {
    if ty == Batched then x.V? && |x.s| == n else x.S?
  }

  ghost predicate InputsOk(g: Signature, inp: nat -> Val)
  {
    forall k :: 0 <= k < |g.params| ==> Fits(g.n, inp(k), g.params[k])
  }

  function ShapeTy(xs: seq<Val>): Ty
  {
    if exists j :: 0 <= j < |xs| && xs[j].V? then Batched else Secret
  }

  /** Every vector among the values has n slots. */
  predicate AllFit(n: nat, xs: seq<Val>)
  {
    forall j :: 0 <= j < |xs| && xs[j].V? ==> |xs[j].s| == n
  }

  /** Slot j of every value. */
  function Slots(xs: seq<Val>, j: nat): (r: seq<int>)
    ensures |r| == |xs| && forall k :: 0 <= k < |xs| ==> r[k] == Slot(xs[k], j)
  {
    seq(|xs|, k requires 0 <= k < |xs| => Slot(xs[k], j))
  }

  /** Folding values is folding each slot. */
  lemma {:induction false} FoldSlots(n: nat, f: (int, int) -> int, u: int, xs: seq<Val>)
    requires AllFit(n, xs)
    ensures Fits(n, Fold(Lifted(f, u), xs), ShapeTy(xs))
    ensures forall j :: 0 <= j < n ==> Slot(Fold(Lifted(f, u), xs), j) == Fold(Monoid(u, f), Slots(xs, j))
  {
    if xs != [] {
      var m := |xs| - 1;
      FoldSlots(n, f, u, xs[..m]);
      assert ShapeTy(xs) == if xs[m].V? then Batched else ShapeTy(xs[..m]) by {
        if xs[m].V? {
        } else if j :| 0 <= j < |xs| && xs[j].V? {
          assert xs[..m][j].V?;
        }
      }
      forall j | 0 <= j < n ensures Slot(Fold(Lifted(f, u), xs), j) == Fold(Monoid(u, f), Slots(xs, j)) {
        assert Slots(xs, j)[..m] == Slots(xs[..m], j);
      }
    }
  }

  /** The integer meaning of an n-ary operation on one slot. */
  function Scalar(h: Head, ns: seq<int>): int
    requires Arith(h)
  {
    match h
    case Add => Fold(Monoid(0, Plus()), ns)
    case Mul => Fold(Monoid(1, Times()), ns)
    case Sub => if ns == [] then 0 else ns[0] - Fold(Monoid(0, Plus()), ns[1..])
  }

  lemma {:induction false} DifferenceSlots(n: nat, xs: seq<Val>)
    requires AllFit(n, xs)
    ensures Fits(n, Difference(xs), ShapeTy(xs))
    ensures forall j :: 0 <= j < n ==> Slot(Difference(xs), j) == Scalar(Sub, Slots(xs, j))
  {
    if xs != [] {
      var ys := xs[1..];
      FoldSlots(n, Plus(), 0, ys);
      assert ShapeTy(xs) == if xs[0].V? then Batched else ShapeTy(ys) by {
        if xs[0].V? {
        } else if j :| 0 <= j < |xs| && xs[j].V? {
          assert ys[j - 1].V?;
        }
      }
      forall j | 0 <= j < n ensures Slot(Difference(xs), j) == Scalar(Sub, Slots(xs, j)) {
        assert Slots(xs, j)[1..] == Slots(ys, j);
      }
    }
  }

  /** Arithmetic works slot by slot. */
  lemma {:induction false} ArithSlots(n: nat, inp: nat -> Val, h: Head, xs: seq<Val>)
    requires Arith(h) && AllFit(n, xs)
    ensures Fits(n, Denote(n, inp)(h, xs), ShapeTy(xs))
    ensures forall j :: 0 <= j < n ==> Slot(Denote(n, inp)(h, xs), j) == Scalar(h, Slots(xs, j))
  {
    FoldSlots(n, Plus(), 0, xs);
    FoldSlots(n, Times(), 1, xs);
    DifferenceSlots(n, xs);
    assert Denote(n, inp)(h, xs) == Compute(n, inp, h, xs);
  }

  /** On scalars alone, arithmetic is arithmetic on integers. */
  lemma {:induction false} ArithScalars(n: nat, inp: nat -> Val, h: Head, xs: seq<Val>)
    requires Arith(h) && forall j :: 0 <= j < |xs| ==> xs[j].S?
    ensures Denote(n, inp)(h, xs) == S(Scalar(h, Slots(xs, 0)))
  {
    FoldSlots(1, Plus(), 0, xs);
    FoldSlots(1, Times(), 1, xs);
    DifferenceSlots(1, xs);
    assert Denote(n, inp)(h, xs) == Compute(n, inp, h, xs);
  }

  /** A well-typed body computes a value of the right shape at every operation. */
  lemma {:induction false} ValuesFit(g: Signature, b: Body, inp: nat -> Val, k: nat)
    requires WellTyped(g, b) && Ordered(b) && InputsOk(g, inp) && k < |b|
    ensures Fits(g.n, Run(Denote(g.n, inp), b)[k], b[k].ty)
    decreases k
  {
    var alg, op := Denote(g.n, inp), b[k];
    assert OpOk(g, b[..k], op);
    RunAt(alg, b, k);
    var xs := Pick(Run(alg, b), op.args);
    assert Run(alg, b)[k] == Compute(g.n, inp, op.head, xs);
    forall j | 0 <= j < |xs| ensures Fits(g.n, xs[j], b[op.args[j]].ty) {
      ValuesFit(g, b, inp, op.args[j]);
    }
    if Arith(op.head) {
      ArithSlots(g.n, inp, op.head, xs);
      ShapeIsType(g.n, b[..k], op.args, xs);
    }
  }

  lemma {:induction false} ShapeIsType(n: nat, b: Body, args: seq<nat>, xs: seq<Val>)
    requires Below(args, |b|) && |xs| == |args|
    requires forall j :: 0 <= j < |xs| ==> Fits(n, xs[j], b[args[j]].ty)
    ensures ShapeTy(xs) == InferTy(b, args)
  {
    if j :| 0 <= j < |xs| && xs[j].V? {
      assert b[args[j]].ty == Batched;
    }
    if SomeOperand(b, args, Batched) {
      var j :| 0 <= j < |args| && b[args[j]].ty == Batched;
      assert xs[j].V?;
    }
  }
}
