/** The dialect's folds and its one canonicalization pattern, applied in program order. */
module Folding {
  import opened Ir
  import opened Walk
  import opened Meaning
  import opened Windows

  /** The constant a fold drops from an operand list: 0 for add and sub, 1 for multiply. */
  function Unit(h: Head): int
    requires Arith(h)
  {
    if h.Mul? then 1 else 0
  }

  /** The operand is a scalar or one-element constant holding the unit. */
  predicate Neutral(b: Body, h: Head, a: nat)
    requires Arith(h) && a < |b|
  {
    match b[a].head
    case Const(c) => c == Unit(h)
    case Splat(c) => c == Unit(h)
    case _ => false
  }

  function Kept(b: Body, h: Head, args: seq<nat>): (r: seq<nat>)
    requires Arith(h) && Below(args, |b|)
    ensures Below(r, |b|) && |r| <= |args|
  {
    if args == [] then [] else
      var m := |args| - 1;
      var rest := Kept(b, h, args[..m]);
      if Neutral(b, h, args[m]) then rest else rest + [args[m]]
  }

  /** CombineOp::fold looks for an array as long as the vector that starts at 0. */
  predicate CoversAll(n: nat, x: Index) { x.Many? && |x.run| == n && n > 0 && x.run[0] == 0 }

  function Covering(n: nat, ix: seq<Index>): (k: nat)
    ensures k <= |ix| && (k < |ix| ==> CoversAll(n, ix[k]))
  {
    if ix == [] then 0 else if CoversAll(n, ix[0]) then 0 else 1 + Covering(n, ix[1..])
  }

  /** When every operand of an arithmetic operation is neutral the code takes the front of an empty
      list; here the operation is then left as it is. */
  function FoldVisit(n: nat, out: Body, op: Op): Emit
    requires Below(op.args, |out|)
  {
    var keep := Emit([op], |out|);
    match op.head
    case Rotate(k) => FoldRotate(n, out, op)
    case Insert(i) => InsertToCombine(out, op)
    case Combine(ix) =>
      var k := Covering(n, ix);
      if k < |op.args| && k < |ix| then Emit([], op.args[k]) else keep
    case Add => FoldArith(out, op)
    case Sub => FoldArith(out, op)
    case Mul => FoldArith(out, op)
    case _ => keep
  }

  /** InsertOp::canonicalize: inserting slot i of a vector at i becomes a combine of the two vectors. */
  function InsertToCombine(out: Body, op: Op): Emit
    requires op.head.Insert? && Below(op.args, |out|)
  {
    var i := op.head.i;
    if |op.args| == 2 && out[op.args[0]].head == Extract(i) && |out[op.args[0]].args| == 1 then
      Emit([Op(Combine([One(i), All]), [out[op.args[0]].args[0], op.args[1]], Batched)], |out|)
    else
      Emit([op], |out|)
  }

  /** Negative offsets wrap around once. */
  function FoldRotate(n: nat, out: Body, op: Op): Emit
    requires op.head.Rotate?
  {
    var k := op.head.off;
    if k == 0 && |op.args| == 1 then Emit([], op.args[0])
    else if k < 0 && n > 0 then Emit([op.(head := Rotate(n + k))], |out|)
    else Emit([op], |out|)
  }

  function FoldArith(out: Body, op: Op): Emit
    requires Below(op.args, |out|) && Arith(op.head)
  {
    var kept := Kept(out, op.head, op.args);
    if |kept| > 1 then Emit([op.(args := kept)], |out|)
    else if |kept| == 1 then Emit([], kept[0])
    else Emit([op], |out|)
  }

  function FoldStep(n: nat): Step
  {
    (k: nat, out: Body, op: Op) => if Below(op.args, |out|) then FoldVisit(n, out, op) else Emit([op], |out|)
  }

  /** All operations folded, in program order. */
  function FoldAll(n: nat, b: Body): (w: Walked)
    requires Ordered(b)
    ensures Ordered(w.out) && |w.ren| == |b| && Below(w.ren, |w.out|)
  {
    FoldOrdered(n, b);
    Apply(FoldStep(n), b)
  }

  lemma {:induction false} FoldOrdered(n: nat, b: Body)
    requires Ordered(b)
    ensures var w := Apply(FoldStep(n), b); Ordered(w.out) && Below(w.ren, |w.out|)
  {
    forall j: nat, out: Body, op: Op | j < |b| ensures Links(out, op, FoldStep(n)(j, out, op)) {
      if Below(op.args, |out|) && Ordered(out) {
        FoldLinks(n, out, op);
      } else {
        LinksReplace(out, op, op);
      }
    }
    WalkOrdered(FoldStep(n), b, |b|);
  }

  lemma {:induction false} FoldLinks(n: nat, out: Body, op: Op)
    requires Below(op.args, |out|) && Ordered(out)
    ensures Links(out, op, FoldVisit(n, out, op))
  {
    LinksReplace(out, op, op);
    match op.head
    case Rotate(k) =>
      if k == 0 && |op.args| == 1 { LinksForward(out, op, op.args[0]); } else { LinksReplace(out, op, op.(head := Rotate(n + k))); }
    case Insert(i) =>
      if InsertToCombine(out, op) != Emit([op], |out|) {
        var a := op.args[0];
        assert Below(out[a].args, a);
        LinksReplace(out, op, InsertToCombine(out, op).ops[0]);
      }
    case Combine(ix) =>
      var k := Covering(n, ix);
      if k < |op.args| { LinksForward(out, op, op.args[k]); }
    case Add => FoldArithLinks(out, op);
    case Sub => FoldArithLinks(out, op);
    case Mul => FoldArithLinks(out, op);
    case _ =>
  }

  lemma {:induction false} FoldArithLinks(out: Body, op: Op)
    requires Below(op.args, |out|) && Arith(op.head)
    ensures Links(out, op, FoldArith(out, op))
  {
    var kept := Kept(out, op.head, op.args);
    if |kept| > 1 {
      LinksReplace(out, op, op.(args := kept));
    } else if |kept| == 1 {
      LinksForward(out, op, kept[0]);
    } else {
      LinksReplace(out, op, op);
    }
  }

  // ---------------------------------------------------------------- when folding is sound

  /** Some operand of the operation's own type is not dropped. */
  predicate Anchored(b: Body, op: Op)
    requires Arith(op.head)
  {
    Below(op.args, |b|) && exists j :: 0 <= j < |op.args| && b[op.args[j]].ty == op.ty && !Neutral(b, op.head, op.args[j])
  }

  /** The increasing runs that combine operations carry. */
  predicate Contiguous(run: seq<int>)
  {
    run != [] && forall j :: 0 <= j < |run| ==> run[j] == run[0] + j
  }

  predicate Runs(ix: seq<Index>)
  {
    forall k :: 0 <= k < |ix| && ix[k].Many? ==> Contiguous(ix[k].run)
  }

  /** No slot is claimed by two operands of a combine. */
  predicate Disjoint(n: nat, ix: seq<Index>)
  {
    forall s: nat, i, j :: s < n && 0 <= i < j < |ix| ==> !(Lists(ix[i], s) && Lists(ix[j], s))
  }

  /** The operation that a folds to: behind rotations by 0, combines that one operand covers, and arithmetic of
      which one operand is left. */
  function Settled(n: nat, b: Body, a: nat): (r: nat)
    requires a < |b|
    ensures r <= a
    decreases 2 * a + 1
  {
    var op := b[a];
    if !Below(op.args, a) then a else
      match op.head
      case Rotate(k) => if k == 0 && |op.args| == 1 then Settled(n, b, op.args[0]) else a
      case Combine(ix) =>
        var k := Covering(n, ix);
        if k < |op.args| && k < |ix| then Settled(n, b, op.args[k]) else a
      case Add => var left := Left(n, b, Add, op.args, a); if |left| == 1 then Settled(n, b, left[0]) else a
      case Sub => var left := Left(n, b, Sub, op.args, a); if |left| == 1 then Settled(n, b, left[0]) else a
      case Mul => var left := Left(n, b, Mul, op.args, a); if |left| == 1 then Settled(n, b, left[0]) else a
      case _ => a
  }

  /** The operands that are not dropped. */
  function Left(n: nat, b: Body, h: Head, args: seq<nat>, m: nat): (r: seq<nat>)
    requires Arith(h) && Below(args, m) && m <= |b|
    ensures Below(r, m)
    decreases 2 * m, |args|
  {
    if args == [] then [] else
      var k := |args| - 1;
      var rest := Left(n, b, h, args[..k], m);
      if Neutral(b, h, Settled(n, b, args[k])) then rest else rest + [args[k]]
  }

  /** The operand turns out to be a constant unit. */
  predicate Dropped(n: nat, b: Body, h: Head, a: nat)
    requires Arith(h) && a < |b|
  {
    Neutral(b, h, Settled(n, b, a))
  }

  lemma {:induction false} LeftMembers(n: nat, b: Body, h: Head, args: seq<nat>, m: nat)
    requires Arith(h) && Below(args, m) && m <= |b|
    ensures forall a :: a in Left(n, b, h, args, m) <==> a in args && !Dropped(n, b, h, a)
  {
    if args != [] {
      var k := |args| - 1;
      LeftMembers(n, b, h, args[..k], m);
      assert args == args[..k] + [args[k]];
    }
  }

  /** Some operand of the operation's own type will be left, and the first one of a difference. */
  predicate ArithSafe(n: nat, b: Body, op: Op)
    requires Arith(op.head)
  {
    && Below(op.args, |b|)
    && (exists j :: 0 <= j < |op.args| && b[op.args[j]].ty == op.ty && !Dropped(n, b, op.head, op.args[j]))
    && (op.head.Sub? ==> op.args != [] && !Dropped(n, b, Sub, op.args[0]))
  }

  /** What each operation must satisfy for its fold to be right. */
  predicate FoldSafe(n: nat, b: Body, op: Op)
  {
    match op.head
    case Combine(ix) => Runs(ix) && Disjoint(n, ix)
    case Sub => ArithSafe(n, b, op)
    case Add => ArithSafe(n, b, op)
    case Mul => ArithSafe(n, b, op)
    case _ => true
  }

  ghost predicate AllFoldSafe(g: Signature, b: Body)
  {
    forall k :: 0 <= k < |b| ==> FoldSafe(g.n, b, b[k])
  }

  /** The same of an operation as the walk meets it, its operands folded already. */
  predicate FoldFine(n: nat, out: Body, op: Op)
  {
    match op.head
    case Combine(ix) => Runs(ix) && Disjoint(n, ix)
    case Sub => Anchored(out, op) && op.args != [] && !Neutral(out, Sub, op.args[0])
    case Add => Anchored(out, op)
    case Mul => Anchored(out, op)
    case _ => true
  }

  // ---------------------------------------------------------------- dropping units

  lemma {:induction false} KeptConcat(b: Body, h: Head, xs: seq<nat>, ys: seq<nat>)
    requires Arith(h) && Below(xs, |b|) && Below(ys, |b|) && Below(xs + ys, |b|)
    ensures Kept(b, h, xs + ys) == Kept(b, h, xs) + Kept(b, h, ys)
  {
    if ys == [] {
      assert xs + ys == xs;
    } else {
      var m := |ys| - 1;
      BelowConcat(xs, ys[..m], |b|);
      KeptConcat(b, h, xs, ys[..m]);
      assert (xs + ys)[..|xs + ys| - 1] == xs + ys[..m];
    }
  }

  lemma {:induction false} KeptMembers(b: Body, h: Head, args: seq<nat>)
    requires Arith(h) && Below(args, |b|)
    ensures forall a :: a in Kept(b, h, args) <==> a in args && !Neutral(b, h, a)
  {
    if args != [] {
      var m := |args| - 1;
      KeptMembers(b, h, args[..m]);
      assert args == args[..m] + [args[m]];
    }
  }

  /** Folding a slot over the kept operands gives the same as over all of them. */
  lemma {:induction false} KeptFold(b: Body, h: Head, args: seq<nat>, v: seq<Val>, j: nat, f: (int, int) -> int, u: int)
    requires Arith(h) && Below(args, |b|) && |v| == |b|
    requires forall x :: f(x, u) == x
    requires forall t :: 0 <= t < |args| && Neutral(b, h, args[t]) ==> Slot(v[args[t]], j) == u
    ensures Fold(Monoid(u, f), Slots(Pick(v, Kept(b, h, args)), j)) == Fold(Monoid(u, f), Slots(Pick(v, args), j))
  {
    if args != [] {
      var m := |args| - 1;
      KeptFold(b, h, args[..m], v, j, f, u);
      assert args == args[..m] + [args[m]];
      FoldPush(v, args[..m], args[m], j, f, u);
      if !Neutral(b, h, args[m]) { FoldPush(v, Kept(b, h, args[..m]), args[m], j, f, u); }
    }
  }

  lemma {:induction false} FoldPush(v: seq<Val>, args: seq<nat>, a: nat, j: nat, f: (int, int) -> int, u: int)
    requires Below(args, |v|) && a < |v|
    ensures Below(args + [a], |v|)
    ensures Fold(Monoid(u, f), Slots(Pick(v, args + [a]), j)) == f(Fold(Monoid(u, f), Slots(Pick(v, args), j)), Slot(v[a], j))
  {
    var all := Slots(Pick(v, args + [a]), j);
    assert all[..|args|] == Slots(Pick(v, args), j);
  }

  lemma {:induction false} KeptCons(b: Body, h: Head, x: nat, ys: seq<nat>)
    requires Arith(h) && x < |b| && Below(ys, |b|) && !Neutral(b, h, x)
    ensures Below([x] + ys, |b|) && Kept(b, h, [x] + ys) == [x] + Kept(b, h, ys)
  {
    BelowConcat([x], ys, |b|);
    KeptConcat(b, h, [x], ys);
    assert [x][..0] == [];
  }

  lemma {:induction false} SlotsCons(v: seq<Val>, x: nat, ys: seq<nat>, j: nat)
    requires x < |v| && Below(ys, |v|) && Below([x] + ys, |v|)
    ensures Slots(Pick(v, [x] + ys), j) == [Slot(v[x], j)] + Slots(Pick(v, ys), j)
  {}

  lemma {:induction false} KeptSub(b: Body, x: nat, ys: seq<nat>, v: seq<Val>, j: nat)
    requires x < |b| && Below(ys, |b|) && |v| == |b| && !Neutral(b, Sub, x)
    requires forall t :: 0 <= t < |ys| && Neutral(b, Sub, ys[t]) ==> Slot(v[ys[t]], j) == 0
    ensures Below([x] + ys, |b|)
    ensures Scalar(Sub, Slots(Pick(v, Kept(b, Sub, [x] + ys)), j)) == Scalar(Sub, Slots(Pick(v, [x] + ys), j))
  {
    KeptCons(b, Sub, x, ys);
    KeptFold(b, Sub, ys, v, j, Plus(), 0);
    SubSlots(v, x, ys, j);
    SubSlots(v, x, Kept(b, Sub, ys), j);
  }

  lemma {:induction false} SubSlots(v: seq<Val>, x: nat, ys: seq<nat>, j: nat)
    requires x < |v| && Below(ys, |v|)
    ensures Below([x] + ys, |v|)
    ensures Scalar(Sub, Slots(Pick(v, [x] + ys), j)) == Slot(v[x], j) - Fold(Monoid(0, Plus()), Slots(Pick(v, ys), j))
  {
    SlotsCons(v, x, ys, j);
    assert ([Slot(v[x], j)] + Slots(Pick(v, ys), j))[1..] == Slots(Pick(v, ys), j);
  }

  lemma {:induction false} KeptScalar(b: Body, h: Head, args: seq<nat>, v: seq<Val>, j: nat)
    requires Arith(h) && Below(args, |b|) && |v| == |b|
    requires h.Sub? ==> args != [] && !Neutral(b, h, args[0])
    requires forall t :: 0 <= t < |args| && Neutral(b, h, args[t]) ==> Slot(v[args[t]], j) == Unit(h)
    ensures Scalar(h, Slots(Pick(v, Kept(b, h, args)), j)) == Scalar(h, Slots(Pick(v, args), j))
  {
    match h
    case Sub =>
      assert args == [args[0]] + args[1..];
      KeptSub(b, args[0], args[1..], v, j);
    case Add => KeptFold(b, h, args, v, j, Plus(), 0);
    case Mul => KeptFold(b, h, args, v, j, Times(), 1);
  }

  /** Values of the same shape and the same slots are equal. */
  lemma {:induction false} SameVal(n: nat, x: Val, y: Val, ty: Ty)
    requires Fits(n, x, ty) && Fits(n, y, ty)
    requires ty == Batched ==> forall j :: 0 <= j < n ==> Slot(x, j) == Slot(y, j)
    requires ty != Batched ==> Slot(x, 0) == Slot(y, 0)
    ensures x == y
  {
    if ty == Batched {
      assert forall j :: 0 <= j < n ==> x.s[j] == Slot(x, j) && y.s[j] == Slot(y, j);
      assert x.s == y.s;
    }
  }

  lemma {:induction false} KeptTypes(b: Body, op: Op)
    requires Arith(op.head) && Below(op.args, |b|) && Anchored(b, op) && op.ty == InferTy(b, op.args)
    ensures Kept(b, op.head, op.args) != []
    ensures InferTy(b, Kept(b, op.head, op.args)) == op.ty
    ensures |Kept(b, op.head, op.args)| == 1 ==> b[Kept(b, op.head, op.args)[0]].ty == op.ty
    ensures SomeOperand(b, Kept(b, op.head, op.args), op.ty)
  {
    var kept := Kept(b, op.head, op.args);
    KeptMembers(b, op.head, op.args);
    var j :| 0 <= j < |op.args| && b[op.args[j]].ty == op.ty && !Neutral(b, op.head, op.args[j]);
    assert op.args[j] in kept;
    var t :| 0 <= t < |kept| && kept[t] == op.args[j];
    if i :| 0 <= i < |kept| && b[kept[i]].ty == Batched {
      assert kept[i] in op.args;
      var q :| 0 <= q < |op.args| && op.args[q] == kept[i];
      assert SomeOperand(b, op.args, Batched);
    }
  }

  lemma {:induction false} NeutralSlots(g: Signature, b: Body, inp: nat -> Val, h: Head, a: nat, j: nat)
    requires WellTyped(g, b) && Ordered(b) && Arith(h) && a < |b| && Neutral(b, h, a)
    requires b[a].ty == Batched ==> j < g.n
    ensures Slot(Run(Denote(g.n, inp), b)[a], j) == Unit(h)
  {
    RunAt(Denote(g.n, inp), b, a);
    assert OpOk(g, b[..a], b[a]);
  }

  lemma {:induction false} PickFits(g: Signature, b: Body, inp: nat -> Val, args: seq<nat>)
    requires WellTyped(g, b) && Ordered(b) && InputsOk(g, inp) && Below(args, |b|)
    ensures var xs := Pick(Run(Denote(g.n, inp), b), args);
      AllFit(g.n, xs) && ShapeTy(xs) == InferTy(b, args)
  {
    var xs := Pick(Run(Denote(g.n, inp), b), args);
    forall j | 0 <= j < |xs| ensures Fits(g.n, xs[j], b[args[j]].ty) {
      ValuesFit(g, b, inp, args[j]);
    }
    ShapeIsType(g.n, b, args, xs);
  }

  lemma {:induction false} KeptSlot(g: Signature, b: Body, inp: nat -> Val, op: Op, j: nat)
    requires WellTyped(g, b) && Ordered(b) && OpOk(g, b, op) && Arith(op.head)
    requires Anchored(b, op) && (op.head.Sub? ==> !Neutral(b, Sub, op.args[0]))
    requires op.ty == Batched ==> j < g.n
    ensures var v, kept := Run(Denote(g.n, inp), b), Kept(b, op.head, op.args);
      Scalar(op.head, Slots(Pick(v, kept), j)) == Scalar(op.head, Slots(Pick(v, op.args), j))
  {
    forall t | 0 <= t < |op.args| && Neutral(b, op.head, op.args[t])
      ensures Slot(Run(Denote(g.n, inp), b)[op.args[t]], j) == Unit(op.head)
    {
      NeutralSlots(g, b, inp, op.head, op.args[t], j);
    }
    KeptScalar(b, op.head, op.args, Run(Denote(g.n, inp), b), j);
  }

  lemma {:induction false} KeptSlots(g: Signature, b: Body, inp: nat -> Val, op: Op)
    requires WellTyped(g, b) && Ordered(b) && InputsOk(g, inp) && OpOk(g, b, op) && Arith(op.head)
    requires Anchored(b, op) && (op.head.Sub? ==> !Neutral(b, Sub, op.args[0]))
    ensures var v, kept, alg := Run(Denote(g.n, inp), b), Kept(b, op.head, op.args), Denote(g.n, inp);
      && (op.ty == Batched ==> forall j :: 0 <= j < g.n ==>
            Slot(alg(op.head, Pick(v, kept)), j) == Slot(alg(op.head, Pick(v, op.args)), j))
      && (op.ty != Batched ==> Slot(alg(op.head, Pick(v, kept)), 0) == Slot(alg(op.head, Pick(v, op.args)), 0))
  {
    var alg := Denote(g.n, inp);
    var v, kept := Run(alg, b), Kept(b, op.head, op.args);
    KeptTypes(b, op);
    PickFits(g, b, inp, op.args);
    PickFits(g, b, inp, kept);
    if op.ty == Batched {
      ArithSlots(g.n, inp, op.head, Pick(v, op.args));
      ArithSlots(g.n, inp, op.head, Pick(v, kept));
      forall j | 0 <= j < g.n
        ensures Slot(alg(op.head, Pick(v, kept)), j) == Slot(alg(op.head, Pick(v, op.args)), j)
      {
        KeptSlot(g, b, inp, op, j);
      }
    } else {
      AllScalars(g, b, inp, op.args);
      AllScalars(g, b, inp, kept);
      ArithScalars(g.n, inp, op.head, Pick(v, op.args));
      ArithScalars(g.n, inp, op.head, Pick(v, kept));
      KeptSlot(g, b, inp, op, 0);
    }
  }

  lemma {:induction false} AllScalars(g: Signature, b: Body, inp: nat -> Val, args: seq<nat>)
    requires WellTyped(g, b) && Ordered(b) && InputsOk(g, inp) && Below(args, |b|) && InferTy(b, args) != Batched
    ensures forall j :: 0 <= j < |args| ==> Pick(Run(Denote(g.n, inp), b), args)[j].S?
  {
    forall j | 0 <= j < |args| ensures Pick(Run(Denote(g.n, inp), b), args)[j].S? {
      ValuesFit(g, b, inp, args[j]);
    }
  }

  /** Dropping the neutral operands of an anchored operation changes nothing. */
  lemma {:induction false} KeptValue(g: Signature, b: Body, inp: nat -> Val, op: Op)
    requires WellTyped(g, b) && Ordered(b) && InputsOk(g, inp) && OpOk(g, b, op) && Arith(op.head)
    requires Anchored(b, op) && (op.head.Sub? ==> !Neutral(b, Sub, op.args[0]))
    ensures var v, kept, alg := Run(Denote(g.n, inp), b), Kept(b, op.head, op.args), Denote(g.n, inp);
      && alg(op.head, Pick(v, kept)) == alg(op.head, Pick(v, op.args))
      && (|kept| == 1 ==> v[kept[0]] == alg(op.head, Pick(v, op.args)))
  {
    var alg := Denote(g.n, inp);
    var v, kept := Run(alg, b), Kept(b, op.head, op.args);
    KeptTypes(b, op);
    PickFits(g, b, inp, op.args);
    PickFits(g, b, inp, kept);
    ArithSlots(g.n, inp, op.head, Pick(v, op.args));
    ArithSlots(g.n, inp, op.head, Pick(v, kept));
    KeptSlots(g, b, inp, op);
    SameVal(g.n, alg(op.head, Pick(v, kept)), alg(op.head, Pick(v, op.args)), op.ty);
    if |kept| == 1 {
      SingleOperand(g.n, inp, op.head, v[kept[0]]);
      assert Pick(v, kept) == [v[kept[0]]];
    }
  }

  lemma {:induction false} SingleOperand(n: nat, inp: nat -> Val, h: Head, x: Val)
    requires Arith(h)
    ensures Denote(n, inp)(h, [x]) == x
  {
    assert Denote(n, inp)(h, [x]) == Compute(n, inp, h, [x]);
    AdditionLawful();
    MultiplicationLawful();
    match h
    case Add => FoldOne(Addition(), x);
    case Mul => FoldOne(Multiplication(), x);
    case Sub =>
      assert [x][1..] == [];
      if x.V? { assert Lift(Minus(), x, S(0)).s == x.s; }
  }

  // ---------------------------------------------------------------- one visit

  lemma {:induction false} RotWraps(s: seq<int>, k: int)
    ensures Rot(s, |s| + k) == Rot(s, k)
  {
    forall j | 0 <= j < |s| ensures Rot(s, |s| + k)[j] == Rot(s, k)[j] {
      assert (j - (|s| + k)) % |s| == (j - k) % |s| by { ModShift(j - k, |s|); }
    }
  }

  lemma {:induction false} RotZero(s: seq<int>)
    ensures Rot(s, 0) == s
  {}

  lemma {:induction false} ModShift(a: int, n: nat)
    requires n > 0
    ensures (a - n) % n == a % n
  {
    var q, r := a / n, a % n;
    assert a - n == (q - 1) * n + r;
    ModIs(a - n, q - 1, r, n);
  }

  lemma {:induction false} CoveringOwns(n: nat, ix: seq<Index>, k: nat, s: nat)
    requires Runs(ix) && Disjoint(n, ix) && k < |ix| && CoversAll(n, ix[k]) && s < n
    ensures Owner(ix, s) == k
  {
    var run := ix[k].run;
    assert run[s] == s;
    assert Lists(ix[k], s);
    forall i | 0 <= i < k ensures !Lists(ix[i], s) {}
    OwnerIs(ix, s, k);
  }

  lemma {:induction false} OwnerIs(ix: seq<Index>, s: int, k: nat)
    requires k < |ix| && Lists(ix[k], s) && forall i :: 0 <= i < k ==> !Lists(ix[i], s)
    ensures Owner(ix, s) == k
  {
    if k > 0 {
      assert !Lists(ix[0], s);
      OwnerIs(ix[1..], s, k - 1);
    }
  }

  lemma {:induction false} ReplaceOk(g: Signature, out: Body, op: Op, op': Op)
    requires WellTyped(g, out) && OpOk(g, out, op') && op'.ty == op.ty
    ensures EmitOk(g, out, op, Emit([op'], |out|))
  {
    TypedAppend(g, out, op');
  }

  lemma {:induction false} ForwardOk(g: Signature, out: Body, op: Op, a: nat)
    requires WellTyped(g, out) && a < |out| && out[a].ty == op.ty
    ensures EmitOk(g, out, op, Emit([], a))
  {
    assert out + [] == out;
  }

  lemma {:induction false} FoldRotateOk(g: Signature, out: Body, op: Op)
    requires WellTyped(g, out) && OpOk(g, out, op) && op.head.Rotate?
    ensures EmitOk(g, out, op, FoldRotate(g.n, out, op))
  {
    var k := op.head.off;
    if k == 0 {
      ForwardOk(g, out, op, op.args[0]);
    } else if k < 0 && g.n > 0 {
      ReplaceOk(g, out, op, op.(head := Rotate(g.n + k)));
    } else {
      ReplaceOk(g, out, op, op);
    }
  }

  lemma {:induction false} FoldInsertOk(g: Signature, out: Body, op: Op)
    requires WellTyped(g, out) && OpOk(g, out, op) && op.head.Insert?
    ensures EmitOk(g, out, op, InsertToCombine(out, op))
  {
    ReplaceOk(g, out, op, op);
    var a, i := op.args[0], op.head.i;
    assert OpOk(g, out[..a], out[a]);
    if out[a].head == Extract(i) {
      ReplaceOk(g, out, op, Op(Combine([One(i), All]), [out[a].args[0], op.args[1]], Batched));
    }
  }

  lemma {:induction false} FoldCombineOk(g: Signature, out: Body, op: Op)
    requires WellTyped(g, out) && OpOk(g, out, op) && op.head.Combine?
    ensures EmitOk(g, out, op, FoldVisit(g.n, out, op))
  {
    ReplaceOk(g, out, op, op);
    var k := Covering(g.n, op.head.ix);
    if k < |op.args| { ForwardOk(g, out, op, op.args[k]); }
  }

  lemma {:induction false} FoldVisitOk(g: Signature, out: Body, op: Op)
    requires WellTyped(g, out) && OpOk(g, out, op) && FoldFine(g.n, out, op)
    ensures EmitOk(g, out, op, FoldVisit(g.n, out, op))
  {
    match op.head
    case Rotate(k) => FoldRotateOk(g, out, op);
    case Insert(i) => FoldInsertOk(g, out, op);
    case Combine(ix) => FoldCombineOk(g, out, op);
    case Add => FoldArithOk(g, out, op);
    case Sub => FoldArithOk(g, out, op);
    case Mul => FoldArithOk(g, out, op);
    case _ => ReplaceOk(g, out, op, op);
  }

  lemma {:induction false} FoldArithOk(g: Signature, out: Body, op: Op)
    requires WellTyped(g, out) && OpOk(g, out, op) && Arith(op.head) && Anchored(out, op)
    ensures EmitOk(g, out, op, FoldArith(out, op))
  {
    KeptTypes(out, op);
    var kept := Kept(out, op.head, op.args);
    if |kept| > 1 {
      KeptSome(out, op.head, op.args, op.ty);
      ReplaceOk(g, out, op, op.(args := kept));
    } else {
      ForwardOk(g, out, op, kept[0]);
    }
  }

  lemma {:induction false} KeptSome(b: Body, h: Head, args: seq<nat>, ty: Ty)
    requires Arith(h) && Below(args, |b|)
    requires SomeOperand(b, Kept(b, h, args), ty) && (ty == Secret || ty == Batched)
    ensures SomeOperand(b, Kept(b, h, args), Secret) || SomeOperand(b, Kept(b, h, args), Batched)
  {}

  lemma {:induction false} FoldVisitKeeps(g: Signature, inp: nat -> Val, out: Body, op: Op)
    requires WellTyped(g, out) && Ordered(out) && InputsOk(g, inp) && OpOk(g, out, op) && FoldFine(g.n, out, op)
    ensures VisitKeeps(Denote(g.n, inp), out, op, FoldVisit(g.n, out, op))
  {
    var alg := Denote(g.n, inp);
    ReplaceKeeps(alg, out, op, op);
    match op.head
    case Rotate(k) => RotateKeeps(g, inp, out, op);
    case Insert(i) => InsertKeeps(g, inp, out, op);
    case Combine(ix) =>
      var k := Covering(g.n, ix);
      CombineKeeps(g, inp, out, op);
      if k < |op.args| { ForwardKeeps(alg, out, op, op.args[k]); }
    case Add => FoldArithKeeps(g, inp, out, op);
    case Sub => FoldArithKeeps(g, inp, out, op);
    case Mul => FoldArithKeeps(g, inp, out, op);
    case _ =>
  }

  lemma {:induction false} FoldArithKeeps(g: Signature, inp: nat -> Val, out: Body, op: Op)
    requires WellTyped(g, out) && Ordered(out) && InputsOk(g, inp) && OpOk(g, out, op) && Arith(op.head)
    requires Anchored(out, op) && (op.head.Sub? ==> !Neutral(out, Sub, op.args[0]))
    ensures VisitKeeps(Denote(g.n, inp), out, op, FoldArith(out, op))
  {
    var alg, kept := Denote(g.n, inp), Kept(out, op.head, op.args);
    KeptValue(g, out, inp, op);
    KeptTypes(out, op);
    if |kept| > 1 {
      ReplaceKeeps(alg, out, op, op.(args := kept));
    } else {
      ForwardKeeps(alg, out, op, kept[0]);
    }
  }

  lemma {:induction false} RotateValue(n: nat, inp: nat -> Val, k: int, s: seq<int>)
    ensures Denote(n, inp)(Rotate(k), [V(s)]) == V(Rot(s, k))
  {
    assert Denote(n, inp)(Rotate(k), [V(s)]) == Compute(n, inp, Rotate(k), [V(s)]);
  }

  lemma {:induction false} RotateKeeps(g: Signature, inp: nat -> Val, out: Body, op: Op)
    requires WellTyped(g, out) && Ordered(out) && InputsOk(g, inp) && OpOk(g, out, op) && op.head.Rotate?
    ensures VisitKeeps(Denote(g.n, inp), out, op, FoldRotate(g.n, out, op))
  {
    var alg, k, a := Denote(g.n, inp), op.head.off, op.args[0];
    var v := Run(alg, out);
    ValuesFit(g, out, inp, a);
    assert Pick(v, op.args) == [V(v[a].s)];
    RotateValue(g.n, inp, k, v[a].s);
    RotateValue(g.n, inp, g.n + k, v[a].s);
    RotWraps(v[a].s, k);
    RotZero(v[a].s);
    if k == 0 {
      ForwardKeeps(alg, out, op, a);
    } else if k < 0 && g.n > 0 {
      ReplaceKeeps(alg, out, op, op.(head := Rotate(g.n + k)));
    } else {
      ReplaceKeeps(alg, out, op, op);
    }
  }

  /** Inserting slot i of one vector into slot i of another is combining the two. */
  lemma {:induction false} InsertIsCombine(n: nat, inp: nat -> Val, i: int, s: seq<int>, t: seq<int>)
    requires |s| == |t| == n && 0 <= i < n
    ensures Compute(n, inp, Combine([One(i), All]), [V(s), V(t)]) == Compute(n, inp, Insert(i), [S(s[i]), V(t)])
  {
    var ix := [One(i), All];
    var l, r := Compute(n, inp, Combine(ix), [V(s), V(t)]), Compute(n, inp, Insert(i), [S(s[i]), V(t)]);
    forall j | 0 <= j < n ensures l.s[j] == r.s[j] {
      assert ix[1..] == [All] && [All][1..] == [];
      assert Owner(ix, j) == if j == i then 0 else 2;
      assert Remaining(ix) == 1;
    }
    assert l.s == r.s;
  }

  lemma {:induction false} ExtractValue(g: Signature, inp: nat -> Val, b: Body, a: nat)
    requires WellTyped(g, b) && Ordered(b) && InputsOk(g, inp) && a < |b| && b[a].head.Extract?
    ensures var v := Run(Denote(g.n, inp), b);
      && |b[a].args| == 1 && b[a].args[0] < a && 0 <= b[a].head.i < g.n && v[b[a].args[0]].V?
      && |v[b[a].args[0]].s| == g.n && v[a] == S(v[b[a].args[0]].s[b[a].head.i])
  {
    var alg := Denote(g.n, inp);
    var v := Run(alg, b);
    assert OpOk(g, b[..a], b[a]);
    RunAt(alg, b, a);
    ValuesFit(g, b, inp, b[a].args[0]);
    assert Pick(v, b[a].args) == [v[b[a].args[0]]];
    assert v[a] == Compute(g.n, inp, b[a].head, [v[b[a].args[0]]]);
  }

  lemma {:induction false} InsertKeeps(g: Signature, inp: nat -> Val, out: Body, op: Op)
    requires WellTyped(g, out) && Ordered(out) && InputsOk(g, inp) && OpOk(g, out, op) && op.head.Insert?
    ensures VisitKeeps(Denote(g.n, inp), out, op, InsertToCombine(out, op))
  {
    var alg, a, i := Denote(g.n, inp), op.args[0], op.head.i;
    var v := Run(alg, out);
    if out[a].head == Extract(i) {
      ExtractValue(g, inp, out, a);
      var x, d := out[a].args[0], op.args[1];
      var op' := Op(Combine([One(i), All]), [x, d], Batched);
      ValuesFit(g, out, inp, d);
      assert Pick(v, op.args) == [v[a], v[d]] && Pick(v, op'.args) == [v[x], v[d]];
      InsertIsCombine(g.n, inp, i, v[x].s, v[d].s);
      ReplaceKeeps(alg, out, op, op');
    } else {
      ReplaceKeeps(alg, out, op, op);
    }
  }

  lemma {:induction false} CombineKeeps(g: Signature, inp: nat -> Val, out: Body, op: Op)
    requires WellTyped(g, out) && Ordered(out) && InputsOk(g, inp) && OpOk(g, out, op) && op.head.Combine?
    requires Runs(op.head.ix) && Disjoint(g.n, op.head.ix)
    ensures var v, alg, k := Run(Denote(g.n, inp), out), Denote(g.n, inp), Covering(g.n, op.head.ix);
      k < |op.args| ==> v[op.args[k]] == alg(op.head, Pick(v, op.args))
  {
    var alg, ix := Denote(g.n, inp), op.head.ix;
    var v, k := Run(alg, out), Covering(g.n, ix);
    if k < |op.args| {
      var xs := Pick(v, op.args);
      ValuesFit(g, out, inp, op.args[k]);
      var l := Compute(g.n, inp, op.head, xs);
      forall j | 0 <= j < g.n ensures l.s[j] == xs[k].s[j] {
        CoveringOwns(g.n, ix, k, j);
      }
      assert l.s == xs[k].s;
    }
  }

  // ---------------------------------------------------------------- the walk

  /** What settles to a constant has become that constant, and nothing else has become one. */
  ghost predicate Settles(n: nat, b: Body, w: Walked)
  {
    && |w.ren| <= |b|
    && forall j :: 0 <= j < |w.ren| ==> SettlesAt(n, b, j, w.out, w.ren[j])
  }

  predicate SettlesAt(n: nat, b: Body, j: nat, out: Body, r: nat)
    requires j < |b|
  {
    && r < |out|
    && (Constant(b[Settled(n, b, j)].head) ==> out[r].head == b[Settled(n, b, j)].head)
    && (!Constant(b[Settled(n, b, j)].head) ==> !Constant(out[r].head))
  }

  lemma {:induction false} DroppedMet(n: nat, b: Body, w: Walked, h: Head, a: nat)
    requires Settles(n, b, w) && Arith(h) && a < |w.ren|
    ensures w.ren[a] < |w.out| && (Neutral(w.out, h, w.ren[a]) <==> Dropped(n, b, h, a))
  {
    assert SettlesAt(n, b, a, w.out, w.ren[a]);
  }

  lemma {:induction false} LeftMet(n: nat, b: Body, w: Walked, h: Head, args: seq<nat>, m: nat)
    requires Settles(n, b, w) && Arith(h) && Below(args, m) && m == |w.ren|
    ensures Below(Pick(w.ren, args), |w.out|)
    ensures Kept(w.out, h, Pick(w.ren, args)) == Pick(w.ren, Left(n, b, h, args, m))
  {
    forall j | 0 <= j < |args| ensures w.ren[args[j]] < |w.out| { DroppedMet(n, b, w, h, args[j]); }
    if args != [] {
      var k := |args| - 1;
      LeftMet(n, b, w, h, args[..k], m);
      DroppedMet(n, b, w, h, args[k]);
      assert Pick(w.ren, args)[..k] == Pick(w.ren, args[..k]);
    }
  }

  /** An operation that is safe to fold is fine when the walk meets it. */
  lemma {:induction false} SafeMet(g: Signature, b: Body, k: nat, w: Walked)
    requires WellTyped(g, b) && Ordered(b) && k < |b| && Tracks(b, w) && Settles(g.n, b, w) && |w.ren| == k
    requires FoldSafe(g.n, b, b[k])
    ensures Below(b[k].args, k) && FoldFine(g.n, w.out, Renamed(b[k], w.ren))
  {
    if Arith(b[k].head) { AnchorMet(g, b, k, w); }
  }

  lemma {:induction false} AnchorMet(g: Signature, b: Body, k: nat, w: Walked)
    requires Ordered(b) && k < |b| && Tracks(b, w) && Settles(g.n, b, w) && |w.ren| == k
    requires Arith(b[k].head) && ArithSafe(g.n, b, b[k])
    ensures var op := Renamed(b[k], w.ren);
      Anchored(w.out, op) && op.args != [] && (op.head.Sub? ==> !Neutral(w.out, Sub, op.args[0]))
  {
    var op, op' := b[k], Renamed(b[k], w.ren);
    forall j | 0 <= j < |op.args| ensures op'.args[j] < |w.out| { DroppedMet(g.n, b, w, op.head, op.args[j]); }
    var j :| 0 <= j < |op.args| && b[op.args[j]].ty == op.ty && !Dropped(g.n, b, op.head, op.args[j]);
    DroppedMet(g.n, b, w, op.head, op.args[j]);
    DroppedMet(g.n, b, w, op.head, op.args[0]);
    assert w.out[op'.args[j]].ty == op'.ty;
  }

  /** What replaces an operation is what it settles to. */
  lemma {:induction false} VisitSettles(g: Signature, b: Body, k: nat, w: Walked)
    requires WellTyped(g, b) && Ordered(b) && k < |b| && Settles(g.n, b, w) && |w.ren| == k && Below(b[k].args, k)
    requires Below(Renamed(b[k], w.ren).args, |w.out|)
    ensures var e := FoldVisit(g.n, w.out, Renamed(b[k], w.ren)); SettlesAt(g.n, b, k, w.out + e.ops, e.res)
  {
    var op := b[k];
    assert OpOk(g, b[..k], op);
    match op.head
    case Rotate(i) => if i == 0 { ForwardSettles(g.n, b, k, op.args[0], w); }
    case Combine(ix) =>
      var i := Covering(g.n, ix);
      if i < |op.args| { ForwardSettles(g.n, b, k, op.args[i], w); }
    case Add => ArithSettles(g.n, b, k, w);
    case Sub => ArithSettles(g.n, b, k, w);
    case Mul => ArithSettles(g.n, b, k, w);
    case _ =>
  }

  lemma {:induction false} ForwardSettles(n: nat, b: Body, k: nat, a: nat, w: Walked)
    requires k < |b| && Settles(n, b, w) && a < |w.ren| == k && Settled(n, b, k) == Settled(n, b, a)
    ensures w.ren[a] < |w.out| && SettlesAt(n, b, k, w.out + [], w.ren[a])
  {
    assert SettlesAt(n, b, a, w.out, w.ren[a]);
    assert w.out + [] == w.out;
  }

  lemma {:induction false} ArithSettles(n: nat, b: Body, k: nat, w: Walked)
    requires k < |b| && Settles(n, b, w) && |w.ren| == k && Below(b[k].args, k) && Arith(b[k].head)
    requires Below(Renamed(b[k], w.ren).args, |w.out|)
    ensures var e := FoldArith(w.out, Renamed(b[k], w.ren)); SettlesAt(n, b, k, w.out + e.ops, e.res)
  {
    var op, left := b[k], Left(n, b, b[k].head, b[k].args, k);
    LeftMet(n, b, w, op.head, op.args, k);
    if |left| == 1 {
      SettledOne(n, b, k);
      ForwardSettles(n, b, k, left[0], w);
    } else {
      SettledSelf(n, b, k);
    }
  }

  lemma {:induction false} SettledOne(n: nat, b: Body, k: nat)
    requires k < |b| && Below(b[k].args, k) && Arith(b[k].head) && |Left(n, b, b[k].head, b[k].args, k)| == 1
    ensures Settled(n, b, k) == Settled(n, b, Left(n, b, b[k].head, b[k].args, k)[0])
  {}

  lemma {:induction false} SettledSelf(n: nat, b: Body, k: nat)
    requires k < |b| && Below(b[k].args, k) && Arith(b[k].head) && |Left(n, b, b[k].head, b[k].args, k)| != 1
    ensures Settled(n, b, k) == k
  {}

  lemma {:induction false} SettlesExtend(n: nat, b: Body, w: Walked, e: Emit)
    requires Settles(n, b, w) && |w.ren| < |b| && SettlesAt(n, b, |w.ren|, w.out + e.ops, e.res)
    ensures Settles(n, b, Walked(w.out + e.ops, w.ren + [e.res]))
  {
    var w' := Walked(w.out + e.ops, w.ren + [e.res]);
    forall j | 0 <= j < |w'.ren| ensures SettlesAt(n, b, j, w'.out, w'.ren[j]) {
      if j < |w.ren| { assert SettlesAt(n, b, j, w.out, w.ren[j]); }
    }
  }

  lemma {:induction false} FoldInvariant(g: Signature, b: Body, k: nat)
    requires WellTyped(g, b) && Ordered(b) && AllFoldSafe(g, b) && k <= |b|
    ensures var w := Before(FoldStep(g.n), b, k); WellTyped(g, w.out) && Tracks(b, w) && Settles(g.n, b, w)
  {
    if k > 0 {
      var step, m := FoldStep(g.n), k - 1;
      FoldInvariant(g, b, m);
      FoldVisits(g, b, m);
      BeforeNext(step, b, m);
      TracksExtend(b, Before(step, b, m), Visit(step, b, m));
      SettlesExtend(g.n, b, Before(step, b, m), Visit(step, b, m));
    }
  }

  lemma {:induction false} FoldStepTyped(g: Signature, b: Body, k: nat)
    requires WellTyped(g, b) && Ordered(b) && AllFoldSafe(g, b) && k < |b|
    ensures StepTyped(g, FoldStep(g.n), b, k)
  {
    FoldInvariant(g, b, k);
    FoldVisits(g, b, k);
  }

  lemma {:induction false} FoldVisits(g: Signature, b: Body, k: nat)
    requires WellTyped(g, b) && Ordered(b) && AllFoldSafe(g, b) && k < |b|
    requires var w := Before(FoldStep(g.n), b, k); WellTyped(g, w.out) && Tracks(b, w) && Settles(g.n, b, w)
    ensures var w, op, e := Before(FoldStep(g.n), b, k), Visited(FoldStep(g.n), b, k), Visit(FoldStep(g.n), b, k);
      && e == FoldVisit(g.n, w.out, op)
      && OpOk(g, w.out, op) && FoldFine(g.n, w.out, op) && EmitOk(g, w.out, op, e)
      && SettlesAt(g.n, b, k, w.out + e.ops, e.res)
  {
    var w := Before(FoldStep(g.n), b, k);
    assert FoldSafe(g.n, b, b[k]);
    SafeMet(g, b, k, w);
    RenamedOk(g, b, k, w);
    FoldVisitOk(g, w.out, Visited(FoldStep(g.n), b, k));
    VisitSettles(g, b, k, w);
  }

  /** Folding a function whose operations are all safe to fold keeps every value. */
  lemma {:induction false} FoldCorrect(g: Signature, b: Body, inp: nat -> Val)
    requires WellTyped(g, b) && Ordered(b) && InputsOk(g, inp) && AllFoldSafe(g, b)
    ensures var w := FoldAll(g.n, b);
      WellTyped(g, w.out) && Ordered(w.out) && Tracks(b, w) && Agrees(Denote(g.n, inp), b, w)
  {
    var step, alg := FoldStep(g.n), Denote(g.n, inp);
    FoldInvariant(g, b, |b|);
    forall k | 0 <= k < |b| ensures StepTyped(g, step, b, k) { FoldStepTyped(g, b, k); }
    TypedOrdered(g, FoldAll(g.n, b).out);
    forall k | 0 <= k < |b| ensures StepKeeps(g, step, b, k, alg) {
      var w := Before(step, b, k);
      if WellTyped(g, w.out) && Tracks(b, w) && Ordered(w.out) {
        FoldInvariant(g, b, k);
        FoldVisits(g, b, k);
        FoldVisitKeeps(g, inp, w.out, Visited(step, b, k));
      }
    }
    WalkKeeps(g, step, b, alg, |b|);
  }
}
