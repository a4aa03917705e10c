/** Collapsing nested additions (or multiplications) into n-ary ones. */
module Nary {
  import opened Ir
  import opened Walk
  import opened Meaning

  function Without(args: seq<nat>, p: nat): (r: seq<nat>)
  {
    if args == [] then [] else
      var rest := Without(args[..|args| - 1], p);
      if args[|args| - 1] == p then rest else rest + [args[|args| - 1]]
  }

  function Count(args: seq<nat>, p: nat): (c: nat)
    ensures c == 0 <==> p !in args
  {
    if args == [] then 0 else
      assert args == args[..|args| - 1] + [args[|args| - 1]];
      Count(args[..|args| - 1], p) + if args[|args| - 1] == p then 1 else 0
  }

  /** The operation collapseAdd creates behind a user of p: the other operands, then those of p. */
  function Merged(p: nat, out: Body, op: Op): Op
    requires p < |out|
  {
    op.(args := Without(op.args, p) + out[p].args)
  }

  /** One operation behind p: a user of the same kind stays, gets one merged copy per use of p right
      behind it, and the first created copy (which ends up last) takes over its uses. */
  function CollapseVisit(kind: Head, p: nat, out: Body, op: Op): Emit
  {
    if op.head == kind && p in op.args && p < |out| then
      var c := Count(op.args, p);
      Emit([op] + seq(c, j => Merged(p, out, op)), |out| + c)
    else
      Emit([op], |out|)
  }

  function CollapseStep(kind: Head, p: nat): Step
  {
    (k: nat, out: Body, op: Op) => CollapseVisit(kind, p, out, op)
  }

  function Collapse(kind: Head, b: Body, p: nat): Walked
    requires Ordered(b)
  {
    Apply(CollapseStep(kind, p), b)
  }

  lemma {:induction false} WithoutProps(args: seq<nat>, p: nat)
    ensures p !in Without(args, p)
    ensures forall x :: x in Without(args, p) <==> x in args && x != p
  {
    if args != [] {
      WithoutProps(args[..|args| - 1], p);
      assert args == args[..|args| - 1] + [args[|args| - 1]];
    }
  }

  /** Splicing the operands of p in for p changes which types occur only through p itself. */
  lemma {:induction false} MergedTypes(b: Body, args: seq<nat>, zs: seq<nat>, p: nat, ty: Ty)
    requires Below(args, |b|) && Below(zs, |b|) && p < |b| && p in args
    ensures var new_ := Without(args, p) + zs;
      && Below(new_, |b|)
      && (SomeOperand(b, new_, ty) ==> SomeOperand(b, args, ty) || SomeOperand(b, zs, ty))
      && (SomeOperand(b, zs, ty) ==> SomeOperand(b, new_, ty))
      && (b[p].ty != ty && SomeOperand(b, args, ty) ==> SomeOperand(b, new_, ty))
      && (b[p].ty == ty ==> SomeOperand(b, args, ty))
  {
    WithoutProps(args, p);
    var xs := Without(args, p);
    var new_ := xs + zs;
    forall j | 0 <= j < |new_| ensures new_[j] < |b| {
      if j < |xs| { assert xs[j] in args; } else { assert new_[j] == zs[j - |xs|]; }
    }
    if j :| 0 <= j < |new_| && b[new_[j]].ty == ty {
      if j < |xs| { assert xs[j] in args; } else { assert new_[j] == zs[j - |xs|]; }
    }
    if j :| 0 <= j < |zs| && b[zs[j]].ty == ty {
      assert new_[|xs| + j] == zs[j];
    }
    if b[p].ty != ty {
      if j :| 0 <= j < |args| && b[args[j]].ty == ty {
        assert args[j] in xs;
        var j' :| 0 <= j' < |xs| && xs[j'] == args[j];
        assert new_[j'] == args[j];
      }
    }
  }

  lemma {:induction false} MergedOk(g: Signature, kind: Head, p: nat, out: Body, op: Op)
    requires WellTyped(g, out) && OpOk(g, out, op) && Arith(kind) && op.head == kind
    requires p in op.args && p < |out| && out[p].head == kind
    ensures OpOk(g, out, Merged(p, out, op))
  {
    var zs := out[p].args;
    assert OpOk(g, out[..p], out[p]);
    forall ty ensures SomeOperand(out[..p], zs, ty) == SomeOperand(out, zs, ty) {
      SameTypes(out[..p], zs, out, zs);
    }
    MergedTypes(out, op.args, zs, p, Batched);
    MergedTypes(out, op.args, zs, p, Secret);
  }

  lemma {:induction false} OpOkLater(g: Signature, b: Body, ops: seq<Op>, op: Op)
    requires OpOk(g, b, op)
    ensures OpOk(g, b + ops, op)
  {
    if Arith(op.head) {
      SameTypes(b, op.args, b + ops, op.args);
    }
  }

  lemma {:induction false} TypedRepeat(g: Signature, b: Body, op: Op, c: nat)
    requires WellTyped(g, b) && OpOk(g, b, op)
    ensures WellTyped(g, b + seq(c, j => op))
  {
    if c == 0 {
      assert b + seq(c, j => op) == b;
    } else {
      TypedRepeat(g, b, op, c - 1);
      OpOkLater(g, b, seq(c - 1, j => op), op);
      TypedAppend(g, b + seq(c - 1, j => op), op);
      assert b + seq(c, j => op) == b + seq(c - 1, j => op) + [op];
    }
  }

  lemma {:induction false} CollapseVisits(kind: Head, p: nat, b: Body, k: nat)
    requires Ordered(b) && k < |b|
    ensures Visit(CollapseStep(kind, p), b, k)
         == CollapseVisit(kind, p, Before(CollapseStep(kind, p), b, k).out, Visited(CollapseStep(kind, p), b, k))
  {}

  lemma {:induction false} CollapseEmitOk(g: Signature, kind: Head, p: nat, out: Body, op: Op)
    requires WellTyped(g, out) && OpOk(g, out, op) && Arith(kind)
    requires p < |out| ==> out[p].head == kind
    ensures EmitOk(g, out, op, CollapseVisit(kind, p, out, op))
  {
    TypedAppend(g, out, op);
    var e := CollapseVisit(kind, p, out, op);
    if op.head == kind && p in op.args && p < |out| {
      MergedOk(g, kind, p, out, op);
      var m, c := Merged(p, out, op), Count(op.args, p);
      OpOkLater(g, out, [op], m);
      TypedRepeat(g, out + [op], m, c);
      assert out + e.ops == out + [op] + seq(c, j => m);
    }
  }

  /** Everything up to p stays as it is and where it is. */
  lemma {:induction false} PrefixKept(kind: Head, b: Body, p: nat, k: nat)
    requires Ordered(b) && p < |b| && k <= |b|
    ensures var w := Before(CollapseStep(kind, p), b, k);
      && (k <= p + 1 ==> w.out == b[..k])
      && (k > p ==> b[..p + 1] <= w.out)
      && (forall j :: 0 <= j < k && j <= p ==> w.ren[j] == j)
  {
    if k > 0 {
      var step, m := CollapseStep(kind, p), k - 1;
      PrefixKept(kind, b, p, m);
      BeforeNext(step, b, m);
      CollapseVisits(kind, p, b, m);
      if m <= p {
        assert Visited(step, b, m).args == b[m].args;
      }
    }
  }

  /** Collapsing yields a well-typed operation list. */
  lemma {:induction false} CollapseTyped(g: Signature, kind: Head, b: Body, p: nat)
    requires WellTyped(g, b) && Ordered(b) && Arith(kind) && p < |b| && b[p].head == kind
    ensures forall k :: 0 <= k < |b| ==> StepTyped(g, CollapseStep(kind, p), b, k)
    ensures WellTyped(g, Collapse(kind, b, p).out) && Tracks(b, Collapse(kind, b, p))
  {
    var step := CollapseStep(kind, p);
    forall k | 0 <= k < |b| ensures StepTyped(g, step, b, k) {
      var w := Before(step, b, k);
      if WellTyped(g, w.out) && Tracks(b, w) {
        RenamedOk(g, b, k, w);
        PrefixKept(kind, b, p, k);
        CollapseVisits(kind, p, b, k);
        CollapseEmitOk(g, kind, p, w.out, Visited(step, b, k));
      }
    }
    WalkTyped(g, step, b, |b|);
  }

  // ---------------------------------------------------------------- values

  ghost predicate SpliceAt<T>(alg: Algebra<T>, kind: Head, xs: seq<T>, zs: seq<T>, ys: seq<T>)
  {
    alg(kind, xs + [alg(kind, zs)] + ys) == alg(kind, xs + ys + zs)
  }

  /** A nested application may be replaced by its operands, moved to the end. */
  ghost predicate Splices<T(!new)>(alg: Algebra<T>, kind: Head)
  {
    forall xs, zs, ys :: SpliceAt(alg, kind, xs, zs, ys)
  }

  lemma {:induction false} CountOne(args: seq<nat>, p: nat) returns (q: nat)
    requires Count(args, p) == 1
    ensures q < |args| && args[q] == p
    ensures Without(args, p) == args[..q] + args[q + 1..]
  {
    var m := |args| - 1;
    if args[m] == p {
      q := m;
      WithoutNone(args[..m], p);
    } else {
      q := CountOne(args[..m], p);
      assert args[..m][q + 1..] + [args[m]] == args[q + 1..];
      assert args[..m][..q] == args[..q];
    }
  }

  lemma {:induction false} WithoutNone(args: seq<nat>, p: nat)
    requires p !in args
    ensures Without(args, p) == args
  {
    if args != [] {
      WithoutNone(args[..|args| - 1], p);
    }
  }

  /** Merging a user that lists p once keeps its value. */
  lemma {:induction false} MergedKeeps<T(!new)>(alg: Algebra<T>, kind: Head, p: nat, out: Body, op: Op)
    requires Ordered(out) && Below(op.args, |out|) && p < |out| && out[p].head == kind == op.head
    requires Count(op.args, p) == 1 && Splices(alg, kind)
    ensures Below(Merged(p, out, op).args, |out|)
    ensures alg(kind, Pick(Run(alg, out), Merged(p, out, op).args)) == alg(kind, Pick(Run(alg, out), op.args))
  {
    var q := CountOne(op.args, p);
    var v, zs := Run(alg, out), out[p].args;
    RunAt(alg, out, p);
    assert Below(zs, p);
    var l, r := op.args[..q], op.args[q + 1..];
    assert op.args == l + [p] + r;
    BelowConcat(l + [p], r, |out|);
    BelowConcat(l, [p], |out|);
    PickAround(v, l, p, r, zs);
    assert SpliceAt(alg, kind, Pick(v, l), Pick(v, zs), Pick(v, r));
  }

  lemma {:induction false} PickAround<T>(v: seq<T>, l: seq<nat>, p: nat, r: seq<nat>, zs: seq<nat>)
    requires Below(l, |v|) && p < |v| && Below(r, |v|) && Below(zs, |v|)
    ensures Below(l + [p] + r, |v|) && Pick(v, l + [p] + r) == Pick(v, l) + [v[p]] + Pick(v, r)
    ensures Below(l + r + zs, |v|) && Pick(v, l + r + zs) == Pick(v, l) + Pick(v, r) + Pick(v, zs)
  {
    PickConcat(v, l, [p]);
    PickConcat(v, l + [p], r);
    PickConcat(v, l, r);
    PickConcat(v, l + r, zs);
    assert Pick(v, [p]) == [v[p]];
  }

  lemma {:induction false} CollapseKeepsAt<T(!new)>(alg: Algebra<T>, kind: Head, p: nat, out: Body, op: Op)
    requires Ordered(out) && Below(op.args, |out|)
    requires p < |out| ==> out[p].head == kind
    requires op.head == kind ==> Count(op.args, p) <= 1
    requires Splices(alg, kind)
    ensures var e := CollapseVisit(kind, p, out, op);
      Ordered(out + e.ops) ==>
        e.res < |out + e.ops| && Run(alg, out + e.ops)[e.res] == alg(op.head, Pick(Run(alg, out), op.args))
  {
    var e := CollapseVisit(kind, p, out, op);
    if Ordered(out + e.ops) {
      RunAppend(alg, out, op);
      if op.head == kind && p in op.args && p < |out| {
        var m := Merged(p, out, op);
        MergedKeeps(alg, kind, p, out, op);
        assert out + e.ops == out + [op] + [m];
        RunAppend(alg, out + [op], m);
        PickPrefix(Run(alg, out), Run(alg, out + [op]), m.args);
      } else {
        assert out + e.ops == out + [op];
      }
    }
  }

  /** No operation of this kind lists, twice, an operation of this kind at position i or later. */
  ghost predicate NoDup(kind: Head, b: Body, i: nat)
    requires Ordered(b)
  {
    forall q, a :: 0 <= q < |b| && b[q].head == kind && i <= a < q && b[a].head == kind ==> Count(b[q].args, a) <= 1
  }

  /** The renaming of a collapse is increasing, keeps opcodes, and fixes what stands before p. */
  ghost predicate Renames(kind: Head, p: nat, b: Body, w: Walked)
    requires Ordered(b) && p < |b|
  {
    && |w.ren| <= |b|
    && (forall i, j :: 0 <= i < j < |w.ren| ==> w.ren[i] < w.ren[j])
    && (forall j :: 0 <= j < |w.ren| ==> w.ren[j] < |w.out| && w.out[w.ren[j]].head == b[j].head)
    && (forall j :: 0 <= j < |w.ren| && j <= p ==> w.ren[j] == j)
    && (|w.ren| > p ==> b[..p + 1] <= w.out)
    && (|w.ren| <= p ==> w.out == b[..|w.ren|])
  }

  lemma {:induction false} CollapseRenames(kind: Head, b: Body, p: nat, k: nat)
    requires Ordered(b) && p < |b| && k <= |b|
    ensures Renames(kind, p, b, Before(CollapseStep(kind, p), b, k))
  {
    if k > 0 {
      var step, m := CollapseStep(kind, p), k - 1;
      CollapseRenames(kind, b, p, m);
      PrefixKept(kind, b, p, k);
      BeforeNext(step, b, m);
      CollapseVisits(kind, p, b, m);
      RenamesNext(kind, p, b, Before(step, b, m));
    }
  }

  lemma {:induction false} RenamesNext(kind: Head, p: nat, b: Body, w: Walked)
    requires Ordered(b) && p < |b| && Renames(kind, p, b, w) && |w.ren| < |b|
    requires var e := CollapseVisit(kind, p, w.out, Renamed(b[|w.ren|], w.ren));
      (|w.ren| <= p ==> e.res == |w.ren| && w.out + e.ops == b[..|w.ren| + 1])
    ensures var e := CollapseVisit(kind, p, w.out, Renamed(b[|w.ren|], w.ren));
      Renames(kind, p, b, Walked(w.out + e.ops, w.ren + [e.res]))
  {
    var op := Renamed(b[|w.ren|], w.ren);
    var e := CollapseVisit(kind, p, w.out, op);
    assert (w.out + e.ops)[e.res].head == op.head;
    RenamesGrows(kind, p, b, w, e);
  }

  lemma {:induction false} RenamesGrows(kind: Head, p: nat, b: Body, w: Walked, e: Emit)
    requires Ordered(b) && p < |b| && Renames(kind, p, b, w) && |w.ren| < |b|
    requires |w.out| <= e.res < |w.out + e.ops| && (w.out + e.ops)[e.res].head == b[|w.ren|].head
    requires |w.ren| <= p ==> e.res == |w.ren| && w.out + e.ops == b[..|w.ren| + 1]
    ensures Renames(kind, p, b, Walked(w.out + e.ops, w.ren + [e.res]))
  {}

  lemma {:induction false} CountRenamed(args: seq<nat>, ren: seq<nat>, a: nat)
    requires Below(args, |ren|) && a < |ren|
    requires forall i, j :: 0 <= i < j < |ren| ==> ren[i] < ren[j]
    ensures Count(Pick(ren, args), ren[a]) == Count(args, a)
  {
    if args != [] {
      var m := |args| - 1;
      CountRenamed(args[..m], ren, a);
      assert Pick(ren, args)[..m] == Pick(ren, args[..m]);
    }
  }

  /** Collapsing p keeps the value of every operation, provided no user lists p twice. */
  lemma {:induction false} CollapseKeeps<T(!new)>(g: Signature, alg: Algebra<T>, kind: Head, b: Body, p: nat)
    requires WellTyped(g, b) && Ordered(b) && Arith(kind) && p < |b| && b[p].head == kind
    requires NoDup(kind, b, p) && Splices(alg, kind)
    ensures Ordered(Collapse(kind, b, p).out)
    ensures Agrees(alg, b, Collapse(kind, b, p))
  {
    var step := CollapseStep(kind, p);
    CollapseTyped(g, kind, b, p);
    forall k | 0 <= k < |b| ensures StepKeeps(g, step, b, k, alg) {
      var w, op := Before(step, b, k), Visited(step, b, k);
      if WellTyped(g, w.out) && Tracks(b, w) && Ordered(w.out) {
        CollapseRenames(kind, b, p, k);
        RenamedOk(g, b, k, w);
        CollapseVisits(kind, p, b, k);
        if k > p {
          CountRenamed(b[k].args, w.ren, p);
        } else {
          assert Count(op.args, p) == 0;
        }
        CollapseKeepsAt(alg, kind, p, w.out, op);
      }
    }
    WalkKeeps(g, step, b, alg, |b|);
  }

  // ---------------------------------------------------------------- repeated operands

  lemma {:induction false} CountConcat(xs: seq<nat>, ys: seq<nat>, a: nat)
    ensures Count(xs + ys, a) == Count(xs, a) + Count(ys, a)
  {
    if ys == [] {
      assert xs + ys == xs;
    } else {
      CountConcat(xs, ys[..|ys| - 1], a);
      assert (xs + ys)[..|xs + ys| - 1] == xs + ys[..|ys| - 1];
    }
  }

  lemma {:induction false} CountWithout(args: seq<nat>, p: nat, a: nat)
    ensures Count(Without(args, p), a) == if a == p then 0 else Count(args, a)
  {
    if args != [] {
      var m := |args| - 1;
      CountWithout(args[..m], p, a);
      if args[m] != p {
        CountConcat(Without(args[..m], p), [args[m]], a);
        assert [args[m]][..0] == [];
      }
    }
  }

  ghost predicate NoDupOp(kind: Head, out: Body, i: nat, op: Op)
  {
    op.head == kind ==> forall a :: i <= a < |out| && out[a].head == kind ==> Count(op.args, a) <= 1
  }

  lemma {:induction false} NoDupAppend(kind: Head, out: Body, i: nat, op: Op)
    requires Ordered(out) && Below(op.args, |out|)
    requires NoDup(kind, out, i) && NoDupOp(kind, out, i, op)
    ensures Ordered(out + [op]) && NoDup(kind, out + [op], i)
  {
    forall q, a | 0 <= q < |out + [op]| && (out + [op])[q].head == kind && i <= a < q && (out + [op])[a].head == kind
      ensures Count((out + [op])[q].args, a) <= 1
    {
      if q < |out| { assert Count(out[q].args, a) <= 1; }
    }
  }

  lemma {:induction false} NoDupRepeat(kind: Head, out: Body, i: nat, op: Op, c: nat)
    requires Ordered(out) && Below(op.args, |out|)
    requires NoDup(kind, out, i) && NoDupOp(kind, out, i, op)
    ensures Ordered(out + seq(c, j => op)) && NoDup(kind, out + seq(c, j => op), i)
  {
    if c == 0 {
      assert out + seq(c, j => op) == out;
    } else {
      NoDupRepeat(kind, out, i, op, c - 1);
      var out' := out + seq(c - 1, j => op);
      forall a | |out| <= a < |out'| ensures Count(op.args, a) == 0 {}
      NoDupAppend(kind, out', i, op);
      assert out + seq(c, j => op) == out' + [op];
    }
  }

  /** What a collapse emits for operation k lists nothing twice that it did not before. */
  lemma {:induction false} EmitNoDup(kind: Head, p: nat, b: Body, w: Walked)
    requires Ordered(b) && p < |w.ren| < |b| && b[p].head == kind
    requires Renames(kind, p, b, w) && Ordered(w.out) && NoDup(kind, b, p)
    ensures var op := Renamed(b[|w.ren|], w.ren);
      && NoDupOp(kind, w.out, p + 1, op)
      && (op.head == kind ==> NoDupOp(kind, w.out, p + 1, Merged(p, w.out, op)))
  {
    var k := |w.ren|;
    var op := Renamed(b[k], w.ren);
    if op.head == kind {
      forall a | p + 1 <= a < |w.out| && w.out[a].head == kind
        ensures Count(op.args, a) <= 1 && Count(Merged(p, w.out, op).args, a) <= 1
      {
        if a in op.args {
          var t :| 0 <= t < |op.args| && op.args[t] == a;
          var j := b[k].args[t];
          CountRenamed(b[k].args, w.ren, j);
          assert j > p;
        }
        assert Below(w.out[p].args, p);
        CountConcat(Without(op.args, p), w.out[p].args, a);
        CountWithout(op.args, p, a);
      }
    }
  }

  lemma {:induction false} EmitKeepsNoDup(kind: Head, p: nat, b: Body, w: Walked)
    requires Ordered(b) && p < |w.ren| < |b| && b[p].head == kind
    requires Renames(kind, p, b, w) && Ordered(w.out) && NoDup(kind, b, p) && NoDup(kind, w.out, p + 1)
    ensures var e := CollapseVisit(kind, p, w.out, Renamed(b[|w.ren|], w.ren));
      Ordered(w.out + e.ops) && NoDup(kind, w.out + e.ops, p + 1)
  {
    var op := Renamed(b[|w.ren|], w.ren);
    var e := CollapseVisit(kind, p, w.out, op);
    EmitNoDup(kind, p, b, w);
    NoDupAppend(kind, w.out, p + 1, op);
    if op.head == kind && p in op.args {
      var mo, c := Merged(p, w.out, op), Count(op.args, p);
      MergedBelow(p, w.out, op);
      assert Count(mo.args, |w.out|) == 0;
      assert NoDupOp(kind, w.out + [op], p + 1, mo);
      NoDupRepeat(kind, w.out + [op], p + 1, mo, c);
      assert w.out + e.ops == w.out + [op] + seq(c, j => mo);
    } else {
      assert w.out + e.ops == w.out + [op];
    }
  }

  lemma {:induction false} CollapseNoDup(kind: Head, b: Body, p: nat, k: nat)
    requires Ordered(b) && p < k <= |b| && b[p].head == kind && NoDup(kind, b, p)
    ensures var w := Before(CollapseStep(kind, p), b, k); Ordered(w.out) && NoDup(kind, w.out, p + 1)
  {
    if k == p + 1 {
      PrefixKept(kind, b, p, k);
      assert b[..k] <= b;
    } else {
      CollapseNoDup(kind, b, p, k - 1);
      NoDupNext(kind, b, p, k - 1);
    }
  }

  lemma {:induction false} NoDupNext(kind: Head, b: Body, p: nat, m: nat)
    requires Ordered(b) && p < m < |b| && b[p].head == kind && NoDup(kind, b, p)
    requires var w := Before(CollapseStep(kind, p), b, m); Ordered(w.out) && NoDup(kind, w.out, p + 1)
    ensures var w := Before(CollapseStep(kind, p), b, m + 1); Ordered(w.out) && NoDup(kind, w.out, p + 1)
  {
    var step := CollapseStep(kind, p);
    CollapseRenames(kind, b, p, m);
    BeforeNext(step, b, m);
    CollapseVisits(kind, p, b, m);
    EmitKeepsNoDup(kind, p, b, Before(step, b, m));
  }

  lemma {:induction false} MergedBelow(p: nat, out: Body, op: Op)
    requires Ordered(out) && Below(op.args, |out|) && p < |out|
    ensures Below(Merged(p, out, op).args, |out|)
  {
    WithoutProps(op.args, p);
    var xs := Without(op.args, p);
    forall j | 0 <= j < |xs| ensures xs[j] < |out| { assert xs[j] in op.args; }
    assert Below(out[p].args, p);
    BelowConcat(xs, out[p].args, |out|);
  }

  // ---------------------------------------------------------------- flatness

  ghost predicate Used(b: Body, j: nat)
  {
    exists q :: 0 <= q < |b| && j in b[q].args
  }

  /** A used operation of this kind has no operand of this kind before position i. */
  ghost predicate FlatUpTo(kind: Head, b: Body, i: nat)
    requires Ordered(b)
  {
    forall q, a :: 0 <= q < |b| && b[q].head == kind && Used(b, q) && a in b[q].args && b[a].head == kind ==> i <= a
  }

  /** Operands in the new list stand for operands in the old one. */
  ghost predicate UsesImage(b: Body, w: Walked)
  {
    forall q, a :: 0 <= q < |w.out| && a in w.out[q].args ==> exists j :: 0 <= j < |w.ren| && w.ren[j] == a && Used(b, j)
  }

  lemma {:induction false} UsesImageVisit(kind: Head, p: nat, b: Body, w: Walked)
    requires Ordered(b) && |w.ren| < |b| && p < |b| && UsesImage(b, w) && Ordered(w.out)
    ensures var e := CollapseVisit(kind, p, w.out, Renamed(b[|w.ren|], w.ren));
      UsesImage(b, Walked(w.out + e.ops, w.ren + [e.res]))
  {
    var op := Renamed(b[|w.ren|], w.ren);
    var e := CollapseVisit(kind, p, w.out, op);
    var w' := Walked(w.out + e.ops, w.ren + [e.res]);
    forall q, a | 0 <= q < |w'.out| && a in w'.out[q].args
      ensures exists j :: 0 <= j < |w'.ren| && w'.ren[j] == a && Used(b, j)
    {
      if q < |w.out| {
        var j :| 0 <= j < |w.ren| && w.ren[j] == a && Used(b, j);
        assert w'.ren[j] == a;
      } else if a in op.args {
        var t :| 0 <= t < |op.args| && op.args[t] == a;
        assert w'.ren[b[|w.ren|].args[t]] == a;
      } else {
        WithoutProps(op.args, p);
        assert a in w.out[p].args;
        var j :| 0 <= j < |w.ren| && w.ren[j] == a && Used(b, j);
        assert w'.ren[j] == a;
      }
    }
  }

  lemma {:induction false} CollapseUsesImage(g: Signature, kind: Head, b: Body, p: nat, k: nat)
    requires WellTyped(g, b) && Ordered(b) && Arith(kind) && p < |b| && b[p].head == kind && k <= |b|
    ensures UsesImage(b, Before(CollapseStep(kind, p), b, k))
  {
    if k > 0 {
      var step, m := CollapseStep(kind, p), k - 1;
      CollapseUsesImage(g, kind, b, p, m);
      CollapseTyped(g, kind, b, p);
      WalkTyped(g, step, b, m);
      TypedOrdered(g, Before(step, b, m).out);
      BeforeNext(step, b, m);
      CollapseVisits(kind, p, b, m);
      UsesImageVisit(kind, p, b, Before(step, b, m));
    }
  }

  /** The value replacing operation k: itself, or its merged copy. */
  ghost predicate ImageOf(kind: Head, p: nat, out: Body, op: Op, r: nat)
  {
    && r < |out|
    && out[r] == (if op.head == kind && p in op.args && p < |out| then Merged(p, out, op) else op)
  }

  lemma {:induction false} EmitImage(kind: Head, p: nat, out: Body, op: Op, out': Body)
    requires Below(op.args, |out|)
    requires out + CollapseVisit(kind, p, out, op).ops <= out'
    ensures ImageOf(kind, p, out', op, CollapseVisit(kind, p, out, op).res)
  {
    var e := CollapseVisit(kind, p, out, op);
    assert out'[e.res] == (out + e.ops)[e.res];
    if op.head == kind && p in op.args {
      var t :| 0 <= t < |op.args| && op.args[t] == p;
      assert out'[p] == out[p];
      assert e.ops[e.res - |out|] == Merged(p, out, op);
    }
  }

  lemma {:induction false} CollapseVisitAt(kind: Head, b: Body, p: nat, k: nat)
    requires Ordered(b) && k < |b|
    ensures var w, w' := Before(CollapseStep(kind, p), b, k), Collapse(kind, b, p);
      var e := CollapseVisit(kind, p, w.out, Renamed(b[k], w.ren));
      w.ren == w'.ren[..k] && w'.ren[k] == e.res && w.out + e.ops <= w'.out
  {
    var step := CollapseStep(kind, p);
    WalkPrefix(step, b, k, |b|);
    WalkPrefix(step, b, k + 1, |b|);
    BeforeNext(step, b, k);
    CollapseVisits(kind, p, b, k);
  }

  lemma {:induction false} CollapseImage(g: Signature, kind: Head, b: Body, p: nat, k: nat)
    requires WellTyped(g, b) && Ordered(b) && Arith(kind) && p < |b| && b[p].head == kind && k < |b|
    ensures var w := Collapse(kind, b, p);
      ImageOf(kind, p, w.out, Renamed(b[k], w.ren), w.ren[k])
  {
    var step := CollapseStep(kind, p);
    CollapseTyped(g, kind, b, p);
    WalkTyped(g, step, b, k);
    CollapseVisitAt(kind, b, p, k);
    var w, w' := Before(step, b, k), Collapse(kind, b, p);
    RenamedOk(g, b, k, w);
    var op := Renamed(b[k], w.ren);
    assert op == Renamed(b[k], w'.ren);
    EmitImage(kind, p, w.out, op, w'.out);
  }

  /** The image of a used operation has only later operands of its kind. */
  lemma {:induction false} ImageFlat(kind: Head, p: nat, b: Body, w: Walked, k: nat, x: nat)
    requires Ordered(b) && p < |b| && b[p].head == kind && FlatUpTo(kind, b, p)
    requires Renames(kind, p, b, w) && |w.ren| == |b| && Ordered(w.out)
    requires k < |b| && Used(b, k) && ImageOf(kind, p, w.out, Renamed(b[k], w.ren), w.ren[k])
    requires b[k].head == kind && x in w.out[w.ren[k]].args && x < |w.out| && w.out[x].head == kind
    ensures p + 1 <= x
  {
    var op := Renamed(b[k], w.ren);
    WithoutProps(op.args, p);
    if p in op.args {
      var t :| 0 <= t < |op.args| && op.args[t] == p;
      var a := b[k].args[t];
      assert w.ren[a] == p == w.ren[p];
      assert a == p && p in b[k].args && Used(b, p);
      assert forall y :: y in b[p].args ==> y < p && w.out[y] == b[y];
      assert x in Without(op.args, p) + b[p].args;
    }
    assert x in op.args && x != p;
    var t :| 0 <= t < |op.args| && op.args[t] == x;
    var a := b[k].args[t];
    assert a in b[k].args && w.ren[a] == x && b[a].head == kind;
  }

  lemma {:induction false} CollapseFlat(g: Signature, kind: Head, b: Body, p: nat)
    requires WellTyped(g, b) && Ordered(b) && Arith(kind) && p < |b| && b[p].head == kind
    requires FlatUpTo(kind, b, p)
    ensures var out := Collapse(kind, b, p).out; Ordered(out) && FlatUpTo(kind, out, p + 1)
  {
    var w := Collapse(kind, b, p);
    CollapseTyped(g, kind, b, p);
    TypedOrdered(g, w.out);
    CollapseUsesImage(g, kind, b, p, |b|);
    CollapseRenames(kind, b, p, |b|);
    forall q, x | 0 <= q < |w.out| && w.out[q].head == kind && Used(w.out, q) && x in w.out[q].args && w.out[x].head == kind
      ensures p + 1 <= x
    {
      var r :| 0 <= r < |w.out| && q in w.out[r].args;
      var k :| 0 <= k < |w.ren| && w.ren[k] == q && Used(b, k);
      CollapseImage(g, kind, b, p, k);
      ImageFlat(kind, p, b, w, k, x);
    }
  }

  // ---------------------------------------------------------------- termination

  function Pow2(k: nat): nat { if k == 0 then 1 else 2 * Pow2(k - 1) }

  /** How many operands are operations of this kind at position i or later. */
  function Pending(kind: Head, b: Body, i: nat, args: seq<nat>): nat
    requires Below(args, |b|)
  {
    if args == [] then 0 else
      var a := args[|args| - 1];
      assert Below(args[..|args| - 1], |b|);
      Pending(kind, b, i, args[..|args| - 1]) + if i <= a && b[a].head == kind then 1 else 0
  }

  function Weight(kind: Head, b: Body, i: nat, op: Op): (r: nat)
    requires Below(op.args, |b|)
  {
    if op.head == kind then Pow2(Pending(kind, b, i, op.args)) else 1
  }

  /** The work left when the sweep stands at position i: an operation of the kind with m pending
      operands can still give rise to 2^m operations. */
  function Load(kind: Head, b: Body, i: nat): nat
    requires Ordered(b)
  {
    if |b| <= i then 0 else
      var m := |b| - 1;
      assert Ordered(b[..m]) && Below(b[m].args, m);
      Load(kind, b[..m], i) + Weight(kind, b[..m], i, b[m])
  }

  lemma {:induction false} LoadAppend(kind: Head, b: Body, i: nat, op: Op)
    requires Ordered(b) && Below(op.args, |b|) && i <= |b|
    ensures Ordered(b + [op]) && Load(kind, b + [op], i) == Load(kind, b, i) + Weight(kind, b, i, op)
  {
    assert (b + [op])[..|b|] == b;
  }

  lemma {:induction false} PendingConcat(kind: Head, b: Body, i: nat, xs: seq<nat>, ys: seq<nat>)
    requires Below(xs, |b|) && Below(ys, |b|) && Below(xs + ys, |b|)
    ensures Pending(kind, b, i, xs + ys) == Pending(kind, b, i, xs) + Pending(kind, b, i, ys)
  {
    if ys == [] {
      assert xs + ys == xs;
    } else {
      var m := |ys| - 1;
      BelowConcat(xs, ys[..m], |b|);
      PendingConcat(kind, b, i, xs, ys[..m]);
      assert (xs + ys)[..|xs + ys| - 1] == xs + ys[..m];
    }
  }

  lemma {:induction false} PendingLater(kind: Head, b: Body, c: Body, i: nat, args: seq<nat>)
    requires Below(args, |b|) && b <= c
    ensures Below(args, |c|) && Pending(kind, c, i, args) == Pending(kind, b, i, args)
  {
    if args != [] {
      PendingLater(kind, b, c, i, args[..|args| - 1]);
    }
  }

  lemma {:induction false} PendingNone(kind: Head, b: Body, i: nat, args: seq<nat>)
    requires Below(args, |b|) && Below(args, i)
    ensures Pending(kind, b, i, args) == 0
  {
    if args != [] {
      PendingNone(kind, b, i, args[..|args| - 1]);
    }
  }

  lemma {:induction false} PendingWithout(kind: Head, b: Body, i: nat, args: seq<nat>, p: nat)
    requires Below(args, |b|) && p < i
    ensures Below(Without(args, p), |b|)
    ensures Pending(kind, b, i, Without(args, p)) == Pending(kind, b, i, args)
  {
    if args != [] {
      var m := |args| - 1;
      PendingWithout(kind, b, i, args[..m], p);
      if args[m] != p { PendingPush(kind, b, i, Without(args[..m], p), args[m]); }
    }
  }

  lemma {:induction false} PendingPush(kind: Head, b: Body, i: nat, args: seq<nat>, a: nat)
    requires Below(args, |b|) && a < |b|
    ensures Below(args + [a], |b|)
    ensures Pending(kind, b, i, args + [a]) == Pending(kind, b, i, args) + if i <= a && b[a].head == kind then 1 else 0
  {
    assert (args + [a])[..|args|] == args;
  }

  /** A merged copy has the pending operands of its original. */
  lemma {:induction false} PendingMerged(kind: Head, p: nat, out: Body, op: Op)
    requires Ordered(out) && Below(op.args, |out|) && p < |out|
    ensures Below(Merged(p, out, op).args, |out|)
    ensures Pending(kind, out, p + 1, Merged(p, out, op).args) == Pending(kind, out, p + 1, op.args)
  {
    var xs, zs := Without(op.args, p), out[p].args;
    assert Below(zs, p);
    PendingWithout(kind, out, p + 1, op.args, p);
    BelowConcat(xs, zs, |out|);
    PendingConcat(kind, out, p + 1, xs, zs);
    PendingNone(kind, out, p + 1, zs);
  }

  lemma {:induction false} PendingRenamed(kind: Head, p: nat, b: Body, w: Walked, args: seq<nat>)
    requires Ordered(b) && p < |w.ren| <= |b| && b[p].head == kind && Renames(kind, p, b, w)
    requires Below(args, |w.ren|)
    ensures Below(Pick(w.ren, args), |w.out|)
    ensures Pending(kind, w.out, p + 1, Pick(w.ren, args)) + Count(args, p) == Pending(kind, b[..|w.ren|], p, args)
  {
    if args != [] {
      var m := |args| - 1;
      PendingRenamed(kind, p, b, w, args[..m]);
      assert Pick(w.ren, args)[..m] == Pick(w.ren, args[..m]);
      var a := args[m];
      assert w.ren[a] <= p <==> a <= p;
    }
  }

  lemma {:induction false} Pow2Copies(c: nat, m: nat)
    requires c <= m
    ensures (1 + c) * Pow2(m - c) <= Pow2(m)
  {
    if c > 0 {
      Pow2Copies(c - 1, m);
      var x := Pow2(m - c);
      assert Pow2(m - (c - 1)) == 2 * x;
      assert (1 + c) * x <= c * (2 * x) by { assert c * (2 * x) - (1 + c) * x == (c - 1) * x; }
    }
  }

  lemma {:induction false} LoadRepeat(kind: Head, b: Body, i: nat, op: Op, c: nat)
    requires Ordered(b) && Below(op.args, |b|) && i <= |b|
    ensures Ordered(b + seq(c, j => op))
    ensures Load(kind, b + seq(c, j => op), i) == Load(kind, b, i) + c * Weight(kind, b, i, op)
  {
    if c == 0 {
      assert b + seq(c, j => op) == b;
    } else {
      LoadRepeat(kind, b, i, op, c - 1);
      LoadRepeatNext(kind, b, i, op, c - 1);
      var x := Weight(kind, b, i, op);
      assert (c - 1) * x + x == c * x;
    }
  }

  lemma {:induction false} LoadRepeatNext(kind: Head, b: Body, i: nat, op: Op, c: nat)
    requires Ordered(b) && Below(op.args, |b|) && i <= |b| && Ordered(b + seq(c, j => op))
    ensures Ordered(b + seq(c + 1, j => op))
    ensures Load(kind, b + seq(c + 1, j => op), i) == Load(kind, b + seq(c, j => op), i) + Weight(kind, b, i, op)
  {
    var b' := b + seq(c, j => op);
    PendingLater(kind, b, b', i, op.args);
    LoadAppend(kind, b', i, op);
    assert b + seq(c + 1, j => op) == b' + [op];
  }

  /** A user with m pending operands, c of them p, weighs at least as much as itself and its c copies
      once p is no longer pending. */
  lemma {:induction false} EmitWeight(kind: Head, p: nat, out: Body, op: Op, m: nat)
    requires Ordered(out) && Below(op.args, |out|) && p < |out|
    requires op.head == kind ==> m == Pending(kind, out, p + 1, op.args) + Count(op.args, p)
    ensures var e := CollapseVisit(kind, p, out, op);
      Ordered(out + e.ops) &&
      Load(kind, out + e.ops, p + 1) <= Load(kind, out, p + 1) + if op.head == kind then Pow2(m) else 1
  {
    if op.head == kind && p in op.args {
      CopiesWeight(kind, p, out, op, Count(op.args, p), Pending(kind, out, p + 1, op.args));
      EmittedCopies(kind, p, out, op);
    } else {
      LoadAppend(kind, out, p + 1, op);
      WeightWithout(kind, p, out, op, m);
    }
  }

  lemma {:induction false} EmittedCopies(kind: Head, p: nat, out: Body, op: Op)
    requires op.head == kind && p in op.args && p < |out|
    ensures out + CollapseVisit(kind, p, out, op).ops == out + [op] + seq(Count(op.args, p), j => Merged(p, out, op))
  {}

  lemma {:induction false} WeightWithout(kind: Head, p: nat, out: Body, op: Op, m: nat)
    requires Below(op.args, |out|) && p < |out| && !(op.head == kind && p in op.args)
    requires op.head == kind ==> m == Pending(kind, out, p + 1, op.args) + Count(op.args, p)
    ensures out + CollapseVisit(kind, p, out, op).ops == out + [op]
    ensures Weight(kind, out, p + 1, op) <= if op.head == kind then Pow2(m) else 1
  {
    if op.head == kind { assert Count(op.args, p) == 0; }
  }

  lemma {:induction false} CopiesWeight(kind: Head, p: nat, out: Body, op: Op, c: nat, x: nat)
    requires Ordered(out) && Below(op.args, |out|) && p < |out| && op.head == kind
    requires Pending(kind, out, p + 1, op.args) == x
    ensures var b := out + [op] + seq(c, j => Merged(p, out, op));
      Ordered(b) && Load(kind, b, p + 1) <= Load(kind, out, p + 1) + Pow2(x + c)
  {
    var mo := Merged(p, out, op);
    LoadAppend(kind, out, p + 1, op);
    PendingMerged(kind, p, out, op);
    PendingLater(kind, out, out + [op], p + 1, mo.args);
    LoadRepeat(kind, out + [op], p + 1, mo, c);
    Pow2Copies(c, x + c);
    assert (1 + c) * Pow2(x) == Pow2(x) + c * Pow2(x);
  }

  lemma {:induction false} CollapseLoad(kind: Head, b: Body, p: nat, k: nat)
    requires Ordered(b) && p < k <= |b| && b[p].head == kind
    ensures var out := Before(CollapseStep(kind, p), b, k).out;
      Ordered(out) && Ordered(b[..k]) && Load(kind, out, p + 1) < Load(kind, b[..k], p)
  {
    if k == p + 1 {
      LoadAt(kind, b, p);
    } else {
      CollapseLoad(kind, b, p, k - 1);
      LoadNext(kind, b, p, k - 1);
    }
  }

  lemma {:induction false} LoadAt(kind: Head, b: Body, p: nat)
    requires Ordered(b) && p < |b| && b[p].head == kind
    ensures var out := Before(CollapseStep(kind, p), b, p + 1).out;
      Ordered(out) && Ordered(b[..p + 1]) && Load(kind, out, p + 1) < Load(kind, b[..p + 1], p)
  {
    assert Ordered(b[..p]) && Ordered(b[..p + 1]) && b[..p + 1] == b[..p] + [b[p]];
    LoadAppend(kind, b[..p], p, b[p]);
    PrefixKept(kind, b, p, p + 1);
    PowPositive(Pending(kind, b[..p], p, b[p].args));
  }

  lemma {:induction false} LoadNext(kind: Head, b: Body, p: nat, m: nat)
    requires Ordered(b) && p < m < |b| && b[p].head == kind && Ordered(b[..m])
    requires var out := Before(CollapseStep(kind, p), b, m).out; Ordered(out) && Load(kind, out, p + 1) < Load(kind, b[..m], p)
    ensures var out := Before(CollapseStep(kind, p), b, m + 1).out;
      Ordered(out) && Ordered(b[..m + 1]) && Load(kind, out, p + 1) < Load(kind, b[..m + 1], p)
  {
    LoadPrefix(kind, b, p, m);
    BeforeNext(CollapseStep(kind, p), b, m);
    VisitWeight(kind, b, p, m);
  }

  lemma {:induction false} LoadPrefix(kind: Head, b: Body, p: nat, m: nat)
    requires Ordered(b) && p <= m < |b| && Ordered(b[..m])
    ensures Below(b[m].args, m) && Ordered(b[..m + 1])
    ensures Load(kind, b[..m + 1], p) == Load(kind, b[..m], p) + Weight(kind, b[..m], p, b[m])
  {
    assert b[..m + 1] == b[..m] + [b[m]];
    LoadAppend(kind, b[..m], p, b[m]);
  }

  /** One operation behind the collapsed one adds no more than it weighed. */
  lemma {:induction false} VisitWeight(kind: Head, b: Body, p: nat, m: nat)
    requires Ordered(b) && p < m < |b| && b[p].head == kind && Ordered(b[..m]) && Below(b[m].args, m)
    requires Ordered(Before(CollapseStep(kind, p), b, m).out)
    ensures var w, e := Before(CollapseStep(kind, p), b, m), Visit(CollapseStep(kind, p), b, m);
      Ordered(w.out + e.ops) && Load(kind, w.out + e.ops, p + 1) <= Load(kind, w.out, p + 1) + Weight(kind, b[..m], p, b[m])
  {
    var step := CollapseStep(kind, p);
    var w := Before(step, b, m);
    CollapseRenames(kind, b, p, m);
    CollapseVisits(kind, p, b, m);
    PendingRenamed(kind, p, b, w, b[m].args);
    CountRenamed(b[m].args, w.ren, p);
    EmitWeight(kind, p, w.out, Visited(step, b, m), Pending(kind, b[..m], p, b[m].args));
  }

  lemma {:induction false} PowPositive(k: nat)
    ensures Pow2(k) >= 1
  {
    if k > 0 { PowPositive(k - 1); }
  }

  lemma {:induction false} PendingSkip(kind: Head, b: Body, i: nat, args: seq<nat>)
    requires Below(args, |b|) && (i < |b| ==> b[i].head != kind)
    ensures Pending(kind, b, i + 1, args) == Pending(kind, b, i, args)
  {
    if args != [] {
      PendingSkip(kind, b, i, args[..|args| - 1]);
    }
  }

  lemma {:induction false} LoadSkip(kind: Head, b: Body, i: nat)
    requires Ordered(b) && i < |b| && b[i].head != kind
    ensures Load(kind, b, i + 1) < Load(kind, b, i)
  {
    var m := |b| - 1;
    assert Ordered(b[..m]) && Below(b[m].args, m);
    if i < m {
      LoadSkip(kind, b[..m], i);
      PendingSkip(kind, b[..m], i, b[m].args);
    }
  }

  // ---------------------------------------------------------------- the sweep

  function Then(w: Walked, r: Walked): (q: Walked)
    requires Below(w.ren, |r.ren|)
    ensures q.out == r.out && |q.ren| == |w.ren| && (Below(r.ren, |r.out|) ==> Below(q.ren, |q.out|))
  {
    Walked(r.out, Pick(r.ren, w.ren))
  }

  function Unchanged(b: Body): Walked { Walked(b, seq(|b|, k => k)) }

  /** One collapse leaves less work ahead. */
  lemma {:induction false} CollapseOk(kind: Head, b: Body, i: nat)
    requires Ordered(b) && i < |b| && b[i].head == kind
    ensures var w := Collapse(kind, b, i);
      && Ordered(w.out) && |w.ren| == |b| && Below(w.ren, |w.out|)
      && i + 1 <= |w.out| && Load(kind, w.out, i + 1) < Load(kind, b, i)
  {
    CollapseLoad(kind, b, i, |b|);
    CollapseRenames(kind, b, i, |b|);
    PrefixKept(kind, b, i, |b|);
    assert b[..|b|] == b;
  }

  lemma {:induction false} TracksThen(b: Body, w: Walked, r: Walked)
    requires Tracks(b, w) && Tracks(w.out, r) && |r.ren| == |w.out|
    ensures Below(w.ren, |r.ren|) && Tracks(b, Then(w, r))
  {}

  function CollapsedAt(kind: Head, b: Body, i: nat): (w: Walked)
    requires Ordered(b) && i < |b| && b[i].head == kind
    ensures Ordered(w.out) && |w.ren| == |b| && Below(w.ren, |w.out|)
    ensures i + 1 <= |w.out| && Load(kind, w.out, i + 1) < Load(kind, b, i)
  {
    CollapseOk(kind, b, i);
    Collapse(kind, b, i)
  }

  /** Visits every operation of the kind from position i on, collapsing it into its users; merged
      copies land behind the cursor and are visited in turn. */
  function Sweep(kind: Head, b: Body, i: nat): (w: Walked)
    requires Ordered(b) && i <= |b|
    ensures Ordered(w.out) && |w.ren| == |b| && Below(w.ren, |w.out|)
    decreases Load(kind, b, i)
  {
    if i == |b| then
      Unchanged(b)
    else if b[i].head == kind then
      var w := CollapsedAt(kind, b, i);
      Then(w, Sweep(kind, w.out, i + 1))
    else
      LoadSkip(kind, b, i);
      Sweep(kind, b, i + 1)
  }

  /** One move of the cursor. */
  lemma {:induction false} SweepNext(kind: Head, b: Body, i: nat)
    requires Ordered(b) && i < |b|
    ensures var next := if b[i].head == kind then Collapse(kind, b, i).out else b;
      && Ordered(next) && i + 1 <= |next| && Load(kind, next, i + 1) < Load(kind, b, i)
      && Sweep(kind, b, i).out == Sweep(kind, next, i + 1).out
  {
    if b[i].head == kind { CollapseOk(kind, b, i); } else { LoadSkip(kind, b, i); }
  }

  lemma {:induction false} SweepTyped(g: Signature, kind: Head, b: Body, i: nat)
    requires WellTyped(g, b) && Ordered(b) && Arith(kind) && i <= |b|
    ensures WellTyped(g, Sweep(kind, b, i).out) && Tracks(b, Sweep(kind, b, i))
    decreases Load(kind, b, i)
  {
    if i < |b| {
      if b[i].head == kind {
        var w := Collapse(kind, b, i);
        CollapseOk(kind, b, i);
        CollapseTyped(g, kind, b, i);
        SweepTyped(g, kind, w.out, i + 1);
        TracksThen(b, w, Sweep(kind, w.out, i + 1));
      } else {
        LoadSkip(kind, b, i);
        SweepTyped(g, kind, b, i + 1);
      }
    }
  }

  lemma {:induction false} AgreesThen<T>(alg: Algebra<T>, b: Body, w: Walked, r: Walked)
    requires Ordered(b) && Ordered(w.out) && Ordered(r.out) && |r.ren| == |w.out|
    requires Agrees(alg, b, w) && Agrees(alg, w.out, r)
    ensures Below(w.ren, |r.ren|) && Agrees(alg, b, Then(w, r))
  {}

  lemma {:induction false} CollapseReady<T(!new)>(g: Signature, alg: Algebra<T>, kind: Head, b: Body, i: nat)
    requires WellTyped(g, b) && Ordered(b) && Arith(kind) && i < |b| && b[i].head == kind
    requires NoDup(kind, b, i) && Splices(alg, kind)
    ensures var w := Collapse(kind, b, i);
      && WellTyped(g, w.out) && Ordered(w.out) && i + 1 <= |w.out| && |w.ren| == |b|
      && Load(kind, w.out, i + 1) < Load(kind, b, i)
      && NoDup(kind, w.out, i + 1) && Agrees(alg, b, w)
  {
    CollapseOk(kind, b, i);
    CollapseTyped(g, kind, b, i);
    CollapseKeeps(g, alg, kind, b, i);
    CollapseNoDup(kind, b, i, |b|);
  }

  lemma {:induction false} AgreesUnchanged<T>(alg: Algebra<T>, b: Body)
    requires Ordered(b)
    ensures Agrees(alg, b, Unchanged(b))
  {}

  /** The sweep keeps the value of every operation, in every algebra where nesting can be spliced. */
  lemma {:induction false} SweepKeeps<T(!new)>(g: Signature, alg: Algebra<T>, kind: Head, b: Body, i: nat)
    requires WellTyped(g, b) && Ordered(b) && Arith(kind) && i <= |b|
    requires NoDup(kind, b, i) && Splices(alg, kind)
    ensures Agrees(alg, b, Sweep(kind, b, i))
    decreases Load(kind, b, i)
  {
    if i == |b| {
      AgreesUnchanged(alg, b);
    } else if b[i].head == kind {
      var w := Collapse(kind, b, i);
      CollapseReady(g, alg, kind, b, i);
      SweepKeeps(g, alg, kind, w.out, i + 1);
      AgreesThen(alg, b, w, Sweep(kind, w.out, i + 1));
    } else {
      LoadSkip(kind, b, i);
      SweepKeeps(g, alg, kind, b, i + 1);
    }
  }

  /** Afterwards no used operation of the kind has an operand of the kind. */
  lemma {:induction false} SweepFlat(g: Signature, kind: Head, b: Body, i: nat)
    requires WellTyped(g, b) && Ordered(b) && Arith(kind) && i <= |b| && FlatUpTo(kind, b, i)
    ensures var out := Sweep(kind, b, i).out; FlatUpTo(kind, out, |out|)
    decreases Load(kind, b, i)
  {
    if i < |b| {
      if b[i].head == kind {
        var w := Collapse(kind, b, i);
        CollapseOk(kind, b, i);
        CollapseTyped(g, kind, b, i);
        CollapseFlat(g, kind, b, i);
        SweepFlat(g, kind, w.out, i + 1);
      } else {
        LoadSkip(kind, b, i);
        SweepFlat(g, kind, b, i + 1);
      }
    }
  }

  lemma {:induction false} CollapseLast(kind: Head, b: Body, i: nat)
    requires Ordered(b) && Arith(kind) && EndsInReturn(b)
    ensures var w := Collapse(kind, b, i); EndsInReturn(w.out) && w.ren[|b| - 1] == |w.out| - 1
  {
    CollapseVisits(kind, i, b, |b| - 1);
    LastStaysLast(CollapseStep(kind, i), b);
  }

  /** The sweep keeps the final return, and keeps it final. */
  ghost predicate KeepsReturn(b: Body, w: Walked)
  {
    EndsInReturn(w.out) && b != [] && |w.ren| == |b| && w.ren[|b| - 1] == |w.out| - 1
  }

  lemma {:induction false} KeepsReturnThen(b: Body, w: Walked, r: Walked)
    requires KeepsReturn(b, w) && KeepsReturn(w.out, r) && Below(w.ren, |r.ren|)
    ensures KeepsReturn(b, Then(w, r))
  {}

  lemma {:induction false} SweepLast(kind: Head, b: Body, i: nat)
    requires Ordered(b) && Arith(kind) && i <= |b| && EndsInReturn(b)
    ensures KeepsReturn(b, Sweep(kind, b, i))
    decreases Load(kind, b, i)
  {
    if i == |b| {
      assert Sweep(kind, b, i) == Unchanged(b);
    } else if b[i].head == kind {
      var w := Collapse(kind, b, i);
      CollapseOk(kind, b, i);
      CollapseLast(kind, b, i);
      SweepLast(kind, w.out, i + 1);
      KeepsReturnThen(b, w, Sweep(kind, w.out, i + 1));
    } else {
      LoadSkip(kind, b, i);
      SweepLast(kind, b, i + 1);
    }
  }

  // ---------------------------------------------------------------- instances

  lemma {:induction false} DenoteAdd(n: nat, inp: nat -> Val, xs: seq<Val>)
    ensures Denote(n, inp)(Add, xs) == Fold(Addition(), xs)
  {
    assert Denote(n, inp)(Add, xs) == Compute(n, inp, Add, xs);
  }

  lemma {:induction false} DenoteMul(n: nat, inp: nat -> Val, xs: seq<Val>)
    ensures Denote(n, inp)(Mul, xs) == Fold(Multiplication(), xs)
  {
    assert Denote(n, inp)(Mul, xs) == Compute(n, inp, Mul, xs);
  }

  /** An algebra that folds the operands of an opcode with a lawful monoid can splice it. */
  lemma {:induction false} FoldingSplices<T(!new)>(alg: Algebra<T>, kind: Head, m: Monoid<T>)
    requires Lawful(m) && forall xs :: alg(kind, xs) == Fold(m, xs)
    ensures Splices(alg, kind)
  {
    forall xs, zs, ys ensures SpliceAt(alg, kind, xs, zs, ys) {
      FoldSplice(m, xs, zs, ys);
      assert alg(kind, zs) == Fold(m, zs);
    }
  }

  lemma {:induction false} AddSplices(n: nat, inp: nat -> Val)
    ensures Splices(Denote(n, inp), Add)
  {
    AdditionLawful();
    forall xs ensures Denote(n, inp)(Add, xs) == Fold(Addition(), xs) { DenoteAdd(n, inp, xs); }
    FoldingSplices(Denote(n, inp), Add, Addition());
  }

  lemma {:induction false} MulSplices(n: nat, inp: nat -> Val)
    ensures Splices(Denote(n, inp), Mul)
  {
    MultiplicationLawful();
    forall xs ensures Denote(n, inp)(Mul, xs) == Fold(Multiplication(), xs) { DenoteMul(n, inp, xs); }
    FoldingSplices(Denote(n, inp), Mul, Multiplication());
  }

  /** Flattening additions, or multiplications, of a function in which no such operation lists another
      twice: same result on every input, and no used one left with an operand of its own kind. */
  lemma {:induction false} NaryCorrect(g: Signature, kind: Head, b: Body, inp: nat -> Val)
    requires WellTyped(g, b) && Ordered(b) && EndsInReturn(b) && (kind == Add || kind == Mul)
    requires NoDup(kind, b, 0)
    ensures var w := Sweep(kind, b, 0);
      && EndsInReturn(w.out)
      && Result(Denote(g.n, inp), w.out) == Result(Denote(g.n, inp), b)
      && Agrees(Denote(g.n, inp), b, w)
      && (forall q, a :: 0 <= q < |w.out| && w.out[q].head == kind && Used(w.out, q) && a in w.out[q].args
                         ==> w.out[a].head != kind)
  {
    AddSplices(g.n, inp);
    MulSplices(g.n, inp);
    SweepKeeps(g, Denote(g.n, inp), kind, b, 0);
    SweepFlat(g, kind, b, 0);
    SweepLast(kind, b, 0);
  }
}
