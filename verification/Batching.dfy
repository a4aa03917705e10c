/** Turning scalar arithmetic into slot-parallel arithmetic on rotated vectors. */
module Batching {
  import opened Ir
  import opened Walk
  import opened Meaning
  import opened Folding

  // ---------------------------------------------------------------- target slots

  /** The order in which a value's users are enumerated; the pass does not control it. */
  type UseOrder = seq<nat> -> seq<nat>

  ghost predicate Enumerates(o: UseOrder)
  {
    forall us: seq<nat>, x: nat :: x in o(us) <==> x in us
  }

  /** Positions of the operations that use value k. */
  function Users(b: Body, k: nat): (us: seq<nat>)
    ensures forall x: nat :: x in us <==> (x < |b| && k in b[x].args)
  {
    if b == [] then [] else
      var m := |b| - 1;
      var us := Users(b[..m], k);
      assert forall x: nat :: x < m ==> b[..m][x] == b[x];
      if k in b[m].args then us + [m] else us
  }

  /** The slot asked for by the first user that is an extract, an insert or a return; -1 if none is. */
  function UserSlot(b: Body, us: seq<nat>): int
  {
    if us == [] || us[0] >= |b| then -1 else
      var u := b[us[0]];
      match u.head
      case Extract(i) => i
      case Insert(i) => i
      case Return => if |u.args| == 1 && u.args[0] < |b| && b[u.args[0]].ty == Secret then 0 else -1
      case _ => UserSlot(b, us[1..])
  }

  predicate FromExtract(out: Body, a: nat) { a < |out| && out[a].ty == Secret && out[a].head.Extract? }

  /** The slot of the first extracted operand, or 0 if a later one sits there. */
  function OperandSlot(out: Body, args: seq<nat>): int
  {
    if args == [] then -1 else
      var m := |args| - 1;
      var t := OperandSlot(out, args[..m]);
      if FromExtract(out, args[m]) && (t == -1 || out[args[m]].head.i == 0) then out[args[m]].head.i else t
  }

  function TargetSlot(user: int, out: Body, args: seq<nat>): int
  {
    if user != -1 then user else OperandSlot(out, args)
  }

  // ---------------------------------------------------------------- operands

  function Replaced(args: seq<nat>, a: nat, r: nat): (s: seq<nat>)
    ensures |s| == |args| && forall j :: 0 <= j < |args| ==> s[j] == if args[j] == a then r else args[j]
  {
    seq(|args|, j requires 0 <= j < |args| => if args[j] == a then r else args[j])
  }

  /** The list with the operand conversions placed in it, the new operands, the target slot, and
      whether every secret operand could be converted. */
  datatype Converted = Converted(out: Body, args: seq<nat>, slot: int, ok: bool)

  predicate Convertible1(op: Op) { op.head.Extract? || op.head.Const? }

  /** Without a target yet, an extract makes its own slot the target. */
  function NextSlot(slot: int, x: Op): int
  {
    if x.head.Extract? && slot == -1 then x.head.i else slot
  }

  /** The batched stand-in of a scalar: a rotation that brings slot i to the target, or a splat. */
  function StandIn(slot: int, x: Op): Op
    requires Convertible1(x)
  {
    if x.head.Extract? then Op(Rotate(slot - x.head.i), x.args, Batched) else Op(Splat(x.head.c), [], Batched)
  }

  /** Converts the operands from number j on; each conversion replaces every occurrence of its operand. */
  function Convert(out: Body, slot: int, args: seq<nat>, j: nat): Converted
    requires j <= |args|
    decreases |args| - j
  {
    if j == |args| then Converted(out, args, slot, true) else
      var a := args[j];
      if a >= |out| || out[a].ty != Secret then
        Convert(out, slot, args, j + 1)
      else if Convertible1(out[a]) then
        var t := NextSlot(slot, out[a]);
        Convert(out + [StandIn(t, out[a])], t, Replaced(args, a, |out|), j + 1)
      else
        Converted(out, args, slot, false)
  }

  // ---------------------------------------------------------------- the walk

  predicate ScalarArith(op: Op) { Arith(op.head) && op.ty == Secret }

  /** A scalar operation becomes its operand conversions, the batched operation, and an extract of the
      target slot. The code gives up on the function when an operand cannot be converted. */
  function BatchVisit(user: int, out: Body, op: Op): Emit
  {
    if !ScalarArith(op) then Emit([op], |out|) else
      var c := Convert(out, TargetSlot(user, out, op.args), op.args, 0);
      if c.ok && |c.out| >= |out| && Below(c.args, |c.out|) then
        Emit(c.out[|out|..] + [Op(op.head, c.args, InferTy(c.out, c.args)), Op(Extract(c.slot), [|c.out|], Secret)],
             |c.out| + 1)
      else
        Emit([op], |out|)
  }

  function BatchStep(o: UseOrder, b: Body): Step
  {
    (k: nat, out: Body, op: Op) => BatchVisit(UserSlot(b, o(Users(b, k))), out, op)
  }

  function Batch(o: UseOrder, b: Body): (w: Walked)
    requires Ordered(b)
    ensures Ordered(w.out) && |w.ren| == |b| && Below(w.ren, |w.out|)
  {
    BatchOrdered(o, b);
    Apply(BatchStep(o, b), b)
  }

  lemma {:induction false} ConvertOrdered(out: Body, slot: int, args: seq<nat>, j: nat)
    requires Ordered(out) && j <= |args|
    ensures Ordered(Convert(out, slot, args, j).out) && out <= Convert(out, slot, args, j).out
    decreases |args| - j
  {
    if j < |args| {
      var a := args[j];
      if a >= |out| || out[a].ty != Secret {
        ConvertOrdered(out, slot, args, j + 1);
      } else if Convertible1(out[a]) {
        assert Below(out[a].args, a);
        ConvertOrdered(out + [StandIn(NextSlot(slot, out[a]), out[a])], NextSlot(slot, out[a]), Replaced(args, a, |out|), j + 1);
      }
    }
  }

  lemma {:induction false} BatchLinks(user: int, out: Body, op: Op)
    ensures Links(out, op, BatchVisit(user, out, op))
  {
    LinksReplace(out, op, op);
    var c := Convert(out, TargetSlot(user, out, op.args), op.args, 0);
    if Ordered(out) && ScalarArith(op) && c.ok && |c.out| >= |out| && Below(c.args, |c.out|) {
      ConvertOrdered(out, TargetSlot(user, out, op.args), op.args, 0);
      var m, x := Op(op.head, c.args, InferTy(c.out, c.args)), Op(Extract(c.slot), [|c.out|], Secret);
      Reassemble(out, c.out, m, x);
      assert Ordered(c.out + [m]);
      assert Ordered(c.out + [m] + [x]);
    }
  }

  lemma {:induction false} BatchOrdered(o: UseOrder, b: Body)
    requires Ordered(b)
    ensures var w := Apply(BatchStep(o, b), b); Ordered(w.out) && Below(w.ren, |w.out|)
  {
    forall j: nat, out: Body, op: Op | j < |b| ensures Links(out, op, BatchStep(o, b)(j, out, op)) {
      BatchLinks(UserSlot(b, o(Users(b, j))), out, op);
    }
    WalkOrdered(BatchStep(o, b), b, |b|);
  }

  // ---------------------------------------------------------------- what a conversion achieves

  /** Operand a of the original list is represented by operand r of the extended one. */
  predicate Stands(out0: Body, a: nat, out: Body, r: nat)
  {
    && a < |out0| <= |out| && r < |out|
    && (out0[a].ty == Secret ==> out[r].ty == Batched)
    && (out0[a].ty != Secret ==> r == a)
  }

  /** The operands before j are converted; any other is itself or already converted. */
  ghost predicate Progress(out0: Body, args0: seq<nat>, out: Body, args: seq<nat>, j: nat)
  {
    && out0 <= out && |args| == |args0|
    && (forall p :: 0 <= p < |args| ==> args[p] == args0[p] || Stands(out0, args0[p], out, args[p]))
    && (forall p :: 0 <= p < j && p < |args| ==> Stands(out0, args0[p], out, args[p]))
  }

  predicate NoVectors(out: Body, args: seq<nat>)
  {
    forall p :: 0 <= p < |args| ==> args[p] < |out| && out[args[p]].ty != Batched
  }

  lemma {:induction false} ProgressSkip(out0: Body, args0: seq<nat>, out: Body, args: seq<nat>, j: nat)
    requires Progress(out0, args0, out, args, j) && j < |args| && NoVectors(out0, args0)
    requires args[j] < |out| && out[args[j]].ty != Secret
    ensures Progress(out0, args0, out, args, j + 1)
  {
    assert args0[j] < |out0| && out[args0[j]] == out0[args0[j]];
  }

  lemma {:induction false} ProgressPlace(out0: Body, args0: seq<nat>, out: Body, args: seq<nat>, j: nat, op: Op)
    requires Progress(out0, args0, out, args, j) && j < |args| && NoVectors(out0, args0)
    requires args[j] < |out| && out[args[j]].ty == Secret && op.ty == Batched
    ensures args[j] == args0[j]
    ensures Progress(out0, args0, out + [op], Replaced(args, args[j], |out|), j + 1)
  {
    var out', args' := out + [op], Replaced(args, args[j], |out|);
    assert args[j] == args0[j];
    forall p | 0 <= p < |args'|
      ensures args'[p] == args0[p] || Stands(out0, args0[p], out', args'[p])
      ensures p <= j ==> Stands(out0, args0[p], out', args'[p])
    {
      assert args0[p] < |out0| && out[args0[p]] == out0[args0[p]];
      if args[p] == args[j] {
        assert args'[p] == |out|;
      }
    }
  }

  lemma {:induction false} StandInOk(g: Signature, out: Body, a: nat, slot: int)
    requires WellTyped(g, out) && a < |out| && Convertible1(out[a])
    ensures OpOk(g, out, StandIn(slot, out[a])) && WellTyped(g, out + [StandIn(slot, out[a])])
  {
    assert OpOk(g, out[..a], out[a]);
    TypedAppend(g, out, StandIn(slot, out[a]));
  }

  /** Every secret operand is an extract or a scalar constant. */
  predicate Convertible(out: Body, args: seq<nat>, j: nat)
  {
    forall p :: j <= p < |args| && args[p] < |out| && out[args[p]].ty == Secret ==> Convertible1(out[args[p]])
  }

  lemma {:induction false} ConvertibleNext(out: Body, args: seq<nat>, j: nat, op: Op)
    requires j < |args| && Below(args, |out|) && Convertible1(out[args[j]]) && op.ty == Batched
    ensures Below(Replaced(args, args[j], |out|), |out + [op]|)
    ensures Convertible(out + [op], Replaced(args, args[j], |out|), j + 1) <==> Convertible(out, args, j)
  {
    var out', args' := out + [op], Replaced(args, args[j], |out|);
    assert forall p :: 0 <= p < |args| ==> out'[args'[p]] == if args[p] == args[j] then op else out[args[p]];
    if Convertible(out', args', j + 1) {
      forall p | j <= p < |args| && out[args[p]].ty == Secret ensures Convertible1(out[args[p]]) {
        if args[p] != args[j] { assert out'[args'[p]] == out[args[p]]; }
      }
    }
  }

  lemma {:induction false} ProgressBelow(out0: Body, args0: seq<nat>, out: Body, args: seq<nat>, j: nat)
    requires Progress(out0, args0, out, args, j) && NoVectors(out0, args0)
    ensures Below(args, |out|)
  {
    forall p | 0 <= p < |args| ensures args[p] < |out| { assert args0[p] < |out0|; }
  }

  /** A conversion fails exactly when some secret operand is neither extract nor constant; when it
      succeeds the list stays well typed and every operand has its stand-in. */
  lemma {:induction false} ConvertOk(g: Signature, out0: Body, args0: seq<nat>, out: Body, slot: int, args: seq<nat>, j: nat)
    requires WellTyped(g, out) && Progress(out0, args0, out, args, j) && j <= |args| && NoVectors(out0, args0)
    ensures var c := Convert(out, slot, args, j);
      && (c.ok <==> Convertible(out, args, j))
      && (c.ok ==> WellTyped(g, c.out) && out <= c.out && Progress(out0, args0, c.out, c.args, |args|))
    decreases |args| - j
  {
    if j < |args| {
      var a := args[j];
      ProgressBelow(out0, args0, out, args, j);
      if out[a].ty != Secret {
        ProgressSkip(out0, args0, out, args, j);
        ConvertOk(g, out0, args0, out, slot, args, j + 1);
      } else if Convertible1(out[a]) {
        var t := NextSlot(slot, out[a]);
        StandInOk(g, out, a, t);
        ProgressPlace(out0, args0, out, args, j, StandIn(t, out[a]));
        ConvertibleNext(out, args, j, StandIn(t, out[a]));
        ConvertOk(g, out0, args0, out + [StandIn(t, out[a])], t, Replaced(args, a, |out|), j + 1);
      }
    }
  }

  // ---------------------------------------------------------------- what the stand-ins compute

  /** Operand r of the extended list computes what the stand-in of operand a should. */
  ghost predicate Holds<T>(alg: Algebra<T>, slot: int, out0: Body, a: nat, out: Body, r: nat)
    requires Ordered(out0) && Ordered(out) && a < |out0| && r < |out|
  {
    if out0[a].ty == Secret then
      Convertible1(out0[a]) && Below(StandIn(slot, out0[a]).args, |out0|)
      && Run(alg, out)[r] == alg(StandIn(slot, out0[a]).head, Pick(Run(alg, out0), StandIn(slot, out0[a]).args))
    else
      r == a
  }

  ghost predicate HoldsUpTo<T>(alg: Algebra<T>, slot: int, out0: Body, args0: seq<nat>, out: Body, args: seq<nat>, j: nat)
    requires Ordered(out0) && Ordered(out) && Below(args0, |out0|) && Below(args, |out|) && |args| == |args0|
  {
    forall p :: 0 <= p < |args| && (p < j || args[p] != args0[p]) ==> Holds(alg, slot, out0, args0[p], out, args[p])
  }

  lemma {:induction false} StandInHolds<T>(alg: Algebra<T>, slot: int, out0: Body, out: Body, a: nat)
    requires Ordered(out) && out0 <= out && a < |out0| && out0[a].ty == Secret && Convertible1(out0[a])
    ensures Ordered(out0) && Ordered(out + [StandIn(slot, out[a])])
    ensures Holds(alg, slot, out0, a, out + [StandIn(slot, out[a])], |out|)
  {
    RunExtends(alg, out0, out);
    assert out[a] == out0[a] && Below(out0[a].args, a);
    var s := StandIn(slot, out[a]);
    RunAppend(alg, out, s);
    PickPrefix(Run(alg, out0), Run(alg, out), s.args);
  }

  lemma {:induction false} HoldsLater<T>(alg: Algebra<T>, slot: int, out0: Body, a: nat, out: Body, r: nat, out': Body)
    requires Ordered(out') && out <= out' && Ordered(out) && Ordered(out0) && a < |out0| && r < |out|
    requires Holds(alg, slot, out0, a, out, r)
    ensures Holds(alg, slot, out0, a, out', r)
  {
    RunExtends(alg, out, out');
  }

  /** Replacing the uses of one operand by its stand-in. */
  lemma {:induction false} HoldsNext<T>(alg: Algebra<T>, slot: int, out0: Body, args0: seq<nat>, out: Body, args: seq<nat>, j: nat, out': Body, args': seq<nat>)
    requires Ordered(out0) && Ordered(out) && Ordered(out') && out <= out' && |args0| == |args| && j < |args|
    requires Below(args0, |out0|) && Below(args, |out|) && Below(args', |out'|) && HoldsUpTo(alg, slot, out0, args0, out, args, j)
    requires args' == Replaced(args, args[j], |out|) && |out| < |out'| && Holds(alg, slot, out0, args0[j], out', |out|)
    requires forall p :: 0 <= p < |args| && args[p] == args[j] ==> args0[p] == args[p]
    ensures HoldsUpTo(alg, slot, out0, args0, out', args', j + 1)
  {
    forall p | 0 <= p < |args'| && (p < j + 1 || args'[p] != args0[p])
      ensures Holds(alg, slot, out0, args0[p], out', args'[p])
    {
      if args[p] != args[j] {
        HoldsLater(alg, slot, out0, args0[p], out, args[p], out');
      }
    }
  }

  /** Every conversion towards a known slot yields what its stand-in should. */
  lemma {:induction false} ConvertHolds<T>(g: Signature, alg: Algebra<T>, out0: Body, args0: seq<nat>, out: Body, slot: int, args: seq<nat>, j: nat)
    requires WellTyped(g, out) && Ordered(out) && Ordered(out0) && j <= |args| && slot != -1
    requires Progress(out0, args0, out, args, j) && NoVectors(out0, args0) && Convertible(out, args, j)
    requires Below(args0, |out0|) && Below(args, |out|) && HoldsUpTo(alg, slot, out0, args0, out, args, j)
    ensures var c := Convert(out, slot, args, j);
      && c.slot == slot && Ordered(c.out) && |c.args| == |args0| && Below(c.args, |c.out|)
      && HoldsUpTo(alg, slot, out0, args0, c.out, c.args, |args|)
    decreases |args| - j
  {
    if j < |args| {
      var a := args[j];
      assert args0[j] < |out0| && out[args0[j]] == out0[args0[j]];
      if out[a].ty != Secret {
        ProgressSkip(out0, args0, out, args, j);
        ConvertHolds(g, alg, out0, args0, out, slot, args, j + 1);
      } else {
        var op := StandIn(slot, out[a]);
        var out', args' := out + [op], Replaced(args, a, |out|);
        StandInOk(g, out, a, slot);
        TypedOrdered(g, out');
        ProgressPlace(out0, args0, out, args, j, op);
        ConvertibleNext(out, args, j, op);
        StandInHolds(alg, slot, out0, out, a);
        HoldsNext(alg, slot, out0, args0, out, args, j, out', args');
        ConvertHolds(g, alg, out0, args0, out', slot, args', j + 1);
      }
    }
  }

  /** The stand-in of operand a, told in any algebra. */
  function StandVal<T>(alg: Algebra<T>, slot: int, out: Body, a: nat): T
    requires Ordered(out) && a < |out| && (out[a].ty == Secret ==> Convertible1(out[a]))
  {
    if out[a].ty == Secret then
      alg(StandIn(slot, out[a]).head, Pick(Run(alg, out), StandIn(slot, out[a]).args))
    else
      Run(alg, out)[a]
  }

  function StandVals<T>(alg: Algebra<T>, slot: int, out: Body, args: seq<nat>): (ys: seq<T>)
    requires Ordered(out) && Below(args, |out|) && Convertible(out, args, 0)
    ensures |ys| == |args| && forall p :: 0 <= p < |args| ==> ys[p] == StandVal(alg, slot, out, args[p])
  {
    seq(|args|, p requires 0 <= p < |args| => StandVal(alg, slot, out, args[p]))
  }

  lemma {:induction false} StandValsPicked<T>(alg: Algebra<T>, t: int, out: Body, args0: seq<nat>, out': Body, args: seq<nat>)
    requires Ordered(out) && Ordered(out') && Below(args0, |out|) && Below(args, |out'|) && |args| == |args0|
    requires out <= out' && Convertible(out, args0, 0) && HoldsUpTo(alg, t, out, args0, out', args, |args|)
    ensures Pick(Run(alg, out'), args) == StandVals(alg, t, out, args0)
  {
    RunExtends(alg, out, out');
    forall p | 0 <= p < |args|
      ensures Pick(Run(alg, out'), args)[p] == StandVals(alg, t, out, args0)[p]
    {
      assert Holds(alg, t, out, args0[p], out', args[p]);
    }
  }

  lemma {:induction false} PickLast<T>(v: seq<T>, y: T)
    ensures Pick(v + [y], [|v|]) == [y]
  {}

  lemma {:induction false} RunTwo<T>(alg: Algebra<T>, b: Body, m: Op, x: Op)
    requires Ordered(b) && Below(m.args, |b|) && x.args == [|b|]
    ensures Ordered(b + [m]) && Ordered(b + [m] + [x])
    ensures Run(alg, b + [m] + [x])[|b| + 1] == alg(x.head, [alg(m.head, Pick(Run(alg, b), m.args))])
  {
    var y := alg(m.head, Pick(Run(alg, b), m.args));
    RunAppend(alg, b, m);
    PickLast(Run(alg, b), y);
    RunAppend(alg, b + [m], x);
  }

  /** What a visit of a scalar operation with a target slot emits. */
  lemma {:induction false} BatchVisitShape(g: Signature, user: int, out: Body, op: Op)
    requires WellTyped(g, out) && OpOk(g, out, op) && ScalarArith(op)
    requires Convertible(out, op.args, 0)
    ensures var t, e := TargetSlot(user, out, op.args), BatchVisit(user, out, op);
      var c := Convert(out, t, op.args, 0);
      var m, x := Op(op.head, c.args, Batched), Op(Extract(c.slot), [|c.out|], Secret);
      && c.ok && WellTyped(g, c.out) && out <= c.out && Below(c.args, |c.out|) && OpOk(g, c.out, m)
      && out + e.ops == c.out + [m] + [x] && e.res == |c.out| + 1
      && (forall i :: |out| <= i < |c.out| ==> !ScalarArith(c.out[i]))
  {
    var t, e := TargetSlot(user, out, op.args), BatchVisit(user, out, op);
    var c := Convert(out, t, op.args, 0);
    ScalarOperands(g, out, op);
    ConvertOk(g, out, op.args, out, t, op.args, 0);
    ConvertPlaces(out, t, op.args, 0);
    StandsBatched(g, out, op, c);
    Reassemble(out, c.out, Op(op.head, c.args, Batched), Op(Extract(c.slot), [|c.out|], Secret));
  }

  lemma {:induction false} Reassemble(out: Body, out': Body, m: Op, x: Op)
    requires out <= out'
    ensures out + (out'[|out|..] + [m, x]) == out' + [m] + [x]
  {}

  /** A scalar operation with a target slot: the batched operation on the stand-ins, read at that slot. */
  lemma {:induction false} BatchVisitValue<T>(g: Signature, alg: Algebra<T>, user: int, out: Body, op: Op)
    requires WellTyped(g, out) && Ordered(out) && OpOk(g, out, op) && ScalarArith(op)
    requires Convertible(out, op.args, 0) && TargetSlot(user, out, op.args) != -1
    ensures var e, t := BatchVisit(user, out, op), TargetSlot(user, out, op.args);
      && Ordered(out + e.ops) && e.res < |out + e.ops| && (out + e.ops)[e.res].head == Extract(t)
      && Run(alg, out + e.ops)[e.res] == alg(Extract(t), [alg(op.head, StandVals(alg, t, out, op.args))])
  {
    var t, args := TargetSlot(user, out, op.args), op.args;
    var c := Convert(out, t, args, 0);
    BatchVisitShape(g, user, out, op);
    ScalarOperands(g, out, op);
    ConvertHolds(g, alg, out, args, out, t, args, 0);
    StandValsPicked(alg, t, out, args, c.out, c.args);
    RunTwo(alg, c.out, Op(op.head, c.args, Batched), Op(Extract(c.slot), [|c.out|], Secret));
  }

  /** The emitted operations are well typed exactly when there is a target slot inside the vector. */
  lemma {:induction false} BatchVisitOk(g: Signature, user: int, out: Body, op: Op)
    requires WellTyped(g, out) && OpOk(g, out, op) && ScalarArith(op)
    requires Convertible(out, op.args, 0)
    ensures var t := Convert(out, TargetSlot(user, out, op.args), op.args, 0).slot;
      EmitOk(g, out, op, BatchVisit(user, out, op)) <==> 0 <= t < g.n
  {
    BatchVisitShape(g, user, out, op);
    var e, c := BatchVisit(user, out, op), Convert(out, TargetSlot(user, out, op.args), op.args, 0);
    var m, x := Op(op.head, c.args, Batched), Op(Extract(c.slot), [|c.out|], Secret);
    TypedAppend(g, c.out, m);
    var all := c.out + [m] + [x];
    assert all[..|c.out| + 1] == c.out + [m] && all[|c.out| + 1] == x;
    if 0 <= c.slot < g.n {
      TypedAppend(g, c.out + [m], x);
    } else {
      assert !OpOk(g, c.out + [m], x);
    }
  }

  lemma {:induction false} ScalarOperands(g: Signature, out: Body, op: Op)
    requires OpOk(g, out, op) && ScalarArith(op)
    ensures NoVectors(out, op.args) && SomeOperand(out, op.args, Secret)
  {
    forall p | 0 <= p < |op.args| ensures op.args[p] < |out| && out[op.args[p]].ty != Batched {}
  }

  /** Only rotations and splats are placed. */
  lemma {:induction false} ConvertPlaces(out: Body, slot: int, args: seq<nat>, j: nat)
    requires j <= |args|
    ensures var c := Convert(out, slot, args, j);
      out <= c.out && forall i :: |out| <= i < |c.out| ==> c.out[i].head.Rotate? || c.out[i].head.Splat?
    decreases |args| - j
  {
    if j < |args| {
      var a := args[j];
      if a >= |out| || out[a].ty != Secret {
        ConvertPlaces(out, slot, args, j + 1);
      } else if Convertible1(out[a]) {
        ConvertPlaces(out + [StandIn(NextSlot(slot, out[a]), out[a])], NextSlot(slot, out[a]), Replaced(args, a, |out|), j + 1);
      }
    }
  }

  lemma {:induction false} StandsBatched(g: Signature, out: Body, op: Op, c: Converted)
    requires OpOk(g, out, op) && ScalarArith(op) && Progress(out, op.args, c.out, c.args, |op.args|)
    ensures Below(c.args, |c.out|)
    ensures OpOk(g, c.out, Op(op.head, c.args, InferTy(c.out, c.args))) && InferTy(c.out, c.args) == Batched
  {
    ScalarOperands(g, out, op);
    forall p | 0 <= p < |c.args| ensures c.args[p] < |c.out| { assert Stands(out, op.args[p], c.out, c.args[p]); }
    var p :| 0 <= p < |op.args| && out[op.args[p]].ty == Secret;
    assert Stands(out, op.args[p], c.out, c.args[p]);
    assert SomeOperand(c.out, c.args, Batched);
  }

  // ---------------------------------------------------------------- which functions can be batched

  /** Every secret operand of the operation is an extract, a constant or another arithmetic result. */
  predicate Batchable(b: Body, op: Op)
  {
    ScalarArith(op) ==>
      forall p :: 0 <= p < |op.args| && op.args[p] < |b| && b[op.args[p]].ty == Secret ==>
        Convertible1(b[op.args[p]]) || Arith(b[op.args[p]].head)
  }

  /** The operation has an operand that sits in some slot. */
  predicate SlottedOperand(b: Body, op: Op)
  {
    exists p :: 0 <= p < |op.args| && op.args[p] < |b| && b[op.args[p]].ty == Secret && !b[op.args[p]].head.Const?
  }

  /** An extract, an insert or a return: what a user must be to ask for a slot. */
  predicate Asks(op: Op) { op.head.Extract? || op.head.Insert? || op.head.Return? }

  /** Some operation that asks for a slot uses value k. */
  predicate Wanted(b: Body, k: nat)
  {
    exists u :: 0 <= u < |b| && k in b[u].args && Asks(b[u])
  }

  /** A user asks for a slot or an operand provides one. */
  predicate HasSlot(b: Body, k: nat)
    requires k < |b|
  {
    ScalarArith(b[k]) ==> Wanted(b, k) || SlottedOperand(b, b[k])
  }

  ghost predicate BatchableUpTo(b: Body, k: nat)
    requires k <= |b|
  {
    forall j :: 0 <= j < k ==> Batchable(b, b[j]) && HasSlot(b, j)
  }

  ghost predicate AllBatchable(b: Body) { BatchableUpTo(b, |b|) }

  /** A scalar operation is replaced by an extract, anything else by an operation of its own kind. */
  ghost predicate Images(b: Body, w: Walked)
  {
    && |w.ren| <= |b|
    && (forall j :: 0 <= j < |w.ren| ==> w.ren[j] < |w.out|)
    && (forall j :: 0 <= j < |w.ren| && ScalarArith(b[j]) ==> w.out[w.ren[j]].head.Extract?)
    && (forall j :: 0 <= j < |w.ren| && !ScalarArith(b[j]) ==> w.out[w.ren[j]].head == b[j].head)
  }

  lemma {:induction false} UserSlotRange(g: Signature, b: Body, us: seq<nat>)
    requires WellTyped(g, b) && g.n > 0
    ensures UserSlot(b, us) == -1 || 0 <= UserSlot(b, us) < g.n
  {
    if us != [] && us[0] < |b| {
      assert OpOk(g, b[..us[0]], b[us[0]]);
      UserSlotRange(g, b, us[1..]);
    }
  }

  /** A user in the list asks for a slot if any does. */
  lemma {:induction false} UserSlotFound(g: Signature, b: Body, us: seq<nat>, k: nat)
    requires WellTyped(g, b) && k < |b| && b[k].ty == Secret && forall i :: 0 <= i < |us| ==> us[i] < |b| && k in b[us[i]].args
    ensures UserSlot(b, us) != -1 <==> exists i :: 0 <= i < |us| && Asks(b[us[i]])
  {
    if us != [] {
      assert OpOk(g, b[..us[0]], b[us[0]]);
      UserSlotFound(g, b, us[1..], k);
      if !Asks(b[us[0]]) {
        assert forall i :: 1 <= i < |us| ==> us[i] == us[1..][i - 1];
      }
    }
  }

  lemma {:induction false} WantedFound(g: Signature, o: UseOrder, b: Body, k: nat)
    requires WellTyped(g, b) && Enumerates(o) && k < |b| && b[k].ty == Secret
    ensures UserSlot(b, o(Users(b, k))) != -1 <==> Wanted(b, k)
  {
    var us := o(Users(b, k));
    forall i | 0 <= i < |us| ensures us[i] < |b| && k in b[us[i]].args { assert us[i] in us; }
    UserSlotFound(g, b, us, k);
    if Wanted(b, k) {
      var u :| 0 <= u < |b| && k in b[u].args && Asks(b[u]);
      assert u in us;
    }
  }

  lemma {:induction false} OperandSlotRange(g: Signature, out: Body, args: seq<nat>)
    requires WellTyped(g, out)
    ensures OperandSlot(out, args) == -1 || 0 <= OperandSlot(out, args) < g.n
    ensures OperandSlot(out, args) == -1 <==> forall p :: 0 <= p < |args| ==> !FromExtract(out, args[p])
  {
    if args != [] {
      var m := |args| - 1;
      OperandSlotRange(g, out, args[..m]);
      if args[m] < |out| { assert OpOk(g, out[..args[m]], out[args[m]]); }
      assert forall p :: 0 <= p < m ==> args[..m][p] == args[p];
      if FromExtract(out, args[m]) {
      } else if OperandSlot(out, args) == -1 {
        forall p | 0 <= p < |args| ensures !FromExtract(out, args[p]) {
          if p < m { assert !FromExtract(out, args[..m][p]); }
        }
      } else {
        var p :| 0 <= p < m && FromExtract(out, args[..m][p]);
        assert FromExtract(out, args[p]);
      }
    }
  }

  /** Operands can be converted in the list being built exactly when they could be batched in the
      original, and they provide a slot there exactly when they did in the original. */
  lemma {:induction false} OperandsCarryOver(g: Signature, b: Body, k: nat, w: Walked)
    requires WellTyped(g, b) && Ordered(b) && k < |b| && Tracks(b, w) && Images(b, w) && |w.ren| == k && ScalarArith(b[k])
    ensures Below(b[k].args, k)
    ensures var args' := Renamed(b[k], w.ren).args;
      && (Convertible(w.out, args', 0) <==> Batchable(b, b[k]))
      && (Batchable(b, b[k]) ==>
            ((exists p :: 0 <= p < |args'| && FromExtract(w.out, args'[p])) <==> SlottedOperand(b, b[k])))
  {
    var args := b[k].args;
    var args' := Renamed(b[k], w.ren).args;
    forall p | 0 <= p < |args|
      ensures args[p] < k && args'[p] < |w.out| && w.out[args'[p]].ty == b[args[p]].ty
      ensures b[args[p]].ty == Secret ==>
        (Convertible1(w.out[args'[p]]) <==> Convertible1(b[args[p]]) || Arith(b[args[p]].head))
      ensures b[args[p]].ty == Secret ==>
        (w.out[args'[p]].head.Extract? <==> b[args[p]].head.Extract? || Arith(b[args[p]].head))
    {
      assert w.out[w.ren[args[p]]].ty == b[args[p]].ty;
    }
    if Batchable(b, b[k]) && SlottedOperand(b, b[k]) {
      var p :| 0 <= p < |args| && b[args[p]].ty == Secret && !b[args[p]].head.Const?;
      assert FromExtract(w.out, args'[p]);
    }
    if p :| 0 <= p < |args'| && FromExtract(w.out, args'[p]) {
      assert b[args[p]].ty == Secret && !b[args[p]].head.Const?;
    }
  }

  lemma {:induction false} BatchVisits(o: UseOrder, b: Body, k: nat)
    requires Ordered(b) && k < |b|
    ensures Visit(BatchStep(o, b), b, k)
         == BatchVisit(UserSlot(b, o(Users(b, k))), Before(BatchStep(o, b), b, k).out, Visited(BatchStep(o, b), b, k))
  {}

  /** The state facts one visit needs. */
  lemma {:induction false} BatchReady(g: Signature, o: UseOrder, b: Body, k: nat)
    requires WellTyped(g, b) && Ordered(b) && g.n > 0 && Enumerates(o) && k < |b| && ScalarArith(b[k])
    requires Batchable(b, b[k]) && HasSlot(b, k)
    requires var w := Before(BatchStep(o, b), b, k); WellTyped(g, w.out) && Tracks(b, w) && Images(b, w)
    ensures var w, op := Before(BatchStep(o, b), b, k), Visited(BatchStep(o, b), b, k);
      var t := TargetSlot(UserSlot(b, o(Users(b, k))), w.out, op.args);
      OpOk(g, w.out, op) && Convertible(w.out, op.args, 0) && 0 <= t < g.n
  {
    var w := Before(BatchStep(o, b), b, k);
    RenamedOk(g, b, k, w);
    OperandsCarryOver(g, b, k, w);
    UserSlotRange(g, b, o(Users(b, k)));
    WantedFound(g, o, b, k);
    OperandSlotRange(g, w.out, Visited(BatchStep(o, b), b, k).args);
  }

  lemma {:induction false} ImagesExtend(b: Body, w: Walked, e: Emit)
    requires Images(b, w) && |w.ren| < |b| && e.res < |w.out + e.ops|
    requires if ScalarArith(b[|w.ren|]) then (w.out + e.ops)[e.res].head.Extract? else (w.out + e.ops)[e.res].head == b[|w.ren|].head
    ensures Images(b, Walked(w.out + e.ops, w.ren + [e.res]))
  {}

  lemma {:induction false} ConvertSlot(out: Body, slot: int, args: seq<nat>, j: nat)
    requires j <= |args| && slot != -1
    ensures Convert(out, slot, args, j).slot == slot
    decreases |args| - j
  {
    if j < |args| {
      var a := args[j];
      if a >= |out| || out[a].ty != Secret {
        ConvertSlot(out, slot, args, j + 1);
      } else if Convertible1(out[a]) {
        ConvertSlot(out + [StandIn(slot, out[a])], slot, Replaced(args, a, |out|), j + 1);
      }
    }
  }

  lemma {:induction false} BatchOne(g: Signature, o: UseOrder, b: Body, k: nat)
    requires WellTyped(g, b) && Ordered(b) && g.n > 0 && Enumerates(o) && k < |b| && Batchable(b, b[k]) && HasSlot(b, k)
    requires var w := Before(BatchStep(o, b), b, k); WellTyped(g, w.out) && Tracks(b, w) && Images(b, w)
    ensures var w, op, e := Before(BatchStep(o, b), b, k), Visited(BatchStep(o, b), b, k), Visit(BatchStep(o, b), b, k);
      && EmitOk(g, w.out, op, e)
      && (if ScalarArith(b[k]) then (w.out + e.ops)[e.res].head.Extract? else (w.out + e.ops)[e.res].head == b[k].head)
  {
    var w, op := Before(BatchStep(o, b), b, k), Visited(BatchStep(o, b), b, k);
    BatchVisits(o, b, k);
    RenamedOk(g, b, k, w);
    if ScalarArith(b[k]) {
      var user := UserSlot(b, o(Users(b, k)));
      BatchReady(g, o, b, k);
      TypedOrdered(g, w.out);
      ConvertSlot(w.out, TargetSlot(user, w.out, op.args), op.args, 0);
      BatchVisitOk(g, user, w.out, op);
      BatchVisitValue(g, Unfold(), user, w.out, op);
    } else {
      TypedAppend(g, w.out, op);
    }
  }

  lemma {:induction false} BatchInvariant(g: Signature, o: UseOrder, b: Body, k: nat)
    requires WellTyped(g, b) && Ordered(b) && g.n > 0 && Enumerates(o) && k <= |b| && BatchableUpTo(b, k)
    ensures var w := Before(BatchStep(o, b), b, k); WellTyped(g, w.out) && Tracks(b, w) && Images(b, w)
  {
    if k > 0 {
      var step, m := BatchStep(o, b), k - 1;
      BatchInvariant(g, o, b, m);
      BatchOne(g, o, b, m);
      BeforeNext(step, b, m);
      TracksExtend(b, Before(step, b, m), Visit(step, b, m));
      ImagesExtend(b, Before(step, b, m), Visit(step, b, m));
    }
  }

  // ---------------------------------------------------------------- values

  lemma {:induction false} ExtractOf(n: nat, inp: nat -> Val, t: int, y: Val)
    requires y.V? && |y.s| == n && 0 <= t < n
    ensures Denote(n, inp)(Extract(t), [y]) == S(y.s[t]) && y.s[t] == Slot(y, t)
  {
    assert Denote(n, inp)(Extract(t), [y]) == Compute(n, inp, Extract(t), [y]);
  }

  /** Values that hold the same number in slot t as scalars do give, combined slot by slot, the scalar
      result in slot t. */
  lemma {:induction false} SlotOfArith(n: nat, inp: nat -> Val, h: Head, t: int, xs: seq<Val>, ys: seq<Val>)
    requires Arith(h) && 0 <= t < n && |xs| == |ys| && AllFit(n, ys)
    requires forall p :: 0 <= p < |xs| ==> xs[p].S? && Slot(ys[p], t) == xs[p].n
    requires ShapeTy(ys) == Batched
    ensures Denote(n, inp)(Extract(t), [Denote(n, inp)(h, ys)]) == Denote(n, inp)(h, xs)
  {
    ArithSlots(n, inp, h, ys);
    ArithScalars(n, inp, h, xs);
    assert Slots(ys, t) == Slots(xs, 0);
    ExtractOf(n, inp, t, Denote(n, inp)(h, ys));
  }

  /** Reading the target slot of the batched operation gives the scalar result. */
  lemma {:induction false} SlotOfBatched(g: Signature, inp: nat -> Val, t: int, out: Body, op: Op)
    requires WellTyped(g, out) && Ordered(out) && InputsOk(g, inp) && OpOk(g, out, op) && ScalarArith(op)
    requires Convertible(out, op.args, 0) && 0 <= t < g.n
    ensures var alg := Denote(g.n, inp);
      alg(Extract(t), [alg(op.head, StandVals(alg, t, out, op.args))]) == alg(op.head, Pick(Run(alg, out), op.args))
  {
    var alg := Denote(g.n, inp);
    var ys, xs := StandVals(alg, t, out, op.args), Pick(Run(alg, out), op.args);
    ScalarOperands(g, out, op);
    forall p | 0 <= p < |xs|
      ensures xs[p].S? && Slot(ys[p], t) == xs[p].n
      ensures ys[p].V? ==> |ys[p].s| == g.n
      ensures out[op.args[p]].ty == Secret ==> ys[p].V?
    {
      StandSlot(g, inp, t, out, op.args[p]);
    }
    var p :| 0 <= p < |op.args| && out[op.args[p]].ty == Secret;
    assert ys[p].V?;
    SlotOfArith(g.n, inp, op.head, t, xs, ys);
  }

  lemma {:induction false} RotatedSlot(n: nat, inp: nat -> Val, s: seq<int>, i: int, t: int)
    requires |s| == n && 0 <= i < n && 0 <= t < n
    ensures var y := Denote(n, inp)(Rotate(t - i), [V(s)]); y.V? && |y.s| == n && Slot(y, t) == s[i]
  {
    RotateValue(n, inp, t - i, s);
    assert (t - (t - i)) % n == i;
  }

  lemma {:induction false} SplatSlot(n: nat, inp: nat -> Val, c: int, t: int)
    requires 0 <= t < n
    ensures Denote(n, inp)(Const(c), []) == S(c)
    ensures var y := Denote(n, inp)(Splat(c), []); y.V? && |y.s| == n && Slot(y, t) == c
  {
    assert Denote(n, inp)(Const(c), []) == Compute(n, inp, Const(c), []);
    assert Denote(n, inp)(Splat(c), []) == Compute(n, inp, Splat(c), []);
  }

  /** The stand-in holds the scalar in the target slot. */
  lemma {:induction false} StandSlot(g: Signature, inp: nat -> Val, t: int, out: Body, a: nat)
    requires WellTyped(g, out) && Ordered(out) && InputsOk(g, inp) && a < |out| && out[a].ty != Batched
    requires (out[a].ty == Secret ==> Convertible1(out[a])) && 0 <= t < g.n
    ensures var alg := Denote(g.n, inp);
      var y, x := StandVal(alg, t, out, a), Run(alg, out)[a];
      && x.S? && Slot(y, t) == x.n
      && (out[a].ty == Secret ==> y.V? && |y.s| == g.n) && (out[a].ty != Secret ==> y.S?)
  {
    ValuesFit(g, out, inp, a);
    if out[a].ty == Secret {
      if out[a].head.Extract? { StandExtract(g, inp, t, out, a); } else { StandConst(g, inp, t, out, a); }
    }
  }

  lemma {:induction false} StandExtract(g: Signature, inp: nat -> Val, t: int, out: Body, a: nat)
    requires WellTyped(g, out) && Ordered(out) && InputsOk(g, inp) && a < |out| && out[a].ty == Secret
    requires out[a].head.Extract? && 0 <= t < g.n
    ensures var alg := Denote(g.n, inp);
      var y, x := StandVal(alg, t, out, a), Run(alg, out)[a];
      x.S? && y.V? && |y.s| == g.n && Slot(y, t) == x.n
  {
    ExtractValue(g, inp, out, a);
    var s, i := Run(Denote(g.n, inp), out)[out[a].args[0]].s, out[a].head.i;
    StandRotated(Denote(g.n, inp), t, out, a, V(s));
    RotatedSlot(g.n, inp, s, i, t);
  }

  lemma {:induction false} StandRotated<T>(alg: Algebra<T>, t: int, out: Body, a: nat, x: T)
    requires Ordered(out) && a < |out| && out[a].ty == Secret && out[a].head.Extract? && |out[a].args| == 1
    requires out[a].args[0] < |out| && Run(alg, out)[out[a].args[0]] == x
    ensures StandVal(alg, t, out, a) == alg(Rotate(t - out[a].head.i), [x])
  {
    assert Pick(Run(alg, out), out[a].args) == [x];
  }

  lemma {:induction false} StandConst(g: Signature, inp: nat -> Val, t: int, out: Body, a: nat)
    requires WellTyped(g, out) && Ordered(out) && a < |out| && out[a].ty == Secret
    requires out[a].head.Const? && 0 <= t < g.n
    ensures var alg := Denote(g.n, inp);
      var y, x := StandVal(alg, t, out, a), Run(alg, out)[a];
      x.S? && y.V? && |y.s| == g.n && Slot(y, t) == x.n
  {
    RunAt(Denote(g.n, inp), out, a);
    assert OpOk(g, out[..a], out[a]);
    assert Pick(Run(Denote(g.n, inp), out), []) == [];
    SplatSlot(g.n, inp, out[a].head.c, t);
  }

  /** No scalar arithmetic is left. */
  ghost predicate FullyBatched(b: Body)
  {
    forall k :: 0 <= k < |b| ==> !ScalarArith(b[k])
  }

  lemma {:induction false} BatchVisitLeavesNone(g: Signature, user: int, out: Body, op: Op)
    requires WellTyped(g, out) && OpOk(g, out, op) && FullyBatched(out)
    requires ScalarArith(op) ==> Convertible(out, op.args, 0)
    ensures FullyBatched(out + BatchVisit(user, out, op).ops)
  {
    if ScalarArith(op) {
      BatchVisitShape(g, user, out, op);
      var c := Convert(out, TargetSlot(user, out, op.args), op.args, 0);
      assert FullyBatched(c.out);
    }
  }

  lemma {:induction false} BatchLeavesNone(g: Signature, o: UseOrder, b: Body, k: nat)
    requires WellTyped(g, b) && Ordered(b) && g.n > 0 && Enumerates(o) && k <= |b| && BatchableUpTo(b, k)
    ensures FullyBatched(Before(BatchStep(o, b), b, k).out)
  {
    if k > 0 {
      var step, m := BatchStep(o, b), k - 1;
      BatchLeavesNone(g, o, b, m);
      BatchInvariant(g, o, b, m);
      BatchVisits(o, b, m);
      BeforeNext(step, b, m);
      RenamedOk(g, b, m, Before(step, b, m));
      if ScalarArith(b[m]) { BatchReady(g, o, b, m); }
      BatchVisitLeavesNone(g, UserSlot(b, o(Users(b, m))), Before(step, b, m).out, Visited(step, b, m));
    }
  }

  /** Batching preserves meaning: whatever order users are enumerated in, when every scalar operation
      has convertible operands and some slot, each value is kept and no scalar arithmetic remains. */
  lemma {:induction false} BatchCorrect(g: Signature, o: UseOrder, b: Body, inp: nat -> Val)
    requires WellTyped(g, b) && Ordered(b) && g.n > 0 && Enumerates(o) && InputsOk(g, inp) && AllBatchable(b)
    ensures var w := Batch(o, b);
      && WellTyped(g, w.out) && Ordered(w.out) && Tracks(b, w) && FullyBatched(w.out)
      && Agrees(Denote(g.n, inp), b, w)
  {
    var step, alg := BatchStep(o, b), Denote(g.n, inp);
    BatchInvariant(g, o, b, |b|);
    TypedOrdered(g, Batch(o, b).out);
    BatchLeavesNone(g, o, b, |b|);
    forall k | 0 <= k < |b| ensures StepTyped(g, step, b, k) && StepKeeps(g, step, b, k, alg) {
      BatchInvariant(g, o, b, k);
      BatchStepKeeps(g, o, b, k, inp);
    }
    WalkKeeps(g, step, b, alg, |b|);
  }

  lemma {:induction false} BatchStepKeeps(g: Signature, o: UseOrder, b: Body, k: nat, inp: nat -> Val)
    requires WellTyped(g, b) && Ordered(b) && g.n > 0 && Enumerates(o) && InputsOk(g, inp) && k < |b| && Batchable(b, b[k]) && HasSlot(b, k)
    requires var w := Before(BatchStep(o, b), b, k); WellTyped(g, w.out) && Tracks(b, w) && Images(b, w)
    ensures StepTyped(g, BatchStep(o, b), b, k) && StepKeeps(g, BatchStep(o, b), b, k, Denote(g.n, inp))
  {
    var step, alg := BatchStep(o, b), Denote(g.n, inp);
    var w, op := Before(step, b, k), Visited(step, b, k);
    BatchOne(g, o, b, k);
    TypedOrdered(g, w.out);
    BatchVisits(o, b, k);
    RenamedOk(g, b, k, w);
    if ScalarArith(b[k]) {
      var user := UserSlot(b, o(Users(b, k)));
      BatchReady(g, o, b, k);
      BatchVisitValue(g, alg, user, w.out, op);
      SlotOfBatched(g, inp, TargetSlot(user, w.out, op.args), w.out, op);
    } else {
      ReplaceKeeps(alg, w.out, op, op);
    }
  }
}
