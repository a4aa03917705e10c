/** The functions that batching does not get through: those with a scalar operation for which no slot can be
    found, or which has an operand that cannot be converted. */
module Unbatched {
  import opened Ir
  import opened Walk
  import opened Batching

  lemma {:induction false} PrefixTyped(g: Signature, b: Body, c: Body)
    requires WellTyped(g, c) && b <= c
    ensures WellTyped(g, b)
  {
    forall k | 0 <= k < |b| ensures OpOk(g, b[..k], b[k]) {
      assert OpOk(g, c[..k], c[k]);
      assert c[..k] == b[..k];
    }
  }

  // ---------------------------------------------------------------- no slot

  /** Some operation reads the slot that stands for none. */
  predicate ReadsNoSlot(b: Body) { exists j :: 0 <= j < |b| && b[j].head == Extract(-1) }

  lemma {:induction false} NoSlotIllTyped(g: Signature, b: Body)
    requires ReadsNoSlot(b)
    ensures !WellTyped(g, b)
  {
    var j :| 0 <= j < |b| && b[j].head == Extract(-1);
    assert !OpOk(g, b[..j], b[j]);
  }

  lemma {:induction false} NoSlotLater(b: Body, c: Body)
    requires ReadsNoSlot(b) && b <= c
    ensures ReadsNoSlot(c)
  {
    var j :| 0 <= j < |b| && b[j].head == Extract(-1);
    assert c[j] == b[j];
  }

  predicate NoExtracts(out: Body, args: seq<nat>) { forall p :: 0 <= p < |args| ==> !FromExtract(out, args[p]) }

  /** Without a slot to aim at and without extracts among the operands none is found. */
  lemma {:induction false} ConvertNoSlot(out: Body, args: seq<nat>, j: nat)
    requires j <= |args| && Below(args, |out|) && NoExtracts(out, args)
    ensures Convert(out, -1, args, j).slot == -1
    decreases |args| - j
  {
    if j < |args| {
      var a := args[j];
      assert !FromExtract(out, args[j]);
      if out[a].ty != Secret {
        ConvertNoSlot(out, args, j + 1);
      } else if Convertible1(out[a]) {
        var out', args' := out + [StandIn(-1, out[a])], Replaced(args, a, |out|);
        forall p | 0 <= p < |args'| ensures args'[p] < |out'| && !FromExtract(out', args'[p]) {
          assert !FromExtract(out, args[p]);
        }
        ConvertNoSlot(out', args', j + 1);
      }
    }
  }

  // ---------------------------------------------------------------- where the walk gets stuck

  /** An operand that cannot be converted: the scalar operation stays. */
  lemma {:induction false} StaysScalar(g: Signature, user: int, out: Body, op: Op)
    requires WellTyped(g, out) && OpOk(g, out, op) && ScalarArith(op) && !Convertible(out, op.args, 0)
    ensures !FullyBatched(out + BatchVisit(user, out, op).ops)
  {
    ScalarOperands(g, out, op);
    ConvertOk(g, out, op.args, out, TargetSlot(user, out, op.args), op.args, 0);
    assert BatchVisit(user, out, op) == Emit([op], |out|);
    assert (out + [op])[|out|] == op;
  }

  /** No slot from a user and none from an operand: the emitted extract reads none. */
  lemma {:induction false} ReadsNone(g: Signature, out: Body, op: Op)
    requires WellTyped(g, out) && OpOk(g, out, op) && ScalarArith(op) && Convertible(out, op.args, 0)
    requires NoExtracts(out, op.args)
    ensures ReadsNoSlot(out + BatchVisit(-1, out, op).ops)
  {
    OperandSlotRange(g, out, op.args);
    BatchVisitShape(g, -1, out, op);
    ConvertNoSlot(out, op.args, 0);
    var e, c := BatchVisit(-1, out, op), Convert(out, -1, op.args, 0);
    assert (out + e.ops)[|c.out| + 1].head == Extract(-1);
  }

  /** A scalar operation without a slot, as the walk meets it. */
  lemma {:induction false} UnslottedMet(g: Signature, o: UseOrder, b: Body, k: nat)
    requires WellTyped(g, b) && Ordered(b) && Enumerates(o) && k < |b| && Batchable(b, b[k]) && !HasSlot(b, k)
    requires var w := Before(BatchStep(o, b), b, k); WellTyped(g, w.out) && Tracks(b, w) && Images(b, w)
    ensures UserSlot(b, o(Users(b, k))) == -1
    ensures NoExtracts(Before(BatchStep(o, b), b, k).out, Visited(BatchStep(o, b), b, k).args)
  {
    WantedFound(g, o, b, k);
    OperandsCarryOver(g, b, k, Before(BatchStep(o, b), b, k));
  }

  /** The first operation that cannot be batched spoils the list. */
  lemma {:induction false} Stuck(g: Signature, o: UseOrder, b: Body, k: nat)
    requires WellTyped(g, b) && Ordered(b) && g.n > 0 && Enumerates(o) && k < |b| && BatchableUpTo(b, k)
    requires !(Batchable(b, b[k]) && HasSlot(b, k))
    ensures var out := Before(BatchStep(o, b), b, k + 1).out;
      if Batchable(b, b[k]) then ReadsNoSlot(out) else !FullyBatched(out)
  {
    var step := BatchStep(o, b);
    var w, op, user := Before(step, b, k), Visited(step, b, k), UserSlot(b, o(Users(b, k)));
    BatchInvariant(g, o, b, k);
    BeforeNext(step, b, k);
    BatchVisits(o, b, k);
    RenamedOk(g, b, k, w);
    OperandsCarryOver(g, b, k, w);
    if Batchable(b, b[k]) {
      UnslottedMet(g, o, b, k);
      ReadsNone(g, w.out, op);
    } else {
      StaysScalar(g, user, w.out, op);
    }
  }

  lemma {:induction false} FirstStuck(b: Body, k: nat) returns (m: nat)
    requires k <= |b| && !BatchableUpTo(b, k)
    ensures m < k && BatchableUpTo(b, m) && !(Batchable(b, b[m]) && HasSlot(b, m))
  {
    if BatchableUpTo(b, k - 1) { m := k - 1; } else { m := FirstStuck(b, k - 1); }
  }

  /** The walk yields a well-typed function without scalar arithmetic exactly when every scalar operation has
      extracts, constants and arithmetic results as secret operands, and a user that asks for a slot or an operand
      that sits in one. */
  lemma {:induction false} BatchExact(g: Signature, o: UseOrder, b: Body)
    requires WellTyped(g, b) && Ordered(b) && g.n > 0 && Enumerates(o)
    ensures WellTyped(g, Batch(o, b).out) && FullyBatched(Batch(o, b).out) <==> AllBatchable(b)
  {
    if AllBatchable(b) {
      BatchInvariant(g, o, b, |b|);
      BatchLeavesNone(g, o, b, |b|);
    } else {
      var k := FirstStuck(b, |b|);
      Stuck(g, o, b, k);
      WalkPrefix(BatchStep(o, b), b, k + 1, |b|);
      var early, late := Before(BatchStep(o, b), b, k + 1).out, Batch(o, b).out;
      if Batchable(b, b[k]) {
        NoSlotIllTyped(g, early);
        if WellTyped(g, late) { PrefixTyped(g, early, late); }
      } else {
        ScalarLater(early, late);
      }
    }
  }

  lemma {:induction false} ScalarLater(b: Body, c: Body)
    requires !FullyBatched(b) && b <= c
    ensures !FullyBatched(c)
  {
    var k :| 0 <= k < |b| && ScalarArith(b[k]);
    assert c[k] == b[k];
  }

  // ---------------------------------------------------------------- a function without slots

  /** The function that returns twice the sum of two constants. */
  function Constants(c: int, d: int): Body
  {
    [Op(Const(c), [], Secret), Op(Const(d), [], Secret), Op(Add, [0, 1], Secret), Op(Add, [2, 2], Secret), Op(Return, [3], Secret)]
  }

  lemma {:induction false} ConstantsTyped(g: Signature, c: int, d: int)
    ensures WellTyped(g, Constants(c, d)) && Ordered(Constants(c, d))
  {
    var b := Constants(c, d);
    assert b[..2][0].ty == Secret && b[..3][2].ty == Secret;
    forall k | 0 <= k < |b| ensures OpOk(g, b[..k], b[k]) {
      if k == 2 { assert b[..k][b[k].args[0]].ty == Secret; }
      if k == 3 { assert b[..k][b[k].args[0]].ty == Secret; }
    }
    TypedOrdered(g, b);
  }

  /** Users that are arithmetic ask for no slot. */
  lemma {:induction false} ArithmeticAsksNone(b: Body, us: seq<nat>)
    requires forall i :: 0 <= i < |us| ==> us[i] < |b| && Arith(b[us[i]].head)
    ensures UserSlot(b, us) == -1
  {
    if us != [] { ArithmeticAsksNone(b, us[1..]); }
  }

  /** Its inner sum sits in no slot and is wanted in none, so batching emits a read of slot -1. */
  lemma {:induction false} SlotMissed(g: Signature, o: UseOrder, c: int, d: int)
    requires g.n > 0 && Enumerates(o)
    ensures WellTyped(g, Constants(c, d)) && Ordered(Constants(c, d))
    ensures ReadsNoSlot(Batch(o, Constants(c, d)).out) && !WellTyped(g, Batch(o, Constants(c, d)).out)
  {
    var b := Constants(c, d);
    ConstantsTyped(g, c, d);
    var us := o(Users(b, 2));
    forall i | 0 <= i < |us| ensures us[i] < |b| && Arith(b[us[i]].head) { assert us[i] in us; }
    ArithmeticAsksNone(b, us);
    assert !HasSlot(b, 2) && Batchable(b, b[2]);
    Stuck(g, o, b, 2);
    WalkPrefix(BatchStep(o, b), b, 3, |b|);
    NoSlotLater(Before(BatchStep(o, b), b, 3).out, Batch(o, b).out);
    NoSlotIllTyped(g, Batch(o, b).out);
  }
}
