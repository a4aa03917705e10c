/** The passes as they run: on one list of operations that is edited while a cursor walks it. Each method
    is tied to the function that specifies it. */
module InPlace {
  import opened Ir
  import opened Walk
  import opened Batching
  import Combining
  import Cse
  import Dce
  import Folding
  import Internal
  import Nary
  import Pipeline
  import Terms

  // ---------------------------------------------------------------- editing the list

  /** The number that value x has behind position p once the operation there has been replaced: earlier
      values keep theirs, uses of the replaced one go to its replacement, later ones move up. */
  function Redirected(x: nat, p: nat, e: Emit): nat
  {
    if x < p then x else if x == p then e.res else x - 1 + |e.ops|
  }

  function Renumbered(op: Op, p: nat, e: Emit): (r: Op)
    ensures r.head == op.head && r.ty == op.ty && |r.args| == |op.args|
    ensures forall j :: 0 <= j < |op.args| ==> r.args[j] == Redirected(op.args[j], p, e)
  {
    op.(args := seq(|op.args|, j requires 0 <= j < |op.args| => Redirected(op.args[j], p, e)))
  }

  /** The operations from p + 1 up to i, renumbered. */
  function Behind(ops: Body, p: nat, e: Emit, i: nat): (r: Body)
    requires p < i <= |ops|
    ensures |r| == i - p - 1 && forall t :: 0 <= t < |r| ==> r[t] == Renumbered(ops[p + 1 + t], p, e)
  {
    seq(i - p - 1, t requires 0 <= t < i - p - 1 => Renumbered(ops[p + 1 + t], p, e))
  }

  /** The list after replacing the operation at p. */
  function Spliced(ops: Body, p: nat, e: Emit): Body
    requires p < |ops|
  {
    ops[..p] + e.ops + Behind(ops, p, e, |ops|)
  }

  /** The number an original value has while the walk stands before operation k. */
  function Current(x: nat, k: nat, w: Walked): nat
    requires |w.ren| == k
  {
    if x < k then w.ren[x] else x - k + |w.out|
  }

  function CurrentOp(op: Op, k: nat, w: Walked): (r: Op)
    requires |w.ren| == k
    ensures r.head == op.head && r.ty == op.ty && |r.args| == |op.args|
    ensures forall j :: 0 <= j < |op.args| ==> r.args[j] == Current(op.args[j], k, w)
  {
    op.(args := seq(|op.args|, j requires 0 <= j < |op.args| => Current(op.args[j], k, w)))
  }

  /** The operations still ahead of the walk. */
  function Ahead(b: Body, k: nat, w: Walked): (r: Body)
    requires |w.ren| == k <= |b|
    ensures |r| == |b| - k && forall i :: 0 <= i < |r| ==> r[i] == CurrentOp(b[k + i], k, w)
  {
    seq(|b| - k, i requires 0 <= i < |b| - k => CurrentOp(b[k + i], k, w))
  }

  /** The whole list while the walk stands before operation k: what has been rewritten, then the rest. */
  function Midway(step: Step, b: Body, k: nat): (r: Body)
    requires Ordered(b) && k <= |b|
    ensures |r| == |Before(step, b, k).out| + |b| - k
  {
    Before(step, b, k).out + Ahead(b, k, Before(step, b, k))
  }

  lemma {:induction false} CurrentMet(b: Body, k: nat, w: Walked)
    requires |w.ren| == k < |b| && Below(b[k].args, k)
    ensures CurrentOp(b[k], k, w) == Renamed(b[k], w.ren)
  {
    assert CurrentOp(b[k], k, w).args == Pick(w.ren, b[k].args);
  }

  lemma {:induction false} MidwayAt(step: Step, b: Body, k: nat)
    requires Ordered(b) && k < |b|
    ensures Midway(step, b, k)[|Before(step, b, k).out|] == Visited(step, b, k)
    ensures Midway(step, b, k)[..|Before(step, b, k).out|] == Before(step, b, k).out
  {
    assert Below(b[k].args, k);
    CurrentMet(b, k, Before(step, b, k));
  }

  /** Redirecting the uses of the replaced operation moves everything ahead on by one step. */
  lemma {:induction false} AheadNext(b: Body, k: nat, w: Walked, e: Emit, i: nat)
    requires |w.ren| == k < |b| && Below(w.ren, |w.out|) && k + 1 + i < |b|
    ensures Renumbered(CurrentOp(b[k + 1 + i], k, w), |w.out|, e)
         == CurrentOp(b[k + 1 + i], k + 1, Walked(w.out + e.ops, w.ren + [e.res]))
  {
    var op, w' := b[k + 1 + i], Walked(w.out + e.ops, w.ren + [e.res]);
    var l, r := Renumbered(CurrentOp(op, k, w), |w.out|, e), CurrentOp(op, k + 1, w');
    forall j | 0 <= j < |op.args| ensures l.args[j] == r.args[j] {
      assert l.args[j] == Redirected(Current(op.args[j], k, w), |w.out|, e);
    }
    assert l.args == r.args;
  }

  /** Replacing the visited operation in the list is one step of the walk. */
  lemma {:induction false} SplicedMidway(step: Step, b: Body, k: nat)
    requires Ordered(b) && k < |b| && Below(Before(step, b, k).ren, |Before(step, b, k).out|)
    ensures Spliced(Midway(step, b, k), |Before(step, b, k).out|, Visit(step, b, k)) == Midway(step, b, k + 1)
  {
    var w, e, now := Before(step, b, k), Visit(step, b, k), Midway(step, b, k);
    BeforeNext(step, b, k);
    MidwayAt(step, b, k);
    BehindIsAhead(b, k, w, e, now);
  }

  /** What stands behind the spliced operation is what is ahead after the step. */
  lemma {:induction false} BehindIsAhead(b: Body, k: nat, w: Walked, e: Emit, now: Body)
    requires |w.ren| == k < |b| && Below(w.ren, |w.out|) && now == w.out + Ahead(b, k, w)
    ensures Behind(now, |w.out|, e, |now|) == Ahead(b, k + 1, Walked(w.out + e.ops, w.ren + [e.res]))
  {
    var p, w' := |w.out|, Walked(w.out + e.ops, w.ren + [e.res]);
    var l, r := Behind(now, p, e, |now|), Ahead(b, k + 1, w');
    assert |l| == |r|;
    forall i | 0 <= i < |l| ensures l[i] == r[i] {
      assert now[p + 1 + i] == CurrentOp(b[k + 1 + i], k, w);
      AheadNext(b, k, w, e, i);
    }
  }

  ghost predicate WellLinked(step: Step)
  {
    forall k: nat, out: Body, op: Op :: Walk.Links(out, op, step(k, out, op))
  }

  lemma {:induction false} MidwayEnds(step: Step, b: Body)
    requires Ordered(b)
    ensures Midway(step, b, 0) == b && Midway(step, b, |b|) == Apply(step, b).out
  {
    var w := Before(step, b, 0);
    forall i | 0 <= i < |b| ensures CurrentOp(b[i], 0, w) == b[i] {
      assert CurrentOp(b[i], 0, w).args == b[i].args;
    }
    assert Ahead(b, 0, w) == b;
  }

  lemma {:induction false} LinkedBelow(step: Step, b: Body, k: nat)
    requires Ordered(b) && k <= |b| && WellLinked(step)
    ensures Below(Before(step, b, k).ren, |Before(step, b, k).out|)
    ensures Ordered(Before(step, b, k).out)
  {
    WalkOrdered(step, b, k);
  }

  /** One round of a walk over the list: what it sees, and what its replacement leaves. */
  lemma {:induction false} RewriteStep(step: Step, b: Body, k: nat)
    requires Ordered(b) && k < |b| && WellLinked(step)
    ensures var now, p, e := Midway(step, b, k), |Before(step, b, k).out|, Visit(step, b, k);
      && p < |now| && now[..p] == Before(step, b, k).out && now[p] == Visited(step, b, k)
      && e == step(k, now[..p], now[p])
      && Spliced(now, p, e) == Midway(step, b, k + 1) && p + |e.ops| == |Before(step, b, k + 1).out|
      && Below(now[p].args, p)
  {
    MidwayAt(step, b, k);
    LinkedBelow(step, b, k);
    SplicedMidway(step, b, k);
    BeforeNext(step, b, k);
  }

  lemma {:induction false} BatchLinked(o: UseOrder, b: Body)
    ensures WellLinked(BatchStep(o, b))
  {
    forall k: nat, out: Body, op: Op ensures Walk.Links(out, op, BatchStep(o, b)(k, out, op)) {
      BatchLinks(UserSlot(b, o(Users(b, k))), out, op);
    }
  }

  lemma {:induction false} InternalLinked()
    ensures WellLinked(Internal.InternalStep())
  {
    forall k: nat, out: Body, op: Op ensures Walk.Links(out, op, Internal.InternalStep()(k, out, op)) {
      if Below(op.args, |out|) && Ordered(out) { Internal.InternalLinks(out, op); } else { LinksReplace(out, op, op); }
    }
  }

  lemma {:induction false} FoldLinked(n: nat)
    ensures WellLinked(Folding.FoldStep(n))
  {
    forall k: nat, out: Body, op: Op ensures Walk.Links(out, op, Folding.FoldStep(n)(k, out, op)) {
      if Below(op.args, |out|) && Ordered(out) { Folding.FoldLinks(n, out, op); } else { LinksReplace(out, op, op); }
    }
  }

  lemma {:induction false} MergeLinked()
    ensures WellLinked(Cse.CseStep())
  {
    forall k: nat, out: Body, op: Op ensures Walk.Links(out, op, Cse.CseStep()(k, out, op)) {
      LinksReplace(out, op, op);
      if Cse.Find(out, op) < |out| { LinksForward(out, op, Cse.Find(out, op)); }
    }
  }

  lemma {:induction false} SimplifyLinked()
    ensures WellLinked(Combining.SimplifyStep())
  {
    forall k: nat, out: Body, op: Op ensures Walk.Links(out, op, Combining.SimplifyStep()(k, out, op)) {
      LinksReplace(out, op, op);
      if Ordered(out) && Below(op.args, |out|) && Combining.Continues(out, op) {
        var c := op.args[1];
        assert Below(out[c].args, c);
        LinksReplace(out, op, Combining.SimplifyVisit(out, op).ops[0]);
      }
    }
  }

  /** The state of a walk over the list, cursor at p. */
  ghost predicate Reached(step: Step, b: Body, k: nat, ops: Body, p: nat)
    requires Ordered(b)
  {
    k <= |b| && p == |Before(step, b, k).out| && ops == Midway(step, b, k)
  }

  lemma {:induction false} ReachedStart(step: Step, b: Body)
    requires Ordered(b)
    ensures Reached(step, b, 0, b, 0)
  {
    MidwayEnds(step, b);
  }

  lemma {:induction false} ReachedEnd(step: Step, b: Body, k: nat, ops: Body, p: nat)
    requires Ordered(b) && Reached(step, b, k, ops, p) && k == |b|
    ensures ops == Apply(step, b).out
  {
    MidwayEnds(step, b);
  }

  lemma {:induction false} ReachedNext(step: Step, b: Body, k: nat, ops: Body, p: nat)
    requires Ordered(b) && WellLinked(step) && Reached(step, b, k, ops, p) && k < |b|
    ensures p < |ops| && Below(ops[p].args, p)
    ensures var e := step(k, ops[..p], ops[p]); Reached(step, b, k + 1, Spliced(ops, p, e), p + |e.ops|)
  {
    RewriteStep(step, b, k);
  }

  lemma {:induction false} FoldNext(n: nat, b: Body, k: nat, ops: Body, p: nat)
    requires Ordered(b) && Reached(Folding.FoldStep(n), b, k, ops, p) && k < |b|
    ensures p < |ops| && Below(ops[p].args, p)
    ensures var e := Folding.FoldVisit(n, ops[..p], ops[p]);
      Reached(Folding.FoldStep(n), b, k + 1, Spliced(ops, p, e), p + |e.ops|)
  {
    FoldLinked(n);
    ReachedNext(Folding.FoldStep(n), b, k, ops, p);
  }

  lemma {:induction false} InternalNext(b: Body, k: nat, ops: Body, p: nat)
    requires Ordered(b) && Reached(Internal.InternalStep(), b, k, ops, p) && k < |b|
    ensures p < |ops| && Below(ops[p].args, p)
    ensures var e := Internal.InternalVisit(ops[..p], ops[p]);
      Reached(Internal.InternalStep(), b, k + 1, Spliced(ops, p, e), p + |e.ops|)
  {
    InternalLinked();
    ReachedNext(Internal.InternalStep(), b, k, ops, p);
  }

  lemma {:induction false} BatchEnd(o: UseOrder, b: Body, ops: Body, p: nat)
    requires Ordered(b) && Reached(BatchStep(o, b), b, |b|, ops, p)
    ensures ops == Batching.Batch(o, b).out
  {
    ReachedEnd(BatchStep(o, b), b, |b|, ops, p);
  }

  lemma {:induction false} BatchMet(o: UseOrder, b: Body, k: nat, ops: Body, p: nat)
    requires Ordered(b) && Reached(BatchStep(o, b), b, k, ops, p) && k < |b|
    ensures p < |ops|
  {
    BatchLinked(o, b);
    ReachedNext(BatchStep(o, b), b, k, ops, p);
  }

  lemma {:induction false} BatchNext(o: UseOrder, b: Body, k: nat, ops: Body, p: nat, e: Emit)
    requires Ordered(b) && Reached(BatchStep(o, b), b, k, ops, p) && k < |b| && p < |ops|
    requires e == BatchVisit(UserSlot(b, o(Users(b, k))), ops[..p], ops[p])
    ensures Reached(BatchStep(o, b), b, k + 1, Spliced(ops, p, e), p + |e.ops|)
  {
    BatchLinked(o, b);
    ReachedNext(BatchStep(o, b), b, k, ops, p);
  }

  lemma {:induction false} CollapseLinked(kind: Head, p: nat)
    ensures WellLinked(Nary.CollapseStep(kind, p))
  {
    forall k: nat, out: Body, op: Op ensures Walk.Links(out, op, Nary.CollapseStep(kind, p)(k, out, op)) {
      LinksReplace(out, op, op);
      if Ordered(out) && Below(op.args, |out|) && op.head == kind && p in op.args && p < |out| {
        CopiesLinked(kind, p, out, op, Nary.Count(op.args, p));
        var c := Nary.Count(op.args, p);
        assert out + ([op] + seq(c, j => Nary.Merged(p, out, op))) == out + [op] + seq(c, j => Nary.Merged(p, out, op));
      }
    }
  }

  lemma {:induction false} CopiesLinked(kind: Head, p: nat, out: Body, op: Op, c: nat)
    requires Ordered(out) && Below(op.args, |out|) && p < |out|
    ensures Ordered(out + [op] + seq(c, j => Nary.Merged(p, out, op)))
  {
    Nary.MergedBelow(p, out, op);
  }

  // ---------------------------------------------------------------- inner loops

  /** Looks for a slot the result is wanted in, first among the users, then among the operands. */
  method FindTargetSlot(b: Body, users: seq<nat>, out: Body, args: seq<nat>) returns (target: int)
    ensures target == TargetSlot(UserSlot(b, users), out, args)
  {
    target := -1;
    var i := 0;
    while i < |users|
      invariant 0 <= i <= |users| && target == -1
      invariant UserSlot(b, users) == UserSlot(b, users[i..])
    {
      if users[i] >= |b| { i := |users|; break; }
      var u := b[users[i]];
      if u.head.Extract? {
        target := u.head.i;
        break;
      } else if u.head.Insert? {
        target := u.head.i;
        break;
      } else if u.head.Return? {
        if |u.args| == 1 && u.args[0] < |b| && b[u.args[0]].ty == Secret { target := 0; }
        break;
      }
      assert users[i..][1..] == users[i + 1..];
      i := i + 1;
    }
    assert target == UserSlot(b, users);
    if target == -1 {
      var j := 0;
      while j < |args|
        invariant 0 <= j <= |args| && target == OperandSlot(out, args[..j])
      {
        assert args[..j + 1][..j] == args[..j];
        if FromExtract(out, args[j]) {
          var s := out[args[j]].head.i;
          if target == -1 || s == 0 { target := s; }
        }
        j := j + 1;
      }
      assert args[..|args|] == args;
    }
  }

  /** Converts the operands one after the other, replacing each everywhere in the new operation. */
  method ConvertOperands(before: Body, target: int, operands: seq<nat>)
    returns (out: Body, args: seq<nat>, slot: int, ok: bool)
    ensures Converted(out, args, slot, ok) == Convert(before, target, operands, 0)
  {
    out, args, slot, ok := before, operands, target, true;
    var j := 0;
    while j < |args|
      invariant 0 <= j <= |args| && ok
      invariant Convert(out, slot, args, j) == Convert(before, target, operands, 0)
    {
      var a := args[j];
      if a < |out| && out[a].ty == Secret {
        if out[a].head.Extract? {
          if slot == -1 { slot := out[a].head.i; }
        } else if !out[a].head.Const? {
          ok := false;
          return;
        }
        args, out := Replaced(args, a, |out|), out + [StandIn(slot, out[a])];
      }
      j := j + 1;
    }
  }

  /** The halving loop. */
  method RotateAndAdd(before: Body, origin: nat, n: nat) returns (out: Body, last: nat)
    ensures Internal.Chain(out, last) == Internal.Halve(before, origin, n / 2)
  {
    out, last := before, origin;
    var i: nat := n / 2;
    while i > 0
      invariant Internal.Halve(out, last, i) == Internal.Halve(before, origin, n / 2)
    {
      var rotated := |out|;
      out := out + [Op(Rotate(-(i as int)), [last], Batched)] + [Op(Add, [last, rotated], Batched)];
      last := rotated + 1;
      i := i / 2;
    }
  }

  /** Collects, per origin, the rotations in which it is used; `origins` keeps the order of first use. */
  method CollectOrigins(out: Body, args: seq<nat>) returns (origins: seq<nat>, uses: map<nat, seq<int>>)
    requires Below(args, |out|)
    ensures origins == Internal.Origins(out, args)
    ensures forall o :: o in uses <==> o in origins
    ensures forall o :: o in uses ==> uses[o] == Internal.Uses(out, args, o)
  {
    origins, uses := [], map[];
    var j := 0;
    while j < |args|
      invariant 0 <= j <= |args|
      invariant origins == Internal.Origins(out, args[..j])
      invariant forall o :: o in uses <==> o in origins
      invariant forall o :: o in uses ==> uses[o] == Internal.Uses(out, args[..j], o)
      invariant forall o :: o !in uses ==> Internal.Uses(out, args[..j], o) == []
    {
      assert args[..j + 1][..j] == args[..j];
      var o, i := Internal.Origin(out, args[j]), Internal.Index0(out, args[j]);
      if o in uses {
        uses := uses[o := uses[o] + [i]];
      } else {
        origins, uses := origins + [o], uses[o := [i]];
      }
      j := j + 1;
    }
    assert args[..|args|] == args;
  }

  /** Tests for the rotations 0, 1, ..., a power of two of them. */
  method IsContiguous(uses: seq<int>) returns (yes: bool)
    ensures yes == Internal.ContiguousUses(uses)
  {
    var s := Internal.Sort(uses);
    yes := |s| > 1 && s[0] == 0;
    var i := 1;
    while i < |s|
      invariant 1 <= i && (|s| > 0 ==> i <= |s|)
      invariant yes == (|s| > 1 && s[0] == 0 && forall k :: 1 <= k < i ==> s[k - 1] + 1 == s[k])
    {
      yes := yes && s[i - 1] + 1 == s[i];
      i := i + 1;
    }
  }

  /** The operand list without the uses of the origin. */
  method RemoveUses(before: Body, uses: seq<nat>, o: nat, operands: seq<nat>) returns (kept: seq<nat>)
    ensures kept == Internal.Others(before, uses, o, operands)
  {
    kept := [];
    var i := 0;
    while i < |operands|
      invariant 0 <= i <= |operands| && kept == Internal.Others(before, uses, o, operands[..i])
    {
      var v := operands[i];
      var remove := v in uses && v < |before| && Internal.Origin(before, v) == o;
      assert operands[..i + 1][..i] == operands[..i];
      if !remove { kept := kept + [v]; }
      i := i + 1;
    }
    assert operands[..|operands|] == operands;
  }

  /** All origins of one operation in turn. */
  method CollapseOrigins(before: Body, operands: seq<nat>) returns (out: Body, args: seq<nat>)
    requires Below(operands, |before|)
    ensures Internal.Collapsed(out, args)
         == Internal.CollapseAll(before, operands, Internal.Origins(before, operands), before, operands)
  {
    var origins, uses := CollectOrigins(before, operands);
    out, args := before, operands;
    var i := 0;
    while i < |origins|
      invariant 0 <= i <= |origins|
      invariant Internal.CollapseAll(before, operands, origins[i..], out, args)
             == Internal.CollapseAll(before, operands, origins, before, operands)
    {
      var o := origins[i];
      assert origins[i..][1..] == origins[i + 1..];
      assert o in origins;
      var contiguous := IsContiguous(uses[o]);
      if contiguous && Internal.PowerOfTwo(|uses[o]|) {
        var last: nat;
        args := RemoveUses(before, operands, o, args);
        out, last := RotateAndAdd(out, o, |uses[o]|);
        args := args + [last];
      }
      i := i + 1;
    }
  }

  /** Drops the constant units of an operand list. */
  method DropUnits(out: Body, h: Head, operands: seq<nat>) returns (kept: seq<nat>)
    requires Arith(h) && Below(operands, |out|)
    ensures kept == Folding.Kept(out, h, operands)
  {
    kept := [];
    var j := 0;
    while j < |operands|
      invariant 0 <= j <= |operands| && kept == Folding.Kept(out, h, operands[..j])
    {
      assert operands[..j + 1][..j] == operands[..j];
      if !Folding.Neutral(out, h, operands[j]) { kept := kept + [operands[j]]; }
      j := j + 1;
    }
    assert operands[..|operands|] == operands;
  }

  // ---------------------------------------------------------------- one operation at a time

  method BatchOperation(b: Body, users: seq<nat>, out: Body, op: Op) returns (e: Emit)
    ensures e == BatchVisit(UserSlot(b, users), out, op)
  {
    e := Emit([op], |out|);
    if ScalarArith(op) {
      var target := FindTargetSlot(b, users, out, op.args);
      var all, args, slot, ok := ConvertOperands(out, target, op.args);
      assert Converted(all, args, slot, ok) == Convert(out, TargetSlot(UserSlot(b, users), out, op.args), op.args, 0);
      if ok && |all| >= |out| && Below(args, |all|) {
        e := Emit(all[|out|..] + [Op(op.head, args, InferTy(all, args)), Op(Extract(slot), [|all|], Secret)], |all| + 1);
      }
    }
  }

  method CollapseOperation(out: Body, op: Op) returns (e: Emit)
    requires Below(op.args, |out|)
    ensures e == Internal.InternalVisit(out, op)
  {
    e := Emit([op], |out|);
    if Arith(op.head) && op.ty == Batched {
      var all, args := CollapseOrigins(out, op.args);
      assert Internal.Collapsed(all, args)
          == Internal.CollapseAll(out, op.args, Internal.Origins(out, op.args), out, op.args);
      if |all| >= |out| { e := Emit(all[|out|..] + [op.(args := args)], |all|); }
    }
  }

  method FoldOperation(n: nat, out: Body, op: Op) returns (e: Emit)
    requires Below(op.args, |out|)
    ensures e == Folding.FoldVisit(n, out, op)
  {
    if Arith(op.head) {
      var kept := DropUnits(out, op.head, op.args);
      e := if |kept| > 1 then Emit([op.(args := kept)], |out|)
           else if |kept| == 1 then Emit([], kept[0])
           else Emit([op], |out|);
    } else {
      e := Folding.FoldVisit(n, out, op);
    }
  }

  // ---------------------------------------------------------------- the function under rewriting

  class Function {
    var ops: Body

    constructor (body: Body)
      ensures ops == body
    {
      ops := body;
    }

    /** Replaces the operation at p and redirects everything behind it. */
    method Splice(p: nat, e: Emit)
      requires p < |ops|
      modifies this
      ensures ops == Spliced(old(ops), p, e)
    {
      var rest: Body := [];
      var i := p + 1;
      while i < |ops|
        invariant p + 1 <= i <= |ops| && ops == old(ops)
        invariant rest == Behind(ops, p, e, i)
      {
        rest := rest + [Renumbered(ops[i], p, e)];
        i := i + 1;
      }
      ops := ops[..p] + e.ops + rest;
    }

    /** Walks the list once, replacing operation after operation by what a visit decides. */
    method Rewrite(step: Step)
      requires Ordered(ops) && WellLinked(step)
      modifies this
      ensures ops == Apply(step, old(ops)).out
    {
      ghost var b := ops;
      var k, p, count := 0, 0, |ops|;
      ReachedStart(step, b);
      while k < count
        invariant 0 <= k <= count == |b| && 0 <= p && Reached(step, b, k, ops, p)
      {
        ReachedNext(step, b, k, ops, p);
        var e := step(k, ops[..p], ops[p]);
        Splice(p, e);
        k, p := k + 1, p + |e.ops|;
      }
      ReachedEnd(step, b, k, ops, p);
    }

    /** Collapses nested operations of one kind. Merged copies land ahead of the cursor, which visits
        them in turn. */
    method Flatten(kind: Head)
      requires Ordered(ops)
      modifies this
      ensures ops == Nary.Sweep(kind, old(ops), 0).out
    {
      var i := 0;
      while i < |ops|
        invariant Ordered(ops) && 0 <= i <= |ops|
        invariant Nary.Sweep(kind, ops, i).out == Nary.Sweep(kind, old(ops), 0).out
        decreases Nary.Load(kind, ops, i)
      {
        Nary.SweepNext(kind, ops, i);
        if ops[i].head == kind {
          CollapseLinked(kind, i);
          Rewrite(Nary.CollapseStep(kind, i));
        }
        i := i + 1;
      }
    }

    /** Batches the scalar operations in order of appearance. */
    method Batch(o: UseOrder)
      requires Ordered(ops)
      modifies this
      ensures ops == Batching.Batch(o, old(ops)).out
    {
      var b := ops;
      var p: nat := 0;
      ReachedStart(BatchStep(o, b), b);
      for k := 0 to |b|
        invariant Reached(BatchStep(o, b), b, k, ops, p)
      {
        p := BatchAt(o, b, k, p);
      }
      BatchEnd(o, b, ops, p);
    }

    /** Batches the operation at p, which is number k of the list as it was, and moves behind what takes its place. */
    method BatchAt(o: UseOrder, b: Body, k: nat, p: nat) returns (next: nat)
      requires Ordered(b) && Reached(BatchStep(o, b), b, k, ops, p) && k < |b|
      modifies this
      ensures Reached(BatchStep(o, b), b, k + 1, ops, next)
    {
      BatchMet(o, b, k, ops, p);
      var e := BatchOperation(b, o(Users(b, k)), ops[..p], ops[p]);
      BatchNext(o, b, k, ops, p, e);
      Splice(p, e);
      next := p + |e.ops|;
    }

    /** Batches inside the operands of each operation. */
    method BatchInside()
      requires Ordered(ops)
      modifies this
      ensures ops == Internal.InternalBatch(old(ops)).out
    {
      ghost var b := ops;
      var k, p, count := 0, 0, |ops|;
      ReachedStart(Internal.InternalStep(), b);
      while k < count
        invariant 0 <= k <= count == |b| && 0 <= p && Reached(Internal.InternalStep(), b, k, ops, p)
      {
        InternalNext(b, k, ops, p);
        var e := CollapseOperation(ops[..p], ops[p]);
        Splice(p, e);
        k, p := k + 1, p + |e.ops|;
      }
      ReachedEnd(Internal.InternalStep(), b, k, ops, p);
    }

    /** Folds every operation. */
    method Fold(n: nat)
      requires Ordered(ops)
      modifies this
      ensures ops == Folding.FoldAll(n, old(ops)).out
    {
      ghost var b := ops;
      var k, p, count := 0, 0, |ops|;
      ReachedStart(Folding.FoldStep(n), b);
      while k < count
        invariant 0 <= k <= count == |b| && 0 <= p && Reached(Folding.FoldStep(n), b, k, ops, p)
      {
        FoldNext(n, b, k, ops, p);
        var e := FoldOperation(n, ops[..p], ops[p]);
        Splice(p, e);
        k, p := k + 1, p + |e.ops|;
      }
      ReachedEnd(Folding.FoldStep(n), b, k, ops, p);
    }

    /** Merges equal operations. */
    method Merge()
      requires Ordered(ops)
      modifies this
      ensures ops == Cse.Merge(old(ops)).out
    {
      MergeLinked();
      Rewrite(Cse.CseStep());
    }

    /** One forward sweep over the combines. */
    method SimplifyCombines()
      requires Ordered(ops)
      modifies this
      ensures ops == Combining.Simplify(old(ops)).out
    {
      SimplifyLinked();
      Rewrite(Combining.SimplifyStep());
    }

    /** The canonicalizer: dead operations go, everything is folded, dead operations go again. */
    method Canonicalize(n: nat)
      requires Ordered(ops) && EndsInReturn(ops)
      modifies this
      ensures ops == Terms.Canonical(n, old(ops)) && Ordered(ops) && EndsInReturn(ops)
    {
      Terms.PruneEnds(ops);
      Terms.FoldEnds(n, Dce.Prune(ops));
      ops := Dce.Prune(ops);
      Fold(n);
      Terms.PruneEnds(ops);
      ops := Dce.Prune(ops);
    }

    /** Additions, then subtractions, then multiplications. */
    method FlattenAll()
      requires Ordered(ops) && EndsInReturn(ops)
      modifies this
      ensures ops == Pipeline.Flatten(old(ops)) && Ordered(ops) && EndsInReturn(ops)
    {
      Nary.SweepLast(Add, ops, 0);
      Flatten(Add);
      Nary.SweepLast(Sub, ops, 0);
      Flatten(Sub);
      Nary.SweepLast(Mul, ops, 0);
      Flatten(Mul);
    }

    method MergeEqual()
      requires Ordered(ops) && EndsInReturn(ops)
      modifies this
      ensures ops == Pipeline.Deduplicate(old(ops)) && Ordered(ops) && EndsInReturn(ops)
    {
      ghost var r := Pipeline.Deduplicate(ops);
      Merge();
    }

    method BatchAll(o: UseOrder)
      requires Ordered(ops) && EndsInReturn(ops)
      modifies this
      ensures ops == Pipeline.Slotted(o, old(ops)) && Ordered(ops) && EndsInReturn(ops)
    {
      ghost var r := Pipeline.Slotted(o, ops);
      Batch(o);
    }

    method SimplifyAll()
      requires Ordered(ops) && EndsInReturn(ops)
      modifies this
      ensures ops == Pipeline.Simplified(old(ops)) && Ordered(ops) && EndsInReturn(ops)
    {
      ghost var r := Pipeline.Simplified(ops);
      SimplifyCombines();
    }

    method ReduceAll()
      requires Ordered(ops) && EndsInReturn(ops)
      modifies this
      ensures ops == Pipeline.Reduced(old(ops)) && Ordered(ops) && EndsInReturn(ops)
    {
      ghost var r := Pipeline.Reduced(ops);
      BatchInside();
    }

    /** The whole pipeline on one list of operations. */
    method Optimize(n: nat, o: UseOrder)
      requires Ordered(ops) && EndsInReturn(ops)
      modifies this
      ensures ops == Pipeline.Optimize(n, o, old(ops))
    {
      Canonicalize(n);
      MergeEqual();
      FlattenAll();
      Canonicalize(n);
      Canonicalize(n);
      MergeEqual();
      assert ops == Pipeline.Prepare(n, old(ops));
      BatchAll(o);
      Canonicalize(n);
      MergeEqual();
      SimplifyAll();
      MergeEqual();
      Canonicalize(n);
      ReduceAll();
      Canonicalize(n);
      MergeEqual();
    }
  }
}
