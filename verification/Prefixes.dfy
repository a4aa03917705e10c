/** Infix sequences with prefix operators behind binary ones. The loop applies such an operator to what is read so
    far and waits for the binary one; this is the tree that comes of it. */
module Prefixes {
  import opened Syntax
  import opened Parsing
  import opened Infix

  /** A binary operator, the prefix operators behind it, and an operand. */
  datatype Turn = Turn(op: Operator, us: seq<Operator>, atom: Atom)

  predicate AllPrefix(us: seq<Operator>) { forall i :: 0 <= i < |us| ==> IsUnary(us[i]) }

  predicate GoodTurn(t: Turn) { !IsUnary(t.op) && AllPrefix(t.us) && Shaped(t.atom) && Fine(t.atom) && Plain(t.atom) }

  predicate GoodTurns(ts: seq<Turn>) { forall i :: 0 <= i < |ts| ==> GoodTurn(ts[i]) }

  function PrefixTokens(us: seq<Operator>): seq<Token>
  {
    if us == [] then [] else [Op(us[0])] + PrefixTokens(us[1..])
  }

  function TurnTokens(ts: seq<Turn>): seq<Token>
  {
    if ts == [] then [] else [Op(ts[0].op)] + (PrefixTokens(ts[0].us) + (AtomTokens(ts[0].atom) + TurnTokens(ts[1..])))
  }

  // ---------------------------------------------------------------- what it means

  /** The first operator is applied first. */
  function Applied(us: seq<Operator>, e: Expr): Expr
  {
    if us == [] then e else Applied(us[1..], Unary(us[0], e))
  }

  /** Where the left operand of an operator of this level begins: behind the last looser operator. */
  function Claimed(ops: seq<Operator>, level: nat): (k: nat)
    ensures k <= |ops|
  {
    if ops == [] || level < Level(ops[|ops| - 1]) then |ops| else Claimed(ops[..|ops| - 1], level)
  }

  lemma {:induction false} ClaimedIs(ops: seq<Operator>, level: nat, k: nat)
    requires k <= |ops| && UpTo(ops[k..], level) && (k > 0 ==> level < Level(ops[k - 1]))
    ensures Claimed(ops, level) == k
  {
    if k < |ops| {
      var m := |ops| - 1;
      assert ops[k..][m - k] == ops[m];
      assert ops[..m][k..] == ops[k..][..m - k];
      ClaimedIs(ops[..m], level, k);
    }
  }

  /** The operators apply to the whole left operand of the binary operator before them, as it stands. */
  function Turned(s: Segment, op: Operator, us: seq<Operator>): (r: Segment)
    requires Whole(s)
    ensures Whole(r)
  {
    if us == [] then s else
      var k := Claimed(s.ops, Level(op));
      Segment(s.es[..k] + [Applied(us, SegmentExpr(Segment(s.es[k..], s.ops[k..])))], s.ops[..k])
  }

  function Continued(s: Segment, ts: seq<Turn>): (r: Segment)
    requires Whole(s)
    ensures Whole(r)
    decreases |ts|
  {
    if ts == [] then s else
      Continued(Join(Turned(s, ts[0].op, ts[0].us), ts[0].op, Segment([AtomExpr(ts[0].atom)], [])), ts[1..])
  }

  // ---------------------------------------------------------------- one turn

  /** Prefix operators that stand before their operand are applied to the operand on top. */
  lemma {:induction false} PrefixesTaken(us: seq<Operator>, more: seq<Token>, front: seq<Expr>, e: Expr, ops: seq<Operator>)
    requires AllPrefix(us)
    ensures ExpressionLoop(PrefixTokens(us) + more, front + [e], ops) == ExpressionLoop(more, front + [Applied(us, e)], ops)
    decreases |us|
  {
    if us == [] {
      assert PrefixTokens(us) + more == more;
    } else {
      var ts := PrefixTokens(us[1..]) + more;
      assert PrefixTokens(us) + more == [Op(us[0])] + ts;
      OnePrefix(us[0], ts, front, e, ops);
      PrefixesTaken(us[1..], more, front, Unary(us[0], e), ops);
    }
  }

  lemma {:induction false} OnePrefix(u: Operator, ts: seq<Token>, front: seq<Expr>, e: Expr, ops: seq<Operator>)
    requires IsUnary(u)
    ensures ExpressionLoop([Op(u)] + ts, front + [e], ops) == ExpressionLoop(ts, front + [Unary(u, e)], ops)
  {
    First(Op(u), ts);
    assert (ops + [u])[..|ops|] == ops && (front + [e])[..|front|] == front;
    assert ApplyUnary(front + [e], ops + [u]) == Stacks(front + [Unary(u, e)], ops);
  }

  /** Exchanging the topmost segment for one operand. */
  function Capped(segs: seq<Segment>, e: Expr): seq<Segment>
    requires segs != []
  {
    segs[..|segs| - 1] + [Segment([e], [])]
  }

  lemma {:induction false} CappedTower(segs: seq<Segment>, ops: seq<Operator>, e: Expr)
    requires Tower(segs, ops)
    ensures Tower(Capped(segs, e), ops) && AllWhole(segs) && AllWhole(Capped(segs, e))
    ensures Exprs(Capped(segs, e)) == Exprs(segs)[..|ops|] + [e]
  {
    var segs' := Capped(segs, e);
    TowerWhole(segs, ops);
    forall i | 0 <= i < |ops| ensures FitsAt(segs', ops, i) { assert FitsAt(segs, ops, i); }
    TowerWhole(segs', ops);
    assert SegmentExpr(Segment([e], [])) == e;
  }

  /** The topmost segment is the left operand of an operator tighter than the one below and no tighter than those in it. */
  lemma {:induction false} CappedFlat(segs: seq<Segment>, ops: seq<Operator>, op: Operator, us: seq<Operator>)
    requires Tower(segs, ops) && UpTo(segs[|segs| - 1].ops, Level(op)) && (ops != [] ==> Level(op) < Level(ops[|ops| - 1])) && us != []
    ensures AllWhole(segs) && Whole(Flat(segs, ops))
    ensures Flat(Capped(segs, Applied(us, SegmentExpr(segs[|ops|]))), ops) == Turned(Flat(segs, ops), op, us)
  {
    TowerWhole(segs, ops);
    FlatWhole(segs, ops);
    var s, last, m := Flat(segs, ops), segs[|ops|], |ops| - 1;
    var e := Applied(us, SegmentExpr(last));
    if ops == [] {
      assert s.ops[0..] == s.ops && s.es[0..] == s.es;
      ClaimedIs(s.ops, Level(op), 0);
      assert Capped(segs, e) == [Segment([e], [])];
      assert [] + [e] == [e] && s.ops[..0] == [] && s.es[..0] == [];
    } else {
      var front := Flat(segs[..m + 1], ops[..m]);
      TopClaimed(front, ops[m], last, op);
      assert Capped(segs, e)[..m + 1] == segs[..m + 1];
      TopTurned(front, ops[m], last, op, us);
    }
  }

  lemma {:induction false} FlatWhole(segs: seq<Segment>, ops: seq<Operator>)
    requires |segs| == |ops| + 1 && AllWhole(segs)
    ensures Whole(Flat(segs, ops))
    decreases |ops|
  {
    if ops != [] { FlatWhole(segs[..|ops|], ops[..|ops| - 1]); }
  }

  lemma {:induction false} TopClaimed(front: Segment, p: Operator, last: Segment, op: Operator)
    requires Whole(front) && Whole(last) && UpTo(last.ops, Level(op)) && Level(op) < Level(p)
    ensures Claimed(Join(front, p, last).ops, Level(op)) == |front.ops| + 1
  {
    var ops, k := Join(front, p, last).ops, |front.ops| + 1;
    assert ops[k..] == last.ops && ops[k - 1] == p;
    ClaimedIs(ops, Level(op), k);
  }

  lemma {:induction false} TopTurned(front: Segment, p: Operator, last: Segment, op: Operator, us: seq<Operator>)
    requires Whole(front) && Whole(last) && us != [] && Claimed(Join(front, p, last).ops, Level(op)) == |front.ops| + 1
    ensures Join(front, p, Segment([Applied(us, SegmentExpr(last))], [])) == Turned(Join(front, p, last), op, us)
  {
    var s, k := Join(front, p, last), |front.ops| + 1;
    assert s.es[..k] == front.es && s.es[k..] == last.es;
    assert s.ops[..k] == front.ops + [p] && s.ops[k..] == last.ops;
    assert front.ops + [p] + [] == front.ops + [p];
  }

  /** One turn of the loop: operator, prefix operators, operand. */
  lemma {:induction false} OneTurn(segs: seq<Segment>, ops: seq<Operator>, t: Turn, more: seq<Token>)
    returns (segs': seq<Segment>, ops': seq<Operator>)
    requires Tower(segs, ops) && segs[|segs| - 1].ops == [] && GoodTurn(t) && Peek(more) != OpenSquare
    ensures AllWhole(segs) && Whole(Flat(segs, ops)) && Tower(segs', ops') && segs'[|segs'| - 1].ops == [] && AllWhole(segs')
    ensures Flat(segs', ops') == Join(Turned(Flat(segs, ops), t.op, t.us), t.op, Segment([AtomExpr(t.atom)], []))
    ensures ExpressionLoop([Op(t.op)] + (PrefixTokens(t.us) + (AtomTokens(t.atom) + more)), Exprs(segs), ops)
         == ExpressionLoop(more, Exprs(segs'), ops')
  {
    var r, behind := Reduced(segs, ops, t.op), AtomTokens(t.atom) + more;
    OneOperator(segs, ops, t.op, PrefixTokens(t.us) + behind);
    ReducedTower(segs, ops, t.op);
    FlatWhole(segs, ops);
    var capped := TurnPrefixes(r.segs, r.ops, t, behind);
    OperandTurn(capped, r.ops, t, more);
    segs', ops' := capped + [Segment([AtomExpr(t.atom)], [])], r.ops + [t.op];
  }

  lemma {:induction false} TurnPrefixes(segs: seq<Segment>, ops: seq<Operator>, t: Turn, behind: seq<Token>)
    returns (capped: seq<Segment>)
    requires Tower(segs, ops) && GoodTurn(t)
    requires UpTo(segs[|segs| - 1].ops, Level(t.op)) && (ops != [] ==> Level(t.op) < Level(ops[|ops| - 1]))
    ensures AllWhole(segs) && Whole(Flat(segs, ops)) && Tower(capped, ops) && AllWhole(capped)
    ensures UpTo(capped[|capped| - 1].ops, Level(t.op)) && Flat(capped, ops) == Turned(Flat(segs, ops), t.op, t.us)
    ensures ExpressionLoop(PrefixTokens(t.us) + behind, Exprs(segs), ops + [t.op]) == ExpressionLoop(behind, Exprs(capped), ops + [t.op])
  {
    TowerWhole(segs, ops);
    FlatWhole(segs, ops);
    if t.us == [] {
      capped := segs;
      assert PrefixTokens(t.us) + behind == behind;
    } else {
      var e := Applied(t.us, SegmentExpr(segs[|ops|]));
      capped := Capped(segs, e);
      CappedTower(segs, ops, e);
      CappedFlat(segs, ops, t.op, t.us);
      TopPrefixes(segs, ops, t, behind);
    }
  }

  lemma {:induction false} TopPrefixes(segs: seq<Segment>, ops: seq<Operator>, t: Turn, behind: seq<Token>)
    requires AllWhole(segs) && |segs| == |ops| + 1 && AllPrefix(t.us)
    ensures ExpressionLoop(PrefixTokens(t.us) + behind, Exprs(segs), ops + [t.op])
         == ExpressionLoop(behind, Exprs(segs)[..|ops|] + [Applied(t.us, SegmentExpr(segs[|ops|]))], ops + [t.op])
  {
    var front, x := Exprs(segs)[..|ops|], SegmentExpr(segs[|ops|]);
    assert Exprs(segs) == front + [x];
    PrefixesTaken(t.us, behind, front, x, ops + [t.op]);
  }

  lemma {:induction false} OperandTurn(segs: seq<Segment>, ops: seq<Operator>, t: Turn, more: seq<Token>)
    requires Tower(segs, ops) && GoodTurn(t) && Peek(more) != OpenSquare
    requires UpTo(segs[|segs| - 1].ops, Level(t.op)) && (ops != [] ==> Level(t.op) < Level(ops[|ops| - 1]))
    ensures var segs', ops' := segs + [Segment([AtomExpr(t.atom)], [])], ops + [t.op];
      && AllWhole(segs) && Tower(segs', ops') && AllWhole(segs')
      && Flat(segs', ops') == Join(Flat(segs, ops), t.op, Segment([AtomExpr(t.atom)], []))
      && ExpressionLoop(AtomTokens(t.atom) + more, Exprs(segs), ops') == ExpressionLoop(more, Exprs(segs'), ops')
  {
    PushOk(segs, ops, t.op, AtomExpr(t.atom));
    AtomOk(t.atom, more);
    OperandRound(AtomTokens(t.atom) + more, AtomExpr(t.atom), more, Exprs(segs), ops + [t.op]);
  }

  // ---------------------------------------------------------------- main result

  lemma {:induction false} TurnSplit(ts: seq<Turn>, rest: seq<Token>)
    requires ts != []
    ensures TurnTokens(ts) + rest
         == [Op(ts[0].op)] + (PrefixTokens(ts[0].us) + (AtomTokens(ts[0].atom) + (TurnTokens(ts[1..]) + rest)))
  {
    Around(PrefixTokens(ts[0].us), AtomTokens(ts[0].atom), TurnTokens(ts[1..]), rest);
    Around([Op(ts[0].op)], PrefixTokens(ts[0].us), AtomTokens(ts[0].atom) + TurnTokens(ts[1..]), rest);
  }

  lemma {:induction false} TurnsStart(ts: seq<Turn>, rest: seq<Token>)
    requires Peek(rest) != OpenSquare
    ensures Peek(TurnTokens(ts) + rest) != OpenSquare
  {
    if ts == [] { assert TurnTokens(ts) + rest == rest; }
  }

  lemma {:induction false} TurnsOk(segs: seq<Segment>, ops: seq<Operator>, ts: seq<Turn>, rest: seq<Token>)
    requires Tower(segs, ops) && segs[|segs| - 1].ops == [] && GoodTurns(ts) && Stops(rest)
    ensures AllWhole(segs) && Whole(Flat(segs, ops))
    ensures ExpressionLoop(TurnTokens(ts) + rest, Exprs(segs), ops) == Ok(SegmentExpr(Continued(Flat(segs, ops), ts)), rest)
    decreases |ts|
  {
    if ts == [] {
      assert TurnTokens(ts) + rest == rest;
      EndOk(segs, ops, rest);
    } else {
      assert GoodTurn(ts[0]);
      TurnSplit(ts, rest);
      TurnsStart(ts[1..], rest);
      var segs', ops' := OneTurn(segs, ops, ts[0], TurnTokens(ts[1..]) + rest);
      TurnsOk(segs', ops', ts[1..], rest);
    }
  }

  /** Prefix operators behind a binary operator are applied to its whole left operand; otherwise the sequence is read as
      it should be. */
  lemma {:induction false} PrefixesMisplaced(first: Atom, ts: seq<Turn>, rest: seq<Token>)
    requires Shaped(first) && Fine(first) && GoodTurns(ts) && Stops(rest)
    ensures ParseExpression(AtomTokens(first) + (TurnTokens(ts) + rest))
         == Ok(SegmentExpr(Continued(Segment([AtomExpr(first)], []), ts)), rest)
  {
    var segs := [Segment([AtomExpr(first)], [])];
    TurnsStart(ts, rest);
    FirstOk(first, TurnTokens(ts) + rest);
    assert SegmentExpr(segs[0]) == AtomExpr(first) && Exprs(segs) == [AtomExpr(first)];
    TurnsOk(segs, [], ts, rest);
  }
}
