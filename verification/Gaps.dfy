/** Infix sequences in which operands are missing: what the operator-precedence loop does with operators that
    follow one another or have nothing before them. */
module Gaps {
  import opened Syntax
  import opened Parsing
  import opened Infix

  predicate AllBinary(ops: seq<Operator>) { forall i :: 0 <= i < |ops| ==> !IsUnary(ops[i]) }

  // ---------------------------------------------------------------- sequences with gaps

  /** A binary operator and the operand behind it, if there is one. */
  datatype Step = Step(op: Operator, atom: Option<Atom>)

  function GivenTokens(a: Option<Atom>): seq<Token> { if a.Some? then AtomTokens(a.value) else [] }

  function StepTokens(ss: seq<Step>): seq<Token>
  {
    if ss == [] then [] else [Op(ss[0].op)] + (GivenTokens(ss[0].atom) + StepTokens(ss[1..]))
  }

  function StepOps(ss: seq<Step>): (ops: seq<Operator>)
    ensures |ops| == |ss| && forall i :: 0 <= i < |ss| ==> ops[i] == ss[i].op
  {
    seq(|ss|, i requires 0 <= i < |ss| => ss[i].op)
  }

  function Gap(a: Option<Atom>): nat { if a.Some? then 0 else 1 }

  function GapCount(ss: seq<Step>): nat
  {
    if ss == [] then 0 else Gap(ss[0].atom) + GapCount(ss[1..])
  }

  predicate GoodStep(s: Step) { !IsUnary(s.op) && (s.atom.Some? ==> Shaped(s.atom.value) && Fine(s.atom.value) && Plain(s.atom.value)) }

  predicate GoodSteps(ss: seq<Step>) { forall i :: 0 <= i < |ss| ==> GoodStep(ss[i]) }

  /** The first operand is no literal behind a minus sign, which would belong to it. */
  predicate Unsigned(ss: seq<Step>)
  {
    ss == [] || (if ss[0].atom.None? then Unsigned(ss[1..]) else ss[0].op == Sub ==> !Literal(AtomTokens(ss[0].atom.value)[0]))
  }

  // ---------------------------------------------------------------- operators that wait

  /** The operators looser than every one behind them. */
  function Open(ops: seq<Operator>): seq<Operator>
  {
    if ops == [] then []
    else if Under(ops[1..], Level(ops[0])) then [ops[0]] + Open(ops[1..])
    else Open(ops[1..])
  }

  /** What is left on a stack when everything on top that binds at least as tight as op is taken off. */
  function Kept(stack: seq<Operator>, op: Operator): seq<Operator>
  {
    if stack == [] || Level(op) < Level(stack[|stack| - 1]) then stack else Kept(stack[..|stack| - 1], op)
  }

  lemma {:induction false} KeptFront(x: Operator, stack: seq<Operator>, op: Operator)
    ensures Level(op) < Level(x) ==> Kept([x] + stack, op) == [x] + Kept(stack, op)
    ensures Level(op) >= Level(x) && Kept(stack, op) == [] ==> Kept([x] + stack, op) == []
    decreases |stack|
  {
    var all := [x] + stack;
    if stack == [] {
      assert all == [x] && [x][..0] == [];
    } else {
      var m := |stack| - 1;
      KeptFront(x, stack[..m], op);
      assert all[..|all| - 1] == [x] + stack[..m] && all[|all| - 1] == stack[m];
    }
  }

  lemma {:induction false} KeptNone(stack: seq<Operator>, op: Operator)
    requires UpTo(stack, Level(op))
    ensures Kept(stack, op) == []
  {
    if stack != [] { KeptNone(stack[..|stack| - 1], op); }
  }

  lemma {:induction false} OpenUnder(ops: seq<Operator>, level: nat)
    requires Under(ops, level)
    ensures Under(Open(ops), level)
  {
    if ops != [] { OpenUnder(ops[1..], level); }
  }

  lemma {:induction false} UnderNext(ops: seq<Operator>, op: Operator, level: nat)
    ensures Under(ops + [op], level) <==> Under(ops, level) && Level(op) < level
  {
    if Under(ops + [op], level) {
      assert forall i :: 0 <= i < |ops| ==> ops[i] == (ops + [op])[i];
      assert (ops + [op])[|ops|] == op;
    }
  }

  /** A new operator closes those that bind at least as tight. */
  lemma {:induction false} OpenNext(ops: seq<Operator>, op: Operator)
    ensures Open(ops + [op]) == Kept(Open(ops), op) + [op]
  {
    if ops == [] {
      assert [] + [op] == [op] && [op][1..] == [];
    } else {
      var x, rest := ops[0], ops[1..];
      assert (ops + [op])[1..] == rest + [op];
      OpenNext(rest, op);
      UnderNext(rest, op, Level(x));
      if Under(rest, Level(x)) {
        OpenUnder(rest, Level(x));
        KeptFront(x, Open(rest), op);
        if Level(op) >= Level(x) { KeptNone(Open(rest), op); }
      }
    }
  }

  lemma {:induction false} OpenLast(ops: seq<Operator>)
    requires ops != []
    ensures Open(ops) != [] && Open(ops)[|Open(ops)| - 1] == ops[|ops| - 1]
  {
    var m := |ops| - 1;
    OpenNext(ops[..m], ops[m]);
    assert ops == ops[..m] + [ops[m]];
  }

  lemma {:induction false} OpenBinary(ops: seq<Operator>)
    requires AllBinary(ops)
    ensures AllBinary(Open(ops))
  {
    if ops != [] { OpenBinary(ops[1..]); }
  }

  // ---------------------------------------------------------------- where the operands run out

  /** The operator makes the parser build the one before it, and fewer operators keep waiting than operands are missing. */
  predicate Breaks(seen: seq<Operator>, op: Operator, gaps: nat)
  {
    seen != [] && Level(op) >= Level(seen[|seen| - 1]) && |Open(seen + [op])| <= gaps
  }

  /** No operator breaks the parse. */
  predicate Holds(seen: seq<Operator>, gaps: nat, ss: seq<Step>)
    decreases |ss|
  {
    ss == [] || (!Breaks(seen, ss[0].op, gaps) && Holds(seen + [ss[0].op], gaps + Gap(ss[0].atom), ss[1..]))
  }

  lemma {:induction false} ReduceCount(operands: seq<Expr>, ops: seq<Operator>, op: Operator)
    ensures var s, k := Reduce(operands, ops, op), Kept(ops, op);
      && |k| <= |ops|
      && (s.Stacks? <==> k == ops || |operands| > |ops| - |k|)
      && (s.Stacks? ==> s.ops == k && |s.operands| == |operands| - (|ops| - |k|))
    decreases |ops|
  {
    var m, k := |ops| - 1, |operands|;
    if ops != [] && Level(op) >= Level(ops[m]) {
      KeptShorter(ops[..m], op);
      if k >= 2 { ReduceCount(operands[..k - 2] + [Binary(operands[k - 2], ops[m], operands[k - 1])], ops[..m], op); }
    }
  }

  lemma {:induction false} KeptShorter(stack: seq<Operator>, op: Operator)
    ensures |Kept(stack, op)| <= |stack|
  {
    if stack != [] { KeptShorter(stack[..|stack| - 1], op); }
  }

  lemma {:induction false} FinishCount(operands: seq<Expr>, ops: seq<Operator>, ts: seq<Token>)
    requires AllBinary(ops)
    ensures Finish(operands, ops, ts).Ok? <==> |operands| == |ops| + 1
    decreases |ops|
  {
    var m, k := |ops| - 1, |operands|;
    if ops != [] && k >= 2 {
      FinishCount(operands[..k - 2] + [Binary(operands[k - 2], ops[m], operands[k - 1])], ops[..m], ts);
    }
  }

  // ---------------------------------------------------------------- the run

  /** Behind an operand, or where one is missing: the open operators are on the stack, and all operands are there
      but the missing ones. */
  predicate Standing(seen: seq<Operator>, gaps: nat, operands: seq<Expr>, ops: seq<Operator>)
  {
    AllBinary(ops) && ops == Open(seen) && |operands| + gaps == |ops| + 1
  }

  /** An operator either breaks the parse or is put on the stack. */
  lemma {:induction false} OperatorStep(seen: seq<Operator>, gaps: nat, operands: seq<Expr>, ops: seq<Operator>, op: Operator, more: seq<Token>)
    returns (operands': seq<Expr>)
    requires Standing(seen, gaps, operands, ops) && !IsUnary(op)
    ensures Breaks(seen, op, gaps) ==> ExpressionLoop([Op(op)] + more, operands, ops).Undefined?
    ensures !Breaks(seen, op, gaps) ==>
      && ExpressionLoop([Op(op)] + more, operands, ops) == ExpressionLoop(more, operands', Open(seen + [op]))
      && AllBinary(Open(seen + [op])) && |operands'| + gaps == |Open(seen + [op])| && (operands' == [] <==> operands == [])
  {
    var s := Reduce(operands, ops, op);
    BreaksExact(seen, gaps, operands, ops, op);
    First(Op(op), more);
    operands' := [];
    if s.Stacks? {
      OperatorRound(op, more, operands, ops, s);
      operands' := s.operands;
    }
  }

  /** Breaking is running out of operands. */
  lemma {:induction false} BreaksExact(seen: seq<Operator>, gaps: nat, operands: seq<Expr>, ops: seq<Operator>, op: Operator)
    requires Standing(seen, gaps, operands, ops) && !IsUnary(op)
    ensures var s := Reduce(operands, ops, op);
      && (s.Stacks? <==> !Breaks(seen, op, gaps))
      && (s.Stacks? ==> s.ops + [op] == Open(seen + [op]) && AllBinary(Open(seen + [op]))
                        && |s.operands| + gaps == |Open(seen + [op])| && (s.operands == [] <==> operands == []))
  {
    ReduceCount(operands, ops, op);
    OpenNext(seen, op);
    if seen != [] { OpenLast(seen); }
    KeptBinary(ops, op);
  }

  lemma {:induction false} KeptBinary(stack: seq<Operator>, op: Operator)
    requires AllBinary(stack)
    ensures AllBinary(Kept(stack, op))
  {
    if stack != [] { KeptBinary(stack[..|stack| - 1], op); }
  }

  /** An operand is put on the other stack. */
  lemma {:induction false} OperandStep(a: Atom, ts: seq<Token>, operands: seq<Expr>, ops: seq<Operator>)
    requires Shaped(a) && Fine(a) && Plain(a) && Peek(ts) != OpenSquare && AllBinary(ops) && ops != []
    requires operands == [] && ops[|ops| - 1] == Sub ==> !Literal(AtomTokens(a)[0])
    ensures ExpressionLoop(AtomTokens(a) + ts, operands, ops) == ExpressionLoop(ts, operands + [AtomExpr(a)], ops)
  {
    AtomOk(a, ts);
    PeekFirst(AtomTokens(a), ts);
    OperandRound(AtomTokens(a) + ts, AtomExpr(a), ts, operands, ops);
  }

  lemma {:induction false} StepsPeek(ss: seq<Step>, ts: seq<Token>)
    requires Peek(ts) != OpenSquare
    ensures Peek(StepTokens(ss) + ts) != OpenSquare
  {
    if ss == [] { assert StepTokens(ss) + ts == ts; }
  }

  lemma {:induction false} StepSplit(ss: seq<Step>, ts: seq<Token>)
    requires ss != []
    ensures StepTokens(ss) + ts == [Op(ss[0].op)] + (GivenTokens(ss[0].atom) + (StepTokens(ss[1..]) + ts))
  {
    Around([Op(ss[0].op)], GivenTokens(ss[0].atom), StepTokens(ss[1..]), ts);
  }

  /** The outcome of a run: it breaks off, or comes to the tokens ts with these operators seen and operands read. */
  predicate RunsTo(r: Outcome<Expr>, good: bool, seen: seq<Operator>, gaps: nat, operands: seq<Expr>, ts: seq<Token>, none: bool)
  {
    if good then
      && r == ExpressionLoop(ts, operands, Open(seen)) && Standing(seen, gaps, operands, Open(seen))
      && (operands == [] <==> none)
    else
      r.Undefined?
  }

  /** Where a run stands: the outcome r of the loop, whether it will break off, and what will have been seen and read. */
  ghost predicate Underway(r: Outcome<Expr>, good: bool, all: seq<Operator>, total: nat, none: bool,
                           seen: seq<Operator>, gaps: nat, operands: seq<Expr>, ss: seq<Step>, ts: seq<Token>)
  {
    && r == ExpressionLoop(StepTokens(ss) + ts, operands, Open(seen)) && good == Holds(seen, gaps, ss)
    && all == seen + StepOps(ss) && total == gaps + GapCount(ss) && none == (operands == [] && GapCount(ss) == |ss|)
    && Standing(seen, gaps, operands, Open(seen)) && GoodSteps(ss) && Peek(ts) != OpenSquare
    && (operands == [] ==> Unsigned(ss))
  }

  /** The steps are taken one by one, unless one breaks the parse. */
  lemma {:induction false} StepsRun(r: Outcome<Expr>, good: bool, all: seq<Operator>, total: nat, none: bool,
                                    seen: seq<Operator>, gaps: nat, operands: seq<Expr>, ss: seq<Step>, ts: seq<Token>)
    returns (operands': seq<Expr>)
    requires Underway(r, good, all, total, none, seen, gaps, operands, ss, ts)
    ensures RunsTo(r, good, all, total, operands', ts, none)
    decreases |ss|
  {
    operands' := operands;
    if ss == [] {
      assert StepTokens(ss) + ts == ts && seen + StepOps(ss) == seen;
    } else if !Breaks(seen, ss[0].op, gaps) {
      var next := OneStep(r, good, all, total, none, seen, gaps, operands, ss, ts);
      operands' := StepsRun(r, good, all, total, none, seen + [ss[0].op], gaps + Gap(ss[0].atom), next, ss[1..], ts);
    } else {
      StepSplit(ss, ts);
      assert GoodStep(ss[0]);
      var held := OperatorStep(seen, gaps, operands, Open(seen), ss[0].op, GivenTokens(ss[0].atom) + (StepTokens(ss[1..]) + ts));
    }
  }

  lemma {:induction false} OneStep(r: Outcome<Expr>, good: bool, all: seq<Operator>, total: nat, none: bool,
                                   seen: seq<Operator>, gaps: nat, operands: seq<Expr>, ss: seq<Step>, ts: seq<Token>)
    returns (next: seq<Expr>)
    requires ss != [] && Underway(r, good, all, total, none, seen, gaps, operands, ss, ts) && !Breaks(seen, ss[0].op, gaps)
    ensures Underway(r, good, all, total, none, seen + [ss[0].op], gaps + Gap(ss[0].atom), next, ss[1..], ts)
  {
    var op, a, more := ss[0].op, ss[0].atom, StepTokens(ss[1..]) + ts;
    StepSplit(ss, ts);
    assert GoodStep(ss[0]);
    var held := OperatorStep(seen, gaps, operands, Open(seen), op, GivenTokens(a) + more);
    StepOpsNext(seen, ss);
    GapsAtMost(ss[1..]);
    if a.Some? {
      GivenStep(seen + [op], gaps, held, ss, more, ts);
      next := held + [AtomExpr(a.value)];
    } else {
      MissingStep(seen + [op], gaps, held, ss, more);
      next := held;
    }
  }

  lemma {:induction false} StepOpsNext(seen: seq<Operator>, ss: seq<Step>)
    requires ss != []
    ensures seen + [ss[0].op] + StepOps(ss[1..]) == seen + StepOps(ss)
  {}

  lemma {:induction false} MissingStep(next: seq<Operator>, gaps: nat, held: seq<Expr>, ss: seq<Step>, more: seq<Token>)
    requires ss != [] && ss[0].atom.None? && AllBinary(Open(next))
    requires |held| + gaps == |Open(next)| && (held == [] ==> Unsigned(ss))
    ensures GivenTokens(ss[0].atom) + more == more && Standing(next, gaps + 1, held, Open(next))
    ensures (held == [] ==> Unsigned(ss[1..])) && GapCount(ss) == 1 + GapCount(ss[1..])
  {}

  lemma {:induction false} GivenStep(next: seq<Operator>, gaps: nat, held: seq<Expr>, ss: seq<Step>, more: seq<Token>, ts: seq<Token>)
    requires ss != [] && ss[0].atom.Some? && GoodSteps(ss) && Peek(ts) != OpenSquare && AllBinary(Open(next))
    requires next != [] && next[|next| - 1] == ss[0].op && more == StepTokens(ss[1..]) + ts
    requires |held| + gaps == |Open(next)| && (held == [] ==> Unsigned(ss))
    ensures var held' := held + [AtomExpr(ss[0].atom.value)];
      && ExpressionLoop(GivenTokens(ss[0].atom) + more, held, Open(next)) == ExpressionLoop(more, held', Open(next))
      && Standing(next, gaps, held', Open(next))
  {
    assert GoodStep(ss[0]);
    OpenLast(next);
    StepsPeek(ss[1..], ts);
    OperandStep(ss[0].atom.value, more, held, Open(next));
  }

  lemma {:induction false} GapsAtMost(ss: seq<Step>)
    ensures GapCount(ss) <= |ss|
  {
    if ss != [] { GapsAtMost(ss[1..]); }
  }

  // ---------------------------------------------------------------- whole sequences

  predicate GoodFirst(first: Option<Atom>) { first.Some? ==> Shaped(first.value) && Fine(first.value) }

  function Sequence(first: Option<Atom>, ss: seq<Step>): seq<Token> { GivenTokens(first) + StepTokens(ss) }

  lemma {:induction false} SequenceRun(first: Option<Atom>, ss: seq<Step>, ts: seq<Token>) returns (operands: seq<Expr>)
    requires GoodFirst(first) && GoodSteps(ss) && (first.None? ==> Unsigned(ss)) && Peek(ts) != OpenSquare
    ensures RunsTo(ParseExpression(Sequence(first, ss) + ts), Holds([], Gap(first), ss),
                   StepOps(ss), Gap(first) + GapCount(ss), operands, ts, first.None? && GapCount(ss) == |ss|)
  {
    assert [] + StepOps(ss) == StepOps(ss);
    SequenceStart(first, ss, ts);
    GapsAtMost(ss);
    operands := StepsRun(ParseExpression(Sequence(first, ss) + ts), Holds([], Gap(first), ss), StepOps(ss),
                         Gap(first) + GapCount(ss), first.None? && GapCount(ss) == |ss|,
                         [], Gap(first), if first.Some? then [AtomExpr(first.value)] else [], ss, ts);
  }

  lemma {:induction false} SequenceStart(first: Option<Atom>, ss: seq<Step>, ts: seq<Token>)
    requires GoodFirst(first) && Peek(ts) != OpenSquare
    ensures ParseExpression(Sequence(first, ss) + ts)
         == ExpressionLoop(StepTokens(ss) + ts, if first.Some? then [AtomExpr(first.value)] else [], [])
  {
    var more := StepTokens(ss) + ts;
    assert Sequence(first, ss) + ts == GivenTokens(first) + more;
    StepsPeek(ss, ts);
    if first.Some? { FirstOk(first.value, more); } else { assert [] + more == more; }
  }

  lemma {:induction false} NoGapHolds(seen: seq<Operator>, ss: seq<Step>)
    requires GapCount(ss) == 0
    ensures Holds(seen, 0, ss)
    decreases |ss|
  {
    if ss != [] {
      OpenLast(seen + [ss[0].op]);
      NoGapHolds(seen + [ss[0].op], ss[1..]);
    }
  }

  /** A sequence with gaps is never accepted: the parser reads an operand from an empty stack exactly when an
      operator breaks the parse, and reports an error otherwise. */
  lemma {:induction false} GapsExact(first: Option<Atom>, ss: seq<Step>, rest: seq<Token>)
    requires GoodFirst(first) && GoodSteps(ss) && (first.None? ==> Unsigned(ss)) && Stops(rest)
    ensures var r, gaps := ParseExpression(Sequence(first, ss) + rest), Gap(first) + GapCount(ss);
      && (r.Ok? <==> gaps == 0)
      && (r.Undefined? <==> !Holds([], Gap(first), ss))
      && (r.Error? <==> gaps > 0 && Holds([], Gap(first), ss))
  {
    var operands := SequenceRun(first, ss, rest);
    var ops := Open(StepOps(ss));
    if first.Some? && GapCount(ss) == 0 { NoGapHolds([], ss); }
    if Holds([], Gap(first), ss) {
      NoUnary(operands, ops);
      FinishCount(operands, ops, rest);
    }
  }

  /** With a postfix operator behind it the parse does not end, unless it breaks off before or no operand has come. */
  lemma {:induction false} GapsPostfix(first: Option<Atom>, ss: seq<Step>, rest: seq<Token>)
    requires GoodFirst(first) && GoodSteps(ss) && (first.None? ==> Unsigned(ss))
    ensures var r, none := ParseExpression(Sequence(first, ss) + ([Postfix] + rest)), first.None? && GapCount(ss) == |ss|;
      && (r.Undefined? <==> !Holds([], Gap(first), ss))
      && (r.Endless? <==> Holds([], Gap(first), ss) && !none)
      && (r.Error? <==> Holds([], Gap(first), ss) && none)
  {
    First(Postfix, rest);
    var operands := SequenceRun(first, ss, [Postfix] + rest);
  }

  // ---------------------------------------------------------------- one gap

  lemma {:induction false} OpenHead(ops: seq<Operator>)
    requires ops != []
    ensures Open(ops) != [] && Open(ops) == [Open(ops)[0]] + Open(ops)[1..] && Under(Open(ops)[1..], Level(Open(ops)[0]))
  {
    OpenLast(ops);
    if Under(ops[1..], Level(ops[0])) { OpenUnder(ops[1..], Level(ops[0])); } else { OpenHead(ops[1..]); }
  }

  /** Of the open operators none is left exactly when the new one binds no tighter than the loosest. */
  lemma {:induction false} OpenReplaced(seen: seq<Operator>, op: Operator)
    requires seen != []
    ensures Open(seen + [op]) != [] && Open(seen) != []
    ensures if Level(op) >= Level(Open(seen)[0]) then Open(seen + [op]) == [op]
            else Open(seen + [op])[0] == Open(seen)[0] && |Open(seen + [op])| > 1
  {
    OpenHead(seen);
    OpenNext(seen, op);
    var x, tail := Open(seen)[0], Open(seen)[1..];
    KeptFront(x, tail, op);
    if Level(op) >= Level(x) { KeptNone(tail, op); }
  }

  lemma {:induction false} OpenLoosest(ops: seq<Operator>)
    requires ops != []
    ensures Open(ops) != [] && Open(ops)[0] == ops[Loosest(ops)]
  {
    var m := |ops| - 1;
    assert ops == ops[..m] + [ops[m]];
    if m == 0 {
      assert ops == [ops[0]] && Open([]) == [];
    } else {
      OpenLoosest(ops[..m]);
      OpenReplaced(ops[..m], ops[m]);
    }
  }

  lemma {:induction false} HeadLast(ops: seq<Operator>)
    requires ops != []
    ensures Open(ops) != [] && Level(ops[|ops| - 1]) <= Level(Open(ops)[0])
  {
    OpenHead(ops);
    OpenLast(ops);
    var o, n := Open(ops), |Open(ops)|;
    if n > 1 { assert o[1..][n - 2] == o[n - 1]; }
  }

  /** With one operand missing, what follows breaks the parse exactly if an operator in it binds no tighter than the
      loosest before. */
  lemma {:induction false} OneGap(seen: seq<Operator>, ss: seq<Step>)
    requires seen != [] && GapCount(ss) == 0
    ensures Open(seen) != []
    ensures Holds(seen, 1, ss) <==> Under(StepOps(ss), Level(Open(seen)[0]))
    decreases |ss|
  {
    HeadLast(seen);
    if ss != [] {
      var op := ss[0].op;
      OpenReplaced(seen, op);
      assert Breaks(seen, op, 1) <==> Level(op) >= Level(Open(seen)[0]);
      assert StepOps(ss) == [op] + StepOps(ss[1..]);
      UnderFront(op, StepOps(ss[1..]), Level(Open(seen)[0]));
      if !Breaks(seen, op, 1) { OneGap(seen + [op], ss[1..]); }
    }
  }

  lemma {:induction false} UnderFront(op: Operator, ops: seq<Operator>, level: nat)
    ensures Under([op] + ops, level) <==> Level(op) < level && Under(ops, level)
  {
    if Under([op] + ops, level) {
      assert ([op] + ops)[0] == op;
      assert forall i :: 0 <= i < |ops| ==> ops[i] == ([op] + ops)[i + 1];
    }
  }

  // ---------------------------------------------------------------- chains

  /** A negative literal is an operator without operand and a minus sign. */
  function LinkSteps(ls: seq<Link>): seq<Step>
  {
    if ls == [] then [] else OneLinkSteps(ls[0]) + LinkSteps(ls[1..])
  }

  function OneLinkSteps(l: Link): seq<Step>
  {
    if Negative(l.atom) then [Step(l.op, None), Step(Sub, Some(ANumber(-l.atom.n)))] else [Step(l.op, Some(l.atom))]
  }

  predicate FineAtoms(ls: seq<Link>) { forall i :: 0 <= i < |ls| ==> Fine(ls[i].atom) }

  predicate ShapedLinks(ls: seq<Link>) { forall i :: 0 <= i < |ls| ==> ShapedLink(ls[i]) }

  lemma {:induction false} StepTokensFront(s: Step, ss: seq<Step>)
    ensures StepTokens([s] + ss) == [Op(s.op)] + (GivenTokens(s.atom) + StepTokens(ss))
  {
    assert ([s] + ss)[1..] == ss;
  }

  lemma {:induction false} OneLinkTokens(l: Link, ss: seq<Step>)
    ensures StepTokens(OneLinkSteps(l) + ss) == [Op(l.op)] + (AtomTokens(l.atom) + StepTokens(ss))
  {
    if Negative(l.atom) {
      var sign := Step(Sub, Some(ANumber(-l.atom.n)));
      StepTokensFront(sign, ss);
      StepTokensFront(Step(l.op, None), [sign] + ss);
      assert OneLinkSteps(l) + ss == [Step(l.op, None)] + ([sign] + ss);
      assert [] + StepTokens([sign] + ss) == AtomTokens(l.atom) + StepTokens(ss);
    } else {
      StepTokensFront(Step(l.op, Some(l.atom)), ss);
    }
  }

  lemma {:induction false} LinkStepsTokens(ls: seq<Link>)
    ensures StepTokens(LinkSteps(ls)) == LinkTokens(ls)
  {
    if ls != [] {
      LinkStepsTokens(ls[1..]);
      OneLinkTokens(ls[0], LinkSteps(ls[1..]));
    }
  }

  lemma {:induction false} LinkStepsGood(ls: seq<Link>)
    requires ShapedLinks(ls) && FineAtoms(ls)
    ensures GoodSteps(LinkSteps(ls))
    ensures GapCount(LinkSteps(ls)) == 0 <==> forall i :: 0 <= i < |ls| ==> FineLink(ls[i])
  {
    if ls != [] {
      LinkStepsGood(ls[1..]);
      assert ShapedLink(ls[0]) && Fine(ls[0].atom);
      GapsConcat(OneLinkSteps(ls[0]), LinkSteps(ls[1..]));
      OneLinkGap(ls[0]);
      FineFront(ls);
    }
  }

  lemma {:induction false} FineFront(ls: seq<Link>)
    requires ls != []
    ensures (forall i :: 0 <= i < |ls| ==> FineLink(ls[i]))
            <==> FineLink(ls[0]) && forall i :: 0 <= i < |ls[1..]| ==> FineLink(ls[1..][i])
  {
    if FineLink(ls[0]) && forall i :: 0 <= i < |ls[1..]| ==> FineLink(ls[1..][i]) {
      forall i | 0 <= i < |ls| ensures FineLink(ls[i]) { if i > 0 { assert FineLink(ls[1..][i - 1]); } }
    }
  }

  lemma {:induction false} OneLinkGap(l: Link)
    requires Fine(l.atom)
    ensures GapCount(OneLinkSteps(l)) == if FineLink(l) then 0 else 1
  {
    var ss := OneLinkSteps(l);
    if Negative(l.atom) {
      assert ss[1..] == [ss[1]] && ss[1..][1..] == [];
      assert GapCount(ss[1..]) == Gap(ss[1].atom) + GapCount([]);
    } else {
      assert ss[1..] == [];
    }
  }

  lemma {:induction false} GapsConcat(xs: seq<Step>, ys: seq<Step>)
    ensures GapCount(xs + ys) == GapCount(xs) + GapCount(ys)
  {
    if xs == [] {
      assert xs + ys == ys;
    } else {
      GapsConcat(xs[1..], ys);
      assert (xs + ys)[1..] == xs[1..] + ys;
    }
  }

  lemma {:induction false} HoldsConcat(seen: seq<Operator>, gaps: nat, xs: seq<Step>, ys: seq<Step>)
    ensures Holds(seen, gaps, xs + ys) <==> Holds(seen, gaps, xs) && Holds(seen + StepOps(xs), gaps + GapCount(xs), ys)
    decreases |xs|
  {
    if xs == [] {
      assert xs + ys == ys && seen + StepOps(xs) == seen;
    } else {
      HoldsConcat(seen + [xs[0].op], gaps + Gap(xs[0].atom), xs[1..], ys);
      assert xs == [xs[0]] + xs[1..];
      HoldsBoth(seen, gaps, xs[0], xs[1..], ys);
    }
  }

  lemma {:induction false} HoldsBoth(seen: seq<Operator>, gaps: nat, s: Step, xs: seq<Step>, ys: seq<Step>)
    requires var next, more := seen + [s.op], gaps + Gap(s.atom);
      Holds(next, more, xs + ys) <==> Holds(next, more, xs) && Holds(next + StepOps(xs), more + GapCount(xs), ys)
    ensures var all := [s] + xs;
      Holds(seen, gaps, all + ys) <==> Holds(seen, gaps, all) && Holds(seen + StepOps(all), gaps + GapCount(all), ys)
  {
    HoldsFront(seen, gaps, s, xs);
    HoldsFront(seen, gaps, s, xs + ys);
    assert [s] + xs + ys == [s] + (xs + ys);
    StepOpsNext(seen, [s] + xs);
    assert ([s] + xs)[1..] == xs;
  }

  lemma {:induction false} HoldsFront(seen: seq<Operator>, gaps: nat, s: Step, ss: seq<Step>)
    ensures Holds(seen, gaps, [s] + ss) <==> !Breaks(seen, s.op, gaps) && Holds(seen + [s.op], gaps + Gap(s.atom), ss)
  {
    assert ([s] + ss)[1..] == ss;
  }

  lemma {:induction false} LinkStepsConcat(xs: seq<Link>, ys: seq<Link>)
    ensures LinkSteps(xs + ys) == LinkSteps(xs) + LinkSteps(ys)
  {
    if xs == [] {
      assert xs + ys == ys;
    } else {
      LinkStepsConcat(xs[1..], ys);
      assert (xs + ys)[1..] == xs[1..] + ys;
    }
  }

  function LinkOperators(ls: seq<Link>): (ops: seq<Operator>)
    ensures |ops| == |ls| && forall i :: 0 <= i < |ls| ==> ops[i] == ls[i].op
  {
    seq(|ls|, i requires 0 <= i < |ls| => ls[i].op)
  }

  lemma {:induction false} FineSteps(ls: seq<Link>)
    requires forall i :: 0 <= i < |ls| ==> FineLink(ls[i])
    ensures GapCount(LinkSteps(ls)) == 0 && StepOps(LinkSteps(ls)) == LinkOperators(ls)
  {
    if ls != [] {
      FineSteps(ls[1..]);
      assert FineLink(ls[0]);
      OneLinkGap(ls[0]);
      GapsConcat(OneLinkSteps(ls[0]), LinkSteps(ls[1..]));
    }
  }

  // ---------------------------------------------------------------- main results

  /** What becomes of a sequence whose atoms are fine but for negative literals in places where they are not read as
      such: accepted if there are none; otherwise the minus sign of each is an operator without operand before it,
      and the parser reads from an empty stack exactly when an operator breaks the parse. */
  lemma {:induction false} ChainOutcome(c: Chain, rest: seq<Token>)
    requires ShapedChain(c) && Fine(c.first) && FineAtoms(c.links) && Stops(rest)
    ensures var r, ss := ParseExpression(ChainTokens(c) + rest), LinkSteps(c.links);
      && (r.Ok? <==> FineChain(c))
      && (r.Undefined? <==> !Holds([], 0, ss))
      && (r.Error? <==> !FineChain(c) && Holds([], 0, ss))
  {
    LinkStepsTokens(c.links);
    LinkStepsGood(c.links);
    GapsExact(Some(c.first), LinkSteps(c.links), rest);
  }

  /** One negative literal behind an operator: an operand is read from an empty stack exactly when the loosest
      operator up to there binds no looser than the minus sign, or no looser than some operator behind the literal;
      otherwise there is an error. */
  lemma {:induction false} NegativeExact(c: Chain, i: nat, rest: seq<Token>)
    requires ShapedChain(c) && Fine(c.first) && FineAtoms(c.links) && Stops(rest)
    requires i < |c.links| && Negative(c.links[i].atom)
    requires forall j :: 0 <= j < |c.links| && j != i ==> FineLink(c.links[j])
    ensures var r, ops := ParseExpression(ChainTokens(c) + rest), LinkOperators(c.links);
      var loosest := Level(ops[..i + 1][Loosest(ops[..i + 1])]);
      && (r.Undefined? <==> loosest <= Level(Sub) || exists j :: i < j < |ops| && loosest <= Level(ops[j]))
      && (r.Undefined? || r.Error?)
  {
    var ls, ops := c.links, LinkOperators(c.links);
    ChainOutcome(c, rest);
    assert !FineLink(ls[i]);
    NegativeHolds(ls[..i], ls[i], ls[i + 1..]);
    NegativeParts(ls, i);
    UnderFrom(ops, i + 1, Level(ops[..i + 1][Loosest(ops[..i + 1])]));
  }

  lemma {:induction false} NegativeParts(ls: seq<Link>, i: nat)
    requires i < |ls|
    ensures ls == ls[..i] + [ls[i]] + ls[i + 1..]
    ensures LinkOperators(ls)[..i + 1] == LinkOperators(ls[..i]) + [ls[i].op]
    ensures LinkOperators(ls)[i + 1..] == LinkOperators(ls[i + 1..])
  {}

  lemma {:induction false} UnderFrom(ops: seq<Operator>, k: nat, level: nat)
    requires k <= |ops|
    ensures Under(ops[k..], level) <==> !(exists j :: k <= j < |ops| && level <= Level(ops[j]))
  {
    if !(exists j :: k <= j < |ops| && level <= Level(ops[j])) {
      forall x | 0 <= x < |ops[k..]| ensures Level(ops[k..][x]) < level { assert ops[k..][x] == ops[k + x]; }
    }
    if j :| k <= j < |ops| && level <= Level(ops[j]) { assert ops[k..][j - k] == ops[j]; }
  }

  lemma {:induction false} NegativeHolds(before: seq<Link>, l: Link, behind: seq<Link>)
    requires Negative(l.atom)
    requires (forall j :: 0 <= j < |before| ==> FineLink(before[j])) && forall j :: 0 <= j < |behind| ==> FineLink(behind[j])
    ensures var ops := LinkOperators(before) + [l.op];
      var loosest := Level(ops[Loosest(ops)]);
      Holds([], 0, LinkSteps(before + [l] + behind)) <==> Level(Sub) < loosest && Under(LinkOperators(behind), loosest)
  {
    var ys, sign := LinkSteps(behind), Step(Sub, Some(ANumber(-l.atom.n)));
    NegativeSteps(before, l, behind);
    FineThenHolds(before, [Step(l.op, None)] + ([sign] + ys));
    GapThenHolds(LinkOperators(before), l.op, [sign] + ys);
    SignHolds(LinkOperators(before) + [l.op], sign, behind);
  }

  lemma {:induction false} NegativeSteps(before: seq<Link>, l: Link, behind: seq<Link>)
    requires Negative(l.atom)
    ensures LinkSteps(before + [l] + behind)
         == LinkSteps(before) + ([Step(l.op, None)] + ([Step(Sub, Some(ANumber(-l.atom.n)))] + LinkSteps(behind)))
  {
    LinkStepsConcat(before + [l], behind);
    LinkStepsConcat(before, [l]);
    SingleLink(l);
    Grouped2(LinkSteps(before), Step(l.op, None), Step(Sub, Some(ANumber(-l.atom.n))), LinkSteps(behind));
  }

  lemma {:induction false} Grouped2<T>(xs: seq<T>, a: T, b: T, ys: seq<T>)
    ensures xs + ([a] + [b]) + ys == xs + ([a] + ([b] + ys))
  {}

  lemma {:induction false} FineThenHolds(before: seq<Link>, ss: seq<Step>)
    requires forall j :: 0 <= j < |before| ==> FineLink(before[j])
    ensures Holds([], 0, LinkSteps(before) + ss) <==> Holds(LinkOperators(before), 0, ss)
  {
    FineSteps(before);
    GaplessThenHolds(LinkSteps(before), LinkOperators(before), ss);
  }

  lemma {:induction false} GaplessThenHolds(xs: seq<Step>, ops: seq<Operator>, ss: seq<Step>)
    requires GapCount(xs) == 0 && StepOps(xs) == ops
    ensures Holds([], 0, xs + ss) <==> Holds(ops, 0, ss)
  {
    HoldsConcat([], 0, xs, ss);
    NoGapHolds([], xs);
    assert [] + ops == ops;
  }

  lemma {:induction false} SignHolds(ops: seq<Operator>, sign: Step, behind: seq<Link>)
    requires ops != [] && sign.op == Sub && sign.atom.Some? && forall j :: 0 <= j < |behind| ==> FineLink(behind[j])
    ensures var loosest := Level(ops[Loosest(ops)]);
      Holds(ops, 1, [sign] + LinkSteps(behind)) <==> Level(Sub) < loosest && Under(LinkOperators(behind), loosest)
  {
    FineSteps(behind);
    SignSteps(sign, LinkSteps(behind));
    OneGap(ops, [sign] + LinkSteps(behind));
    OpenLoosest(ops);
    UnderFront(Sub, LinkOperators(behind), Level(ops[Loosest(ops)]));
  }

  lemma {:induction false} SignSteps(sign: Step, ys: seq<Step>)
    requires sign.atom.Some?
    ensures GapCount([sign] + ys) == GapCount(ys) && StepOps([sign] + ys) == [sign.op] + StepOps(ys)
  {
    assert ([sign] + ys)[1..] == ys;
  }

  lemma {:induction false} SingleLink(l: Link)
    requires Negative(l.atom)
    ensures LinkSteps([l]) == [Step(l.op, None)] + [Step(Sub, Some(ANumber(-l.atom.n)))]
  {
    assert [l][1..] == [] && LinkSteps([]) == [];
    assert LinkSteps([l]) == OneLinkSteps(l) + [];
  }

  lemma {:induction false} GapThenHolds(seen: seq<Operator>, op: Operator, ss: seq<Step>)
    ensures Holds(seen, 0, [Step(op, None)] + ss) <==> Holds(seen + [op], 1, ss)
  {
    assert ([Step(op, None)] + ss)[1..] == ss;
    OpenLast(seen + [op]);
  }

  /** A binary operator with nothing before it that is no sign: an operand is read from an empty stack exactly when
      some operator behind it binds no tighter; otherwise there is an error. */
  lemma {:induction false} NothingBefore(op: Operator, a: Atom, ls: seq<Link>, rest: seq<Token>)
    requires !IsUnary(op) && Shaped(a) && Fine(a) && Plain(a) && (op == Sub ==> !Literal(AtomTokens(a)[0])) && Stops(rest)
    requires ShapedLinks(ls) && forall i :: 0 <= i < |ls| ==> FineLink(ls[i])
    ensures var r := ParseExpression([Op(op)] + (AtomTokens(a) + (LinkTokens(ls) + rest)));
      && (r.Undefined? <==> exists i :: 0 <= i < |ls| && Level(ls[i].op) >= Level(op))
      && (r.Undefined? || r.Error?)
  {
    var s, ss := Step(op, Some(a)), LinkSteps(ls);
    FineSteps(ls);
    assert FineAtoms(ls) by { forall i | 0 <= i < |ls| ensures Fine(ls[i].atom) { assert FineLink(ls[i]); } }
    LinkStepsGood(ls);
    SignSteps(s, ss);
    GoodFront(s, ss);
    NothingTokens(s, ls, rest);
    GapsExact(None, [s] + ss, rest);
    NothingHolds(s, ls);
    UnderFrom(LinkOperators(ls), 0, Level(op));
    assert LinkOperators(ls)[0..] == LinkOperators(ls);
  }

  lemma {:induction false} NothingTokens(s: Step, ls: seq<Link>, rest: seq<Token>)
    requires s.atom.Some?
    ensures Sequence(None, [s] + LinkSteps(ls)) + rest == [Op(s.op)] + (AtomTokens(s.atom.value) + (LinkTokens(ls) + rest))
  {
    LinkStepsTokens(ls);
    StepTokensFront(s, LinkSteps(ls));
    Around([Op(s.op)], AtomTokens(s.atom.value), LinkTokens(ls), rest);
    assert [] + StepTokens([s] + LinkSteps(ls)) == StepTokens([s] + LinkSteps(ls));
  }

  lemma {:induction false} NothingHolds(s: Step, ls: seq<Link>)
    requires s.atom.Some? && forall i :: 0 <= i < |ls| ==> FineLink(ls[i])
    ensures Holds([], 1, [s] + LinkSteps(ls)) <==> Under(LinkOperators(ls), Level(s.op))
  {
    FineSteps(ls);
    HoldsFront([], 1, s, LinkSteps(ls));
    assert [] + [s.op] == [s.op];
    OneGap([s.op], LinkSteps(ls));
    assert Open([s.op]) == [s.op] by { assert [s.op][1..] == []; }
  }

  lemma {:induction false} GoodFront(s: Step, ss: seq<Step>)
    requires GoodStep(s) && GoodSteps(ss)
    ensures GoodSteps([s] + ss)
  {}

  /** A minus sign and a number behind an operator and its left operand. */
  lemma {:induction false} SignBehind(x: Expr, op: Operator, n: nat, rest: seq<Token>)
    requires !IsUnary(op) && Stops(rest)
    ensures !ExpressionLoop([Op(Sub)] + ([IntLit(n)] + rest), [x], [op]).Ok?
  {
    First(Op(Sub), [IntLit(n)] + rest);
    if Level(Sub) < Level(op) {
      OperatorRound(Sub, [IntLit(n)] + rest, [x], [op], Stacks([x], [op]));
      First(IntLit(n), rest);
      OperandRound([IntLit(n)] + rest, Number(n), rest, [x], [op] + [Sub]);
      NoUnary([x] + [Number(n)], [op] + [Sub]);
      FinishCount([x] + [Number(n)], [op] + [Sub], rest);
    }
  }
}
