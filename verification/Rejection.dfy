/** What the expression parser does with the sequences it does not read as they stand. */
module Rejection {
  import opened Syntax
  import opened Parsing
  import opened Infix
  import opened Gaps

  /** Neither accepted nor without end. */
  predicate Refused<T>(r: Outcome<T>) { r.Error? || r.Undefined? }

  // ---------------------------------------------------------------- operands that are not fine

  lemma {:induction false} BadLinkAtom(l: Link, more: seq<Token>)
    requires ShapedLink(l) && !Fine(l.atom)
    ensures StartsOperand(Peek(AtomTokens(l.atom) + more)) && Refused(ParseOperand(AtomTokens(l.atom) + more, false))
    decreases l, 0
  {
    BadAtom(l.atom, more);
  }

  lemma {:induction false} BadTarget(a: Atom, rest: seq<Token>)
    requires (a.AVariable? || a.AIndex?) && Shaped(a) && !Fine(a)
    ensures AtomTokens(a)[0].Ident? && Refused(ParseTarget(AtomTokens(a) + rest))
    decreases a, 1
  {
    var t, i := a.target, a.index;
    var more := ChainTokens(i) + ([CloseSquare] + rest);
    IndexSplit(t, i, rest);
    if Fine(t) {
      TargetOk(t, [OpenSquare] + more);
      First(OpenSquare, more);
      BadChain(i, [CloseSquare] + rest);
    } else {
      BadTarget(t, [OpenSquare] + more);
    }
  }

  lemma {:induction false} BadAtom(a: Atom, rest: seq<Token>)
    requires Shaped(a) && !Fine(a) && Plain(a)
    ensures StartsOperand(Peek(AtomTokens(a) + rest)) && Refused(ParseOperand(AtomTokens(a) + rest, false))
    decreases a, 3
  {
    AtomStarts(a);
    PeekFirst(AtomTokens(a), rest);
    match a
    case AIndex(t, i) => BadTarget(a, rest);
    case AParen(c) =>
      Around([OpenRound], ChainTokens(c), [CloseRound], rest);
      First(OpenRound, ChainTokens(c) + ([CloseRound] + rest));
      BadChain(c, [CloseRound] + rest);
    case AList(cs) =>
      Around([OpenCurly], ItemTokens(cs), [CloseCurly], rest);
      First(OpenCurly, ItemTokens(cs) + ([CloseCurly] + rest));
      BadItems(cs, [], rest);
    case ARotate(x, k) => BadRotate(x, k, rest);
  }

  lemma {:induction false} BadRotate(x: Chain, k: Chain, rest: seq<Token>)
    requires ShapedChain(x) && ShapedChain(k) && !(FineChain(x) && FineChain(k))
    ensures Refused(ParseRotate(AtomTokens(ARotate(x, k)) + rest))
    decreases ARotate(x, k), 2
  {
    var last := ChainTokens(k) + ([CloseRound] + rest);
    var mid := ChainTokens(x) + ([Comma] + last);
    RotateSplit(x, k, rest);
    First(Rotate, [OpenRound] + mid);
    First(OpenRound, mid);
    First(Comma, last);
    if FineChain(x) {
      ChainOk(x, [Comma] + last);
      BadChain(k, [CloseRound] + rest);
    } else {
      BadChain(x, [Comma] + last);
    }
  }

  lemma {:induction false} NothingThere(t: Token, rest: seq<Token>)
    requires Stops([t] + rest)
    ensures ParseExpression([t] + rest).Error?
  {
    NoUnary([], []);
    assert Finish([], [], [t] + rest).Error?;
  }

  lemma {:induction false} BadItems(cs: seq<Chain>, items: seq<Expr>, rest: seq<Token>)
    requires forall i :: 0 <= i < |cs| ==> ShapedChain(cs[i])
    requires cs == [] || exists i :: 0 <= i < |cs| && !FineChain(cs[i])
    ensures Refused(ParseItems(ItemTokens(cs) + ([CloseCurly] + rest), items))
    decreases cs, 1
  {
    First(CloseCurly, rest);
    if cs == [] {
      assert ItemTokens(cs) + ([CloseCurly] + rest) == [CloseCurly] + rest;
      NothingThere(CloseCurly, rest);
    } else if |cs| == 1 {
      BadChain(cs[0], [CloseCurly] + rest);
    } else {
      var more := ItemTokens(cs[1..]) + ([CloseCurly] + rest);
      ItemsSplit(cs, [CloseCurly] + rest);
      if FineChain(cs[0]) {
        OneItem(cs[0], items, more);
        var i :| 0 <= i < |cs| && !FineChain(cs[i]);
        assert cs[1..][i - 1] == cs[i];
        BadItems(cs[1..], items + [ChainExpr(cs[0])], rest);
      } else {
        First(Comma, more);
        BadChain(cs[0], [Comma] + more);
      }
    }
  }

  lemma {:induction false} SignBehindPrefix(u: Operator, n: nat, more: seq<Token>)
    requires IsUnary(u)
    ensures ExpressionLoop([Op(Sub)] + ([IntLit(n)] + more), [], [u]).Undefined?
  {
    First(Op(Sub), [IntLit(n)] + more);
    assert Reduce([], [u], Sub).Short?;
  }

  lemma {:induction false} BadFirst(a: Atom, more: seq<Token>)
    requires Shaped(a) && !Fine(a)
    ensures Refused(ParseExpression(AtomTokens(a) + more))
    decreases a, 4
  {
    if a.APrefix? {
      BadPrefixFirst(a, more);
    } else {
      BadAtom(a, more);
    }
  }

  lemma {:induction false} BadPrefixFirst(a: Atom, more: seq<Token>)
    requires Shaped(a) && !Fine(a) && a.APrefix?
    ensures Refused(ParseExpression(AtomTokens(a) + more))
    decreases a, 3
  {
    var ts := AtomTokens(a.operand) + more;
    assert AtomTokens(a) + more == [Op(a.u)] + ts;
    PrefixRound(a.u, ts);
    if Negative(a.operand) {
      NegativeFirst(a.u, a.operand, more);
    } else {
      BadAtom(a.operand, more);
    }
  }

  lemma {:induction false} NegativeFirst(u: Operator, a: Atom, more: seq<Token>)
    requires IsUnary(u) && Negative(a)
    ensures Refused(ExpressionLoop(AtomTokens(a) + more, [], [u]))
  {
    var n: nat := -a.n;
    assert AtomTokens(a) + more == [Op(Sub)] + ([IntLit(n)] + more);
    SignBehindPrefix(u, n, more);
  }

  /** An operand that is not read, behind an operator. */
  lemma {:induction false} BadOperandRefused(l: Link, more: seq<Token>, operands: seq<Expr>, ops: seq<Operator>)
    requires ShapedLink(l) && !Fine(l.atom) && operands != []
    ensures Refused(ExpressionLoop(AtomTokens(l.atom) + more, operands, ops))
    decreases l, 1
  {
    BadLinkAtom(l, more);
  }

  /** The first atom that is not fine ends the parse, if it has not broken off before. */
  lemma {:induction false} BadLinkRefused(first: Atom, before: seq<Link>, l: Link, more: seq<Token>)
    requires Shaped(first) && Fine(first) && ShapedLinks(before) && FineAtoms(before) && ShapedLink(l) && !Fine(l.atom)
    ensures Refused(ParseExpression(AtomTokens(first) + (LinkTokens(before) + ([Op(l.op)] + (AtomTokens(l.atom) + more)))))
    decreases l, 2
  {
    var ss, ts := LinkSteps(before), [Op(l.op)] + (AtomTokens(l.atom) + more);
    LinkStepsTokens(before);
    LinkStepsGood(before);
    assert Sequence(Some(first), ss) + ts == AtomTokens(first) + (LinkTokens(before) + ts);
    First(Op(l.op), AtomTokens(l.atom) + more);
    var operands := SequenceRun(Some(first), ss, ts);
    if Holds([], 0, ss) {
      var held := OperatorStep(StepOps(ss), GapCount(ss), operands, Open(StepOps(ss)), l.op, AtomTokens(l.atom) + more);
      if !Breaks(StepOps(ss), l.op, GapCount(ss)) { BadOperandRefused(l, more, held, Open(StepOps(ss) + [l.op])); }
    }
  }

  lemma {:induction false} FineNext(ls: seq<Link>, k: nat)
    requires k < |ls|
    ensures FineAtoms(ls[..k + 1]) <==> FineAtoms(ls[..k]) && Fine(ls[k].atom)
  {
    assert ls[..k + 1] == ls[..k] + [ls[k]];
    if FineAtoms(ls[..k + 1]) {
      assert Fine(ls[..k + 1][k].atom);
      forall j | 0 <= j < k ensures Fine(ls[..k][j].atom) { assert Fine(ls[..k + 1][j].atom); }
    }
  }

  lemma {:induction false} FirstBad(ls: seq<Link>, k: nat) returns (i: nat)
    requires k <= |ls| && !FineAtoms(ls[..k])
    ensures i < k && FineAtoms(ls[..i]) && !Fine(ls[i].atom)
  {
    FineNext(ls, k - 1);
    if FineAtoms(ls[..k - 1]) { i := k - 1; } else { i := FirstBad(ls, k - 1); }
  }

  lemma {:induction false} LinkTokensConcat(xs: seq<Link>, l: Link, ys: seq<Link>, rest: seq<Token>)
    ensures LinkTokens(xs + [l] + ys) + rest == LinkTokens(xs) + ([Op(l.op)] + (AtomTokens(l.atom) + (LinkTokens(ys) + rest)))
  {
    if xs == [] {
      assert xs + [l] + ys == [l] + ys && ([l] + ys)[1..] == ys;
      LinkSplit([l] + ys, rest);
    } else {
      var all, tail := xs + [l] + ys, [Op(l.op)] + (AtomTokens(l.atom) + (LinkTokens(ys) + rest));
      assert all[0] == xs[0] && all[1..] == xs[1..] + [l] + ys;
      LinkTokensConcat(xs[1..], l, ys, rest);
      LinkSplit(all, rest);
      LinkSplit(xs, tail);
    }
  }

  lemma {:induction false} BadChain(c: Chain, rest: seq<Token>)
    requires ShapedChain(c) && !FineChain(c) && Stops(rest)
    ensures Refused(ParseExpression(ChainTokens(c) + rest))
    decreases c, 2
  {
    var ls := c.links;
    assert ChainTokens(c) + rest == AtomTokens(c.first) + (LinkTokens(ls) + rest);
    if !Fine(c.first) {
      BadFirst(c.first, LinkTokens(ls) + rest);
    } else if FineAtoms(ls) {
      ChainOutcome(c, rest);
    } else {
      assert ls[..|ls|] == ls;
      var i := FirstBad(ls, |ls|);
      NegativeParts(ls, i);
      LinkTokensConcat(ls[..i], ls[i], ls[i + 1..], rest);
      BadLinkRefused(c.first, ls[..i], ls[i], LinkTokens(ls[i + 1..]) + rest);
    }
  }

  // ---------------------------------------------------------------- main results

  /** The parser reads an infix sequence exactly when its lists are not empty and its negative literals stand
      where an expression begins; then it returns the one tree that respects precedence. */
  lemma {:induction false} ChainExact(c: Chain, rest: seq<Token>)
    requires ShapedChain(c) && Stops(rest)
    ensures FineChain(c) <==> ParseExpression(ChainTokens(c) + rest) == Ok(ChainExpr(c), rest)
    ensures !FineChain(c) <==> Refused(ParseExpression(ChainTokens(c) + rest))
  {
    if FineChain(c) { ChainOk(c, rest); } else { BadChain(c, rest); }
  }

  /** A prefix operator behind a binary one goes to the operand before it, not to its own. */
  lemma {:induction false} PrefixMisplaced(a: Atom, op: Operator, u: Operator, b: Atom, rest: seq<Token>)
    requires Shaped(a) && Fine(a) && Shaped(b) && Fine(b) && Plain(b) && !IsUnary(op) && IsUnary(u) && Stops(rest)
    ensures ParseExpression(AtomTokens(a) + ([Op(op)] + ([Op(u)] + (AtomTokens(b) + rest))))
         == Ok(Binary(Unary(u, AtomExpr(a)), op, AtomExpr(b)), rest)
  {
    var x, y, last := AtomExpr(a), AtomExpr(b), AtomTokens(b) + rest;
    var mid := [Op(u)] + last;
    First(Op(op), mid);
    First(Op(u), last);
    FirstOk(a, [Op(op)] + mid);
    OperatorRound(op, mid, [x], [], Stacks([x], []));
    assert [] + [op] == [op];
    assert ExpressionLoop(mid, [x], [op]) == ExpressionLoop(last, [Unary(u, x)], [op]) by {
      assert [op] + [u] == [op, u] && [op, u][..1] == [op] && [x][..0] + [Unary(u, x)] == [Unary(u, x)];
      assert ApplyUnary([x], [op, u]) == Stacks([Unary(u, x)], [op]);
    }
    AtomOk(b, rest);
    OperandRound(last, y, rest, [Unary(u, x)], [op]);
    TwoOperands(Unary(u, x), op, y, rest);
  }

  lemma {:induction false} TwoOperands(x: Expr, op: Operator, y: Expr, rest: seq<Token>)
    requires !IsUnary(op) && Stops(rest)
    ensures ExpressionLoop(rest, [x] + [y], [op]) == Ok(Binary(x, op, y), rest)
  {
    assert [x] + [y] == [x, y] && [x, y][..0] + [Binary(x, op, y)] == [Binary(x, op, y)] && [op][..0] == [];
    NoUnary([x, y], [op]);
    assert Finish([Binary(x, op, y)], [], rest) == Ok(Binary(x, op, y), rest);
    assert Finish([x, y], [op], rest) == Ok(Binary(x, op, y), rest);
  }

  /** A postfix operator behind a sequence is never passed, so the parse does not end, exactly when every atom is
      fine and no operator breaks the parse before; in particular behind every sequence that would be accepted. */
  lemma {:induction false} PostfixExact(c: Chain, rest: seq<Token>)
    requires ShapedChain(c)
    ensures var r := ParseExpression(ChainTokens(c) + ([Postfix] + rest));
      && (r.Endless? <==> Fine(c.first) && FineAtoms(c.links) && Holds([], 0, LinkSteps(c.links)))
      && (FineChain(c) ==> r.Endless?)
  {
    var ls, ts := c.links, [Postfix] + rest;
    assert ChainTokens(c) + ts == AtomTokens(c.first) + (LinkTokens(ls) + ts);
    if !Fine(c.first) {
      BadFirst(c.first, LinkTokens(ls) + ts);
    } else if FineAtoms(ls) {
      FinePostfix(c, rest);
    } else {
      assert ls[..|ls|] == ls;
      var i := FirstBad(ls, |ls|);
      NegativeParts(ls, i);
      LinkTokensConcat(ls[..i], ls[i], ls[i + 1..], ts);
      BadLinkRefused(c.first, ls[..i], ls[i], LinkTokens(ls[i + 1..]) + ts);
      NotFineLink(ls, i);
    }
  }

  lemma {:induction false} NotFineLink(ls: seq<Link>, i: nat)
    requires i < |ls| && !Fine(ls[i].atom)
    ensures !(forall j :: 0 <= j < |ls| ==> FineLink(ls[j]))
  {
    assert !FineLink(ls[i]);
  }

  lemma {:induction false} FinePostfix(c: Chain, rest: seq<Token>)
    requires ShapedChain(c) && Fine(c.first) && FineAtoms(c.links)
    ensures var r := ParseExpression(ChainTokens(c) + ([Postfix] + rest));
      && (r.Endless? <==> Holds([], 0, LinkSteps(c.links)))
      && (FineChain(c) ==> r.Endless?)
  {
    LinkStepsTokens(c.links);
    LinkStepsGood(c.links);
    GapsPostfix(Some(c.first), LinkSteps(c.links), rest);
    if FineChain(c) { NoGapHolds([], LinkSteps(c.links)); }
  }

  // ---------------------------------------------------------------- loops

  lemma {:induction false} CommaNoStatement(ts: seq<Token>)
    requires Peek(ts) == Comma
    ensures !ParseStatement(ts).Ok? && !ParseUpdate(ts).Ok?
  {
    assert !ParseTarget(ts).Ok?;
    assert !ParseBare(ts).Ok?;
  }

  /** A loop starts with exactly one statement, or with none: one with a comma behind it is refused, because the
      comma is taken only from the third statement on. */
  lemma {:induction false} StartExact(ts: seq<Token>)
    ensures var s, r := ParseStatement(ts), ParseStart(ts, []);
      && (r.Ok? <==> s.Ok? && Peek(s.rest) != Comma)
      && (r.Ok? ==> r == Ok([s.value], s.rest))
  {
    var s := ParseStatement(ts);
    if s.Ok? {
      assert [] + [s.value] == [s.value];
      if Peek(s.rest) == Comma { CommaNoStatement(s.rest); }
    }
  }

  /** So it is with the statements a round ends with. */
  lemma {:induction false} UpdatesExact(ts: seq<Token>)
    ensures var s, r := ParseUpdate(ts), ParseUpdates(ts, []);
      && (r.Ok? <==> s.Ok? && Peek(s.rest) != Comma)
      && (r.Ok? ==> r == Ok([s.value], s.rest))
  {
    var s := ParseUpdate(ts);
    if s.Ok? {
      assert [] + [s.value] == [s.value];
      if Peek(s.rest) == Comma { CommaNoStatement(s.rest); }
    }
  }
}
