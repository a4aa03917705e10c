/** Operands and binary operators in any order: the parser counts, it does not look where they stand. */
module Jumbles {
  import opened Syntax
  import opened Parsing
  import opened Infix
  import opened Gaps

  /** An operand or a binary operator. */
  datatype Item = Word(atom: Atom) | Sign(op: Operator)

  function ItemTokens(i: Item): (r: seq<Token>)
    ensures r != []
  {
    if i.Word? then AtomTokens(i.atom) else [Op(i.op)]
  }

  function JumbleTokens(is_: seq<Item>): seq<Token>
  {
    if is_ == [] then [] else ItemTokens(is_[0]) + JumbleTokens(is_[1..])
  }

  function Words(is_: seq<Item>): nat { if is_ == [] then 0 else (if is_[0].Word? then 1 else 0) + Words(is_[1..]) }

  function Signs(is_: seq<Item>): seq<Operator>
  {
    if is_ == [] then [] else (if is_[0].Sign? then [is_[0].op] else []) + Signs(is_[1..])
  }

  predicate Good(i: Item) { if i.Word? then Shaped(i.atom) && Fine(i.atom) && Plain(i.atom) else !IsUnary(i.op) }

  predicate AllGood(is_: seq<Item>) { forall k :: 0 <= k < |is_| ==> Good(is_[k]) }

  /** The first operand is no literal behind a minus sign, which would belong to it. */
  predicate NoSign(is_: seq<Item>)
  {
    is_ == [] || is_[0].Word? || |is_| == 1 || (if is_[1].Word? then is_[0].op == Sub ==> !Literal(AtomTokens(is_[1].atom)[0]) else NoSign(is_[1..]))
  }

  /** The operator makes the parser build the one before it, and the operands read and the operators that keep waiting
      are together no more than the operators read. */
  predicate Clash(words: nat, seen: seq<Operator>, op: Operator)
  {
    seen != [] && Level(op) >= Level(seen[|seen| - 1]) && words + |Open(seen + [op])| <= |seen| + 1
  }

  predicate Passes(words: nat, seen: seq<Operator>, is_: seq<Item>)
    decreases |is_|
  {
    is_ == []
    || (if is_[0].Word? then Passes(words + 1, seen, is_[1..])
        else !Clash(words, seen, is_[0].op) && Passes(words, seen + [is_[0].op], is_[1..]))
  }

  // ---------------------------------------------------------------- the run

  /** All operands read are on the stack but those built into others, one for each operator that waits no longer. */
  predicate Stands(words: nat, seen: seq<Operator>, operands: seq<Expr>)
  {
    AllBinary(Open(seen)) && |operands| + |seen| == words + |Open(seen)|
  }

  lemma {:induction false} SignRun(words: nat, seen: seq<Operator>, operands: seq<Expr>, op: Operator, more: seq<Token>)
    returns (held: seq<Expr>)
    requires Stands(words, seen, operands) && !IsUnary(op)
    ensures Clash(words, seen, op) ==> ExpressionLoop([Op(op)] + more, operands, Open(seen)).Undefined?
    ensures !Clash(words, seen, op) ==>
      && ExpressionLoop([Op(op)] + more, operands, Open(seen)) == ExpressionLoop(more, held, Open(seen + [op]))
      && Stands(words, seen + [op], held) && (held == [] <==> operands == [])
  {
    var s := Reduce(operands, Open(seen), op);
    SignCounts(words, seen, operands, op);
    First(Op(op), more);
    held := [];
    if s.Stacks? {
      OperatorRound(op, more, operands, Open(seen), s);
      held := s.operands;
    }
  }

  lemma {:induction false} SignCounts(words: nat, seen: seq<Operator>, operands: seq<Expr>, op: Operator)
    requires Stands(words, seen, operands) && !IsUnary(op)
    ensures var s := Reduce(operands, Open(seen), op);
      && (s.Stacks? <==> !Clash(words, seen, op))
      && (s.Stacks? ==> s.ops + [op] == Open(seen + [op]) && Stands(words, seen + [op], s.operands) && (s.operands == [] <==> operands == []))
  {
    ReduceCount(operands, Open(seen), op);
    OpenNext(seen, op);
    if seen != [] { OpenLast(seen); }
    KeptBinary(Open(seen), op);
  }

  lemma {:induction false} WordRun(seen: seq<Operator>, operands: seq<Expr>, a: Atom, more: seq<Token>)
    requires Shaped(a) && Fine(a) && Plain(a) && Peek(more) != OpenSquare && AllBinary(Open(seen))
    requires operands == [] && seen != [] && seen[|seen| - 1] == Sub ==> !Literal(AtomTokens(a)[0])
    ensures ExpressionLoop(AtomTokens(a) + more, operands, Open(seen)) == ExpressionLoop(more, operands + [AtomExpr(a)], Open(seen))
  {
    AtomOk(a, more);
    PeekFirst(AtomTokens(a), more);
    if seen != [] { OpenLast(seen); }
    OperandRound(AtomTokens(a) + more, AtomExpr(a), more, operands, Open(seen));
  }

  lemma {:induction false} ItemPeek(i: Item, more: seq<Token>)
    requires Good(i)
    ensures Peek(ItemTokens(i) + more) != OpenSquare
  {
    PeekFirst(ItemTokens(i), more);
    if i.Word? { AtomStarts(i.atom); }
  }

  lemma {:induction false} JumbleSplit(is_: seq<Item>, ts: seq<Token>)
    requires is_ != []
    ensures JumbleTokens(is_) + ts == ItemTokens(is_[0]) + (JumbleTokens(is_[1..]) + ts)
  {}

  lemma {:induction false} JumblePeek(is_: seq<Item>, ts: seq<Token>)
    requires AllGood(is_) && Peek(ts) != OpenSquare
    ensures Peek(JumbleTokens(is_) + ts) != OpenSquare
  {
    if is_ == [] {
      assert JumbleTokens(is_) + ts == ts;
    } else {
      JumbleSplit(is_, ts);
      ItemPeek(is_[0], JumbleTokens(is_[1..]) + ts);
    }
  }

  /** Until an operand has been read, the next item may not turn a minus sign into part of a literal. */
  predicate Ahead(seen: seq<Operator>, operands: seq<Expr>, is_: seq<Item>)
  {
    operands == [] ==> NoSign(if seen == [] then is_ else [Sign(seen[|seen| - 1])] + is_)
  }

  lemma {:induction false} AheadWord(seen: seq<Operator>, operands: seq<Expr>, is_: seq<Item>)
    requires is_ != [] && is_[0].Word? && Ahead(seen, operands, is_)
    ensures operands == [] && seen != [] && seen[|seen| - 1] == Sub ==> !Literal(AtomTokens(is_[0].atom)[0])
  {
    if seen != [] { assert ([Sign(seen[|seen| - 1])] + is_)[1] == is_[0]; }
  }

  lemma {:induction false} AheadSign(seen: seq<Operator>, operands: seq<Expr>, is_: seq<Item>, held: seq<Expr>)
    requires is_ != [] && is_[0].Sign? && Ahead(seen, operands, is_) && (held == [] <==> operands == [])
    ensures Ahead(seen + [is_[0].op], held, is_[1..])
  {
    assert [is_[0]] + is_[1..] == is_;
    if seen != [] {
      var all := [Sign(seen[|seen| - 1])] + is_;
      assert all[1] == is_[0] && all[1..] == is_;
    }
  }

  /** The outcome of a run: it breaks off, or all items are taken. */
  predicate Ends(r: Outcome<Expr>, pass: bool, words: nat, seen: seq<Operator>, operands: seq<Expr>, ts: seq<Token>)
  {
    if pass then r == ExpressionLoop(ts, operands, Open(seen)) && Stands(words, seen, operands) else r.Undefined?
  }

  /** Where a run stands: the outcome r of the loop, whether it will come through, and what will have been read. */
  ghost predicate Coming(r: Outcome<Expr>, pass: bool, total: nat, all: seq<Operator>,
                         words: nat, seen: seq<Operator>, operands: seq<Expr>, is_: seq<Item>, ts: seq<Token>)
  {
    && r == ExpressionLoop(JumbleTokens(is_) + ts, operands, Open(seen)) && pass == Passes(words, seen, is_)
    && total == words + Words(is_) && all == seen + Signs(is_)
    && Stands(words, seen, operands) && AllGood(is_) && Peek(ts) != OpenSquare && Ahead(seen, operands, is_)
  }

  lemma {:induction false} JumbleRun(r: Outcome<Expr>, pass: bool, total: nat, all: seq<Operator>,
                                     words: nat, seen: seq<Operator>, operands: seq<Expr>, is_: seq<Item>, ts: seq<Token>)
    returns (held: seq<Expr>)
    requires Coming(r, pass, total, all, words, seen, operands, is_, ts)
    ensures Ends(r, pass, total, all, held, ts)
    decreases |is_|
  {
    held := operands;
    if is_ == [] {
      assert JumbleTokens(is_) + ts == ts && seen + Signs(is_) == seen;
    } else if is_[0].Word? {
      WordNext(r, pass, total, all, words, seen, operands, is_, ts);
      held := JumbleRun(r, pass, total, all, words + 1, seen, operands + [AtomExpr(is_[0].atom)], is_[1..], ts);
    } else if Clash(words, seen, is_[0].op) {
      SignClash(r, pass, total, all, words, seen, operands, is_, ts);
    } else {
      var next := SignNext(r, pass, total, all, words, seen, operands, is_, ts);
      held := JumbleRun(r, pass, total, all, words, seen + [is_[0].op], next, is_[1..], ts);
    }
  }

  lemma {:induction false} WordNext(r: Outcome<Expr>, pass: bool, total: nat, all: seq<Operator>,
                                    words: nat, seen: seq<Operator>, operands: seq<Expr>, is_: seq<Item>, ts: seq<Token>)
    requires Coming(r, pass, total, all, words, seen, operands, is_, ts) && is_ != [] && is_[0].Word?
    ensures Coming(r, pass, total, all, words + 1, seen, operands + [AtomExpr(is_[0].atom)], is_[1..], ts)
  {
    var tail, a := is_[1..], is_[0].atom;
    WordTail(is_);
    JumbleSplit(is_, ts);
    JumblePeek(tail, ts);
    AheadWord(seen, operands, is_);
    WordRun(seen, operands, a, JumbleTokens(tail) + ts);
    WordStands(words, seen, operands, AtomExpr(a));
  }

  lemma {:induction false} WordTail(is_: seq<Item>)
    requires is_ != [] && is_[0].Word? && AllGood(is_)
    ensures Good(is_[0]) && AllGood(is_[1..]) && Words(is_) == 1 + Words(is_[1..]) && Signs(is_) == Signs(is_[1..])
  {
    assert [] + Signs(is_[1..]) == Signs(is_[1..]);
  }

  lemma {:induction false} WordStands(words: nat, seen: seq<Operator>, operands: seq<Expr>, e: Expr)
    requires Stands(words, seen, operands)
    ensures Stands(words + 1, seen, operands + [e]) && operands + [e] != []
  {}

  lemma {:induction false} SignClash(r: Outcome<Expr>, pass: bool, total: nat, all: seq<Operator>,
                                     words: nat, seen: seq<Operator>, operands: seq<Expr>, is_: seq<Item>, ts: seq<Token>)
    requires Coming(r, pass, total, all, words, seen, operands, is_, ts) && is_ != [] && is_[0].Sign? && Clash(words, seen, is_[0].op)
    ensures r.Undefined? && !pass
  {
    assert Good(is_[0]);
    JumbleSplit(is_, ts);
    var held := SignRun(words, seen, operands, is_[0].op, JumbleTokens(is_[1..]) + ts);
  }

  lemma {:induction false} SignNext(r: Outcome<Expr>, pass: bool, total: nat, all: seq<Operator>,
                                    words: nat, seen: seq<Operator>, operands: seq<Expr>, is_: seq<Item>, ts: seq<Token>)
    returns (next: seq<Expr>)
    requires Coming(r, pass, total, all, words, seen, operands, is_, ts) && is_ != [] && is_[0].Sign? && !Clash(words, seen, is_[0].op)
    ensures Coming(r, pass, total, all, words, seen + [is_[0].op], next, is_[1..], ts)
  {
    assert Good(is_[0]);
    JumbleSplit(is_, ts);
    next := SignRun(words, seen, operands, is_[0].op, JumbleTokens(is_[1..]) + ts);
    AheadSign(seen, operands, is_, next);
    SignsNext(seen, is_);
  }

  lemma {:induction false} SignsNext(seen: seq<Operator>, is_: seq<Item>)
    requires is_ != [] && is_[0].Sign?
    ensures seen + Signs(is_) == seen + [is_[0].op] + Signs(is_[1..])
  {}

  // ---------------------------------------------------------------- main results

  /** A jumble of plain operands and binary operators is accepted exactly when there is one operand more than there
      are operators and no operator clashes; it reads from an empty stack exactly when one does. */
  lemma {:induction false} JumbleExact(is_: seq<Item>, rest: seq<Token>)
    requires AllGood(is_) && NoSign(is_) && Stops(rest)
    ensures var r, pass := ParseExpression(JumbleTokens(is_) + rest), Passes(0, [], is_);
      && (r.Ok? <==> pass && Words(is_) == |Signs(is_)| + 1)
      && (r.Undefined? <==> !pass)
      && (r.Error? <==> pass && Words(is_) != |Signs(is_)| + 1)
  {
    var ops := Open(Signs(is_));
    assert [] + Signs(is_) == Signs(is_);
    var held := JumbleRun(ParseExpression(JumbleTokens(is_) + rest), Passes(0, [], is_), Words(is_), Signs(is_), 0, [], [], is_, rest);
    if Passes(0, [], is_) {
      NoUnary(held, ops);
      FinishCount(held, ops, rest);
    }
  }

  /** So an operator may stand behind both its operands. */
  lemma {:induction false} OperatorBehind(a: Atom, b: Atom, op: Operator, rest: seq<Token>)
    requires Good(Word(a)) && Good(Word(b)) && !IsUnary(op) && Stops(rest)
    ensures ParseExpression(AtomTokens(a) + (AtomTokens(b) + ([Op(op)] + rest))) == Ok(Binary(AtomExpr(a), op, AtomExpr(b)), rest)
  {
    var x, y := AtomExpr(a), AtomExpr(b);
    var last := [Op(op)] + rest;
    First(Op(op), rest);
    AtomStarts(b);
    PeekFirst(AtomTokens(b), last);
    WordRun([], [], a, AtomTokens(b) + last);
    WordRun([], [x], b, last);
    assert [] + [x] == [x] && [x] + [y] == [x, y];
    OperatorRound(op, rest, [x, y], [], Stacks([x, y], []));
    BuiltLast(x, op, y, rest);
  }

  lemma {:induction false} BuiltLast(x: Expr, op: Operator, y: Expr, rest: seq<Token>)
    requires !IsUnary(op) && Stops(rest)
    ensures ExpressionLoop(rest, [x, y], [] + [op]) == Ok(Binary(x, op, y), rest)
  {
    var ops := [op];
    assert [] + [op] == ops;
    NoUnary([x, y], ops);
    assert [x, y][..0] == [] && ops[..0] == [];
    assert Finish([Binary(x, op, y)], [], rest) == Ok(Binary(x, op, y), rest);
    assert Finish([x, y], ops, rest) == Finish([] + [Binary(x, op, y)], [], rest);
  }
}
