/** The fully parenthesizing printer, and what the parser makes of every printed expression. */
module Printing {
  import opened Syntax
  import opened Parsing
  import Infix
  import Gaps
  import Rejection

  /** Trees the front end builds, without string literals: only variables are indexed, operators have their arity. */
  predicate Printable(e: Expr)
    decreases e, 0
  {
    match e
    case Text(_) => false
    case IndexAccess(t, i) => (t.Variable? || t.IndexAccess?) && Printable(t) && Printable(i)
    case Binary(l, op, r) => Printable(l) && Printable(r) && !IsUnary(op)
    case Unary(u, x) => IsUnary(u) && Printable(x)
    case List(xs) => PrintableAll(xs)
    case RotateCall(x, k) => Printable(x) && Printable(k)
    case _ => true
  }

  predicate PrintableAll(xs: seq<Expr>)
    decreases xs, 1
  {
    xs == [] || (Printable(xs[0]) && PrintableAll(xs[1..]))
  }

  function PrintExpr(e: Expr): (r: seq<Token>)
    requires Printable(e)
    ensures r != []
    decreases e, 0
  {
    match e
    case Number(n) => if n < 0 then [Op(Sub), IntLit(-n)] else [IntLit(n)]
    case Truth(b) => [if b then True else False]
    case Variable(x) => [Ident(x)]
    case IndexAccess(t, i) => PrintExpr(t) + ([OpenSquare] + (PrintExpr(i) + [CloseSquare]))
    case Binary(l, op, r) => [OpenRound] + (PrintExpr(l) + ([Op(op)] + (PrintExpr(r) + [CloseRound])))
    case Unary(u, x) => [Op(u)] + PrintExpr(x)
    case List(xs) => [OpenCurly] + (PrintItems(xs) + [CloseCurly])
    case RotateCall(x, k) => [Rotate] + ([OpenRound] + (PrintExpr(x) + ([Comma] + (PrintExpr(k) + [CloseRound]))))
  }

  function PrintItems(xs: seq<Expr>): seq<Token>
    requires PrintableAll(xs)
    decreases xs, 1
  {
    if xs == [] then []
    else if |xs| == 1 then PrintExpr(xs[0])
    else PrintExpr(xs[0]) + ([Comma] + PrintItems(xs[1..]))
  }

  // ---------------------------------------------------------------- what is read back

  predicate Negative(e: Expr) { e.Number? && e.n < 0 }

  /** The first token already tells that an operand comes. */
  predicate Plain(e: Expr) { !Negative(e) && !e.Unary? }

  /** Without its prefix operators. */
  function Base(e: Expr): (b: Expr)
    requires Printable(e)
    ensures !b.Unary? && Printable(b) && (b < e || b == e)
    decreases e
  {
    if e.Unary? then Base(e.operand) else e
  }

  /** The prefix operators of the right operand, applied to the left one. */
  function Prefixed(x: Expr, r: Expr): Expr
    decreases r
  {
    if r.Unary? then Prefixed(Unary(r.op, x), r.operand) else x
  }

  /** The tree that comes back from a printed one, if any. */
  function Reread(e: Expr): Option<Expr>
    requires Printable(e)
    decreases e, 0
  {
    match e
    case IndexAccess(t, i) =>
      var t', i' := Reread(t), Reread(i);
      if t'.Some? && i'.Some? then Some(IndexAccess(t'.value, i'.value)) else None
    case Binary(l, op, r) =>
      var l', b' := Reread(l), Reread(Base(r));
      if l'.Some? && b'.Some? && !TwoPrefixes(l) && !Negative(Base(r)) then
        Some(Binary(Prefixed(l'.value, r), op, b'.value))
      else
        None
    case Unary(u, x) =>
      var x' := Reread(x);
      if x'.Some? && !Negative(x) && !TwoPrefixes(x) then Some(Unary(u, x'.value)) else None
    case List(xs) =>
      var xs' := RereadItems(xs);
      if xs != [] && xs'.Some? then Some(List(xs'.value)) else None
    case RotateCall(x, k) =>
      var x', k' := Reread(x), Reread(k);
      if x'.Some? && k'.Some? then Some(RotateCall(x'.value, k'.value)) else None
    case _ => Some(e)
  }

  function RereadItems(xs: seq<Expr>): (r: Option<seq<Expr>>)
    requires PrintableAll(xs)
    decreases xs, 1
  {
    if xs == [] then Some([]) else
      var x', xs' := Reread(xs[0]), RereadItems(xs[1..]);
      if x'.Some? && xs'.Some? then Some([x'.value] + xs'.value) else None
  }

  predicate TwoPrefixes(e: Expr) { e.Unary? && e.operand.Unary? }

  /** Lists are not empty; a negative number is neither a right operand nor behind a prefix operator; a prefix
      operator stands at no right operand, at most two stand in a row, and only one before a left operand. */
  predicate Faithful(e: Expr)
    decreases e, 0
  {
    match e
    case IndexAccess(t, i) => Faithful(t) && Faithful(i)
    case Binary(l, op, r) => Faithful(l) && Faithful(r) && !TwoPrefixes(l) && !r.Unary? && !Negative(r)
    case Unary(u, x) => Faithful(x) && !Negative(x) && !TwoPrefixes(x)
    case List(xs) => xs != [] && FaithfulAll(xs)
    case RotateCall(x, k) => Faithful(x) && Faithful(k)
    case _ => true
  }

  predicate FaithfulAll(xs: seq<Expr>)
    decreases xs, 1
  {
    xs == [] || (Faithful(xs[0]) && FaithfulAll(xs[1..]))
  }

  lemma {:induction false} RereadKind(e: Expr)
    requires Printable(e) && Reread(e).Some?
    ensures Reread(e).value.Unary? == e.Unary?
  {}

  /** A tree comes back unchanged exactly when it is faithful. */
  lemma {:induction false} RereadFaithful(e: Expr)
    requires Printable(e)
    ensures Reread(e) == Some(e) <==> Faithful(e)
    decreases e, 0
  {
    match e
    case IndexAccess(t, i) => RereadFaithful(t); RereadFaithful(i);
    case Binary(l, op, r) =>
      RereadFaithful(l);
      RereadFaithful(r);
      if r.Unary? && Reread(Base(r)).Some? { RereadKind(Base(r)); }
    case Unary(u, x) => RereadFaithful(x);
    case List(xs) => RereadAllFaithful(xs);
    case RotateCall(x, k) => RereadFaithful(x); RereadFaithful(k);
    case _ =>
  }

  lemma {:induction false} RereadAllFaithful(xs: seq<Expr>)
    requires PrintableAll(xs)
    ensures RereadItems(xs) == Some(xs) <==> FaithfulAll(xs)
    decreases xs, 1
  {
    if xs != [] {
      RereadFaithful(xs[0]);
      RereadAllFaithful(xs[1..]);
      assert xs == [xs[0]] + xs[1..];
    }
  }

  // ---------------------------------------------------------------- parsing what was printed

  /** The parse ends right before the rest with the expected tree, or fails where none is expected. */
  predicate Reads<T(==)>(r: Outcome<T>, want: Option<T>, rest: seq<Token>)
  {
    if want.Some? then r == Ok(want.value, rest) else !r.Ok?
  }

  lemma {:induction false} PlainStarts(e: Expr, rest: seq<Token>)
    requires Printable(e) && Plain(e)
    ensures StartsOperand(Peek(PrintExpr(e) + rest))
    ensures e.Variable? || e.IndexAccess? ==> Peek(PrintExpr(e) + rest).Ident?
    decreases e
  {
    Infix.PeekFirst(PrintExpr(e), rest);
    if e.IndexAccess? {
      PlainStarts(e.target, []);
      Infix.PeekFirst(PrintExpr(e.target), []);
    }
  }

  lemma {:induction false} TargetReread(e: Expr, rest: seq<Token>)
    requires Printable(e) && (e.Variable? || e.IndexAccess?)
    ensures Reread(e).Some? ==> ParseTarget(PrintExpr(e) + rest) == ParseIndices(rest, Reread(e).value)
    ensures Reread(e).None? ==> !ParseTarget(PrintExpr(e) + rest).Ok?
    decreases e, 1
  {
    if e.Variable? {
      Infix.First(Ident(e.name), rest);
    } else {
      var more := PrintExpr(e.index) + ([CloseSquare] + rest);
      assert PrintExpr(e) + rest == PrintExpr(e.target) + ([OpenSquare] + more) by {
        Infix.Around(PrintExpr(e.target), [OpenSquare], PrintExpr(e.index) + [CloseSquare], rest);
        Infix.Around([OpenSquare], PrintExpr(e.index), [CloseSquare], rest);
      }
      TargetReread(e.target, [OpenSquare] + more);
      Infix.First(OpenSquare, more);
      Infix.First(CloseSquare, rest);
      AloneReread(e.index, [CloseSquare] + rest);
    }
  }

  lemma {:induction false} OneRead(xs: seq<Expr>)
    requires |xs| == 1 && PrintableAll(xs)
    ensures RereadItems(xs) == if Reread(xs[0]).Some? then Some([Reread(xs[0]).value]) else None
  {
    assert RereadItems(xs[1..]) == Some([]);
    if Reread(xs[0]).Some? { assert [Reread(xs[0]).value] + [] == [Reread(xs[0]).value]; }
  }

  lemma {:induction false} ItemsReread(xs: seq<Expr>, items: seq<Expr>, rest: seq<Token>)
    requires PrintableAll(xs)
    ensures Reads(ParseItems(PrintItems(xs) + ([CloseCurly] + rest), items),
                  if xs != [] && RereadItems(xs).Some? then Some(List(items + RereadItems(xs).value)) else None, rest)
    decreases xs, 1
  {
    Infix.First(CloseCurly, rest);
    if xs == [] {
      assert PrintItems(xs) + ([CloseCurly] + rest) == [CloseCurly] + rest;
      Rejection.NothingThere(CloseCurly, rest);
    } else if |xs| == 1 {
      AloneReread(xs[0], [CloseCurly] + rest);
      OneRead(xs);
    } else {
      var more := PrintItems(xs[1..]) + ([CloseCurly] + rest);
      Infix.Around(PrintExpr(xs[0]), [Comma], PrintItems(xs[1..]), [CloseCurly] + rest);
      Infix.First(Comma, more);
      AloneReread(xs[0], [Comma] + more);
      if Reread(xs[0]).Some? {
        var x := Reread(xs[0]).value;
        ItemsReread(xs[1..], items + [x], rest);
        if RereadItems(xs[1..]).Some? {
          Infix.Grouped(items, x, RereadItems(xs[1..]).value);
        }
      }
    }
  }

  lemma {:induction false} RotateReread(x: Expr, k: Expr, rest: seq<Token>)
    requires Printable(x) && Printable(k)
    ensures Reads(ParseRotate(PrintExpr(RotateCall(x, k)) + rest), Reread(RotateCall(x, k)), rest)
    decreases RotateCall(x, k), 0
  {
    var last := PrintExpr(k) + ([CloseRound] + rest);
    var mid := PrintExpr(x) + ([Comma] + last);
    RotateSplit(PrintExpr(x), PrintExpr(k), rest);
    Infix.First(Rotate, [OpenRound] + mid);
    Infix.First(OpenRound, mid);
    Infix.First(Comma, last);
    Infix.First(CloseRound, rest);
    AloneReread(x, [Comma] + last);
    AloneReread(k, [CloseRound] + rest);
  }

  lemma {:induction false} RotateSplit(xs: seq<Token>, ks: seq<Token>, rest: seq<Token>)
    ensures [Rotate] + ([OpenRound] + (xs + ([Comma] + (ks + [CloseRound])))) + rest
         == [Rotate] + ([OpenRound] + (xs + ([Comma] + (ks + ([CloseRound] + rest)))))
  {
    Infix.Around([Comma], ks, [CloseRound], rest);
    Infix.Around([OpenRound], xs, [Comma] + (ks + [CloseRound]), rest);
    Infix.Around([Rotate], [OpenRound], xs + ([Comma] + (ks + [CloseRound])), rest);
  }

  /** The inside of the parentheses and what closes them. */
  lemma {:induction false} BinaryReread(l: Expr, op: Operator, r: Expr, rest: seq<Token>)
    requires Printable(Binary(l, op, r))
    ensures Reads(ParseOperand(PrintExpr(Binary(l, op, r)) + rest, false), Reread(Binary(l, op, r)), rest)
    decreases Binary(l, op, r), 0
  {
    var close := [CloseRound] + rest;
    var more := PrintExpr(r) + close;
    var inner := PrintExpr(l) + ([Op(op)] + more);
    assert PrintExpr(Binary(l, op, r)) + rest == [OpenRound] + inner by {
      BinarySplit(PrintExpr(l), op, PrintExpr(r), rest);
    }
    Infix.First(OpenRound, inner);
    Infix.First(CloseRound, rest);
    LeftReread(l, op, more);
    if Reread(l).Some? && !TwoPrefixes(l) {
      RightReread(Reread(l).value, op, r, close);
    }
  }

  lemma {:induction false} BinarySplit(ls: seq<Token>, op: Operator, rs: seq<Token>, rest: seq<Token>)
    ensures [OpenRound] + (ls + ([Op(op)] + (rs + [CloseRound]))) + rest
         == [OpenRound] + (ls + ([Op(op)] + (rs + ([CloseRound] + rest))))
  {
    Infix.Around([Op(op)], rs, [CloseRound], rest);
    Infix.Around([OpenRound], ls, [Op(op)] + (rs + [CloseRound]), rest);
  }

  lemma {:induction false} OperandReread(e: Expr, rest: seq<Token>)
    requires Printable(e) && Plain(e) && Peek(rest) != OpenSquare
    ensures StartsOperand(Peek(PrintExpr(e) + rest))
    ensures Reads(ParseOperand(PrintExpr(e) + rest, false), Reread(e), rest)
    decreases e, 2
  {
    PlainStarts(e, rest);
    Infix.PeekFirst(PrintExpr(e), rest);
    match e
    case Number(n) => Infix.First(IntLit(n), rest);
    case Truth(b) => Infix.First(if b then True else False, rest);
    case Variable(x) => TargetReread(e, rest);
    case IndexAccess(t, i) => TargetReread(e, rest);
    case Binary(l, op, r) => BinaryReread(l, op, r, rest);
    case List(xs) => ListReread(xs, rest);
    case RotateCall(x, k) => RotateReread(x, k, rest);
  }

  lemma {:induction false} ListReread(xs: seq<Expr>, rest: seq<Token>)
    requires Printable(List(xs)) && Plain(List(xs)) && Peek(rest) != OpenSquare
    ensures Reads(ParseOperand(PrintExpr(List(xs)) + rest, false), Reread(List(xs)), rest)
    decreases List(xs), 1
  {
    Infix.Around([OpenCurly], PrintItems(xs), [CloseCurly], rest);
    Infix.First(OpenCurly, PrintItems(xs) + ([CloseCurly] + rest));
    ItemsReread(xs, [], rest);
    if RereadItems(xs).Some? { assert [] + RereadItems(xs).value == RereadItems(xs).value; }
  }

  /** One round at an operand, with or without success. */
  lemma {:induction false} OperandRound(e: Expr, rest: seq<Token>, operands: seq<Expr>, ops: seq<Operator>)
    requires Printable(e) && Plain(e) && Peek(rest) != OpenSquare
    requires !Negated(Peek(PrintExpr(e) + rest), operands, ops)
    ensures Reread(e).None? ==> !ExpressionLoop(PrintExpr(e) + rest, operands, ops).Ok?
    ensures Reread(e).Some? ==>
      ExpressionLoop(PrintExpr(e) + rest, operands, ops) == Continue(rest, operands + [Reread(e).value], ops)
    decreases e, 3
  {
    PlainStarts(e, rest);
    OperandReread(e, rest);
  }

  // ---------------------------------------------------------------- where an expression begins

  predicate AllUnary(us: seq<Operator>) { forall i :: 0 <= i < |us| ==> IsUnary(us[i]) }

  function Prefixes(e: Expr): seq<Operator>
    decreases e
  {
    if e.Unary? then [e.op] + Prefixes(e.operand) else []
  }

  lemma {:induction false} SignBehindPrefixes(us: seq<Operator>, n: nat, more: seq<Token>)
    requires AllUnary(us) && us != []
    ensures ExpressionLoop([Op(Sub)] + ([IntLit(n)] + more), [], us).Undefined?
  {
    Infix.First(Op(Sub), [IntLit(n)] + more);
    assert IsUnary(us[|us| - 1]);
    assert Reduce([], us, Sub).Short?;
  }

  /** What the loop makes of operand e behind the unary operators us. */
  ghost predicate PilesUp(r: Outcome<Expr>, e: Expr, us: seq<Operator>, more: seq<Token>)
    requires Printable(e) && us != []
  {
    if Negative(e) || Reread(e).None? then !r.Ok?
    else r == ExpressionLoop(more, [Unary(us[|us| - 1], Reread(e).value)], us[..|us| - 1])
  }

  /** Prefix operators pile up until the operand comes, which takes the last of them. */
  lemma {:induction false} Piled(e: Expr, us: seq<Operator>, more: seq<Token>)
    requires Printable(e) && us != [] && AllUnary(us) && Peek(more) != OpenSquare
    ensures AllUnary(us + Prefixes(e)) && PilesUp(ExpressionLoop(PrintExpr(e) + more, [], us), Base(e), us + Prefixes(e), more)
    decreases e, 5
  {
    if e.Unary? {
      PiledStep(e, us, more);
      assert us + [e.op] + Prefixes(e.operand) == us + Prefixes(e);
      Piled(e.operand, us + [e.op], more);
    } else {
      assert us + Prefixes(e) == us;
      PiledOperand(e, us, more);
    }
  }

  lemma {:induction false} PiledStep(e: Expr, us: seq<Operator>, more: seq<Token>)
    requires Printable(e) && e.Unary? && us != [] && AllUnary(us)
    ensures IsUnary(e.op) && AllUnary(us + [e.op])
    ensures ExpressionLoop(PrintExpr(e) + more, [], us) == ExpressionLoop(PrintExpr(e.operand) + more, [], us + [e.op])
  {
    var ts := PrintExpr(e.operand) + more;
    assert PrintExpr(e) + more == [Op(e.op)] + ts;
    Infix.First(Op(e.op), ts);
  }

  lemma {:induction false} PiledOperand(e: Expr, us: seq<Operator>, more: seq<Token>)
    requires Printable(e) && !e.Unary? && us != [] && AllUnary(us) && Peek(more) != OpenSquare
    ensures PilesUp(ExpressionLoop(PrintExpr(e) + more, [], us), e, us, more)
    decreases e, 4
  {
    if Negative(e) {
      assert PrintExpr(e) + more == [Op(Sub)] + ([IntLit(-e.n)] + more);
      SignBehindPrefixes(us, -e.n, more);
    } else {
      assert IsUnary(us[|us| - 1]);
      OperandRound(e, more, [], us);
      if Reread(e).Some? { TakesLast(Reread(e).value, us); }
    }
  }

  lemma {:induction false} TakesLast(x: Expr, us: seq<Operator>)
    requires us != [] && AllUnary(us)
    ensures ApplyUnary([] + [x], us) == Stacks([Unary(us[|us| - 1], x)], us[..|us| - 1])
  {
    assert [] + [x] == [x] && [x][..0] + [Unary(us[|us| - 1], x)] == [Unary(us[|us| - 1], x)];
  }

  /** Without prefix operators: the first operand is on the stack. */
  lemma {:induction false} BareStart(e: Expr, more: seq<Token>)
    requires Printable(e) && !e.Unary? && Peek(more) != OpenSquare
    ensures Reread(e).None? ==> !ParseExpression(PrintExpr(e) + more).Ok?
    ensures Reread(e).Some? ==> ParseExpression(PrintExpr(e) + more) == ExpressionLoop(more, [Reread(e).value], [])
    decreases e, 4
  {
    if Negative(e) {
      assert PrintExpr(e) == Infix.AtomTokens(Infix.ANumber(e.n));
      Infix.FirstOk(Infix.ANumber(e.n), more);
    } else {
      OperandRound(e, more, [], []);
      if Reread(e).Some? {
        var x := Reread(e).value;
        assert [] + [x] == [x];
        Infix.NoUnary([x], []);
      }
    }
  }

  /** With prefix operators: all but the last of them wait on the stack. */
  lemma {:induction false} PrefixStart(e: Expr, more: seq<Token>)
    requires Printable(e) && e.Unary? && Peek(more) != OpenSquare
    ensures AllUnary(Prefixes(e))
    ensures Negative(Base(e)) || Reread(Base(e)).None? ==> !ParseExpression(PrintExpr(e) + more).Ok?
    ensures !Negative(Base(e)) && Reread(Base(e)).Some? ==>
      var all := Prefixes(e);
      ParseExpression(PrintExpr(e) + more)
        == ExpressionLoop(more, [Unary(all[|all| - 1], Reread(Base(e)).value)], all[..|all| - 1])
    decreases e, 4
  {
    var ts := PrintExpr(e.operand) + more;
    assert PrintExpr(e) + more == [Op(e.op)] + ts;
    Infix.PrefixRound(e.op, ts);
    Piled(e.operand, [e.op], more);
  }

  /** What a tree with prefix operators comes back as: nothing if there are more than two. */
  lemma {:induction false} PrefixedTree(e: Expr)
    requires Printable(e) && e.Unary?
    ensures Reread(e).Some? <==> !Negative(Base(e)) && Reread(Base(e)).Some? && |Prefixes(e)| <= 2
    ensures TwoPrefixes(e) <==> |Prefixes(e)| >= 2
    ensures Reread(e).Some? ==> var us, x := Prefixes(e), Reread(Base(e)).value;
      Reread(e).value == if |us| == 1 then Unary(us[0], x) else Unary(us[0], Unary(us[1], x))
    decreases e
  {
    if e.operand.Unary? {
      PrefixedTree(e.operand);
      assert Prefixes(e) == [e.op] + Prefixes(e.operand) && Base(e) == Base(e.operand);
    } else {
      assert Prefixes(e) == [e.op] && Base(e) == e.operand;
    }
  }

  lemma {:induction false} WaitingAtOperator(x: Expr, us: seq<Operator>, op: Operator, more: seq<Token>)
    requires AllUnary(us) && us != [] && !IsUnary(op)
    ensures ExpressionLoop([Op(op)] + more, [x], us).Undefined?
  {
    Infix.First(Op(op), more);
    assert IsUnary(us[|us| - 1]);
    assert Reduce([x], us, op).Short?;
  }

  lemma {:induction false} WaitingAtEnd(x: Expr, us: seq<Operator>, rest: seq<Token>)
    requires AllUnary(us) && us != [] && Infix.Stops(rest)
    ensures Reads(ExpressionLoop(rest, [x], us), if |us| == 1 then Some(Unary(us[0], x)) else None, rest)
  {
    var y, vs := Unary(us[|us| - 1], x), us[..|us| - 1];
    assert IsUnary(us[|us| - 1]);
    TakesLast(x, us);
    assert [] + [x] == [x];
    assert ExpressionLoop(rest, [x], us) == Finish([y], vs, rest);
    if vs != [] { assert vs[|vs| - 1] == us[|us| - 2]; }
  }

  /** The left operand, up to the operator. */
  lemma {:induction false} LeftReread(l: Expr, op: Operator, more: seq<Token>)
    requires Printable(l) && !IsUnary(op)
    ensures Reread(l).None? || TwoPrefixes(l) ==> !ParseExpression(PrintExpr(l) + ([Op(op)] + more)).Ok?
    ensures Reread(l).Some? && !TwoPrefixes(l) ==>
      ParseExpression(PrintExpr(l) + ([Op(op)] + more)) == ExpressionLoop([Op(op)] + more, [Reread(l).value], [])
    decreases l, 6
  {
    Infix.First(Op(op), more);
    if l.Unary? {
      PrefixedLeft(l, op, more);
    } else {
      BareStart(l, [Op(op)] + more);
    }
  }

  lemma {:induction false} PrefixedLeft(l: Expr, op: Operator, more: seq<Token>)
    requires Printable(l) && l.Unary? && !IsUnary(op)
    ensures Reread(l).None? || TwoPrefixes(l) ==> !ParseExpression(PrintExpr(l) + ([Op(op)] + more)).Ok?
    ensures Reread(l).Some? && !TwoPrefixes(l) ==>
      ParseExpression(PrintExpr(l) + ([Op(op)] + more)) == ExpressionLoop([Op(op)] + more, [Reread(l).value], [])
    decreases l, 5
  {
    Infix.First(Op(op), more);
    PrefixStart(l, [Op(op)] + more);
    PrefixedTree(l);
    var us := Prefixes(l);
    if !Negative(Base(l)) && Reread(Base(l)).Some? && |us| >= 2 {
      WaitingAtOperator(Unary(us[|us| - 1], Reread(Base(l)).value), us[..|us| - 1], op, more);
    }
  }

  /** Behind the operator: prefix operators go to the operand already there. */
  lemma {:induction false} BehindReread(x: Expr, op: Operator, r: Expr, rest: seq<Token>)
    requires Printable(r) && !IsUnary(op) && Infix.Stops(rest)
    ensures Reads(ExpressionLoop(PrintExpr(r) + rest, [x], [op]),
      if Reread(Base(r)).Some? && !Negative(Base(r)) then Some(Binary(Prefixed(x, r), op, Reread(Base(r)).value)) else None, rest)
    decreases r, 5
  {
    if r.Unary? {
      var ts := PrintExpr(r.operand) + rest;
      assert PrintExpr(r) + rest == [Op(r.op)] + ts;
      WrongOperand(x, op, r.op, ts);
      BehindReread(Unary(r.op, x), op, r.operand, rest);
    } else if Negative(r) {
      assert PrintExpr(r) + rest == [Op(Sub)] + ([IntLit(-r.n)] + rest);
      Gaps.SignBehind(x, op, -r.n, rest);
    } else {
      BareRight(x, op, r, rest);
    }
  }

  lemma {:induction false} BareRight(x: Expr, op: Operator, r: Expr, rest: seq<Token>)
    requires Printable(r) && Plain(r) && !IsUnary(op) && Infix.Stops(rest)
    ensures Reads(ExpressionLoop(PrintExpr(r) + rest, [x], [op]),
                  if Reread(r).Some? then Some(Binary(x, op, Reread(r).value)) else None, rest)
    decreases r, 4
  {
    OperandRound(r, rest, [x], [op]);
    if Reread(r).Some? {
      Infix.NoUnary([x] + [Reread(r).value], [op]);
      Rejection.TwoOperands(x, op, Reread(r).value, rest);
    }
  }

  lemma {:induction false} WrongOperand(x: Expr, op: Operator, u: Operator, ts: seq<Token>)
    requires !IsUnary(op) && IsUnary(u)
    ensures ExpressionLoop([Op(u)] + ts, [x], [op]) == ExpressionLoop(ts, [Unary(u, x)], [op])
  {
    Infix.First(Op(u), ts);
    assert [op] + [u] == [op, u] && [op, u][..1] == [op] && [x][..0] + [Unary(u, x)] == [Unary(u, x)];
    assert ApplyUnary([x], [op, u]) == Stacks([Unary(u, x)], [op]);
  }

  lemma {:induction false} RightReread(x: Expr, op: Operator, r: Expr, rest: seq<Token>)
    requires Printable(r) && !IsUnary(op) && Infix.Stops(rest)
    ensures Reads(ExpressionLoop([Op(op)] + (PrintExpr(r) + rest), [x], []),
      if Reread(Base(r)).Some? && !Negative(Base(r)) then Some(Binary(Prefixed(x, r), op, Reread(Base(r)).value)) else None, rest)
    decreases r, 6
  {
    Infix.OperatorRound(op, PrintExpr(r) + rest, [x], [], Stacks([x], []));
    assert [] + [op] == [op];
    BehindReread(x, op, r, rest);
  }

  // ---------------------------------------------------------------- main results

  /** Every printed expression parses to what Reread says, right up to what follows it, or not at all. */
  lemma {:induction false} AloneReread(e: Expr, rest: seq<Token>)
    requires Printable(e) && Infix.Stops(rest)
    ensures Reads(ParseExpression(PrintExpr(e) + rest), Reread(e), rest)
    decreases e, 5
  {
    if e.Unary? {
      PrefixStart(e, rest);
      PrefixedTree(e);
      var us := Prefixes(e);
      if !Negative(Base(e)) && Reread(Base(e)).Some? {
        var x := Unary(us[|us| - 1], Reread(Base(e)).value);
        if |us| == 1 {
          EndsAt(x, rest);
        } else {
          WaitingAtEnd(x, us[..|us| - 1], rest);
        }
      }
    } else {
      BareStart(e, rest);
      if Reread(e).Some? { EndsAt(Reread(e).value, rest); }
    }
  }

  lemma {:induction false} EndsAt(x: Expr, rest: seq<Token>)
    requires Infix.Stops(rest)
    ensures ExpressionLoop(rest, [x], []) == Ok(x, rest)
  {
    Infix.NoUnary([x], []);
    assert Finish([x], [], rest) == Ok(x, rest);
  }

  /** Parsing gives a printed expression back exactly when it is faithful. */
  lemma {:induction false} RoundTripExact(e: Expr, rest: seq<Token>)
    requires Printable(e) && Infix.Stops(rest)
    ensures ParseExpression(PrintExpr(e) + rest) == Ok(e, rest) <==> Faithful(e)
  {
    AloneReread(e, rest);
    RereadFaithful(e);
  }
}
