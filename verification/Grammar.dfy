/** Nothing but the language is accepted: whatever the parser returns, the tokens it took have the form that the
    language has for it. */
module Grammar {
  import opened Syntax
  import opened Parsing

  // ---------------------------------------------------------------- expressions

  /** What an expression is written with: operators and operands, each operand closed in itself. */
  datatype Part =
    | Sign(op: Operator)
    | Literal(t: Token)
    | Name(x: string, indices: seq<Group>)
    | Round(inner: seq<Part>)
    | Curly(items: seq<Group>)
    | Turn(x_: seq<Part>, offset: seq<Part>)

  /** The parts of one expression in a list of them. */
  datatype Group = Group(parts: seq<Part>)

  function PartTokens(p: Part): seq<Token>
    decreases p, 0
  {
    match p
    case Sign(op) => [Op(op)]
    case Literal(t) => [t]
    case Name(x, is_) => [Ident(x)] + IndexTokens(is_)
    case Round(ps) => [OpenRound] + (PartsTokens(ps) + [CloseRound])
    case Curly(items) => [OpenCurly] + (ItemTokens(items) + [CloseCurly])
    case Turn(x, k) => [Rotate] + ([OpenRound] + (PartsTokens(x) + ([Comma] + (PartsTokens(k) + [CloseRound]))))
  }

  function PartsTokens(ps: seq<Part>): seq<Token>
    decreases ps, 1
  {
    if ps == [] then [] else PartTokens(ps[0]) + PartsTokens(ps[1..])
  }

  function IndexTokens(is_: seq<Group>): seq<Token>
    decreases is_, 2
  {
    if is_ == [] then [] else [OpenSquare] + (PartsTokens(is_[0].parts) + ([CloseSquare] + IndexTokens(is_[1..])))
  }

  function ItemTokens(items: seq<Group>): seq<Token>
    decreases items, 2
  {
    if items == [] then []
    else if |items| == 1 then PartsTokens(items[0].parts)
    else PartsTokens(items[0].parts) + ([Comma] + ItemTokens(items[1..]))
  }

  /** Literals are literals, and no expression inside, list of items or list itself is empty. */
  predicate Whole(p: Part)
    decreases p, 0
  {
    match p
    case Sign(_) => true
    case Literal(t) => Parsing.Literal(t)
    case Name(_, is_) => AllFilled(is_)
    case Round(ps) => Filled(ps)
    case Curly(items) => items != [] && AllFilled(items)
    case Turn(x, k) => Filled(x) && Filled(k)
  }

  predicate WholeParts(ps: seq<Part>)
    decreases ps, 1
  {
    ps == [] || (Whole(ps[0]) && WholeParts(ps[1..]))
  }

  /** There is an operand. */
  predicate Filled(ps: seq<Part>)
    decreases ps, 2
  {
    WholeParts(ps) && exists i :: 0 <= i < |ps| && !ps[i].Sign?
  }

  predicate AllFilled(gs: seq<Group>)
    decreases gs, 3
  {
    gs == [] || (Filled(gs[0].parts) && AllFilled(gs[1..]))
  }

  lemma {:induction false} Regroup<T>(a: seq<T>, b: seq<T>, c: seq<T>)
    ensures a + b + c == a + (b + c)
  {}

  lemma {:induction false} PartsFirst(p: Part, ps: seq<Part>)
    ensures PartsTokens([p] + ps) == PartTokens(p) + PartsTokens(ps)
    ensures WholeParts([p] + ps) <==> Whole(p) && WholeParts(ps)
  {
    assert ([p] + ps)[1..] == ps;
  }

  lemma {:induction false} FilledFirst(p: Part, ps: seq<Part>)
    requires Whole(p) && WholeParts(ps) && (!p.Sign? || Filled(ps))
    ensures Filled([p] + ps)
  {
    PartsFirst(p, ps);
    if p.Sign? {
      var i :| 0 <= i < |ps| && !ps[i].Sign?;
      assert !([p] + ps)[i + 1].Sign?;
    } else {
      assert !([p] + ps)[0].Sign?;
    }
  }

  lemma {:induction false} Taken(ts: seq<Token>, t: Token)
    requires t != End && Peek(ts) == t
    ensures ts == [t] + ts[1..]
  {}

  /** The expression and its parts up to what is left. */
  lemma {:induction false} ExpressionParts(ts: seq<Token>) returns (ps: seq<Part>)
    requires ParseExpression(ts).Ok?
    ensures Filled(ps) && ts == PartsTokens(ps) + ParseExpression(ts).rest
    decreases |ts|, 4
  {
    ps := LoopParts(ts, [], []);
  }

  lemma {:induction false} LoopParts(ts: seq<Token>, operands: seq<Expr>, ops: seq<Operator>) returns (ps: seq<Part>)
    requires ExpressionLoop(ts, operands, ops).Ok?
    ensures WholeParts(ps) && (operands == [] ==> Filled(ps)) && ts == PartsTokens(ps) + ExpressionLoop(ts, operands, ops).rest
    decreases |ts|, 3
  {
    var t, rest := Peek(ts), ExpressionLoop(ts, operands, ops).rest;
    if t.Op? {
      Taken(ts, t);
      ps := SignParts(ts, operands, ops);
    } else if StartsOperand(t) {
      ps := OperandParts(ts, operands, ops);
    } else {
      ps := [];
    }
  }

  lemma {:induction false} SignParts(ts: seq<Token>, operands: seq<Expr>, ops: seq<Operator>) returns (ps: seq<Part>)
    requires ExpressionLoop(ts, operands, ops).Ok? && Peek(ts).Op?
    ensures WholeParts(ps) && (operands == [] ==> Filled(ps)) && ts == PartsTokens(ps) + ExpressionLoop(ts, operands, ops).rest
    decreases |ts|, 2
  {
    var op, rest := ts[0].op, ExpressionLoop(ts, operands, ops).rest;
    var s := if IsUnary(op) then Stacks(operands, ops) else Reduce(operands, ops, op);
    if operands == [] { NothingReduced(ops, op); }
    var t := ApplyUnary(s.operands, s.ops + [op]);
    var more := LoopParts(ts[1..], t.operands, t.ops);
    PartsFirst(Sign(op), more);
    if operands == [] { FilledFirst(Sign(op), more); }
    ps := [Sign(op)] + more;
    Taken(ts, Op(op));
    Regroup([Op(op)], PartsTokens(more), rest);
  }

  lemma {:induction false} NothingReduced(ops: seq<Operator>, op: Operator)
    ensures Reduce([], ops, op).Stacks? ==> Reduce([], ops, op).operands == []
  {}

  lemma {:induction false} OperandParts(ts: seq<Token>, operands: seq<Expr>, ops: seq<Operator>) returns (ps: seq<Part>)
    requires ExpressionLoop(ts, operands, ops).Ok? && StartsOperand(Peek(ts))
    ensures Filled(ps) && ts == PartsTokens(ps) + ExpressionLoop(ts, operands, ops).rest
    decreases |ts|, 2
  {
    var rest := ExpressionLoop(ts, operands, ops).rest;
    var neg := Negated(Peek(ts), operands, ops);
    var e := ParseOperand(ts, neg);
    var p := OperandPart(ts, neg);
    var s := ApplyUnary(operands + [e.value], if neg then ops[..|ops| - 1] else ops);
    var more := LoopParts(e.rest, s.operands, s.ops);
    PartsFirst(p, more);
    FilledFirst(p, more);
    ps := [p] + more;
    Regroup(PartTokens(p), PartsTokens(more), rest);
  }

  lemma {:induction false} OperandPart(ts: seq<Token>, neg: bool) returns (p: Part)
    requires StartsOperand(Peek(ts)) && ParseOperand(ts, neg).Ok?
    ensures Whole(p) && !p.Sign? && ts == PartTokens(p) + ParseOperand(ts, neg).rest
    decreases |ts|, 1
  {
    var t, rest := Peek(ts), ParseOperand(ts, neg).rest;
    Taken(ts, t);
    if Parsing.Literal(t) {
      p := Literal(t);
    } else if t.Ident? {
      p := NamePart(ts);
    } else if t.OpenRound? {
      var ps := ExpressionParts(ts[1..]);
      p := Round(ps);
      RoundTokens(ps, rest);
    } else if t.OpenCurly? {
      var items := ItemParts(ts[1..], []);
      p := Curly(items);
      Regroup([OpenCurly], ItemTokens(items) + [CloseCurly], rest);
      Regroup(ItemTokens(items), [CloseCurly], rest);
    } else {
      p := TurnPart(ts);
    }
  }

  lemma {:induction false} RoundTokens(ps: seq<Part>, rest: seq<Token>)
    ensures PartTokens(Round(ps)) + rest == [OpenRound] + (PartsTokens(ps) + ([CloseRound] + rest))
  {
    Regroup([OpenRound], PartsTokens(ps) + [CloseRound], rest);
    Regroup(PartsTokens(ps), [CloseRound], rest);
  }

  /** A name with its indices. */
  lemma {:induction false} NamePart(ts: seq<Token>) returns (p: Part)
    requires ParseTarget(ts).Ok?
    ensures p.Name? && Whole(p) && ts == PartTokens(p) + ParseTarget(ts).rest
    decreases |ts|, 0
  {
    var x, rest := ts[0].name, ParseTarget(ts).rest;
    Taken(ts, Ident(x));
    var is_ := IndexParts(ts[1..], Variable(x));
    p := Name(x, is_);
    Regroup([Ident(x)], IndexTokens(is_), rest);
  }

  lemma {:induction false} IndexParts(ts: seq<Token>, target: Expr) returns (is_: seq<Group>)
    requires ParseIndices(ts, target).Ok?
    ensures AllFilled(is_) && ts == IndexTokens(is_) + ParseIndices(ts, target).rest
    decreases |ts|, 5
  {
    var rest := ParseIndices(ts, target).rest;
    if Peek(ts) != OpenSquare {
      is_ := [];
    } else {
      var i := ParseExpression(ts[1..]);
      var ps := ExpressionParts(ts[1..]);
      var more := IndexParts(i.rest[1..], IndexAccess(target, i.value));
      is_ := [Group(ps)] + more;
      assert is_[1..] == more;
      Taken(ts, OpenSquare);
      Taken(i.rest, CloseSquare);
      OneIndex(ps, more, rest);
    }
  }

  lemma {:induction false} OneIndex(ps: seq<Part>, more: seq<Group>, rest: seq<Token>)
    ensures IndexTokens([Group(ps)] + more) + rest == [OpenSquare] + (PartsTokens(ps) + ([CloseSquare] + (IndexTokens(more) + rest)))
  {
    assert ([Group(ps)] + more)[1..] == more;
    Regroup([CloseSquare], IndexTokens(more), rest);
    Regroup(PartsTokens(ps), [CloseSquare] + IndexTokens(more), rest);
    Regroup([OpenSquare], PartsTokens(ps) + ([CloseSquare] + IndexTokens(more)), rest);
  }

  lemma {:induction false} ItemParts(ts: seq<Token>, items: seq<Expr>) returns (gs: seq<Group>)
    requires ParseItems(ts, items).Ok?
    ensures gs != [] && AllFilled(gs) && ts == ItemTokens(gs) + ([CloseCurly] + ParseItems(ts, items).rest)
    decreases |ts|, 5
  {
    var rest := ParseItems(ts, items).rest;
    var e := ParseExpression(ts);
    var ps := ExpressionParts(ts);
    if Peek(e.rest) == Comma {
      var more := ItemParts(e.rest[1..], items + [e.value]);
      gs := [Group(ps)] + more;
      assert gs[1..] == more;
      Taken(e.rest, Comma);
      Regroup([Comma], ItemTokens(more), [CloseCurly] + rest);
      Regroup(PartsTokens(ps), [Comma] + ItemTokens(more), [CloseCurly] + rest);
    } else {
      gs := [Group(ps)];
      assert gs[1..] == [];
      Taken(e.rest, CloseCurly);
    }
  }

  lemma {:induction false} TurnPart(ts: seq<Token>) returns (p: Part)
    requires ParseRotate(ts).Ok?
    ensures p.Turn? && Whole(p) && ts == PartTokens(p) + ParseRotate(ts).rest
    decreases |ts|, 0
  {
    var rest := ParseRotate(ts).rest;
    Taken(ts, Rotate);
    Taken(ts[1..], OpenRound);
    var x := ParseExpression(ts[2..]);
    var xs := ExpressionParts(ts[2..]);
    Taken(x.rest, Comma);
    var k := ParseExpression(x.rest[1..]);
    var ks := ExpressionParts(x.rest[1..]);
    Taken(k.rest, CloseRound);
    p := Turn(xs, ks);
    TurnTokens(xs, ks, rest);
  }

  lemma {:induction false} TurnTokens(xs: seq<Part>, ks: seq<Part>, rest: seq<Token>)
    ensures PartTokens(Turn(xs, ks)) + rest
         == [Rotate] + ([OpenRound] + (PartsTokens(xs) + ([Comma] + (PartsTokens(ks) + ([CloseRound] + rest)))))
  {
    Regroup(PartsTokens(ks), [CloseRound], rest);
    Regroup([Comma], PartsTokens(ks) + [CloseRound], rest);
    Regroup(PartsTokens(xs), [Comma] + (PartsTokens(ks) + [CloseRound]), rest);
    Regroup([OpenRound], PartsTokens(xs) + ([Comma] + (PartsTokens(ks) + [CloseRound])), rest);
    Regroup([Rotate], [OpenRound] + (PartsTokens(xs) + ([Comma] + (PartsTokens(ks) + [CloseRound]))), rest);
  }
}
