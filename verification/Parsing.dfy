/** The recursive-descent parser with its operator-precedence loop. */
module Parsing {
  import opened Syntax

  /** What becomes of a parse: a tree and the tokens left, an error, a read from an empty operand stack,
      or a loop that never moves on. */
  datatype Outcome<+T> = Ok(value: T, rest: seq<Token>) | Error | Undefined | Endless

  /** Nothing is read that was not there, and only a postfix operator can stop progress. */
  predicate From<T>(r: Outcome<T>, ts: seq<Token>)
  {
    && (r.Ok? ==> forall t :: t in r.rest ==> t in ts)
    && (r.Endless? ==> Postfix in ts)
  }

  function Peek(ts: seq<Token>): Token { if ts == [] then End else ts[0] }

  /** The tokens after the expected one, or an error. */
  function Expect(ts: seq<Token>, t: Token): (r: Outcome<()>)
    requires t != End
    ensures r.Ok? <==> Peek(ts) == t
    ensures r.Ok? ==> ts == [t] + r.rest && forall u :: u in r.rest ==> u in ts
    ensures r.Ok? || r.Error?
  {
    if Peek(ts) == t then Ok((), ts[1..]) else Error
  }

  function Failed<S, T>(r: Outcome<S>): (q: Outcome<T>)
    requires !r.Ok?
    ensures !q.Ok? && (r.Error? <==> q.Error?) && (r.Undefined? <==> q.Undefined?) && (r.Endless? <==> q.Endless?)
  {
    match r
    case Error => Error
    case Undefined => Undefined
    case Endless => Endless
  }

  // ---------------------------------------------------------------- stacks

  datatype Stacks = Stacks(operands: seq<Expr>, ops: seq<Operator>) | Short

  /** Builds the operators on the stack that bind at least as tight as the new one. */
  function Reduce(operands: seq<Expr>, ops: seq<Operator>, op: Operator): Stacks
    decreases |ops|
  {
    var m, k := |ops| - 1, |operands|;
    if ops == [] || Level(op) < Level(ops[m]) then Stacks(operands, ops)
    else if k < 2 then Short
    else Reduce(operands[..k - 2] + [Binary(operands[k - 2], ops[m], operands[k - 1])], ops[..m], op)
  }

  /** A unary operator on top of the stack takes the operand on top of the other, whichever it is. */
  function ApplyUnary(operands: seq<Expr>, ops: seq<Operator>): (s: Stacks)
    ensures s.Stacks? && (operands == [] <==> s.operands == [])
  {
    var m, k := |ops| - 1, |operands| - 1;
    if ops != [] && IsUnary(ops[m]) && operands != [] then
      Stacks(operands[..k] + [Unary(ops[m], operands[k])], ops[..m])
    else
      Stacks(operands, ops)
  }

  /** Builds what is left on the stacks. */
  function Finish(operands: seq<Expr>, ops: seq<Operator>, ts: seq<Token>): (r: Outcome<Expr>)
    ensures r.Ok? ==> r.rest == ts && operands != []
    ensures r.Ok? || r.Error?
    decreases |ops|
  {
    var m, k := |ops| - 1, |operands|;
    if ops == [] then (if k == 1 then Ok(operands[0], ts) else Error)
    else if IsUnary(ops[m]) || k < 2 then Error
    else Finish(operands[..k - 2] + [Binary(operands[k - 2], ops[m], operands[k - 1])], ops[..m], ts)
  }

  // ---------------------------------------------------------------- expressions

  predicate Literal(t: Token) { t.IntLit? || t.True? || t.False? || t.StringLit? }

  predicate StartsOperand(t: Token) { Literal(t) || t.Ident? || t.OpenRound? || t.OpenCurly? || t.Rotate? }

  /** A minus sign with nothing before it belongs to the literal behind it. */
  predicate Negated(t: Token, operands: seq<Expr>, ops: seq<Operator>)
  {
    Literal(t) && operands == [] && ops != [] && ops[|ops| - 1] == Sub
  }

  function ParseExpression(ts: seq<Token>): (r: Outcome<Expr>)
    ensures From(r, ts)
    ensures r.Ok? ==> |r.rest| < |ts|
    decreases |ts|, 4
  {
    ExpressionLoop(ts, [], [])
  }

  /** One round for each operator or operand. */
  function ExpressionLoop(ts: seq<Token>, operands: seq<Expr>, ops: seq<Operator>): (r: Outcome<Expr>)
    ensures From(r, ts)
    ensures r.Ok? ==> |r.rest| <= |ts| && (operands == [] ==> |r.rest| < |ts|)
    decreases |ts|, 3
  {
    var t := Peek(ts);
    if t.Unsupported? then Error
    else if t.Op? && !IsUnary(t.op) then
      var s := Reduce(operands, ops, t.op);
      if s.Short? then Undefined else Continue(ts[1..], s.operands, s.ops + [t.op])
    else if t.Op? then Continue(ts[1..], operands, ops + [t.op])
    else if t.Postfix? then (if operands == [] then Error else Endless)
    else if StartsOperand(t) then
      var neg := Negated(t, operands, ops);
      var e := ParseOperand(ts, neg);
      if e.Ok? then Continue(e.rest, operands + [e.value], if neg then ops[..|ops| - 1] else ops) else e
    else
      var s := ApplyUnary(operands, ops);
      Finish(s.operands, s.ops, ts)
  }

  function Continue(ts: seq<Token>, operands: seq<Expr>, ops: seq<Operator>): (r: Outcome<Expr>)
    ensures From(r, ts)
    ensures r.Ok? ==> |r.rest| <= |ts|
    decreases |ts|, 4
  {
    var s := ApplyUnary(operands, ops);
    ExpressionLoop(ts, s.operands, s.ops)
  }

  function ParseOperand(ts: seq<Token>, neg: bool): (r: Outcome<Expr>)
    requires StartsOperand(Peek(ts))
    ensures From(r, ts)
    ensures r.Ok? ==> |r.rest| < |ts|
    decreases |ts|, 2
  {
    match Peek(ts)
    case IntLit(n) => Ok(Number(if neg then -n else n), ts[1..])
    case True => Ok(Truth(true), ts[1..])
    case False => Ok(Truth(false), ts[1..])
    case StringLit(s) => if neg then Error else Ok(Text(s), ts[1..])
    case Ident(x) => ParseTarget(ts)
    case OpenRound =>
      var e := ParseExpression(ts[1..]);
      if !e.Ok? then e else
        var c := Expect(e.rest, CloseRound);
        if c.Ok? then Ok(e.value, c.rest) else Error
    case OpenCurly => ParseItems(ts[1..], [])
    case _ => ParseRotate(ts)
  }

  function ParseTarget(ts: seq<Token>): (r: Outcome<Expr>)
    ensures From(r, ts)
    ensures r.Ok? ==> |r.rest| < |ts|
    decreases |ts|, 1
  {
    if Peek(ts).Ident? then ParseIndices(ts[1..], Variable(ts[0].name)) else Error
  }

  function ParseIndices(ts: seq<Token>, target: Expr): (r: Outcome<Expr>)
    ensures From(r, ts)
    ensures r.Ok? ==> |r.rest| <= |ts|
    decreases |ts|, 1
  {
    if Peek(ts) != OpenSquare then Ok(target, ts) else
      var i := ParseExpression(ts[1..]);
      if !i.Ok? then i else
        var c := Expect(i.rest, CloseSquare);
        if c.Ok? then ParseIndices(c.rest, IndexAccess(target, i.value)) else Error
  }

  /** Expressions between commas, up to the closing brace; at least one. */
  function ParseItems(ts: seq<Token>, items: seq<Expr>): (r: Outcome<Expr>)
    ensures From(r, ts)
    ensures r.Ok? ==> |r.rest| < |ts|
    decreases |ts|, 5
  {
    var e := ParseExpression(ts);
    if !e.Ok? then e
    else if Peek(e.rest) == Comma then ParseItems(e.rest[1..], items + [e.value])
    else
      var c := Expect(e.rest, CloseCurly);
      if c.Ok? then Ok(List(items + [e.value]), c.rest) else Error
  }

  function ParseRotate(ts: seq<Token>): (r: Outcome<Expr>)
    ensures From(r, ts)
    ensures r.Ok? ==> |r.rest| < |ts|
    decreases |ts|, 1
  {
    var k := Expect(ts, Rotate);
    if !k.Ok? then Error else
      var o := Expect(k.rest, OpenRound);
      if !o.Ok? then Error else
        var x := ParseExpression(o.rest);
        if x.Ok? then ParseOffset(x.rest, x.value) else x
  }

  function ParseOffset(ts: seq<Token>, x: Expr): (r: Outcome<Expr>)
    ensures From(r, ts)
    ensures r.Ok? ==> |r.rest| < |ts|
    decreases |ts|, 1
  {
    var c := Expect(ts, Comma);
    if !c.Ok? then Error else
      var i := ParseExpression(c.rest);
      if !i.Ok? then i else
        var d := Expect(i.rest, CloseRound);
        if d.Ok? then Ok(RotateCall(x, i.value), d.rest) else Error
  }

  // ---------------------------------------------------------------- statements

  datatype Datatype = Datatype(ty: Type, secret: bool)

  datatype Stmt =
    | Block(body: seq<Stmt>)
    | Conditional(condition: Expr, then_: Stmt, else_: Option<Stmt>)
    | Give(result: Option<Expr>)
    | Assignment(target: Expr, value: Expr)
    | Declaration(datatype_: Datatype, name: string, init: Option<Expr>)
    | ForLoop(start: seq<Stmt>, test: Expr, update: seq<Stmt>, repeated: Stmt)
    | Function(returns_: Datatype, called: string, params: seq<Parameter>, does: Stmt)

  datatype Parameter = Parameter(datatype_: Datatype, name: string)

  function ParseDatatype(ts: seq<Token>): (r: Outcome<Datatype>)
    ensures From(r, ts)
    ensures r.Ok? ==> |r.rest| < |ts|
    ensures r.Ok? || r.Error?
  {
    var secret := Peek(ts) == Secret;
    var us := if secret then ts[1..] else ts;
    if Peek(us).TypeName? then Ok(Datatype(us[0].ty, secret && us[0].ty != Void), us[1..]) else Error
  }

  /** The token begins a statement with statements inside. */
  predicate Compound(t: Token) { t.For? || t.If? || t.OpenCurly? || t.Public? }

  function ParseStatement(ts: seq<Token>): (r: Outcome<Stmt>)
    ensures From(r, ts)
    ensures r.Ok? ==> |r.rest| < |ts|
    decreases |ts|, 3
  {
    if Compound(Peek(ts)) then ParseCompound(ts) else ParseSimple(ts)
  }

  function ParseCompound(ts: seq<Token>): (r: Outcome<Stmt>)
    requires Compound(Peek(ts))
    ensures From(r, ts)
    ensures r.Ok? ==> |r.rest| < |ts|
    decreases |ts|, 2
  {
    match Peek(ts)
    case For => ParseFor(ts)
    case If => ParseIf(ts)
    case OpenCurly => ParseBlock(ts)
    case Public => ParseFunction(ts)
  }

  /** A statement that ends in a semicolon. */
  function ParseSimple(ts: seq<Token>): (r: Outcome<Stmt>)
    ensures From(r, ts)
    ensures r.Ok? ==> |r.rest| < |ts|
  {
    Terminated(ParseBare(ts))
  }

  /** The statement without its semicolon. */
  function ParseBare(ts: seq<Token>): (r: Outcome<Stmt>)
    ensures From(r, ts)
    ensures r.Ok? ==> |r.rest| < |ts|
  {
    match Peek(ts)
    case Return => ParseReturn(ts)
    case Secret => ParseDeclaration(ts)
    case TypeName(_) => ParseDeclaration(ts)
    case _ => ParseAssignment(ts)
  }

  /** Takes the semicolon that ends a statement. */
  function Terminated(r: Outcome<Stmt>): (q: Outcome<Stmt>)
    ensures q.Ok? ==> r.Ok? && |q.rest| < |r.rest|
    ensures forall ts :: From(r, ts) ==> From(q, ts)
  {
    if !r.Ok? then r else
      var c := Expect(r.rest, Semicolon);
      if c.Ok? then Ok(r.value, c.rest) else Error
  }

  function ParseReturn(ts: seq<Token>): (r: Outcome<Stmt>)
    ensures From(r, ts)
    ensures r.Ok? ==> |r.rest| < |ts|
  {
    var k := Expect(ts, Token.Return);
    if !k.Ok? then Error
    else if Peek(k.rest) == Semicolon then Ok(Give(None), k.rest)
    else
      var e := ParseExpression(k.rest);
      if e.Ok? then Ok(Give(Some(e.value)), e.rest) else Failed(e)
  }

  function ParseAssignment(ts: seq<Token>): (r: Outcome<Stmt>)
    ensures From(r, ts)
    ensures r.Ok? ==> |r.rest| < |ts|
  {
    var t := ParseTarget(ts);
    if !t.Ok? then Failed(t) else
      var a := Expect(t.rest, Assign);
      if !a.Ok? then Error else
        var e := ParseExpression(a.rest);
        if e.Ok? then Ok(Assignment(t.value, e.value), e.rest) else Failed(e)
  }

  /** The brackets of an array declaration are read and forgotten. */
  function ParseDeclaration(ts: seq<Token>): (r: Outcome<Stmt>)
    ensures From(r, ts)
    ensures r.Ok? ==> |r.rest| < |ts|
  {
    var d := ParseDatatype(ts);
    if !d.Ok? || !Peek(d.rest).Ident? then Error else
      ParseInitializer(d.rest[1..], d.value, d.rest[0].name)
  }

  function ParseInitializer(ts: seq<Token>, d: Datatype, x: string): (r: Outcome<Stmt>)
    ensures From(r, ts)
    ensures r.Ok? ==> |r.rest| <= |ts|
  {
    if Peek(ts) != OpenSquare then ParseInitialValue(ts, d, x)
    else if Peek(ts[1..]) == CloseSquare then ParseInitialValue(ts[2..], d, x)
    else Error
  }

  function ParseInitialValue(ts: seq<Token>, d: Datatype, x: string): (r: Outcome<Stmt>)
    ensures From(r, ts)
    ensures r.Ok? ==> |r.rest| <= |ts|
  {
    if Peek(ts) == Semicolon then Ok(Declaration(d, x, None), ts) else
      var a := Expect(ts, Assign);
      if !a.Ok? then Error else
        var e := ParseExpression(a.rest);
        if e.Ok? then Ok(Declaration(d, x, Some(e.value)), e.rest) else Failed(e)
  }

  function ParseBlock(ts: seq<Token>): (r: Outcome<Stmt>)
    ensures From(r, ts)
    ensures r.Ok? ==> |r.rest| < |ts|
    decreases |ts|, 1
  {
    var o := Expect(ts, OpenCurly);
    if o.Ok? then ParseBody(o.rest, []) else Error
  }

  function ParseBody(ts: seq<Token>, body: seq<Stmt>): (r: Outcome<Stmt>)
    ensures From(r, ts)
    ensures r.Ok? ==> |r.rest| < |ts|
    decreases |ts|, 4
  {
    if Peek(ts) == CloseCurly then Ok(Block(body), ts[1..]) else
      var s := ParseStatement(ts);
      if s.Ok? then ParseBody(s.rest, body + [s.value]) else s
  }

  /** A single statement counts as a block of its own. */
  function ParseBranch(ts: seq<Token>): (r: Outcome<Stmt>)
    ensures From(r, ts)
    ensures r.Ok? ==> |r.rest| < |ts|
    decreases |ts|, 4
  {
    if Peek(ts) == OpenCurly then ParseBlock(ts) else
      var s := ParseStatement(ts);
      if s.Ok? then Ok(Block([s.value]), s.rest) else s
  }

  function ParseIf(ts: seq<Token>): (r: Outcome<Stmt>)
    ensures From(r, ts)
    ensures r.Ok? ==> |r.rest| < |ts|
    decreases |ts|, 1
  {
    var k := Expect(ts, If);
    if !k.Ok? then Error else
      var c := ParseCondition(k.rest);
      if c.Ok? then ParseBranches(c.rest, c.value) else Failed(c)
  }

  function ParseCondition(ts: seq<Token>): (r: Outcome<Expr>)
    ensures From(r, ts)
    ensures r.Ok? ==> |r.rest| < |ts|
  {
    var o := Expect(ts, OpenRound);
    if !o.Ok? then Error else
      var e := ParseExpression(o.rest);
      if !e.Ok? then e else
        var c := Expect(e.rest, CloseRound);
        if c.Ok? then Ok(e.value, c.rest) else Error
  }

  function ParseBranches(ts: seq<Token>, c: Expr): (r: Outcome<Stmt>)
    ensures From(r, ts)
    ensures r.Ok? ==> |r.rest| < |ts|
    decreases |ts|, 5
  {
    var t := ParseBranch(ts);
    if !t.Ok? then t
    else if Peek(t.rest) == Else then
      var e := ParseBranch(t.rest[1..]);
      if e.Ok? then Ok(Conditional(c, t.value, Some(e.value)), e.rest) else e
    else Ok(Conditional(c, t.value, None), t.rest)
  }

  // ---------------------------------------------------------------- loops and functions

  /** A statement that need not end in a semicolon. */
  function ParseUpdate(ts: seq<Token>): (r: Outcome<Stmt>)
    ensures From(r, ts)
    ensures r.Ok? ==> |r.rest| < |ts|
    decreases |ts|, 3
  {
    if Compound(Peek(ts)) then ParseCompound(ts) else ParseBare(ts)
  }

  /** The comma between statements is taken only from the third statement on. */
  function TakeComma(ts: seq<Token>, taken: nat): (r: Outcome<()>)
    ensures From(r, ts)
    ensures r.Ok? ==> |r.rest| <= |ts|
    ensures r.Ok? || r.Error?
  {
    if taken > 1 then (if Expect(ts, Comma).Ok? then Ok((), ts[1..]) else Error) else Ok((), ts)
  }

  /** The statements a loop starts with. */
  function ParseStart(ts: seq<Token>, ss: seq<Stmt>): (r: Outcome<seq<Stmt>>)
    ensures From(r, ts)
    ensures r.Ok? ==> |r.rest| < |ts|
    decreases |ts|, 4
  {
    var c := TakeComma(ts, |ss|);
    if !c.Ok? then Error else
      var s := ParseStatement(c.rest);
      if !s.Ok? then Failed(s)
      else if Peek(s.rest) == Comma then ParseStart(s.rest, ss + [s.value])
      else Ok(ss + [s.value], s.rest)
  }

  /** The statements a round of a loop ends with. */
  function ParseUpdates(ts: seq<Token>, ss: seq<Stmt>): (r: Outcome<seq<Stmt>>)
    ensures From(r, ts)
    ensures r.Ok? ==> |r.rest| < |ts|
    decreases |ts|, 4
  {
    var c := TakeComma(ts, |ss|);
    if !c.Ok? then Error else
      var s := ParseUpdate(c.rest);
      if !s.Ok? then Failed(s)
      else if Peek(s.rest) == Comma then ParseUpdates(s.rest, ss + [s.value])
      else Ok(ss + [s.value], s.rest)
  }

  function ParseFor(ts: seq<Token>): (r: Outcome<Stmt>)
    ensures From(r, ts)
    ensures r.Ok? ==> |r.rest| < |ts|
    decreases |ts|, 1
  {
    var k := Expect(ts, For);
    if !k.Ok? then Error else
      var o := Expect(k.rest, OpenRound);
      if !o.Ok? then Error else
        var ss := if Peek(o.rest) == Semicolon then Ok([], o.rest[1..]) else ParseStart(o.rest, []);
        if ss.Ok? then ParseTest(ss.rest, ss.value) else Failed(ss)
  }

  function ParseTest(ts: seq<Token>, start: seq<Stmt>): (r: Outcome<Stmt>)
    ensures From(r, ts)
    ensures r.Ok? ==> |r.rest| < |ts|
    decreases |ts|, 5
  {
    var e := ParseExpression(ts);
    if !e.Ok? then Failed(e) else
      var c := Expect(e.rest, Semicolon);
      if !c.Ok? then Error else
        var us := if Peek(c.rest) == CloseRound then Ok([], c.rest) else ParseUpdates(c.rest, []);
        if us.Ok? then ParseRepeated(us.rest, start, e.value, us.value) else Failed(us)
  }

  function ParseRepeated(ts: seq<Token>, start: seq<Stmt>, test: Expr, update: seq<Stmt>): (r: Outcome<Stmt>)
    ensures From(r, ts)
    ensures r.Ok? ==> |r.rest| < |ts|
    decreases |ts|, 5
  {
    var c := Expect(ts, CloseRound);
    if !c.Ok? then Error else
      var b := ParseBlock(c.rest);
      if b.Ok? then Ok(ForLoop(start, test, update, b.value), b.rest) else b
  }

  /** A comma behind a parameter is optional. */
  function ParseParameters(ts: seq<Token>, ps: seq<Parameter>): (r: Outcome<seq<Parameter>>)
    ensures From(r, ts)
    ensures r.Ok? ==> |r.rest| < |ts|
    ensures r.Ok? || r.Error?
    decreases |ts|
  {
    if Peek(ts) == CloseRound then Ok(ps, ts[1..]) else
      var d := ParseDatatype(ts);
      if !d.Ok? || !Peek(d.rest).Ident? then Error else
        var us := d.rest[1..];
        ParseParameters(if Peek(us) == Comma then us[1..] else us, ps + [Parameter(d.value, d.rest[0].name)])
  }

  function ParseFunction(ts: seq<Token>): (r: Outcome<Stmt>)
    ensures From(r, ts)
    ensures r.Ok? ==> |r.rest| < |ts|
    decreases |ts|, 1
  {
    var k := Expect(ts, Public);
    if !k.Ok? then Error else
      var d := ParseDatatype(k.rest);
      if !d.Ok? || !Peek(d.rest).Ident? then Error else
        ParseSignature(d.rest[1..], d.value, d.rest[0].name)
  }

  function ParseSignature(ts: seq<Token>, d: Datatype, x: string): (r: Outcome<Stmt>)
    ensures From(r, ts)
    ensures r.Ok? ==> |r.rest| < |ts|
    decreases |ts|, 5
  {
    var o := Expect(ts, OpenRound);
    if !o.Ok? then Error else
      var ps := ParseParameters(o.rest, []);
      if !ps.Ok? then Error else
        var b := ParseBlock(ps.rest);
        if b.Ok? then Ok(Function(d, x, ps.value, b.value), b.rest) else b
  }
}
