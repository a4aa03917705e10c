/** The parser in its own form: an object that moves through its tokens, with operand and operator stacks. */
module Parsers {
  import opened Syntax
  import opened Parsing

  /** How a parsing method ends; the last one stands for not ending. */
  datatype Verdict<+T> = Done(value: T) | Raised | Unspecified | NeverEnds

  predicate Agrees<T(==)>(v: Verdict<T>, rest: seq<Token>, r: Outcome<T>)
  {
    match v
    case Done(x) => r == Ok(x, rest)
    case Raised => r.Error?
    case Unspecified => r.Undefined?
    case NeverEnds => r.Endless?
  }

  function Failing<S, T>(v: Verdict<S>): Verdict<T>
    requires !v.Done?
  {
    match v
    case Raised => Raised
    case Unspecified => Unspecified
    case NeverEnds => NeverEnds
  }

  class Parser {
    const tokens: seq<Token>
    var it: nat

    predicate Valid() reads this { it <= |tokens| }

    function Rest(): seq<Token> reads this requires Valid() { tokens[it..] }

    constructor (tokens: seq<Token>)
      ensures Valid() && this.tokens == tokens && Rest() == tokens
    {
      this.tokens := tokens;
      it := 0;
    }

    function Current(): (t: Token) reads this requires Valid() ensures t == Peek(Rest())
    {
      if it < |tokens| then tokens[it] else End
    }

    /** Moves on by one token; past the end there is nothing to move to. */
    method Advance()
      requires Valid() && Current() != End && it < |tokens|
      modifies this
      ensures Valid() && it == old(it) + 1 && Rest() == old(Rest())[1..]
    {
      it := it + 1;
    }

    method ParseTokenValue(t: Token) returns (v: Verdict<()>)
      requires Valid() && t != End
      modifies this
      ensures Valid() && Agrees(v, Rest(), Expect(old(Rest()), t)) && it >= old(it)
      ensures v.Done? || v.Raised?
      ensures v.Done? ==> it == old(it) + 1
    {
      if Current() == t {
        Advance();
        v := Done(());
      } else {
        v := Raised;
      }
    }

    /** Pops and builds while the operator on top of the stack binds at least as tight. */
    static method ReduceStacks(operands: seq<Expr>, ops: seq<Operator>, op: Operator) returns (s: Stacks)
      ensures s == Reduce(operands, ops, op)
    {
      var es, os := operands, ops;
      while os != [] && Level(op) >= Level(os[|os| - 1])
        invariant Reduce(es, os, op) == Reduce(operands, ops, op)
        decreases |os|
      {
        var k, m := |es|, |os| - 1;
        if k < 2 { return Short; }
        es := es[..k - 2] + [Binary(es[k - 2], os[m], es[k - 1])];
        os := os[..m];
      }
      s := Stacks(es, os);
    }

    /** Builds what the loop over the tokens has left on the stacks. */
    static method Cleanup(operands: seq<Expr>, ops: seq<Operator>, ghost rest: seq<Token>) returns (v: Verdict<Expr>)
      ensures Agrees(v, rest, Finish(operands, ops, rest))
    {
      var es, os := operands, ops;
      while os != []
        invariant Finish(es, os, rest) == Finish(operands, ops, rest)
        decreases |os|
      {
        var k, m := |es|, |os| - 1;
        if IsUnary(os[m]) || k < 2 { return Raised; }
        es := es[..k - 2] + [Binary(es[k - 2], os[m], es[k - 1])];
        os := os[..m];
      }
      v := if |es| == 1 then Done(es[0]) else Raised;
    }

    method ParseExpression() returns (v: Verdict<Expr>)
      requires Valid()
      modifies this
      ensures Valid() && Agrees(v, Rest(), Parsing.ParseExpression(old(Rest())))
      decreases |tokens| - it, 4
    {
      var operands: seq<Expr>, ops: seq<Operator> := [], [];
      while true
        invariant Valid() && it >= old(it) && (it == old(it) ==> operands == [] && ops == [])
        invariant ExpressionLoop(Rest(), operands, ops) == Parsing.ParseExpression(old(Rest()))
        decreases |tokens| - it
      {
        var t := Current();
        ghost var ts := Rest();
        if t.Unsupported? {
          return Raised;
        } else if t.Op? && !IsUnary(t.op) {
          Advance();
          var s := ReduceStacks(operands, ops, t.op);
          if s.Short? { return Unspecified; }
          operands, ops := s.operands, s.ops + [t.op];
        } else if t.Op? {
          Advance();
          ops := ops + [t.op];
        } else if t.Postfix? {
          return if operands == [] then Raised else NeverEnds;
        } else if StartsOperand(t) {
          var neg := Negated(t, operands, ops);
          var e := ParseOperand(neg);
          if !e.Done? { return e; }
          operands := operands + [e.value];
          if neg { ops := ops[..|ops| - 1]; }
        } else {
          var s := ApplyUnary(operands, ops);
          v := Cleanup(s.operands, s.ops, ts);
          return;
        }
        var s := ApplyUnary(operands, ops);
        operands, ops := s.operands, s.ops;
      }
    }

    method ParseOperand(neg: bool) returns (v: Verdict<Expr>)
      requires Valid() && StartsOperand(Current())
      modifies this
      ensures Valid() && Agrees(v, Rest(), Parsing.ParseOperand(old(Rest()), neg))
      ensures v.Done? ==> it > old(it)
      decreases |tokens| - it, 3
    {
      match Current()
      case IntLit(n) => Advance(); v := Done(Number(if neg then -n else n));
      case True => Advance(); v := Done(Truth(true));
      case False => Advance(); v := Done(Truth(false));
      case StringLit(s) => if neg { v := Raised; } else { Advance(); v := Done(Text(s)); }
      case Ident(_) => v := ParseTarget();
      case OpenRound =>
        Advance();
        v := ParseExpression();
        if v.Done? {
          var c := ParseTokenValue(CloseRound);
          if c.Raised? { v := Raised; }
        }
      case OpenCurly => v := ParseExpressionList();
      case Rotate => v := ParseRotate();
    }

    method ParseTarget() returns (v: Verdict<Expr>)
      requires Valid()
      modifies this
      ensures Valid() && Agrees(v, Rest(), Parsing.ParseTarget(old(Rest())))
      ensures v.Done? ==> it > old(it)
      decreases |tokens| - it, 2
    {
      var t := Current();
      if !t.Ident? { return Raised; }
      Advance();
      var target := Variable(t.name);
      while Current() == OpenSquare
        invariant Valid() && it > old(it)
        invariant ParseIndices(Rest(), target) == Parsing.ParseTarget(old(Rest()))
        decreases |tokens| - it
      {
        Advance();
        var i := ParseExpression();
        if !i.Done? { return i; }
        var c := ParseTokenValue(CloseSquare);
        if c.Raised? { return Raised; }
        target := IndexAccess(target, i.value);
      }
      v := Done(target);
    }

    method ParseExpressionList() returns (v: Verdict<Expr>)
      requires Valid() && Current() == OpenCurly
      modifies this
      ensures Valid() && Agrees(v, Rest(), ParseItems(old(Rest())[1..], []))
      ensures v.Done? ==> it > old(it)
      decreases |tokens| - it, 2
    {
      Advance();
      var items: seq<Expr> := [];
      while true
        invariant Valid() && it > old(it)
        invariant ParseItems(Rest(), items) == ParseItems(old(Rest())[1..], [])
        decreases |tokens| - it
      {
        var e := ParseExpression();
        if !e.Done? { return e; }
        items := items + [e.value];
        if Current() == Comma { Advance(); } else { break; }
      }
      var c := ParseTokenValue(CloseCurly);
      v := if c.Done? then Done(List(items)) else Raised;
    }

    method ParseRotate() returns (v: Verdict<Expr>)
      requires Valid()
      modifies this
      ensures Valid() && Agrees(v, Rest(), Parsing.ParseRotate(old(Rest())))
      ensures v.Done? ==> it > old(it)
      decreases |tokens| - it, 2
    {
      var k := ParseTokenValue(Rotate);
      if k.Raised? { return Raised; }
      var o := ParseTokenValue(OpenRound);
      if o.Raised? { return Raised; }
      var x := ParseExpression();
      if !x.Done? { return x; }
      v := ParseOffset(x.value);
    }

    method ParseOffset(x: Expr) returns (v: Verdict<Expr>)
      requires Valid()
      modifies this
      ensures Valid() && Agrees(v, Rest(), Parsing.ParseOffset(old(Rest()), x))
      ensures v.Done? ==> it > old(it)
      decreases |tokens| - it, 2
    {
      var c := ParseTokenValue(Comma);
      if c.Raised? { return Raised; }
      var i := ParseExpression();
      if !i.Done? { return i; }
      var d := ParseTokenValue(CloseRound);
      v := if d.Done? then Done(RotateCall(x, i.value)) else Raised;
    }

    // ---------------------------------------------------------------- statements

    method ParseDatatype() returns (v: Verdict<Datatype>)
      requires Valid()
      modifies this
      ensures Valid() && Agrees(v, Rest(), Parsing.ParseDatatype(old(Rest())))
      ensures v.Done? ==> it > old(it)
    {
      var secret := Current() == Secret;
      if secret { Advance(); }
      var t := Current();
      if !t.TypeName? { return Raised; }
      Advance();
      v := Done(Datatype(t.ty, secret && t.ty != Void));
    }

    method ParseStatement() returns (v: Verdict<Stmt>)
      requires Valid()
      modifies this
      ensures Valid() && Agrees(v, Rest(), Parsing.ParseStatement(old(Rest())))
      ensures v.Done? ==> it > old(it)
      decreases |tokens| - it, 3
    {
      if Compound(Current()) {
        v := ParseCompoundStatement();
      } else {
        ghost var ts := Rest();
        v := ParseBareStatement();
        v := Gobble(v, ParseBare(ts));
      }
    }

    method ParseCompoundStatement() returns (v: Verdict<Stmt>)
      requires Valid() && Compound(Current())
      modifies this
      ensures Valid() && Agrees(v, Rest(), ParseCompound(old(Rest())))
      ensures v.Done? ==> it > old(it)
      decreases |tokens| - it, 2
    {
      match Current()
      case For => v := ParseForStatement();
      case If => v := ParseIfStatement();
      case OpenCurly => v := ParseBlockStatement();
      case Public => v := ParseFunctionStatement();
    }

    /** A statement without its semicolon. */
    method ParseBareStatement() returns (v: Verdict<Stmt>)
      requires Valid()
      modifies this
      ensures Valid() && Agrees(v, Rest(), ParseBare(old(Rest())))
      ensures v.Done? ==> it > old(it)
    {
      match Current()
      case Return => v := ParseReturnStatement();
      case Secret => v := ParseDeclarationStatement();
      case TypeName(_) => v := ParseDeclarationStatement();
      case _ => v := ParseAssignmentStatement();
    }

    /** The semicolon behind a statement. */
    method Gobble(s: Verdict<Stmt>, ghost r: Outcome<Stmt>) returns (v: Verdict<Stmt>)
      requires Valid() && Agrees(s, Rest(), r)
      modifies this
      ensures Valid() && it >= old(it) && Agrees(v, Rest(), Terminated(r)) && (v.Done? ==> s.Done?)
    {
      v := s;
      if s.Done? {
        var c := ParseTokenValue(Semicolon);
        if c.Raised? { v := Raised; }
      }
    }

    method ParseReturnStatement() returns (v: Verdict<Stmt>)
      requires Valid()
      modifies this
      ensures Valid() && Agrees(v, Rest(), ParseReturn(old(Rest())))
      ensures v.Done? ==> it > old(it)
    {
      var k := ParseTokenValue(Token.Return);
      if k.Raised? { return Raised; }
      if Current() == Semicolon { return Done(Give(None)); }
      var e := ParseExpression();
      v := if e.Done? then Done(Give(Some(e.value))) else Failing(e);
    }

    method ParseAssignmentStatement() returns (v: Verdict<Stmt>)
      requires Valid()
      modifies this
      ensures Valid() && Agrees(v, Rest(), ParseAssignment(old(Rest())))
      ensures v.Done? ==> it > old(it)
    {
      var t := ParseTarget();
      if !t.Done? { return Failing(t); }
      var a := ParseTokenValue(Assign);
      if a.Raised? { return Raised; }
      var e := ParseExpression();
      v := if e.Done? then Done(Assignment(t.value, e.value)) else Failing(e);
    }

    method ParseDeclarationStatement() returns (v: Verdict<Stmt>)
      requires Valid()
      modifies this
      ensures Valid() && Agrees(v, Rest(), ParseDeclaration(old(Rest())))
      ensures v.Done? ==> it > old(it)
    {
      var d := ParseDatatype();
      if !d.Done? { return Raised; }
      var x := Current();
      if !x.Ident? { return Raised; }
      Advance();
      v := ParseInitializer(d.value, x.name);
    }

    method ParseInitializer(d: Datatype, x: string) returns (v: Verdict<Stmt>)
      requires Valid()
      modifies this
      ensures Valid() && Agrees(v, Rest(), Parsing.ParseInitializer(old(Rest()), d, x))
      ensures v.Done? ==> it >= old(it)
    {
      if Current() == OpenSquare {
        Advance();
        var c := ParseTokenValue(CloseSquare);
        if c.Raised? { return Raised; }
      }
      v := ParseInitialValue(d, x);
    }

    method ParseInitialValue(d: Datatype, x: string) returns (v: Verdict<Stmt>)
      requires Valid()
      modifies this
      ensures Valid() && Agrees(v, Rest(), Parsing.ParseInitialValue(old(Rest()), d, x))
      ensures v.Done? ==> it >= old(it)
    {
      if Current() == Semicolon { return Done(Declaration(d, x, None)); }
      var a := ParseTokenValue(Assign);
      if a.Raised? { return Raised; }
      var e := ParseExpression();
      v := if e.Done? then Done(Declaration(d, x, Some(e.value))) else Failing(e);
    }

    method ParseBlockStatement() returns (v: Verdict<Stmt>)
      requires Valid()
      modifies this
      ensures Valid() && Agrees(v, Rest(), ParseBlock(old(Rest())))
      ensures v.Done? ==> it > old(it)
      decreases |tokens| - it, 1
    {
      var o := ParseTokenValue(OpenCurly);
      if o.Raised? { return Raised; }
      var body: seq<Stmt> := [];
      while Current() != CloseCurly
        invariant Valid() && it > old(it)
        invariant ParseBody(Rest(), body) == ParseBlock(old(Rest()))
        decreases |tokens| - it
      {
        var s := ParseStatement();
        if !s.Done? { return s; }
        body := body + [s.value];
      }
      Advance();
      v := Done(Block(body));
    }

    method ParseBlockOrSingleStatement() returns (v: Verdict<Stmt>)
      requires Valid()
      modifies this
      ensures Valid() && Agrees(v, Rest(), ParseBranch(old(Rest())))
      ensures v.Done? ==> it > old(it)
      decreases |tokens| - it, 4
    {
      if Current() == OpenCurly {
        v := ParseBlockStatement();
      } else {
        v := ParseStatement();
        if v.Done? { v := Done(Block([v.value])); }
      }
    }

    method ParseIfStatement() returns (v: Verdict<Stmt>)
      requires Valid()
      modifies this
      ensures Valid() && Agrees(v, Rest(), ParseIf(old(Rest())))
      ensures v.Done? ==> it > old(it)
      decreases |tokens| - it, 1
    {
      var k := ParseTokenValue(If);
      if k.Raised? { return Raised; }
      var c := ParseCondition();
      if !c.Done? { return Failing(c); }
      v := ParseBranches(c.value);
    }

    method ParseCondition() returns (v: Verdict<Expr>)
      requires Valid()
      modifies this
      ensures Valid() && Agrees(v, Rest(), Parsing.ParseCondition(old(Rest())))
      ensures v.Done? ==> it > old(it)
    {
      var o := ParseTokenValue(OpenRound);
      if o.Raised? { return Raised; }
      v := ParseExpression();
      if v.Done? {
        var c := ParseTokenValue(CloseRound);
        if c.Raised? { v := Raised; }
      }
    }

    method ParseBranches(c: Expr) returns (v: Verdict<Stmt>)
      requires Valid()
      modifies this
      ensures Valid() && Agrees(v, Rest(), Parsing.ParseBranches(old(Rest()), c))
      ensures v.Done? ==> it > old(it)
      decreases |tokens| - it, 5
    {
      var t := ParseBlockOrSingleStatement();
      if !t.Done? { return t; }
      if Current() != Else { return Done(Conditional(c, t.value, None)); }
      Advance();
      var e := ParseBlockOrSingleStatement();
      v := if e.Done? then Done(Conditional(c, t.value, Some(e.value))) else e;
    }

    // ---------------------------------------------------------------- loops and functions

    /** A statement that need not end in a semicolon. */
    method ParseUpdateStatement() returns (v: Verdict<Stmt>)
      requires Valid()
      modifies this
      ensures Valid() && Agrees(v, Rest(), ParseUpdate(old(Rest())))
      ensures v.Done? ==> it > old(it)
      decreases |tokens| - it, 3
    {
      if Compound(Current()) { v := ParseCompoundStatement(); } else { v := ParseBareStatement(); }
    }

    method ParseComma(taken: nat) returns (v: Verdict<()>)
      requires Valid()
      modifies this
      ensures Valid() && Agrees(v, Rest(), TakeComma(old(Rest()), taken)) && (v.Done? || v.Raised?) && it >= old(it)
    {
      v := Done(());
      if taken > 1 { v := ParseTokenValue(Comma); }
    }

    method ParseStartStatements() returns (v: Verdict<seq<Stmt>>)
      requires Valid()
      modifies this
      ensures Valid() && Agrees(v, Rest(), ParseStart(old(Rest()), []))
      ensures v.Done? ==> it > old(it)
      decreases |tokens| - it, 4
    {
      var ss: seq<Stmt> := [];
      while true
        invariant Valid() && it >= old(it)
        invariant ParseStart(Rest(), ss) == ParseStart(old(Rest()), [])
        decreases |tokens| - it
      {
        var c := ParseComma(|ss|);
        if c.Raised? { return Raised; }
        var s := ParseStatement();
        if !s.Done? { return Failing(s); }
        ss := ss + [s.value];
        if Current() != Comma { return Done(ss); }
      }
    }

    method ParseUpdateStatements() returns (v: Verdict<seq<Stmt>>)
      requires Valid()
      modifies this
      ensures Valid() && Agrees(v, Rest(), ParseUpdates(old(Rest()), []))
      ensures v.Done? ==> it > old(it)
      decreases |tokens| - it, 4
    {
      var ss: seq<Stmt> := [];
      while true
        invariant Valid() && it >= old(it)
        invariant ParseUpdates(Rest(), ss) == ParseUpdates(old(Rest()), [])
        decreases |tokens| - it
      {
        var c := ParseComma(|ss|);
        if c.Raised? { return Raised; }
        var s := ParseUpdateStatement();
        if !s.Done? { return Failing(s); }
        ss := ss + [s.value];
        if Current() != Comma { return Done(ss); }
      }
    }

    method ParseForStatement() returns (v: Verdict<Stmt>)
      requires Valid()
      modifies this
      ensures Valid() && Agrees(v, Rest(), ParseFor(old(Rest())))
      ensures v.Done? ==> it > old(it)
      decreases |tokens| - it, 1
    {
      var k := ParseTokenValue(For);
      if k.Raised? { return Raised; }
      var o := ParseTokenValue(OpenRound);
      if o.Raised? { return Raised; }
      var start: Verdict<seq<Stmt>> := Done([]);
      if Current() == Semicolon { Advance(); } else { start := ParseStartStatements(); }
      if !start.Done? { return Failing(start); }
      v := ParseForTest(start.value);
    }

    method ParseForTest(start: seq<Stmt>) returns (v: Verdict<Stmt>)
      requires Valid()
      modifies this
      ensures Valid() && Agrees(v, Rest(), ParseTest(old(Rest()), start))
      ensures v.Done? ==> it > old(it)
      decreases |tokens| - it, 5
    {
      var e := ParseExpression();
      if !e.Done? { return Failing(e); }
      var c := ParseTokenValue(Semicolon);
      if c.Raised? { return Raised; }
      var update: Verdict<seq<Stmt>> := Done([]);
      if Current() != CloseRound { update := ParseUpdateStatements(); }
      if !update.Done? { return Failing(update); }
      v := ParseForBody(start, e.value, update.value);
    }

    method ParseForBody(start: seq<Stmt>, test: Expr, update: seq<Stmt>) returns (v: Verdict<Stmt>)
      requires Valid()
      modifies this
      ensures Valid() && Agrees(v, Rest(), ParseRepeated(old(Rest()), start, test, update))
      ensures v.Done? ==> it > old(it)
      decreases |tokens| - it, 5
    {
      var c := ParseTokenValue(CloseRound);
      if c.Raised? { return Raised; }
      v := ParseBlockStatement();
      if v.Done? { v := Done(ForLoop(start, test, update, v.value)); }
    }

    method ParseFunctionParameters() returns (v: Verdict<seq<Parameter>>)
      requires Valid()
      modifies this
      ensures Valid() && Agrees(v, Rest(), ParseParameters(old(Rest()), []))
      ensures (v.Done? || v.Raised?) && (v.Done? ==> it > old(it))
    {
      var ps: seq<Parameter> := [];
      while Current() != CloseRound
        invariant Valid() && it >= old(it)
        invariant ParseParameters(Rest(), ps) == ParseParameters(old(Rest()), [])
        decreases |tokens| - it
      {
        var d := ParseDatatype();
        if !d.Done? { return Raised; }
        var x := Current();
        if !x.Ident? { return Raised; }
        Advance();
        ps := ps + [Parameter(d.value, x.name)];
        if Current() == Comma { Advance(); }
      }
      Advance();
      v := Done(ps);
    }

    method ParseFunctionStatement() returns (v: Verdict<Stmt>)
      requires Valid()
      modifies this
      ensures Valid() && Agrees(v, Rest(), ParseFunction(old(Rest())))
      ensures v.Done? ==> it > old(it)
      decreases |tokens| - it, 1
    {
      var k := ParseTokenValue(Public);
      if k.Raised? { return Raised; }
      var d := ParseDatatype();
      if !d.Done? { return Raised; }
      var x := Current();
      if !x.Ident? { return Raised; }
      Advance();
      v := ParseSignature(d.value, x.name);
    }

    method ParseSignature(d: Datatype, x: string) returns (v: Verdict<Stmt>)
      requires Valid()
      modifies this
      ensures Valid() && Agrees(v, Rest(), Parsing.ParseSignature(old(Rest()), d, x))
      ensures v.Done? ==> it > old(it)
      decreases |tokens| - it, 5
    {
      var o := ParseTokenValue(OpenRound);
      if o.Raised? { return Raised; }
      var ps := ParseFunctionParameters();
      if !ps.Done? { return Raised; }
      v := ParseBlockStatement();
      if v.Done? { v := Done(Function(d, x, ps.value, v.value)); }
    }
  }
}
