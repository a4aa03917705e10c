/** Printed statements and what the parser makes of them. */
module Statements {
  import opened Syntax
  import opened Parsing
  import opened Printing
  import Infix
  import Rejection

  /** Trees the front end builds that the language has tokens for: branches and bodies are blocks, targets are
      variables or index accesses into them. */
  predicate PrintableStmt(s: Stmt)
    decreases s, 0
  {
    match s
    case Block(body) => PrintableBody(body)
    case Conditional(c, t, e) =>
      Printable(c) && t.Block? && PrintableStmt(t) && (e.Some? ==> e.value.Block? && PrintableStmt(e.value))
    case Give(r) => r.Some? ==> Printable(r.value)
    case Assignment(t, v) => (t.Variable? || t.IndexAccess?) && Printable(t) && Printable(v)
    case Declaration(_, _, init) => init.Some? ==> Printable(init.value)
    case ForLoop(start, test, update, body) =>
      PrintableBody(start) && Printable(test) && PrintableBody(update) && body.Block? && PrintableStmt(body)
    case Function(_, _, _, body) => body.Block? && PrintableStmt(body)
  }

  predicate PrintableBody(ss: seq<Stmt>)
    decreases ss, 1
  {
    ss == [] || (PrintableStmt(ss[0]) && PrintableBody(ss[1..]))
  }

  function PrintDatatype(d: Datatype): seq<Token>
  {
    if d.secret then [Secret, TypeName(d.ty)] else [TypeName(d.ty)]
  }

  function PrintInit(init: Option<Expr>): seq<Token>
    requires init.Some? ==> Printable(init.value)
  {
    if init.Some? then [Assign] + PrintExpr(init.value) else []
  }

  /** The tokens of a statement, as the language has them; but for loops and functions the printer writes the same. */
  function PrintStmt(s: Stmt): (r: seq<Token>)
    requires PrintableStmt(s)
    ensures r != []
    decreases s, 0
  {
    match s
    case Block(body) => [OpenCurly] + (PrintBody(body) + [CloseCurly])
    case Conditional(c, t, e) =>
      [If] + ([OpenRound] + (PrintExpr(c) + ([CloseRound] + (PrintStmt(t) + PrintElse(e)))))
    case Give(r) => [Return] + ((if r.Some? then PrintExpr(r.value) else []) + [Semicolon])
    case Assignment(t, v) => PrintExpr(t) + ([Assign] + (PrintExpr(v) + [Semicolon]))
    case Declaration(d, x, init) =>
      PrintDatatype(d) + ([Ident(x)] + (PrintInit(init) + [Semicolon]))
    case ForLoop(start, test, update, body) =>
      [For] + ([OpenRound] + (PrintStart(start) + (PrintExpr(test) + ([Semicolon] + (PrintUpdates(update) + ([CloseRound] + PrintStmt(body)))))))
    case Function(d, x, ps, body) =>
      [Public] + (PrintDatatype(d) + ([Ident(x)] + ([OpenRound] + (PrintParameters(ps) + ([CloseRound] + PrintStmt(body))))))
  }

  /** The statements a loop starts with, each in full, between commas; if there is none, its semicolon. */
  function PrintStart(ss: seq<Stmt>): (r: seq<Token>)
    requires PrintableBody(ss)
    ensures r != []
    decreases ss, 1
  {
    if ss == [] then [Semicolon]
    else if |ss| == 1 then PrintStmt(ss[0])
    else PrintStmt(ss[0]) + ([Comma] + PrintStart(ss[1..]))
  }

  /** A statement that ends in a semicolon. */
  predicate Simple(s: Stmt) { s.Give? || s.Assignment? || s.Declaration? }

  /** The statements a round ends with, without their semicolons, between commas. */
  function PrintUpdates(ss: seq<Stmt>): seq<Token>
    requires PrintableBody(ss)
    decreases ss, 1
  {
    if ss == [] then []
    else if |ss| == 1 then PrintUpdate(ss[0])
    else PrintUpdate(ss[0]) + ([Comma] + PrintUpdates(ss[1..]))
  }

  function PrintUpdate(s: Stmt): (r: seq<Token>)
    requires PrintableStmt(s)
    ensures r != []
    decreases s, 1
  {
    match s
    case Give(r) => [Return] + (if r.Some? then PrintExpr(r.value) else [])
    case Assignment(t, v) => PrintExpr(t) + ([Assign] + PrintExpr(v))
    case Declaration(d, x, init) => PrintDatatype(d) + ([Ident(x)] + PrintInit(init))
    case _ => PrintStmt(s)
  }

  function PrintParameter(p: Parameter): seq<Token> { PrintDatatype(p.datatype_) + [Ident(p.name)] }

  function PrintParameters(ps: seq<Parameter>): seq<Token>
  {
    if ps == [] then []
    else if |ps| == 1 then PrintParameter(ps[0])
    else PrintParameter(ps[0]) + ([Comma] + PrintParameters(ps[1..]))
  }

  function PrintElse(e: Option<Stmt>): seq<Token>
    requires e.Some? ==> PrintableStmt(e.value)
    decreases e, 0
  {
    if e.Some? then [Else] + PrintStmt(e.value) else []
  }

  function PrintBody(ss: seq<Stmt>): seq<Token>
    requires PrintableBody(ss)
    decreases ss, 1
  {
    if ss == [] then [] else PrintStmt(ss[0]) + PrintBody(ss[1..])
  }

  // ---------------------------------------------------------------- what is read back

  function RereadOption(e: Option<Expr>): (r: Option<Option<Expr>>)
    requires e.Some? ==> Printable(e.value)
  {
    if e.None? then Some(None) else
      var e' := Reread(e.value);
      if e'.Some? then Some(Some(e'.value)) else None
  }

  /** The tree that comes back from a printed statement, if any. */
  function RereadStmt(s: Stmt): (r: Option<Stmt>)
    requires PrintableStmt(s)
    decreases s, 0
  {
    match s
    case Block(body) =>
      var b := RereadBody(body);
      if b.Some? then Some(Block(b.value)) else None
    case Conditional(c, t, e) =>
      var c', t' := Reread(c), RereadStmt(t);
      if c'.None? || t'.None? then None
      else if e.None? then Some(Conditional(c'.value, t'.value, None))
      else
        var e' := RereadStmt(e.value);
        if e'.Some? then Some(Conditional(c'.value, t'.value, Some(e'.value))) else None
    case Give(r) =>
      var r' := RereadOption(r);
      if r'.Some? then Some(Give(r'.value)) else None
    case Assignment(t, v) =>
      var t', v' := Reread(t), Reread(v);
      if t'.Some? && v'.Some? then Some(Assignment(t'.value, v'.value)) else None
    case Declaration(d, x, init) =>
      var i := RereadOption(init);
      if i.Some? then Some(Declaration(RereadDatatype(d), x, i.value)) else None
    case ForLoop(start, test, update, body) =>
      var start', test', update', body' := RereadBody(start), Reread(test), RereadBody(update), RereadStmt(body);
      if |start| <= 1 && UpdatesFit(update) && start'.Some? && test'.Some? && update'.Some? && body'.Some? then
        Some(ForLoop(start'.value, test'.value, update'.value, body'.value))
      else
        None
    case Function(d, x, ps, body) =>
      var body' := RereadStmt(body);
      if body'.Some? then Some(Function(RereadDatatype(d), x, RereadParameters(ps), body'.value)) else None
  }

  function RereadDatatype(d: Datatype): Datatype { Datatype(d.ty, d.secret && d.ty != Void) }

  function RereadParameters(ps: seq<Parameter>): (r: seq<Parameter>)
    ensures |r| == |ps| && forall i :: 0 <= i < |ps| ==> r[i] == Parameter(RereadDatatype(ps[i].datatype_), ps[i].name)
  {
    seq(|ps|, i requires 0 <= i < |ps| => Parameter(RereadDatatype(ps[i].datatype_), ps[i].name))
  }

  /** Only its semicolon would end it. */
  predicate EndsOpen(s: Stmt) { (s.Give? && s.result.None?) || (s.Declaration? && s.init.None?) }

  /** At most one statement, and one that needs no semicolon. */
  predicate UpdatesFit(ss: seq<Stmt>) { |ss| <= 1 && (ss != [] ==> !EndsOpen(ss[0])) }

  function RereadBody(ss: seq<Stmt>): (r: Option<seq<Stmt>>)
    requires PrintableBody(ss)
    decreases ss, 1
  {
    if ss == [] then Some([]) else
      var s', ss' := RereadStmt(ss[0]), RereadBody(ss[1..]);
      if s'.Some? && ss'.Some? then Some([s'.value] + ss'.value) else None
  }

  predicate SecretVoid(d: Datatype) { d.secret && d.ty == Void }

  /** Every expression is faithful and no type is a secret void; a loop has at most one statement to start with and
      one at the end of a round, and that one has a value. */
  predicate FaithfulStmt(s: Stmt)
    decreases s, 0
  {
    match s
    case Block(body) => FaithfulBody(body)
    case Conditional(c, t, e) => Faithful(c) && FaithfulStmt(t) && (e.Some? ==> FaithfulStmt(e.value))
    case Give(r) => r.Some? ==> Faithful(r.value)
    case Assignment(t, v) => Faithful(t) && Faithful(v)
    case Declaration(d, x, init) => !SecretVoid(d) && (init.Some? ==> Faithful(init.value))
    case ForLoop(start, test, update, body) =>
      |start| <= 1 && UpdatesFit(update) && FaithfulBody(start) && Faithful(test) && FaithfulBody(update) && FaithfulStmt(body)
    case Function(d, x, ps, body) =>
      !SecretVoid(d) && (forall i :: 0 <= i < |ps| ==> !SecretVoid(ps[i].datatype_)) && FaithfulStmt(body)
  }

  predicate FaithfulBody(ss: seq<Stmt>)
    decreases ss, 1
  {
    ss == [] || (FaithfulStmt(ss[0]) && FaithfulBody(ss[1..]))
  }

  lemma {:induction false} RereadStmtFaithful(s: Stmt)
    requires PrintableStmt(s)
    ensures RereadStmt(s) == Some(s) <==> FaithfulStmt(s)
    decreases s, 0
  {
    match s
    case Block(body) => RereadBodyFaithful(body);
    case Conditional(c, t, e) =>
      RereadFaithful(c);
      RereadStmtFaithful(t);
      if e.Some? { RereadStmtFaithful(e.value); }
    case Give(r) => if r.Some? { RereadFaithful(r.value); }
    case Assignment(t, v) =>
      RereadFaithful(t);
      RereadFaithful(v);
    case Declaration(d, x, init) => if init.Some? { RereadFaithful(init.value); }
    case ForLoop(start, test, update, body) =>
      RereadBodyFaithful(start);
      RereadFaithful(test);
      RereadBodyFaithful(update);
      RereadStmtFaithful(body);
    case Function(d, x, ps, body) =>
      RereadStmtFaithful(body);
      ParametersFaithful(ps);
  }

  lemma {:induction false} ParametersFaithful(ps: seq<Parameter>)
    ensures RereadParameters(ps) == ps <==> forall i :: 0 <= i < |ps| ==> !SecretVoid(ps[i].datatype_)
  {
    forall i | 0 <= i < |ps| ensures RereadParameters(ps)[i] == ps[i] <==> !SecretVoid(ps[i].datatype_) {}
  }

  lemma {:induction false} RereadBodyFaithful(ss: seq<Stmt>)
    requires PrintableBody(ss)
    ensures RereadBody(ss) == Some(ss) <==> FaithfulBody(ss)
    decreases ss, 1
  {
    if ss != [] {
      RereadStmtFaithful(ss[0]);
      RereadBodyFaithful(ss[1..]);
      assert ss == [ss[0]] + ss[1..];
    }
  }

  // ---------------------------------------------------------------- parsing what was printed

  lemma {:induction false} TargetThen(t: Expr, k: Token, more: seq<Token>)
    requires Printable(t) && (t.Variable? || t.IndexAccess?) && k != OpenSquare
    ensures Reads(ParseTarget(PrintExpr(t) + ([k] + more)), Reread(t), [k] + more)
    ensures Peek(PrintExpr(t) + ([k] + more)).Ident?
  {
    Infix.First(k, more);
    PlainStarts(t, [k] + more);
    TargetReread(t, [k] + more);
  }

  lemma {:induction false} AssignmentReread(s: Stmt, rest: seq<Token>)
    requires s.Assignment? && PrintableStmt(s)
    ensures Reads(ParseStatement(PrintStmt(s) + rest), RereadStmt(s), rest)
  {
    var last := PrintExpr(s.value) + ([Semicolon] + rest);
    assert PrintStmt(s) + rest == PrintExpr(s.target) + ([Assign] + last) by {
      Infix.Around(PrintExpr(s.target), [Assign], PrintExpr(s.value) + [Semicolon], rest);
      Infix.Around([Assign], PrintExpr(s.value), [Semicolon], rest);
    }
    Infix.First(Assign, last);
    Infix.First(Semicolon, rest);
    TargetThen(s.target, Assign, last);
    AloneReread(s.value, [Semicolon] + rest);
  }

  lemma {:induction false} GiveReread(s: Stmt, rest: seq<Token>)
    requires s.Give? && PrintableStmt(s)
    ensures Reads(ParseStatement(PrintStmt(s) + rest), RereadStmt(s), rest)
  {
    var shown := if s.result.Some? then PrintExpr(s.result.value) else [];
    var last := shown + ([Semicolon] + rest);
    assert PrintStmt(s) + rest == [Return] + last by { Infix.Around([Return], shown, [Semicolon], rest); }
    Infix.First(Return, last);
    Infix.First(Semicolon, rest);
    ReturnTerminated([Return] + last);
    if s.result.Some? {
      NotSemicolon(s.result.value, [Semicolon] + rest);
      AloneReread(s.result.value, [Semicolon] + rest);
    } else {
      assert last == [Semicolon] + rest;
    }
  }

  lemma {:induction false} ReturnTerminated(ts: seq<Token>)
    requires Peek(ts) == Token.Return
    ensures ParseStatement(ts) == Terminated(ParseReturn(ts))
  {}

  lemma {:induction false} NotSemicolon(e: Expr, rest: seq<Token>)
    requires Printable(e)
    ensures Peek(PrintExpr(e) + rest) != Semicolon
  {
    Infix.PeekFirst(PrintExpr(e), rest);
    if Plain(e) { PlainStarts(e, rest); }
  }

  lemma {:induction false} DatatypeReread(d: Datatype, more: seq<Token>)
    ensures ParseDatatype(PrintDatatype(d) + more) == Ok(RereadDatatype(d), more)
    ensures Peek(PrintDatatype(d) + more) == if d.secret then Secret else TypeName(d.ty)
  {
    Infix.First(TypeName(d.ty), more);
    if d.secret {
      assert PrintDatatype(d) + more == [Secret] + ([TypeName(d.ty)] + more);
      Infix.First(Secret, [TypeName(d.ty)] + more);
    }
  }

  lemma {:induction false} DeclarationSplit(s: Stmt, rest: seq<Token>)
    requires s.Declaration? && PrintableStmt(s)
    ensures PrintStmt(s) + rest == PrintDatatype(s.datatype_) + ([Ident(s.name)] + (PrintInit(s.init) + ([Semicolon] + rest)))
  {
    Infix.Around(PrintDatatype(s.datatype_), [Ident(s.name)], PrintInit(s.init) + [Semicolon], rest);
    Infix.Around([Ident(s.name)], PrintInit(s.init), [Semicolon], rest);
  }

  lemma {:induction false} InitReread(d: Datatype, x: string, init: Option<Expr>, rest: seq<Token>)
    requires init.Some? ==> Printable(init.value)
    ensures var i := RereadOption(init);
      Reads(ParseInitializer(PrintInit(init) + ([Semicolon] + rest), d, x),
            if i.Some? then Some(Declaration(d, x, i.value)) else None, [Semicolon] + rest)
  {
    var last := PrintInit(init) + ([Semicolon] + rest);
    Infix.First(Semicolon, rest);
    if init.Some? {
      var more := PrintExpr(init.value) + ([Semicolon] + rest);
      assert last == [Assign] + more;
      Infix.First(Assign, more);
      AloneReread(init.value, [Semicolon] + rest);
    } else {
      assert last == [Semicolon] + rest;
    }
  }

  /** Up to the semicolon. */
  lemma {:induction false} DeclaredReread(d: Datatype, x: string, init: Option<Expr>, rest: seq<Token>)
    requires init.Some? ==> Printable(init.value)
    ensures var i := RereadOption(init);
      Reads(ParseDeclaration(PrintDatatype(d) + ([Ident(x)] + (PrintInit(init) + ([Semicolon] + rest)))),
            if i.Some? then Some(Declaration(RereadDatatype(d), x, i.value)) else None, [Semicolon] + rest)
  {
    var last := PrintInit(init) + ([Semicolon] + rest);
    DatatypeReread(d, [Ident(x)] + last);
    Infix.First(Ident(x), last);
    InitReread(RereadDatatype(d), x, init, rest);
  }

  lemma {:induction false} TerminatedReads(r: Outcome<Stmt>, want: Option<Stmt>, rest: seq<Token>)
    requires Reads(r, want, [Semicolon] + rest)
    ensures Reads(Terminated(r), want, rest)
  {
    Infix.First(Semicolon, rest);
  }

  lemma {:induction false} DeclarationTerminated(ts: seq<Token>)
    requires Peek(ts) == Secret || Peek(ts).TypeName?
    ensures ParseStatement(ts) == Terminated(ParseDeclaration(ts))
  {}

  lemma {:induction false} DeclarationReread(s: Stmt, rest: seq<Token>)
    requires s.Declaration? && PrintableStmt(s)
    ensures Reads(ParseStatement(PrintStmt(s) + rest), RereadStmt(s), rest)
  {
    var more := [Ident(s.name)] + (PrintInit(s.init) + ([Semicolon] + rest));
    DeclarationSplit(s, rest);
    DatatypeReread(s.datatype_, more);
    DeclaredReread(s.datatype_, s.name, s.init, rest);
    DeclarationTerminated(PrintStmt(s) + rest);
    TerminatedReads(ParseDeclaration(PrintStmt(s) + rest), RereadStmt(s), rest);
  }

  lemma {:induction false} IfSplit(cs: seq<Token>, ts: seq<Token>, es: seq<Token>, rest: seq<Token>)
    ensures [If] + ([OpenRound] + (cs + ([CloseRound] + (ts + es)))) + rest
         == [If] + ([OpenRound] + (cs + ([CloseRound] + (ts + (es + rest)))))
  {
    Infix.Around([CloseRound], ts, es, rest);
    Infix.Around([OpenRound], cs, [CloseRound] + (ts + es), rest);
    Infix.Around([If], [OpenRound], cs + ([CloseRound] + (ts + es)), rest);
  }

  /** A block as the branch of an if. */
  lemma {:induction false} BranchReread(s: Stmt, rest: seq<Token>)
    requires PrintableStmt(s) && s.Block?
    ensures Reads(ParseBranch(PrintStmt(s) + rest), RereadStmt(s), rest)
    decreases s, 2
  {
    Infix.PeekFirst(PrintStmt(s), rest);
    BlockReread(s, rest);
  }

  lemma {:induction false} BlockReread(s: Stmt, rest: seq<Token>)
    requires PrintableStmt(s) && s.Block?
    ensures Reads(ParseBlock(PrintStmt(s) + rest), RereadStmt(s), rest)
    decreases s, 1
  {
    var more := PrintBody(s.body) + ([CloseCurly] + rest);
    Infix.Around([OpenCurly], PrintBody(s.body), [CloseCurly], rest);
    Infix.First(OpenCurly, more);
    BodyReread(s.body, [], rest);
    if RereadBody(s.body).Some? { assert [] + RereadBody(s.body).value == RereadBody(s.body).value; }
  }

  lemma {:induction false} ElseReread(e: Stmt, rest: seq<Token>)
    requires PrintableStmt(e) && e.Block?
    ensures Peek(PrintElse(Some(e)) + rest) == Else
    ensures Reads(ParseBranch((PrintElse(Some(e)) + rest)[1..]), RereadStmt(e), rest)
    decreases e, 3
  {
    assert PrintElse(Some(e)) + rest == [Else] + (PrintStmt(e) + rest);
    Infix.First(Else, PrintStmt(e) + rest);
    BranchReread(e, rest);
  }

  lemma {:induction false} IfReread(s: Stmt, rest: seq<Token>)
    requires PrintableStmt(s) && s.Conditional? && Peek(rest) != Else
    ensures Reads(ParseIf(PrintStmt(s) + rest), RereadStmt(s), rest)
    decreases s, 1
  {
    var tail := PrintElse(s.else_) + rest;
    var branch := PrintStmt(s.then_) + tail;
    IfSplit(PrintExpr(s.condition), PrintStmt(s.then_), PrintElse(s.else_), rest);
    Infix.First(If, [OpenRound] + (PrintExpr(s.condition) + ([CloseRound] + branch)));
    ConditionReread(s.condition, branch);
    if Reread(s.condition).Some? { BranchesReread(s, Reread(s.condition).value, rest); }
  }

  lemma {:induction false} ConditionReread(c: Expr, more: seq<Token>)
    requires Printable(c)
    ensures Reads(ParseCondition([OpenRound] + (PrintExpr(c) + ([CloseRound] + more))), Reread(c), more)
  {
    Infix.First(OpenRound, PrintExpr(c) + ([CloseRound] + more));
    Infix.First(CloseRound, more);
    AloneReread(c, [CloseRound] + more);
  }

  lemma {:induction false} BranchesReread(s: Stmt, c: Expr, rest: seq<Token>)
    requires PrintableStmt(s) && s.Conditional? && Peek(rest) != Else && Reread(s.condition) == Some(c)
    ensures Reads(ParseBranches(PrintStmt(s.then_) + (PrintElse(s.else_) + rest), c), RereadStmt(s), rest)
    decreases s, 0
  {
    var tail := PrintElse(s.else_) + rest;
    BranchReread(s.then_, tail);
    if s.else_.Some? {
      ElseReread(s.else_.value, rest);
    } else {
      assert tail == rest;
    }
  }

  /** No printed statement begins with a closing brace or an else. */
  lemma {:induction false} StmtStarts(s: Stmt, rest: seq<Token>)
    requires PrintableStmt(s)
    ensures Peek(PrintStmt(s) + rest) != CloseCurly && Peek(PrintStmt(s) + rest) != Else
    ensures Peek(PrintStmt(s) + rest) != Semicolon
    ensures s.Block? ==> Peek(PrintStmt(s) + rest) == OpenCurly
    ensures s.Conditional? ==> Peek(PrintStmt(s) + rest) == If
    ensures s.ForLoop? ==> Peek(PrintStmt(s) + rest) == For
    ensures s.Function? ==> Peek(PrintStmt(s) + rest) == Public
  {
    Infix.PeekFirst(PrintStmt(s), rest);
    if s.Assignment? {
      PlainStarts(s.target, []);
      Infix.PeekFirst(PrintExpr(s.target), []);
    }
  }

  lemma {:induction false} BodyStarts(ss: seq<Stmt>, rest: seq<Token>)
    requires PrintableBody(ss)
    ensures Peek(PrintBody(ss) + ([CloseCurly] + rest)) != Else
  {
    if ss == [] {
      assert PrintBody(ss) + ([CloseCurly] + rest) == [CloseCurly] + rest;
    } else {
      var first, others, close := PrintStmt(ss[0]), PrintBody(ss[1..]), [CloseCurly] + rest;
      StmtStarts(ss[0], others + close);
      assert (first + others) + close == first + (others + close);
    }
  }

  lemma {:induction false} BodyReread(ss: seq<Stmt>, body: seq<Stmt>, rest: seq<Token>)
    requires PrintableBody(ss)
    ensures Reads(ParseBody(PrintBody(ss) + ([CloseCurly] + rest), body),
                  if RereadBody(ss).Some? then Some(Block(body + RereadBody(ss).value)) else None, rest)
    decreases ss, 1
  {
    Infix.First(CloseCurly, rest);
    if ss == [] {
      assert PrintBody(ss) + ([CloseCurly] + rest) == [CloseCurly] + rest;
      assert body + [] == body;
    } else {
      var more := PrintBody(ss[1..]) + ([CloseCurly] + rest);
      assert PrintBody(ss) + ([CloseCurly] + rest) == PrintStmt(ss[0]) + more;
      StmtStarts(ss[0], more);
      BodyStarts(ss[1..], rest);
      StmtReread(ss[0], more);
      if RereadStmt(ss[0]).Some? {
        var s := RereadStmt(ss[0]).value;
        BodyReread(ss[1..], body + [s], rest);
        if RereadBody(ss[1..]).Some? { Infix.Grouped(body, s, RereadBody(ss[1..]).value); }
      }
    }
  }

  /** Every printed statement parses to what RereadStmt says, right up to what follows it, or not at all. */
  lemma {:induction false} StmtReread(s: Stmt, rest: seq<Token>)
    requires PrintableStmt(s) && Peek(rest) != Else
    ensures Reads(ParseStatement(PrintStmt(s) + rest), RereadStmt(s), rest)
    decreases s, 3
  {
    match s
    case Block(_) => NestedReread(s, rest);
    case Conditional(_, _, _) => NestedReread(s, rest);
    case Give(_) => GiveReread(s, rest);
    case Assignment(_, _) => AssignmentReread(s, rest);
    case Declaration(_, _, _) => DeclarationReread(s, rest);
    case ForLoop(_, _, _, _) => NestedReread(s, rest);
    case Function(_, _, _, _) => NestedReread(s, rest);
  }

  lemma {:induction false} NestedReread(s: Stmt, rest: seq<Token>)
    requires PrintableStmt(s) && !Simple(s) && Peek(rest) != Else
    ensures Reads(ParseCompound(PrintStmt(s) + rest), RereadStmt(s), rest) && Compound(Peek(PrintStmt(s) + rest))
    decreases s, 2
  {
    StmtStarts(s, rest);
    match s
    case Block(_) => BlockReread(s, rest);
    case Conditional(_, _, _) => IfReread(s, rest);
    case ForLoop(_, _, _, _) => ForReread(s, rest);
    case Function(_, _, _, _) => FunctionReread(s, rest);
  }

  // ---------------------------------------------------------------- loops

  /** An expression begins with an operator or an operand. */
  lemma {:induction false} ExprStarts(e: Expr, rest: seq<Token>)
    requires Printable(e)
    ensures var t := Peek(PrintExpr(e) + rest); t.Op? || StartsOperand(t)
  {
    Infix.PeekFirst(PrintExpr(e), rest);
    if Plain(e) { PlainStarts(e, rest); }
  }

  /** What may stand behind an update. */
  predicate EndsUpdate(k: Token) { k == Comma || k == CloseRound }

  lemma {:induction false} NothingThere(k: Token, more: seq<Token>)
    requires EndsUpdate(k)
    ensures !ParseExpression([k] + more).Ok?
  {
    Infix.First(k, more);
    assert ApplyUnary([], []) == Stacks([], []);
  }

  lemma {:induction false} ReturnUpdate(ts: seq<Token>)
    requires Peek(ts) == Token.Return
    ensures ParseUpdate(ts) == ParseReturn(ts)
  {}

  lemma {:induction false} GiveUpdate(s: Stmt, k: Token, more: seq<Token>)
    requires s.Give? && PrintableStmt(s) && EndsUpdate(k)
    ensures Reads(ParseUpdate(PrintUpdate(s) + ([k] + more)), if EndsOpen(s) then None else RereadStmt(s), [k] + more)
  {
    var shown := if s.result.Some? then PrintExpr(s.result.value) else [];
    var last := shown + ([k] + more);
    assert PrintUpdate(s) + ([k] + more) == [Return] + last;
    Infix.First(Return, last);
    ReturnUpdate([Return] + last);
    if s.result.Some? {
      NotSemicolon(s.result.value, [k] + more);
      AloneReread(s.result.value, [k] + more);
    } else {
      assert last == [k] + more;
      NothingThere(k, more);
    }
  }

  lemma {:induction false} AssignmentUpdate(s: Stmt, k: Token, more: seq<Token>)
    requires s.Assignment? && PrintableStmt(s) && EndsUpdate(k)
    ensures Reads(ParseUpdate(PrintUpdate(s) + ([k] + more)), RereadStmt(s), [k] + more)
  {
    var last := PrintExpr(s.value) + ([k] + more);
    assert PrintUpdate(s) + ([k] + more) == PrintExpr(s.target) + ([Assign] + last) by {
      Infix.Around(PrintExpr(s.target), [Assign], PrintExpr(s.value), [k] + more);
    }
    Infix.First(Assign, last);
    Infix.First(k, more);
    TargetThen(s.target, Assign, last);
    AloneReread(s.value, [k] + more);
  }

  lemma {:induction false} InitUpdate(d: Datatype, x: string, init: Option<Expr>, k: Token, more: seq<Token>)
    requires (init.Some? ==> Printable(init.value)) && EndsUpdate(k)
    ensures var i := RereadOption(init);
      Reads(ParseInitializer(PrintInit(init) + ([k] + more), d, x),
            if init.Some? && i.Some? then Some(Declaration(d, x, i.value)) else None, [k] + more)
  {
    var last := PrintInit(init) + ([k] + more);
    Infix.First(k, more);
    if init.Some? {
      var tail := PrintExpr(init.value) + ([k] + more);
      assert last == [Assign] + tail;
      Infix.First(Assign, tail);
      AloneReread(init.value, [k] + more);
    } else {
      assert last == [k] + more;
    }
  }

  lemma {:induction false} DeclaredUpdate(d: Datatype, x: string, init: Option<Expr>, k: Token, more: seq<Token>)
    requires (init.Some? ==> Printable(init.value)) && EndsUpdate(k)
    ensures var i := RereadOption(init);
      Reads(ParseDeclaration(PrintDatatype(d) + ([Ident(x)] + (PrintInit(init) + ([k] + more)))),
            if init.Some? && i.Some? then Some(Declaration(RereadDatatype(d), x, i.value)) else None, [k] + more)
  {
    var last := PrintInit(init) + ([k] + more);
    DatatypeReread(d, [Ident(x)] + last);
    Infix.First(Ident(x), last);
    InitUpdate(RereadDatatype(d), x, init, k, more);
  }

  lemma {:induction false} DeclaringUpdate(ts: seq<Token>)
    requires Peek(ts) == Secret || Peek(ts).TypeName?
    ensures ParseUpdate(ts) == ParseDeclaration(ts)
  {}

  lemma {:induction false} DeclarationUpdate(s: Stmt, k: Token, more: seq<Token>)
    requires s.Declaration? && PrintableStmt(s) && EndsUpdate(k)
    ensures Reads(ParseUpdate(PrintUpdate(s) + ([k] + more)), if EndsOpen(s) then None else RereadStmt(s), [k] + more)
  {
    var last := [Ident(s.name)] + (PrintInit(s.init) + ([k] + more));
    Infix.Around(PrintDatatype(s.datatype_), [Ident(s.name)], PrintInit(s.init), [k] + more);
    DatatypeReread(s.datatype_, last);
    DeclaringUpdate(PrintDatatype(s.datatype_) + last);
    DeclaredUpdate(s.datatype_, s.name, s.init, k, more);
  }

  /** One statement at the end of a round. */
  lemma {:induction false} UpdateReread(s: Stmt, k: Token, more: seq<Token>)
    requires PrintableStmt(s) && EndsUpdate(k)
    ensures Reads(ParseUpdate(PrintUpdate(s) + ([k] + more)), if EndsOpen(s) then None else RereadStmt(s), [k] + more)
    decreases s, 3
  {
    match s
    case Give(_) => GiveUpdate(s, k, more);
    case Assignment(_, _) => AssignmentUpdate(s, k, more);
    case Declaration(_, _, _) => DeclarationUpdate(s, k, more);
    case _ =>
      Infix.First(k, more);
      NestedReread(s, [k] + more);
  }

  /** The statements of a loop header, as many as there are: the parser takes one at most. */
  function HeaderReread(ss: seq<Stmt>, fit: bool): Option<seq<Stmt>>
    requires PrintableBody(ss)
  {
    if |ss| <= 1 && fit then RereadBody(ss) else None
  }

  lemma {:induction false} OneReread(ss: seq<Stmt>)
    requires PrintableBody(ss) && |ss| == 1
    ensures RereadBody(ss) == if RereadStmt(ss[0]).Some? then Some([RereadStmt(ss[0]).value]) else None
  {
    assert ss[1..] == [] && RereadBody([]) == Some([]);
    if RereadStmt(ss[0]).Some? { assert [RereadStmt(ss[0]).value] + [] == [RereadStmt(ss[0]).value]; }
  }

  function ParseUpdateList(ts: seq<Token>): Outcome<seq<Stmt>>
  {
    if Peek(ts) == CloseRound then Ok([], ts) else ParseUpdates(ts, [])
  }

  lemma {:induction false} UpdatesReread(us: seq<Stmt>, more: seq<Token>)
    requires PrintableBody(us)
    ensures Reads(ParseUpdateList(PrintUpdates(us) + ([CloseRound] + more)), HeaderReread(us, UpdatesFit(us)), [CloseRound] + more)
    decreases us, 2
  {
    var ts := PrintUpdates(us) + ([CloseRound] + more);
    Infix.First(CloseRound, more);
    if us == [] {
      assert ts == [CloseRound] + more;
    } else {
      var k, tail := if |us| == 1 then CloseRound else Comma, if |us| == 1 then more else PrintUpdates(us[1..]) + ([CloseRound] + more);
      assert ts == PrintUpdate(us[0]) + ([k] + tail) by {
        if |us| > 1 { Infix.Around(PrintUpdate(us[0]), [Comma], PrintUpdates(us[1..]), [CloseRound] + more); }
      }
      Infix.First(k, tail);
      UpdateReread(us[0], k, tail);
      UpdateStarts(us[0], [k] + tail);
      Rejection.UpdatesExact(ts);
      if |us| == 1 { OneReread(us); }
    }
  }

  lemma {:induction false} UpdateStarts(s: Stmt, rest: seq<Token>)
    requires PrintableStmt(s)
    ensures Peek(PrintUpdate(s) + rest) != CloseRound
  {
    Infix.PeekFirst(PrintUpdate(s), rest);
    if s.Assignment? {
      PlainStarts(s.target, []);
      Infix.PeekFirst(PrintExpr(s.target), []);
    }
  }

  function ParseStartList(ts: seq<Token>): Outcome<seq<Stmt>>
  {
    if Peek(ts) == Semicolon then Ok([], ts[1..]) else ParseStart(ts, [])
  }

  lemma {:induction false} StartReread(ss: seq<Stmt>, more: seq<Token>)
    requires PrintableBody(ss) && Peek(more) != Else && Peek(more) != Comma
    ensures Reads(ParseStartList(PrintStart(ss) + more), HeaderReread(ss, true), more)
    decreases ss, 2
  {
    var ts := PrintStart(ss) + more;
    if ss == [] {
      Infix.First(Semicolon, more);
    } else {
      var tail := if |ss| == 1 then more else [Comma] + (PrintStart(ss[1..]) + more);
      assert ts == PrintStmt(ss[0]) + tail by {
        if |ss| > 1 { Infix.Around(PrintStmt(ss[0]), [Comma], PrintStart(ss[1..]), more); }
      }
      if |ss| > 1 { Infix.First(Comma, PrintStart(ss[1..]) + more); }
      StmtStarts(ss[0], tail);
      StmtReread(ss[0], tail);
      Rejection.StartExact(ts);
      if |ss| == 1 { OneReread(ss); }
    }
  }

  lemma {:induction false} ForSplit(start: seq<Token>, test: seq<Token>, update: seq<Token>, body: seq<Token>, rest: seq<Token>)
    ensures [For] + ([OpenRound] + (start + (test + ([Semicolon] + (update + ([CloseRound] + body)))))) + rest
         == [For] + ([OpenRound] + (start + (test + ([Semicolon] + (update + ([CloseRound] + (body + rest)))))))
  {
    Infix.Around(update, [CloseRound], body, rest);
    Infix.Around([Semicolon], update, [CloseRound] + body, rest);
    Infix.Around(test, [Semicolon], update + ([CloseRound] + body), rest);
    Infix.Around(start, test, [Semicolon] + (update + ([CloseRound] + body)), rest);
    Infix.Around([OpenRound], start, test + ([Semicolon] + (update + ([CloseRound] + body))), rest);
    Infix.Around([For], [OpenRound], start + (test + ([Semicolon] + (update + ([CloseRound] + body)))), rest);
  }

  lemma {:induction false} ForReread(s: Stmt, rest: seq<Token>)
    requires PrintableStmt(s) && s.ForLoop?
    ensures Reads(ParseFor(PrintStmt(s) + rest), RereadStmt(s), rest)
    decreases s, 1
  {
    var end := [CloseRound] + (PrintStmt(s.repeated) + rest);
    var third := PrintUpdates(s.update) + end;
    var second := PrintExpr(s.test) + ([Semicolon] + third);
    ForSplit(PrintStart(s.start), PrintExpr(s.test), PrintUpdates(s.update), PrintStmt(s.repeated), rest);
    Infix.First(For, [OpenRound] + (PrintStart(s.start) + second));
    Infix.First(OpenRound, PrintStart(s.start) + second);
    ExprStarts(s.test, [Semicolon] + third);
    StartReread(s.start, second);
    if HeaderReread(s.start, true).Some? { TestReread(s, HeaderReread(s.start, true).value, rest); }
  }

  lemma {:induction false} TestReread(s: Stmt, start: seq<Stmt>, rest: seq<Token>)
    requires PrintableStmt(s) && s.ForLoop? && HeaderReread(s.start, true) == Some(start)
    ensures Reads(ParseTest(PrintExpr(s.test) + ([Semicolon] + (PrintUpdates(s.update) + ([CloseRound] + (PrintStmt(s.repeated) + rest)))), start),
                  RereadStmt(s), rest)
    decreases s, 0
  {
    var end := PrintStmt(s.repeated) + rest;
    var third := PrintUpdates(s.update) + ([CloseRound] + end);
    Infix.First(Semicolon, third);
    Infix.First(CloseRound, end);
    AloneReread(s.test, [Semicolon] + third);
    UpdatesReread(s.update, end);
    BlockReread(s.repeated, rest);
  }

  // ---------------------------------------------------------------- functions

  /** One parameter; a comma behind it is taken. */
  lemma {:induction false} ParameterReread(p: Parameter, acc: seq<Parameter>, more: seq<Token>)
    ensures ParseParameters(PrintDatatype(p.datatype_) + ([Ident(p.name)] + more), acc)
         == ParseParameters(if Peek(more) == Comma then more[1..] else more, acc + [Parameter(RereadDatatype(p.datatype_), p.name)])
  {
    DatatypeReread(p.datatype_, [Ident(p.name)] + more);
    Infix.First(Ident(p.name), more);
  }

  lemma {:induction false} ParameterSplit(p: Parameter, more: seq<Token>)
    ensures PrintParameter(p) + more == PrintDatatype(p.datatype_) + ([Ident(p.name)] + more)
  {}

  lemma {:induction false} ParametersReread(ps: seq<Parameter>, acc: seq<Parameter>, more: seq<Token>)
    ensures ParseParameters(PrintParameters(ps) + ([CloseRound] + more), acc) == Ok(acc + RereadParameters(ps), more)
    decreases |ps|
  {
    var end := [CloseRound] + more;
    Infix.First(CloseRound, more);
    if ps == [] {
      assert PrintParameters(ps) + end == end && acc + RereadParameters(ps) == acc;
    } else {
      var p' := Parameter(RereadDatatype(ps[0].datatype_), ps[0].name);
      var tail := if |ps| == 1 then end else [Comma] + (PrintParameters(ps[1..]) + end);
      ParametersSplit(ps, end);
      ParameterSplit(ps[0], tail);
      ParameterReread(ps[0], acc, tail);
      if |ps| > 1 { Infix.First(Comma, PrintParameters(ps[1..]) + end); } else { assert PrintParameters(ps[1..]) + end == end; }
      ParametersReread(ps[1..], acc + [p'], more);
      ParametersNext(ps, acc);
    }
  }

  lemma {:induction false} ParametersSplit(ps: seq<Parameter>, end: seq<Token>)
    requires ps != []
    ensures PrintParameters(ps) + end == PrintParameter(ps[0]) + (if |ps| == 1 then end else [Comma] + (PrintParameters(ps[1..]) + end))
  {
    if |ps| > 1 { Infix.Around(PrintParameter(ps[0]), [Comma], PrintParameters(ps[1..]), end); }
  }

  lemma {:induction false} ParametersNext(ps: seq<Parameter>, acc: seq<Parameter>)
    requires ps != []
    ensures acc + RereadParameters(ps) == acc + [Parameter(RereadDatatype(ps[0].datatype_), ps[0].name)] + RereadParameters(ps[1..])
  {}

  lemma {:induction false} FunctionSplit(ds: seq<Token>, x: Token, ps: seq<Token>, body: seq<Token>, rest: seq<Token>)
    ensures [Public] + (ds + ([x] + ([OpenRound] + (ps + ([CloseRound] + body))))) + rest
         == [Public] + (ds + ([x] + ([OpenRound] + (ps + ([CloseRound] + (body + rest))))))
  {
    Infix.Around(ps, [CloseRound], body, rest);
    Infix.Around([OpenRound], ps, [CloseRound] + body, rest);
    Infix.Around([x], [OpenRound], ps + ([CloseRound] + body), rest);
    Infix.Around(ds, [x], [OpenRound] + (ps + ([CloseRound] + body)), rest);
    Infix.Around([Public], ds, [x] + ([OpenRound] + (ps + ([CloseRound] + body))), rest);
  }

  lemma {:induction false} SignatureReread(s: Stmt, d: Datatype, rest: seq<Token>)
    requires PrintableStmt(s) && s.Function? && d == RereadDatatype(s.returns_)
    ensures Reads(ParseSignature([OpenRound] + (PrintParameters(s.params) + ([CloseRound] + (PrintStmt(s.does) + rest))), d, s.called),
                  RereadStmt(s), rest)
    decreases s, 0
  {
    var end := PrintStmt(s.does) + rest;
    Infix.First(OpenRound, PrintParameters(s.params) + ([CloseRound] + end));
    ParametersReread(s.params, [], end);
    assert [] + RereadParameters(s.params) == RereadParameters(s.params);
    BlockReread(s.does, rest);
  }

  lemma {:induction false} FunctionReread(s: Stmt, rest: seq<Token>)
    requires PrintableStmt(s) && s.Function?
    ensures Reads(ParseFunction(PrintStmt(s) + rest), RereadStmt(s), rest)
    decreases s, 1
  {
    var signature := [OpenRound] + (PrintParameters(s.params) + ([CloseRound] + (PrintStmt(s.does) + rest)));
    FunctionSplit(PrintDatatype(s.returns_), Ident(s.called), PrintParameters(s.params), PrintStmt(s.does), rest);
    Infix.First(Public, PrintDatatype(s.returns_) + ([Ident(s.called)] + signature));
    NamedReread(s.returns_, s.called, signature);
    SignatureReread(s, RereadDatatype(s.returns_), rest);
  }

  lemma {:induction false} NamedReread(d: Datatype, x: string, more: seq<Token>)
    ensures var r := ParseDatatype(PrintDatatype(d) + ([Ident(x)] + more));
      r == Ok(RereadDatatype(d), [Ident(x)] + more) && Peek(r.rest) == Ident(x) && r.rest[0] == Ident(x) && r.rest[1..] == more
  {
    DatatypeReread(d, [Ident(x)] + more);
    Infix.First(Ident(x), more);
  }

  /** Parsing gives a printed statement back exactly when it is faithful. */
  lemma {:induction false} StmtRoundTripExact(s: Stmt, rest: seq<Token>)
    requires PrintableStmt(s) && Peek(rest) != Else
    ensures ParseStatement(PrintStmt(s) + rest) == Ok(s, rest) <==> FaithfulStmt(s)
  {
    StmtReread(s, rest);
    RereadStmtFaithful(s);
  }

  /** The parts of a loop come out where they stand: what it starts with, its test, the end of a round, its body. */
  lemma {:induction false} LoopTree(first: Stmt, test: Expr, last: Stmt, body: Stmt, rest: seq<Token>)
    requires PrintableStmt(first) && Printable(test) && PrintableStmt(last) && PrintableStmt(body) && body.Block?
    requires FaithfulStmt(first) && Faithful(test) && FaithfulStmt(last) && !EndsOpen(last) && FaithfulStmt(body) && Peek(rest) != Else
    ensures ParseStatement([For] + ([OpenRound] + (PrintStmt(first) + (PrintExpr(test) + ([Semicolon] +
                           (PrintUpdate(last) + ([CloseRound] + (PrintStmt(body) + rest))))))))
         == Ok(ForLoop([first], test, [last], body), rest)
  {
    var s := ForLoop([first], test, [last], body);
    SingleFaithful(first);
    SingleFaithful(last);
    StmtRoundTripExact(s, rest);
    LoopPrinted(first, test, last, body);
    ForSplit(PrintStmt(first), PrintExpr(test), PrintUpdate(last), PrintStmt(body), rest);
  }

  lemma {:induction false} SingleFaithful(s: Stmt)
    requires PrintableStmt(s) && FaithfulStmt(s)
    ensures PrintableBody([s]) && FaithfulBody([s])
  {
    assert [s][1..] == [];
  }

  lemma {:induction false} LoopPrinted(first: Stmt, test: Expr, last: Stmt, body: Stmt)
    requires PrintableBody([first]) && Printable(test) && PrintableBody([last]) && PrintableStmt(body) && body.Block?
    ensures PrintStmt(ForLoop([first], test, [last], body))
         == [For] + ([OpenRound] + (PrintStmt(first) + (PrintExpr(test) + ([Semicolon] + (PrintUpdate(last) + ([CloseRound] + PrintStmt(body)))))))
  {
    assert PrintStart([first]) == PrintStmt(first) && PrintUpdates([last]) == PrintUpdate(last);
  }

  // ---------------------------------------------------------------- branches without braces

  /** A statement without braces is a block of its own. */
  lemma {:induction false} BareBranch(s: Stmt, rest: seq<Token>)
    requires PrintableStmt(s) && !s.Block? && Peek(rest) != Else
    ensures Reads(ParseBranch(PrintStmt(s) + rest), if RereadStmt(s).Some? then Some(Block([RereadStmt(s).value])) else None, rest)
  {
    BareStarts(s, rest);
    StmtReread(s, rest);
  }

  lemma {:induction false} BareStarts(s: Stmt, rest: seq<Token>)
    requires PrintableStmt(s) && !s.Block?
    ensures Peek(PrintStmt(s) + rest) != OpenCurly
  {
    StmtStarts(s, rest);
    Infix.PeekFirst(PrintStmt(s), rest);
    if s.Assignment? {
      PlainStarts(s.target, []);
      Infix.PeekFirst(PrintExpr(s.target), []);
    }
  }

  function IfTokens(c: Expr, more: seq<Token>): seq<Token>
    requires Printable(c)
  {
    [If] + ([OpenRound] + (PrintExpr(c) + ([CloseRound] + more)))
  }

  lemma {:induction false} IfStarts(c: Expr, more: seq<Token>)
    requires Printable(c) && Faithful(c)
    ensures ParseStatement(IfTokens(c, more)) == ParseBranches(more, c)
    ensures ParseBranch(IfTokens(c, more)) == var s := ParseBranches(more, c); if s.Ok? then Ok(Block([s.value]), s.rest) else s
  {
    Infix.First(If, [OpenRound] + (PrintExpr(c) + ([CloseRound] + more)));
    ConditionReread(c, more);
    RereadFaithful(c);
    assert ParseIf(IfTokens(c, more)) == ParseBranches(more, c);
    IfIsStatement(IfTokens(c, more));
  }

  lemma {:induction false} IfIsStatement(ts: seq<Token>)
    requires Peek(ts) == If
    ensures ParseStatement(ts) == ParseIf(ts)
    ensures ParseBranch(ts) == var s := ParseIf(ts); if s.Ok? then Ok(Block([s.value]), s.rest) else s
  {}

  /** An else belongs to the nearest if. */
  lemma {:induction false} DanglingElse(c: Expr, d: Expr, s: Stmt, t: Stmt, rest: seq<Token>)
    requires Printable(c) && Printable(d) && Faithful(c) && Faithful(d) && Peek(rest) != Else
    requires PrintableStmt(s) && PrintableStmt(t) && s.Block? && t.Block? && FaithfulStmt(s) && FaithfulStmt(t)
    ensures ParseStatement(IfTokens(c, IfTokens(d, PrintStmt(s) + ([Else] + (PrintStmt(t) + rest)))))
         == Ok(Conditional(c, Block([Conditional(d, s, Some(t))]), None), rest)
  {
    var inner := PrintStmt(s) + ([Else] + (PrintStmt(t) + rest));
    IfStarts(c, IfTokens(d, inner));
    IfStarts(d, inner);
    NearestElse(d, s, t, rest);
    IfAlone(c, IfTokens(d, inner), Conditional(d, s, Some(t)), rest);
  }

  /** A branch that is a statement of its own, with no else behind it. */
  lemma {:induction false} IfAlone(c: Expr, ts: seq<Token>, s: Stmt, rest: seq<Token>)
    requires ParseBranch(ts) == Ok(Block([s]), rest) && Peek(rest) != Else
    ensures ParseBranches(ts, c) == Ok(Conditional(c, Block([s]), None), rest)
  {}

  lemma {:induction false} NearestElse(d: Expr, s: Stmt, t: Stmt, rest: seq<Token>)
    requires Printable(d) && Faithful(d) && Peek(rest) != Else
    requires PrintableStmt(s) && PrintableStmt(t) && s.Block? && t.Block? && FaithfulStmt(s) && FaithfulStmt(t)
    ensures ParseBranches(PrintStmt(s) + ([Else] + (PrintStmt(t) + rest)), d) == Ok(Conditional(d, s, Some(t)), rest)
  {
    var nearest := Conditional(d, s, Some(t));
    RereadStmtFaithful(nearest);
    RereadFaithful(d);
    assert PrintElse(Some(t)) + rest == [Else] + (PrintStmt(t) + rest);
    BranchesReread(nearest, d, rest);
  }

  // ---------------------------------------------------------------- declarations of arrays

  /** The brackets behind the name of an array leave no trace. */
  lemma {:induction false} BracketsForgotten(d: Datatype, x: string, init: Option<Expr>, rest: seq<Token>)
    requires init.Some? ==> Printable(init.value)
    ensures var last := PrintInit(init) + ([Semicolon] + rest);
      ParseDeclaration(PrintDatatype(d) + ([Ident(x)] + ([OpenSquare, CloseSquare] + last)))
      == ParseDeclaration(PrintDatatype(d) + ([Ident(x)] + last))
  {
    var last := PrintInit(init) + ([Semicolon] + rest);
    var boxed := [OpenSquare, CloseSquare] + last;
    NamedReread(d, x, last);
    NamedReread(d, x, boxed);
    assert boxed[1..][0] == CloseSquare && boxed[2..] == last;
    Infix.First(Semicolon, rest);
    if init.None? { assert last == [Semicolon] + rest; } else { assert last[0] == Assign; }
  }
}
