/** The statements the parser accepts: their tokens have one of the forms of the language, and the tree is the one
    this form stands for. */
module Forms {
  import opened Syntax
  import opened Parsing
  import opened Grammar
  import Rejection

  /** An expression and how it is written. */
  datatype Phrase = Phrase(e: Expr, parts: seq<Part>)

  /** A type as it is written. */
  datatype Kind = Kind(secret: bool, ty: Type)

  /** A parameter as it is written; a comma behind it is optional. */
  datatype Slot = Slot(kind: Kind, name: string, comma: bool)

  datatype Form =
    | BlockForm(body: seq<Form>)
    | IfForm(condition: Phrase, yes: Form, no: Option<Form>)
    | ReturnForm(result: Option<Phrase>)
    | AssignForm(target: Phrase, value: Phrase)
    | DeclareForm(kind: Kind, name: string, brackets: bool, init: Option<Phrase>)
    | LoopForm(start: Option<Form>, test: Phrase, update: Option<Form>, repeated: Form)
    | FunctionForm(returns_: Kind, called: string, slots: seq<Slot>, does: Form)

  predicate Short(f: Form) { f.ReturnForm? || f.AssignForm? || f.DeclareForm? }

  // ---------------------------------------------------------------- tokens

  function KindTokens(k: Kind): seq<Token> { if k.secret then [Secret, TypeName(k.ty)] else [TypeName(k.ty)] }

  function PhraseTokens(p: Phrase): seq<Token> { PartsTokens(p.parts) }

  function InitTokens(brackets: bool, init: Option<Phrase>): seq<Token>
  {
    (if brackets then [OpenSquare, CloseSquare] else []) + (if init.Some? then [Assign] + PhraseTokens(init.value) else [])
  }

  /** Without the semicolon. */
  function BareTokens(f: Form): seq<Token>
    requires Short(f)
  {
    match f
    case ReturnForm(r) => [Return] + (if r.Some? then PhraseTokens(r.value) else [])
    case AssignForm(t, v) => PhraseTokens(t) + ([Assign] + PhraseTokens(v))
    case DeclareForm(k, x, b, i) => KindTokens(k) + ([Ident(x)] + InitTokens(b, i))
  }

  function SlotTokens(s: Slot): seq<Token> { KindTokens(s.kind) + ([Ident(s.name)] + (if s.comma then [Comma] else [])) }

  function SlotsTokens(ss: seq<Slot>): seq<Token> { if ss == [] then [] else SlotTokens(ss[0]) + SlotsTokens(ss[1..]) }

  function FormTokens(f: Form): seq<Token>
    decreases f, 1
  {
    match f
    case BlockForm(body) => [OpenCurly] + (BodyTokens(body) + [CloseCurly])
    case IfForm(c, yes, no) => [If] + ([OpenRound] + (PhraseTokens(c) + ([CloseRound] + (FormTokens(yes) + ElseTokens(no)))))
    case LoopForm(start, test, update, body) =>
      [For] + ([OpenRound] + (StartTokens(start) + (PhraseTokens(test) + ([Semicolon] + (UpdateTokens(update) + ([CloseRound] + FormTokens(body)))))))
    case FunctionForm(k, x, ss, body) =>
      [Public] + (KindTokens(k) + ([Ident(x)] + ([OpenRound] + (SlotsTokens(ss) + ([CloseRound] + FormTokens(body))))))
    case _ => BareTokens(f) + [Semicolon]
  }

  function ElseTokens(no: Option<Form>): seq<Token>
    decreases no, 0
  {
    if no.Some? then [Else] + FormTokens(no.value) else []
  }

  function StartTokens(start: Option<Form>): seq<Token>
    decreases start, 0
  {
    if start.Some? then FormTokens(start.value) else [Semicolon]
  }

  function UpdateTokens(update: Option<Form>): seq<Token>
    decreases update, 0
  {
    if update.None? then [] else if Short(update.value) then BareTokens(update.value) else FormTokens(update.value)
  }

  function BodyTokens(fs: seq<Form>): seq<Token>
    decreases fs, 0
  {
    if fs == [] then [] else FormTokens(fs[0]) + BodyTokens(fs[1..])
  }

  // ---------------------------------------------------------------- trees

  function KindType(k: Kind): Datatype { Datatype(k.ty, k.secret && k.ty != Void) }

  function PhraseTree(p: Option<Phrase>): Option<Expr> { if p.Some? then Some(p.value.e) else None }

  function SlotTrees(ss: seq<Slot>): seq<Parameter>
  {
    if ss == [] then [] else [Parameter(KindType(ss[0].kind), ss[0].name)] + SlotTrees(ss[1..])
  }

  function FormTree(f: Form): Stmt
    decreases f, 1
  {
    match f
    case BlockForm(body) => Block(BodyTrees(body))
    case IfForm(c, yes, no) => Conditional(c.e, BranchTree(yes), if no.Some? then Some(BranchTree(no.value)) else None)
    case ReturnForm(r) => Give(PhraseTree(r))
    case AssignForm(t, v) => Assignment(t.e, v.e)
    case DeclareForm(k, x, _, i) => Declaration(KindType(k), x, PhraseTree(i))
    case LoopForm(start, test, update, body) => ForLoop(OptionTrees(start), test.e, OptionTrees(update), FormTree(body))
    case FunctionForm(k, x, ss, body) => Function(KindType(k), x, SlotTrees(ss), FormTree(body))
  }

  /** A branch without braces is a block of one statement. */
  function BranchTree(f: Form): Stmt
    decreases f, 2
  {
    if f.BlockForm? then FormTree(f) else Block([FormTree(f)])
  }

  function OptionTrees(f: Option<Form>): seq<Stmt>
    decreases f, 2
  {
    if f.Some? then [FormTree(f.value)] else []
  }

  function BodyTrees(fs: seq<Form>): seq<Stmt>
    decreases fs, 2
  {
    if fs == [] then [] else [FormTree(fs[0])] + BodyTrees(fs[1..])
  }

  // ---------------------------------------------------------------- proper forms

  /** The parts are those of an expression, and this is how it is read. */
  ghost predicate Phrased(p: Phrase)
  {
    Filled(p.parts) && exists rest :: ParseExpression(PartsTokens(p.parts) + rest) == Ok(p.e, rest)
  }

  ghost predicate Targeted(p: Phrase)
  {
    |p.parts| == 1 && p.parts[0].Name? && Filled(p.parts) && exists rest :: ParseTarget(PartsTokens(p.parts) + rest) == Ok(p.e, rest)
  }

  ghost predicate Proper(f: Form)
    decreases f, 1
  {
    match f
    case BlockForm(body) => ProperBody(body)
    case IfForm(c, yes, no) => Phrased(c) && Proper(yes) && (no.Some? ==> Proper(no.value))
    case ReturnForm(r) => r.Some? ==> Phrased(r.value)
    case AssignForm(t, v) => Targeted(t) && Phrased(v)
    case DeclareForm(_, _, _, i) => i.Some? ==> Phrased(i.value)
    case LoopForm(start, test, update, body) =>
      (start.Some? ==> Proper(start.value)) && Phrased(test) && (update.Some? ==> Proper(update.value)) && body.BlockForm? && Proper(body)
    case FunctionForm(_, _, _, body) => body.BlockForm? && Proper(body)
  }

  ghost predicate ProperBody(fs: seq<Form>)
    decreases fs, 2
  {
    fs == [] || (Proper(fs[0]) && ProperBody(fs[1..]))
  }

  /** The form accounts for the parse. */
  ghost predicate Accounts(f: Form, r: Outcome<Stmt>, ts: seq<Token>)
  {
    Proper(f) && r.Ok? && r.value == FormTree(f) && ts == FormTokens(f) + r.rest
  }

  ghost predicate AccountsBare(f: Form, r: Outcome<Stmt>, ts: seq<Token>)
  {
    Proper(f) && Short(f) && r.Ok? && r.value == FormTree(f) && ts == BareTokens(f) + r.rest
  }

  // ---------------------------------------------------------------- short statements

  lemma {:induction false} PhraseOf(ts: seq<Token>) returns (p: Phrase)
    requires ParseExpression(ts).Ok?
    ensures Phrased(p) && p.e == ParseExpression(ts).value && ts == PhraseTokens(p) + ParseExpression(ts).rest
  {
    var ps := ExpressionParts(ts);
    p := Phrase(ParseExpression(ts).value, ps);
  }

  lemma {:induction false} TargetOf(ts: seq<Token>) returns (p: Phrase)
    requires ParseTarget(ts).Ok?
    ensures Targeted(p) && p.e == ParseTarget(ts).value && ts == PhraseTokens(p) + ParseTarget(ts).rest
  {
    var n := NamePart(ts);
    p := Phrase(ParseTarget(ts).value, [n]);
    PartsFirst(n, []);
    assert [n] + [] == [n] && PartTokens(n) + [] == PartTokens(n);
    FilledFirst(n, []);
  }

  lemma {:induction false} KindOf(ts: seq<Token>) returns (k: Kind)
    requires ParseDatatype(ts).Ok?
    ensures ParseDatatype(ts).value == KindType(k) && ts == KindTokens(k) + ParseDatatype(ts).rest
  {
    if Peek(ts) == Secret {
      k := Kind(true, ts[1].ty);
      Taken(ts, Secret);
      Taken(ts[1..], ts[1]);
    } else {
      k := Kind(false, ts[0].ty);
      Taken(ts, ts[0]);
    }
  }

  lemma {:induction false} ReturnOf(ts: seq<Token>) returns (f: Form)
    requires ParseReturn(ts).Ok?
    ensures AccountsBare(f, ParseReturn(ts), ts)
  {
    var us, r := ts[1..], ParseReturn(ts);
    Taken(ts, Token.Return);
    if Peek(us) == Semicolon {
      f := ReturnForm(None);
      assert r == Ok(Give(None), us);
    } else {
      var p := PhraseOf(us);
      assert r == Ok(Give(Some(p.e)), ParseExpression(us).rest);
      f := ReturnGiven(p, ts, r);
    }
  }

  lemma {:induction false} ReturnGiven(p: Phrase, ts: seq<Token>, r: Outcome<Stmt>) returns (f: Form)
    requires Phrased(p) && r.Ok? && r.value == Give(Some(p.e)) && ts == [Return] + (PhraseTokens(p) + r.rest)
    ensures AccountsBare(f, r, ts)
  {
    f := ReturnForm(Some(p));
    Regroup([Return], PhraseTokens(p), r.rest);
  }

  lemma {:induction false} AssignOf(ts: seq<Token>) returns (f: Form)
    requires ParseAssignment(ts).Ok?
    ensures AccountsBare(f, ParseAssignment(ts), ts)
  {
    var t := ParseTarget(ts);
    var p := TargetOf(ts);
    Taken(t.rest, Assign);
    var v := PhraseOf(t.rest[1..]);
    f := AssignForm(p, v);
    var rest := ParseAssignment(ts).rest;
    Regroup([Assign], PhraseTokens(v), rest);
    Regroup(PhraseTokens(p), [Assign] + PhraseTokens(v), rest);
  }

  lemma {:induction false} InitOf(ts: seq<Token>, d: Datatype, x: string) returns (i: Option<Phrase>)
    requires ParseInitialValue(ts, d, x).Ok?
    ensures (i.Some? ==> Phrased(i.value)) && ParseInitialValue(ts, d, x).value == Declaration(d, x, PhraseTree(i))
    ensures ts == InitTokens(false, i) + ParseInitialValue(ts, d, x).rest
  {
    if Peek(ts) == Semicolon {
      i := None;
      assert InitTokens(false, None) == [];
    } else {
      InitStep(ts, d, x);
      var p := PhraseOf(ts[1..]);
      i := Some(p);
      InitGiven(p, ParseInitialValue(ts, d, x).rest);
    }
  }

  lemma {:induction false} InitStep(ts: seq<Token>, d: Datatype, x: string)
    requires ParseInitialValue(ts, d, x).Ok? && Peek(ts) != Semicolon
    ensures ts == [Assign] + ts[1..] && ParseExpression(ts[1..]).Ok?
    ensures var e := ParseExpression(ts[1..]); ParseInitialValue(ts, d, x) == Ok(Declaration(d, x, Some(e.value)), e.rest)
  {
    Taken(ts, Assign);
  }

  lemma {:induction false} InitGiven(p: Phrase, rest: seq<Token>)
    ensures [Assign] + (PhraseTokens(p) + rest) == InitTokens(false, Some(p)) + rest
  {
    assert InitTokens(false, Some(p)) == [Assign] + PhraseTokens(p);
  }

  lemma {:induction false} BracketStep(ts: seq<Token>, d: Datatype, x: string)
    requires ParseInitializer(ts, d, x).Ok?
    ensures if Peek(ts) != OpenSquare then ParseInitializer(ts, d, x) == ParseInitialValue(ts, d, x)
            else ts == [OpenSquare, CloseSquare] + ts[2..] && ParseInitializer(ts, d, x) == ParseInitialValue(ts[2..], d, x)
  {
    if Peek(ts) == OpenSquare {
      Taken(ts, OpenSquare);
      Taken(ts[1..], CloseSquare);
      assert ts == [OpenSquare] + ([CloseSquare] + ts[2..]);
    }
  }

  lemma {:induction false} Bracketed(i: Option<Phrase>, rest: seq<Token>)
    ensures [OpenSquare, CloseSquare] + (InitTokens(false, i) + rest) == InitTokens(true, i) + rest
  {
    assert InitTokens(true, i) == [OpenSquare, CloseSquare] + InitTokens(false, i);
  }

  lemma {:induction false} InitializerOf(ts: seq<Token>, d: Datatype, x: string) returns (b: bool, i: Option<Phrase>)
    requires ParseInitializer(ts, d, x).Ok?
    ensures (i.Some? ==> Phrased(i.value)) && ParseInitializer(ts, d, x).value == Declaration(d, x, PhraseTree(i))
    ensures ts == InitTokens(b, i) + ParseInitializer(ts, d, x).rest
  {
    BracketStep(ts, d, x);
    b := Peek(ts) == OpenSquare;
    i := InitOf(if b then ts[2..] else ts, d, x);
    if b { Bracketed(i, ParseInitializer(ts, d, x).rest); }
  }

  lemma {:induction false} DeclareOf(ts: seq<Token>) returns (f: Form)
    requires ParseDeclaration(ts).Ok?
    ensures AccountsBare(f, ParseDeclaration(ts), ts)
  {
    var d := ParseDatatype(ts);
    var k := KindOf(ts);
    Taken(d.rest, d.rest[0]);
    var b, i := InitializerOf(d.rest[1..], d.value, d.rest[0].name);
    f := DeclareForm(k, d.rest[0].name, b, i);
    DeclareTokens(k, d.rest[0].name, b, i, ParseDeclaration(ts).rest);
  }

  lemma {:induction false} DeclareTokens(k: Kind, x: string, b: bool, i: Option<Phrase>, rest: seq<Token>)
    ensures BareTokens(DeclareForm(k, x, b, i)) + rest == KindTokens(k) + ([Ident(x)] + (InitTokens(b, i) + rest))
  {
    Regroup([Ident(x)], InitTokens(b, i), rest);
    Regroup(KindTokens(k), [Ident(x)] + InitTokens(b, i), rest);
  }

  lemma {:induction false} BareOf(ts: seq<Token>) returns (f: Form)
    requires ParseBare(ts).Ok?
    ensures AccountsBare(f, ParseBare(ts), ts)
  {
    match Peek(ts)
    case Return => f := ReturnOf(ts);
    case Secret => f := DeclareOf(ts);
    case TypeName(_) => f := DeclareOf(ts);
    case _ => f := AssignOf(ts);
  }

  lemma {:induction false} SimpleOf(ts: seq<Token>) returns (f: Form)
    requires ParseSimple(ts).Ok?
    ensures Accounts(f, ParseSimple(ts), ts)
  {
    f := BareOf(ts);
    var r := ParseBare(ts);
    Taken(r.rest, Semicolon);
    Regroup(BareTokens(f), [Semicolon], r.rest[1..]);
  }

  // ---------------------------------------------------------------- statements with statements inside

  /** Whatever statement is returned, its tokens were of a proper form and it is the tree of this form. */
  lemma {:induction false} StatementForm(ts: seq<Token>) returns (f: Form)
    requires ParseStatement(ts).Ok?
    ensures Accounts(f, ParseStatement(ts), ts)
    decreases |ts|, 3
  {
    if Compound(Peek(ts)) { f := CompoundOf(ts); } else { f := SimpleOf(ts); }
  }

  lemma {:induction false} CompoundOf(ts: seq<Token>) returns (f: Form)
    requires Compound(Peek(ts)) && ParseCompound(ts).Ok?
    ensures Accounts(f, ParseCompound(ts), ts) && !Short(f)
    decreases |ts|, 2
  {
    match Peek(ts)
    case For => f := LoopOf(ts);
    case If => f := IfOf(ts);
    case OpenCurly => f := BlockOf(ts);
    case Public => f := FunctionOf(ts);
  }

  lemma {:induction false} BlockOf(ts: seq<Token>) returns (f: Form)
    requires ParseBlock(ts).Ok?
    ensures Accounts(f, ParseBlock(ts), ts) && f.BlockForm?
    decreases |ts|, 1
  {
    Taken(ts, OpenCurly);
    var fs := BodyOf(ts[1..], []);
    f := BlockForm(fs);
    assert [] + BodyTrees(fs) == BodyTrees(fs);
    var rest := ParseBlock(ts).rest;
    Regroup(BodyTokens(fs), [CloseCurly], rest);
    Regroup([OpenCurly], BodyTokens(fs) + [CloseCurly], rest);
  }

  lemma {:induction false} BodyOf(ts: seq<Token>, body: seq<Stmt>) returns (fs: seq<Form>)
    requires ParseBody(ts, body).Ok?
    ensures ProperBody(fs) && ParseBody(ts, body).value == Block(body + BodyTrees(fs))
    ensures ts == BodyTokens(fs) + ([CloseCurly] + ParseBody(ts, body).rest)
    decreases |ts|, 4
  {
    if Peek(ts) == CloseCurly {
      fs := [];
      Taken(ts, CloseCurly);
      assert body + [] == body;
    } else {
      var s := ParseStatement(ts);
      var f := StatementForm(ts);
      var more := BodyOf(s.rest, body + [s.value]);
      fs := [f] + more;
      assert fs[1..] == more;
      Regroup(body, [s.value], BodyTrees(more));
      Regroup(FormTokens(f), BodyTokens(more), [CloseCurly] + ParseBody(ts, body).rest);
    }
  }

  lemma {:induction false} BranchOf(ts: seq<Token>) returns (f: Form)
    requires ParseBranch(ts).Ok?
    ensures Proper(f) && ParseBranch(ts).value == BranchTree(f) && ts == FormTokens(f) + ParseBranch(ts).rest
    decreases |ts|, 4
  {
    if Peek(ts) == OpenCurly {
      f := BlockOf(ts);
    } else {
      f := StatementForm(ts);
      NotBlock(f, ts);
    }
  }

  lemma {:induction false} NotBlock(f: Form, ts: seq<Token>)
    requires Accounts(f, ParseStatement(ts), ts) && Peek(ts) != OpenCurly
    ensures !f.BlockForm?
  {
    BlockBegins(f, ParseStatement(ts).rest);
  }

  lemma {:induction false} BlockBegins(f: Form, rest: seq<Token>)
    ensures f.BlockForm? ==> Peek(FormTokens(f) + rest) == OpenCurly
  {}

  lemma {:induction false} ConditionOf(ts: seq<Token>) returns (c: Phrase)
    requires ParseCondition(ts).Ok?
    ensures Phrased(c) && ParseCondition(ts).value == c.e
    ensures ts == [OpenRound] + (PhraseTokens(c) + ([CloseRound] + ParseCondition(ts).rest))
  {
    Taken(ts, OpenRound);
    c := PhraseOf(ts[1..]);
    Taken(ParseExpression(ts[1..]).rest, CloseRound);
  }

  lemma {:induction false} BranchesOf(ts: seq<Token>, c: Phrase) returns (f: Form)
    requires ParseBranches(ts, c.e).Ok? && Phrased(c)
    ensures f.IfForm? && f.condition == c && Proper(f) && ParseBranches(ts, c.e).value == FormTree(f)
    ensures ts == FormTokens(f.yes) + (ElseTokens(f.no) + ParseBranches(ts, c.e).rest)
    decreases |ts|, 5
  {
    var t := ParseBranch(ts);
    var yes := BranchOf(ts);
    if Peek(t.rest) == Else {
      Taken(t.rest, Else);
      var n := BranchOf(t.rest[1..]);
      f := IfForm(c, yes, Some(n));
      Regroup([Else], FormTokens(n), ParseBranches(ts, c.e).rest);
    } else {
      f := IfForm(c, yes, None);
      assert ElseTokens(None) + t.rest == t.rest;
    }
  }

  lemma {:induction false} IfOf(ts: seq<Token>) returns (f: Form)
    requires ParseIf(ts).Ok?
    ensures Accounts(f, ParseIf(ts), ts) && f.IfForm?
    decreases |ts|, 1
  {
    Taken(ts, If);
    var c := ConditionOf(ts[1..]);
    f := BranchesOf(ParseCondition(ts[1..]).rest, c);
    IfTokens(c, f.yes, f.no, ParseIf(ts).rest);
  }

  lemma {:induction false} IfTokens(c: Phrase, yes: Form, no: Option<Form>, rest: seq<Token>)
    ensures FormTokens(IfForm(c, yes, no)) + rest
         == [If] + ([OpenRound] + (PhraseTokens(c) + ([CloseRound] + (FormTokens(yes) + (ElseTokens(no) + rest)))))
  {
    var ys, es := FormTokens(yes), ElseTokens(no);
    Regroup(ys, es, rest);
    Regroup([CloseRound], ys + es, rest);
    Regroup(PhraseTokens(c), [CloseRound] + (ys + es), rest);
    Regroup([OpenRound], PhraseTokens(c) + ([CloseRound] + (ys + es)), rest);
    Regroup([If], [OpenRound] + (PhraseTokens(c) + ([CloseRound] + (ys + es))), rest);
  }

  lemma {:induction false} StartOf(ts: seq<Token>) returns (f: Form)
    requires ParseStart(ts, []).Ok?
    ensures Proper(f) && ParseStart(ts, []).value == [FormTree(f)] && ts == FormTokens(f) + ParseStart(ts, []).rest
    decreases |ts|, 4
  {
    Rejection.StartExact(ts);
    f := StatementForm(ts);
  }

  lemma {:induction false} UpdateOf(ts: seq<Token>) returns (f: Form)
    requires ParseUpdates(ts, []).Ok?
    ensures Proper(f) && ParseUpdates(ts, []).value == [FormTree(f)] && ts == UpdateTokens(Some(f)) + ParseUpdates(ts, []).rest
    decreases |ts|, 4
  {
    Rejection.UpdatesExact(ts);
    if Compound(Peek(ts)) { f := CompoundOf(ts); } else { f := BareOf(ts); }
  }

  lemma {:induction false} LoopOf(ts: seq<Token>) returns (f: Form)
    requires ParseFor(ts).Ok?
    ensures Accounts(f, ParseFor(ts), ts) && f.LoopForm?
    decreases |ts|, 1
  {
    Taken(ts, For);
    Taken(ts[1..], OpenRound);
    var us := ts[2..];
    var start: Option<Form> := None;
    var ss := if Peek(us) == Semicolon then Ok([], us[1..]) else ParseStart(us, []);
    if Peek(us) == Semicolon {
      Taken(us, Semicolon);
    } else {
      var s := StartOf(us);
      start := Some(s);
    }
    f := TestOf(ss.rest, ss.value, start);
    LoopTokens(f, ParseFor(ts).rest);
  }

  function ParseUpdateList(ts: seq<Token>): Outcome<seq<Stmt>>
  {
    if Peek(ts) == CloseRound then Ok([], ts) else ParseUpdates(ts, [])
  }

  lemma {:induction false} UpdateListOf(ts: seq<Token>) returns (update: Option<Form>)
    requires ParseUpdateList(ts).Ok?
    ensures (update.Some? ==> Proper(update.value)) && ParseUpdateList(ts).value == OptionTrees(update)
    ensures ts == UpdateTokens(update) + ParseUpdateList(ts).rest
    decreases |ts|, 5
  {
    if Peek(ts) == CloseRound {
      update := None;
    } else {
      var u := UpdateOf(ts);
      update := Some(u);
    }
  }

  lemma {:induction false} RepeatedOf(ts: seq<Token>, start: Option<Form>, test: Phrase, update: Option<Form>) returns (f: Form)
    requires ParseRepeated(ts, OptionTrees(start), test.e, OptionTrees(update)).Ok?
    requires (start.Some? ==> Proper(start.value)) && Phrased(test) && (update.Some? ==> Proper(update.value))
    ensures var r := ParseRepeated(ts, OptionTrees(start), test.e, OptionTrees(update));
      && f.LoopForm? && f.start == start && f.test == test && f.update == update && Proper(f) && r.value == FormTree(f)
      && ts == [CloseRound] + (FormTokens(f.repeated) + r.rest)
    decreases |ts|, 5
  {
    Taken(ts, CloseRound);
    var b := BlockOf(ts[1..]);
    f := LoopForm(start, test, update, b);
  }

  lemma {:induction false} TestOf(ts: seq<Token>, ss: seq<Stmt>, start: Option<Form>) returns (f: Form)
    requires ParseTest(ts, ss).Ok? && ss == OptionTrees(start) && (start.Some? ==> Proper(start.value))
    ensures f.LoopForm? && f.start == start && Proper(f) && ParseTest(ts, ss).value == FormTree(f)
    ensures ts == PhraseTokens(f.test) + ([Semicolon] + (UpdateTokens(f.update) + ([CloseRound] + (FormTokens(f.repeated) + ParseTest(ts, ss).rest))))
    decreases |ts|, 6
  {
    var e := ParseExpression(ts);
    var test := PhraseOf(ts);
    Taken(e.rest, Semicolon);
    var us := e.rest[1..];
    var update := UpdateListOf(us);
    f := RepeatedOf(ParseUpdateList(us).rest, start, test, update);
  }

  lemma {:induction false} LoopTokens(f: Form, rest: seq<Token>)
    requires f.LoopForm?
    ensures FormTokens(f) + rest
         == [For] + ([OpenRound] + (StartTokens(f.start) + (PhraseTokens(f.test) + ([Semicolon]
              + (UpdateTokens(f.update) + ([CloseRound] + (FormTokens(f.repeated) + rest)))))))
  {
    var s, t, u, b := StartTokens(f.start), PhraseTokens(f.test), UpdateTokens(f.update), FormTokens(f.repeated);
    Regroup([CloseRound], b, rest);
    Regroup(u, [CloseRound] + b, rest);
    Regroup([Semicolon], u + ([CloseRound] + b), rest);
    Regroup(t, [Semicolon] + (u + ([CloseRound] + b)), rest);
    Regroup(s, t + ([Semicolon] + (u + ([CloseRound] + b))), rest);
    Regroup([OpenRound], s + (t + ([Semicolon] + (u + ([CloseRound] + b)))), rest);
    Regroup([For], [OpenRound] + (s + (t + ([Semicolon] + (u + ([CloseRound] + b))))), rest);
  }

  lemma {:induction false} SlotsOf(ts: seq<Token>, ps: seq<Parameter>) returns (ss: seq<Slot>)
    requires ParseParameters(ts, ps).Ok?
    ensures ParseParameters(ts, ps).value == ps + SlotTrees(ss)
    ensures ts == SlotsTokens(ss) + ([CloseRound] + ParseParameters(ts, ps).rest)
    decreases |ts|
  {
    var rest := ParseParameters(ts, ps).rest;
    if Peek(ts) == CloseRound {
      ss := [];
      Taken(ts, CloseRound);
      assert ps + [] == ps;
    } else {
      var d := ParseDatatype(ts);
      var k := KindOf(ts);
      var x := d.rest[0].name;
      Taken(d.rest, Ident(x));
      var us := d.rest[1..];
      var s := Slot(k, x, Peek(us) == Comma);
      if s.comma { Taken(us, Comma); }
      var more := SlotsOf(if s.comma then us[1..] else us, ps + [Parameter(d.value, x)]);
      ss := [s] + more;
      assert ss[1..] == more;
      Regroup(ps, [Parameter(d.value, x)], SlotTrees(more));
      FirstSlot(s, more, [CloseRound] + rest);
    }
  }

  lemma {:induction false} FirstSlot(s: Slot, more: seq<Slot>, end: seq<Token>)
    ensures SlotsTokens([s] + more) + end
         == KindTokens(s.kind) + ([Ident(s.name)] + (if s.comma then [Comma] + (SlotsTokens(more) + end) else SlotsTokens(more) + end))
  {
    var comma := if s.comma then [Comma] else [];
    assert ([s] + more)[1..] == more;
    Regroup(SlotTokens(s), SlotsTokens(more), end);
    Regroup(KindTokens(s.kind), [Ident(s.name)] + comma, SlotsTokens(more) + end);
    Regroup([Ident(s.name)], comma, SlotsTokens(more) + end);
    assert [] + (SlotsTokens(more) + end) == SlotsTokens(more) + end;
  }

  lemma {:induction false} SignatureOf(ts: seq<Token>, k: Kind, x: string) returns (f: Form)
    requires ParseSignature(ts, KindType(k), x).Ok?
    ensures f.FunctionForm? && f.returns_ == k && f.called == x && Proper(f) && ParseSignature(ts, KindType(k), x).value == FormTree(f)
    ensures ts == [OpenRound] + (SlotsTokens(f.slots) + ([CloseRound] + (FormTokens(f.does) + ParseSignature(ts, KindType(k), x).rest)))
    decreases |ts|, 5
  {
    Taken(ts, OpenRound);
    var ps := ParseParameters(ts[1..], []);
    var ss := SlotsOf(ts[1..], []);
    assert [] + SlotTrees(ss) == SlotTrees(ss);
    var b := BlockOf(ps.rest);
    f := FunctionForm(k, x, ss, b);
  }

  lemma {:induction false} FunctionOf(ts: seq<Token>) returns (f: Form)
    requires ParseFunction(ts).Ok?
    ensures Accounts(f, ParseFunction(ts), ts) && f.FunctionForm?
    decreases |ts|, 1
  {
    Taken(ts, Public);
    var d := ParseDatatype(ts[1..]);
    var k := KindOf(ts[1..]);
    var x := d.rest[0].name;
    Taken(d.rest, Ident(x));
    f := SignatureOf(d.rest[1..], k, x);
    FunctionTokens(f, ParseFunction(ts).rest);
  }

  lemma {:induction false} FunctionTokens(f: Form, rest: seq<Token>)
    requires f.FunctionForm?
    ensures FormTokens(f) + rest
         == [Public] + (KindTokens(f.returns_) + ([Ident(f.called)] + ([OpenRound] + (SlotsTokens(f.slots) + ([CloseRound] + (FormTokens(f.does) + rest))))))
  {
    var k, x, ss, b := KindTokens(f.returns_), [Ident(f.called)], SlotsTokens(f.slots), FormTokens(f.does);
    Regroup([CloseRound], b, rest);
    Regroup(ss, [CloseRound] + b, rest);
    Regroup([OpenRound], ss + ([CloseRound] + b), rest);
    Regroup(x, [OpenRound] + (ss + ([CloseRound] + b)), rest);
    Regroup(k, x + ([OpenRound] + (ss + ([CloseRound] + b))), rest);
    Regroup([Public], k + (x + ([OpenRound] + (ss + ([CloseRound] + b)))), rest);
  }
}
