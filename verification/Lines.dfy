/** The printed text as a reader sees it: line by line, each line indented by two blanks for every open brace. */
module Lines {
  import opened Syntax
  import opened Lexing
  import opened Texts
  import opened Parsing
  import opened Printing
  import opened Statements
  import opened Layout

  /** A line at a depth. */
  datatype Line = Line(depth: nat, text: string)

  // ---------------------------------------------------------------- expressions

  function ExprText(e: Expr): string
    requires Legible(e)
    decreases e, 0
  {
    match e
    case Number(n) => if n < 0 then "-" + Decimal(-n) else Decimal(n)
    case Truth(b) => if b then "true" else "false"
    case Variable(x) => x
    case IndexAccess(t, i) => ExprText(t) + ("[" + (ExprText(i) + "]"))
    case Binary(l, op, r) => "(" + (ExprText(l) + (" " + (OperatorText(op) + (" " + (ExprText(r) + ")")))))
    case Unary(u, x) => OperatorText(u) + ExprText(x)
    case List(xs) => "{" + (ItemsText(xs) + "}")
    case RotateCall(x, k) => "rotate(" + (ExprText(x) + (", " + (ExprText(k) + ")")))
  }

  function ItemsText(xs: seq<Expr>): string
    requires PrintableAll(xs) && NamedAll(xs)
    decreases xs, 1
  {
    if xs == [] then [] else if |xs| == 1 then ExprText(xs[0]) else ExprText(xs[0]) + (", " + ItemsText(xs[1..]))
  }

  // ---------------------------------------------------------------- statements

  function InitText(init: Option<Expr>): string
    requires init.Some? ==> Legible(init.value)
  {
    if init.Some? then " = " + ExprText(init.value) else []
  }

  function ResultText(r: Option<Expr>): string
    requires r.Some? ==> Legible(r.value)
  {
    if r.Some? then " " + ExprText(r.value) else []
  }

  function DatatypeText(d: Datatype): string { if d.secret then "secret " + TypeText(d.ty) else TypeText(d.ty) }

  function LinesOf(s: Stmt, depth: nat): seq<Line>
    requires LegibleStmt(s)
    decreases s, 0
  {
    match s
    case Block(body) => [Line(depth, "{")] + (BodyLines(body, depth + 1) + [Line(depth, "}")])
    case Conditional(c, t, e) => [Line(depth, "if(" + (ExprText(c) + ")"))] + (LinesOf(t, depth) + ElseLines(e, depth))
    case Give(r) => [Line(depth, "return" + (ResultText(r) + ";"))]
    case Assignment(t, v) => [Line(depth, ExprText(t) + (" = " + (ExprText(v) + ";")))]
    case Declaration(d, x, init) => [Line(depth, DatatypeText(d) + (" " + (x + (InitText(init) + ";"))))]
  }

  function ElseLines(e: Option<Stmt>, depth: nat): seq<Line>
    requires e.Some? ==> LegibleStmt(e.value)
    decreases e, 0
  {
    if e.Some? then [Line(depth, "else")] + LinesOf(e.value, depth) else []
  }

  function BodyLines(ss: seq<Stmt>, depth: nat): seq<Line>
    requires PrintableBody(ss) && NamedBody(ss)
    decreases ss, 1
  {
    if ss == [] then [] else LinesOf(ss[0], depth) + BodyLines(ss[1..], depth)
  }

  /** Two blanks for each level, the line, and its end. */
  function Page(ls: seq<Line>): string
  {
    if ls == [] then [] else seq(2 * ls[0].depth, i => ' ') + (ls[0].text + ("\n" + Page(ls[1..])))
  }

  // ---------------------------------------------------------------- joining

  lemma {:induction false} RenderConcat(ps: seq<Piece>, qs: seq<Piece>)
    requires AllSpellable(ps) && AllSpellable(qs)
    ensures AllSpellable(ps + qs) && Render(ps + qs) == Render(ps) + Render(qs)
  {
    if ps == [] {
      assert ps + qs == qs;
    } else {
      assert (ps + qs)[1..] == ps[1..] + qs;
      RenderConcat(ps[1..], qs);
      Regroup(Shown(ps[0]), Render(ps[1..]), Render(qs));
    }
  }

  lemma {:induction false} RenderFour(a: seq<Piece>, b: seq<Piece>, c: seq<Piece>, d: seq<Piece>)
    requires AllSpellable(a) && AllSpellable(b) && AllSpellable(c) && AllSpellable(d)
    ensures AllSpellable(a + (b + (c + d))) && Render(a + (b + (c + d))) == Render(a) + (Render(b) + (Render(c) + Render(d)))
  {
    RenderConcat(c, d);
    RenderConcat(b, c + d);
    RenderConcat(a, b + (c + d));
  }

  lemma {:induction false} RenderFirst(p: Piece, qs: seq<Piece>)
    requires (p.Tok? ==> Spellable(p.t)) && AllSpellable(qs)
    ensures AllSpellable([p] + qs) && Render([p] + qs) == Shown(p) + Render(qs)
  {
    assert ([p] + qs)[1..] == qs;
  }

  lemma {:induction false} RenderOne(p: Piece)
    requires p.Tok? ==> Spellable(p.t)
    ensures Render([p]) == Shown(p)
  {
    assert [p] == [p] + [];
    RenderFirst(p, []);
  }

  lemma {:induction false} RenderTwo(p: Piece, q: Piece)
    requires (p.Tok? ==> Spellable(p.t)) && (q.Tok? ==> Spellable(q.t))
    ensures Render([p, q]) == Shown(p) + Shown(q)
  {
    assert [p, q] == [p] + [q];
    RenderFirst(p, [q]);
    RenderOne(q);
  }

  lemma {:induction false} OneBlank()
    ensures Blanks(1) == " "
  {}

  lemma {:induction false} SpacedText(t: Token)
    requires Spellable(t)
    ensures Render(Spaced(t)) == " " + (Spelling(t) + " ")
  {
    assert Spaced(t) == [Spaces(1)] + [Tok(t), Spaces(1)];
    RenderTwo(Tok(t), Spaces(1));
    RenderFirst(Spaces(1), [Tok(t), Spaces(1)]);
    OneBlank();
  }

  lemma {:induction false} AssignText()
    ensures AllSpellable(Spaced(Assign)) && Render(Spaced(Assign)) == " = "
  {
    SpacedText(Assign);
    assert " " + ("=" + " ") == " = ";
  }

  lemma {:induction false} CommaText()
    ensures Render([Tok(Comma), Spaces(1)]) == ", "
  {
    RenderTwo(Tok(Comma), Spaces(1));
    OneBlank();
  }

  lemma {:induction false} PageConcat(ls: seq<Line>, ms: seq<Line>)
    ensures Page(ls + ms) == Page(ls) + Page(ms)
  {
    if ls == [] {
      assert ls + ms == ms;
    } else {
      assert (ls + ms)[1..] == ls[1..] + ms;
      PageConcat(ls[1..], ms);
      var blanks := seq(2 * ls[0].depth, i => ' ');
      Regroup("\n", Page(ls[1..]), Page(ms));
      Regroup(ls[0].text, "\n" + Page(ls[1..]), Page(ms));
      Regroup(blanks, ls[0].text + ("\n" + Page(ls[1..])), Page(ms));
    }
  }

  lemma {:induction false} PageOne(depth: nat, text: string)
    ensures Page([Line(depth, text)]) == Blanks(2 * depth) + (text + "\n")
  {
    assert [Line(depth, text)][1..] == [];
    assert "\n" + Page([]) == "\n";
  }

  // ---------------------------------------------------------------- expressions as printed

  lemma {:induction false} ExprShown(e: Expr)
    requires Legible(e)
    ensures Render(ShowExpr(e)) == ExprText(e)
    decreases e, 1
  {
    match e
    case Number(n) => NumberShown(n);
    case Truth(b) => RenderOne(Tok(if b then True else False));
    case Variable(x) => RenderOne(Tok(Ident(x)));
    case IndexAccess(t, i) => IndexShown(e);
    case Binary(l, op, r) => BinaryShown(e);
    case Unary(u, x) =>
      ExprShown(x);
      RenderFirst(Tok(Op(u)), ShowExpr(x));
    case List(xs) =>
      ItemsShown(xs);
      Framed(OpenCurly, ShowItems(xs), CloseCurly);
    case RotateCall(x, k) => RotateShown(e);
  }

  lemma {:induction false} NumberShown(n: int)
    requires Named(Number(n))
    ensures Render(ShowNumber(n)) == if n < 0 then "-" + Decimal(-n) else Decimal(n)
  {
    if n < 0 { RenderTwo(Tok(Op(Sub)), Tok(IntLit(-n))); } else { RenderOne(Tok(IntLit(n))); }
  }

  /** Pieces between two tokens. */
  lemma {:induction false} Framed(a: Token, ps: seq<Piece>, b: Token)
    requires Spellable(a) && Spellable(b) && AllSpellable(ps)
    ensures AllSpellable([Tok(a)] + (ps + [Tok(b)])) && Render([Tok(a)] + (ps + [Tok(b)])) == Spelling(a) + (Render(ps) + Spelling(b))
  {
    RenderConcat(ps, [Tok(b)]);
    RenderFirst(Tok(a), ps + [Tok(b)]);
    RenderOne(Tok(b));
  }

  lemma {:induction false} IndexShown(e: Expr)
    requires e.IndexAccess? && Legible(e)
    ensures Render(ShowExpr(e)) == ExprText(e)
    decreases e, 0
  {
    ExprShown(e.target);
    ExprShown(e.index);
    Framed(OpenSquare, ShowExpr(e.index), CloseSquare);
    RenderConcat(ShowExpr(e.target), [Tok(OpenSquare)] + (ShowExpr(e.index) + [Tok(CloseSquare)]));
  }

  lemma {:induction false} BinaryShown(e: Expr)
    requires e.Binary? && Legible(e)
    ensures Render(ShowExpr(e)) == ExprText(e)
    decreases e, 0
  {
    var ls, ops, rs, close := ShowExpr(e.left), Spaced(Op(e.op)), ShowExpr(e.right), [Tok(CloseRound)];
    ExprShown(e.left);
    ExprShown(e.right);
    SpacedText(Op(e.op));
    RenderOne(Tok(CloseRound));
    RenderConcat(rs, close);
    RenderConcat(ops, rs + close);
    RenderConcat(ls, ops + (rs + close));
    RenderFirst(Tok(OpenRound), ls + (ops + (rs + close)));
    Regroup(" ", OperatorText(e.op) + " ", ExprText(e.right) + ")");
    Regroup(OperatorText(e.op), " ", ExprText(e.right) + ")");
  }

  lemma {:induction false} ItemsShown(xs: seq<Expr>)
    requires PrintableAll(xs) && NamedAll(xs)
    ensures Render(ShowItems(xs)) == ItemsText(xs)
    decreases xs, 0
  {
    if xs != [] {
      ExprShown(xs[0]);
      if |xs| > 1 {
        ItemsShown(xs[1..]);
        CommaText();
        RenderConcat([Tok(Comma), Spaces(1)], ShowItems(xs[1..]));
        RenderConcat(ShowExpr(xs[0]), [Tok(Comma), Spaces(1)] + ShowItems(xs[1..]));
      }
    }
  }

  lemma {:induction false} RotateShown(e: Expr)
    requires e.RotateCall? && Legible(e)
    ensures Render(ShowExpr(e)) == ExprText(e)
    decreases e, 0
  {
    ExprShown(e.x);
    ExprShown(e.offset);
    RotateRendered(ShowExpr(e.x), ShowExpr(e.offset));
  }

  lemma {:induction false} RotateRendered(xs: seq<Piece>, ks: seq<Piece>)
    requires AllSpellable(xs) && AllSpellable(ks)
    ensures Render([Tok(Rotate), Tok(OpenRound)] + (xs + ([Tok(Comma), Spaces(1)] + (ks + [Tok(CloseRound)]))))
         == "rotate(" + (Render(xs) + (", " + (Render(ks) + ")")))
  {
    var comma, close := [Tok(Comma), Spaces(1)], [Tok(CloseRound)];
    CommaText();
    RenderOne(Tok(CloseRound));
    RenderTwo(Tok(Rotate), Tok(OpenRound));
    RenderFour(xs, comma, ks, close);
    RenderConcat([Tok(Rotate), Tok(OpenRound)], xs + (comma + (ks + close)));
    assert "rotate" + "(" == "rotate(";
  }

  // ---------------------------------------------------------------- statements as printed

  lemma {:induction false} EndText()
    ensures Render(EndOfStatement()) == ";" + "\n"
  {
    RenderTwo(Tok(Semicolon), Newline);
  }

  /** A line of its own. */
  lemma {:induction false} LineText(depth: nat, ps: seq<Piece>, text: string)
    requires AllSpellable(ps) && Render(ps) == text + "\n"
    ensures AllSpellable([Indent(depth)] + ps) && Render([Indent(depth)] + ps) == Page([Line(depth, text)])
  {
    RenderFirst(Indent(depth), ps);
    PageOne(depth, text);
  }

  lemma {:induction false} GiveShown(s: Stmt, depth: nat)
    requires s.Give? && LegibleStmt(s)
    ensures Render(ShowStmt(s, depth)) == Page(LinesOf(s, depth))
  {
    var r := s.result;
    var ps := [Tok(Token.Return)] + (ShowResult(r) + EndOfStatement());
    EndText();
    ResultShown(r);
    RenderConcat(ShowResult(r), EndOfStatement());
    RenderFirst(Tok(Token.Return), ShowResult(r) + EndOfStatement());
    Regroup(ResultText(r), ";", "\n");
    Regroup("return", ResultText(r) + ";", "\n");
    LineText(depth, ps, "return" + (ResultText(r) + ";"));
    assert [Indent(depth), Tok(Token.Return)] + (ShowResult(r) + EndOfStatement()) == [Indent(depth)] + ps;
  }

  lemma {:induction false} ResultShown(r: Option<Expr>)
    requires r.Some? ==> Legible(r.value)
    ensures Render(ShowResult(r)) == ResultText(r)
  {
    if r.Some? {
      ExprShown(r.value);
      RenderFirst(Spaces(1), ShowExpr(r.value));
      OneBlank();
    }
  }

  lemma {:induction false} AssignmentShown(s: Stmt, depth: nat)
    requires s.Assignment? && LegibleStmt(s)
    ensures Render(ShowStmt(s, depth)) == Page(LinesOf(s, depth))
  {
    var ts, as_, vs, ends := ShowExpr(s.target), Spaced(Assign), ShowExpr(s.value), EndOfStatement();
    var t, v := ExprText(s.target), ExprText(s.value);
    EndText();
    AssignText();
    ExprShown(s.target);
    ExprShown(s.value);
    RenderFour(ts, as_, vs, ends);
    AssignmentLine(t, v);
    LineText(depth, ts + (as_ + (vs + ends)), t + (" = " + (v + ";")));
  }

  lemma {:induction false} AssignmentLine(t: string, v: string)
    ensures t + (" = " + (v + (";" + "\n"))) == t + (" = " + (v + ";")) + "\n"
  {
    Regroup(v, ";", "\n");
    Regroup(" = ", v + ";", "\n");
    Regroup(t, " = " + (v + ";"), "\n");
  }

  lemma {:induction false} DatatypeShown(d: Datatype)
    ensures Render(ShowDatatype(d)) == DatatypeText(d)
  {
    RenderOne(Tok(TypeName(d.ty)));
    if d.secret {
      assert ShowDatatype(d) == [Tok(Secret), Spaces(1)] + [Tok(TypeName(d.ty))];
      RenderTwo(Tok(Secret), Spaces(1));
      RenderConcat([Tok(Secret), Spaces(1)], [Tok(TypeName(d.ty))]);
      OneBlank();
      assert "secret" + " " == "secret ";
    }
  }

  lemma {:induction false} InitShown(init: Option<Expr>)
    requires init.Some? ==> Legible(init.value)
    ensures Render(ShowInit(init)) == InitText(init)
  {
    if init.Some? {
      ExprShown(init.value);
      AssignText();
      RenderConcat(Spaced(Assign), ShowExpr(init.value));
    }
  }

  lemma {:induction false} DeclarationShown(s: Stmt, depth: nat)
    requires s.Declaration? && LegibleStmt(s)
    ensures Render(ShowStmt(s, depth)) == Page(LinesOf(s, depth))
  {
    var ds, name, is_, ends := ShowDatatype(s.datatype_), [Spaces(1), Tok(Ident(s.name))], ShowInit(s.init), EndOfStatement();
    var d, i := DatatypeText(s.datatype_), InitText(s.init);
    EndText();
    DatatypeShown(s.datatype_);
    InitShown(s.init);
    RenderTwo(Spaces(1), Tok(Ident(s.name)));
    OneBlank();
    RenderConcat(is_, ends);
    RenderConcat(name, is_ + ends);
    RenderConcat(ds, name + (is_ + ends));
    DeclarationLine(d, s.name, i);
    LineText(depth, ds + (name + (is_ + ends)), d + (" " + (s.name + (i + ";"))));
  }

  lemma {:induction false} DeclarationLine(d: string, x: string, i: string)
    ensures d + ((" " + x) + (i + (";" + "\n"))) == d + (" " + (x + (i + ";"))) + "\n"
  {
    Regroup(i, ";", "\n");
    Regroup(" ", x, i + (";" + "\n"));
    Regroup(x, i + ";", "\n");
    Regroup(" ", x + (i + ";"), "\n");
    Regroup(d, " " + (x + (i + ";")), "\n");
  }

  /** A token on a line of its own. */
  lemma {:induction false} MarkLine(depth: nat, t: Token)
    requires Spellable(t)
    ensures AllSpellable([Indent(depth), Tok(t), Newline]) && Render([Indent(depth), Tok(t), Newline]) == Page([Line(depth, Spelling(t))])
  {
    RenderTwo(Tok(t), Newline);
    LineText(depth, [Tok(t), Newline], Spelling(t));
    assert [Indent(depth), Tok(t), Newline] == [Indent(depth)] + [Tok(t), Newline];
  }

  lemma {:induction false} BlockShown(s: Stmt, depth: nat)
    requires s.Block? && LegibleStmt(s)
    ensures Render(ShowStmt(s, depth)) == Page(LinesOf(s, depth))
    decreases s, 0
  {
    var open, body, close := [Indent(depth), Tok(OpenCurly), Newline], ShowBody(s.body, depth + 1), [Indent(depth), Tok(CloseCurly), Newline];
    MarkLine(depth, OpenCurly);
    MarkLine(depth, CloseCurly);
    BodyShown(s.body, depth + 1);
    RenderConcat(body, close);
    RenderConcat(open, body + close);
    PageConcat(BodyLines(s.body, depth + 1), [Line(depth, "}")]);
    PageConcat([Line(depth, "{")], BodyLines(s.body, depth + 1) + [Line(depth, "}")]);
  }

  lemma {:induction false} BodyShown(ss: seq<Stmt>, depth: nat)
    requires PrintableBody(ss) && NamedBody(ss)
    ensures Render(ShowBody(ss, depth)) == Page(BodyLines(ss, depth))
    decreases ss, 0
  {
    if ss != [] {
      StmtShown(ss[0], depth);
      BodyShown(ss[1..], depth);
      RenderConcat(ShowStmt(ss[0], depth), ShowBody(ss[1..], depth));
      PageConcat(LinesOf(ss[0], depth), BodyLines(ss[1..], depth));
    }
  }

  lemma {:induction false} ElseShown(e: Option<Stmt>, depth: nat)
    requires e.Some? ==> LegibleStmt(e.value)
    ensures Render(ShowElse(e, depth)) == Page(ElseLines(e, depth))
    decreases e, 0
  {
    if e.Some? {
      MarkLine(depth, Else);
      StmtShown(e.value, depth);
      RenderConcat([Indent(depth), Tok(Else), Newline], ShowStmt(e.value, depth));
      PageConcat([Line(depth, "else")], LinesOf(e.value, depth));
    }
  }

  lemma {:induction false} IfLine(c: Expr, depth: nat)
    requires Legible(c)
    ensures AllSpellable([Indent(depth), Tok(If), Tok(OpenRound)]) && AllSpellable([Tok(CloseRound), Newline])
    ensures var head, close := [Indent(depth), Tok(If), Tok(OpenRound)], [Tok(CloseRound), Newline];
      Render(head) + (ExprText(c) + Render(close)) == Page([Line(depth, "if(" + (ExprText(c) + ")"))])
  {
    var c' := ExprText(c);
    RenderTwo(Tok(CloseRound), Newline);
    RenderTwo(Tok(If), Tok(OpenRound));
    assert [Indent(depth), Tok(If), Tok(OpenRound)] == [Indent(depth)] + [Tok(If), Tok(OpenRound)];
    RenderFirst(Indent(depth), [Tok(If), Tok(OpenRound)]);
    PageOne(depth, "if(" + (c' + ")"));
    assert "if" + "(" == "if(";
    Regroup(c', ")", "\n");
    Regroup("if(", c' + ")", "\n");
    Regroup(Blanks(2 * depth), "if(", c' + (")" + "\n"));
  }

  lemma {:induction false} IfShown(s: Stmt, depth: nat)
    requires s.Conditional? && LegibleStmt(s)
    ensures Render(ShowStmt(s, depth)) == Page(LinesOf(s, depth))
    decreases s, 0
  {
    var head, cs, close := [Indent(depth), Tok(If), Tok(OpenRound)], ShowExpr(s.condition), [Tok(CloseRound), Newline];
    var ts, es := ShowStmt(s.then_, depth), ShowElse(s.else_, depth);
    StmtShown(s.then_, depth);
    ElseShown(s.else_, depth);
    ExprShown(s.condition);
    IfLine(s.condition, depth);
    RenderConcat(ts, es);
    RenderFour(head, cs, close, ts + es);
    IfPage(depth, Render(head), ExprText(s.condition), Render(close), LinesOf(s.then_, depth), ElseLines(s.else_, depth));
  }

  lemma {:induction false} IfPage(depth: nat, head: string, c: string, close: string, ts: seq<Line>, es: seq<Line>)
    requires head + (c + close) == Page([Line(depth, "if(" + (c + ")"))])
    ensures head + (c + (close + (Page(ts) + Page(es)))) == Page([Line(depth, "if(" + (c + ")"))] + (ts + es))
  {
    PageConcat(ts, es);
    PageConcat([Line(depth, "if(" + (c + ")"))], ts + es);
    Regroup(c, close, Page(ts + es));
    Regroup(head, c + close, Page(ts + es));
  }

  /** The text of a printed statement is its lines. */
  lemma {:induction false} StmtShown(s: Stmt, depth: nat)
    requires LegibleStmt(s)
    ensures Render(ShowStmt(s, depth)) == Page(LinesOf(s, depth))
    decreases s, 1
  {
    match s
    case Block(_) => BlockShown(s, depth);
    case Conditional(_, _, _) => IfShown(s, depth);
    case Give(_) => GiveShown(s, depth);
    case Assignment(_, _) => AssignmentShown(s, depth);
    case Declaration(_, _, _) => DeclarationShown(s, depth);
  }
}
