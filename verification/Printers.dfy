/** The printer in its own form: a visitor that appends to its output and keeps an indentation level. */
module Printers {
  import opened Syntax
  import opened Texts
  import opened Parsing
  import opened Printing
  import opened Statements
  import opened Layout

  lemma {:induction false} RenderMore(ps: seq<Piece>, p: Piece)
    requires AllSpellable(ps) && (p.Tok? ==> Spellable(p.t))
    ensures AllSpellable(ps + [p]) && Render(ps + [p]) == Render(ps) + Shown(p)
  {
    if ps == [] {
      assert ps + [p] == [p] && Render([p]) == Shown(p) + Render([]);
    } else {
      RenderMore(ps[1..], p);
      assert (ps + [p])[1..] == ps[1..] + [p];
      Regroup(Shown(ps[0]), Render(ps[1..]), Shown(p));
    }
  }

  lemma {:induction false} Three<T>(s: seq<T>, a: seq<T>, b: seq<T>, c: seq<T>)
    ensures s + a + b + c == s + (a + (b + c))
  {
    Regroup(s + a, b, c);
    Regroup(s, a, b + c);
  }

  lemma {:induction false} Four<T>(s: seq<T>, a: seq<T>, b: seq<T>, c: seq<T>, d: seq<T>)
    ensures s + a + b + c + d == s + (a + (b + (c + d)))
  {
    Three(s + a, b, c, d);
    Regroup(s, a, b + (c + d));
  }

  lemma {:induction false} Five<T>(s: seq<T>, a: seq<T>, b: seq<T>, c: seq<T>, d: seq<T>, e: seq<T>)
    ensures s + a + b + c + d + e == s + (a + (b + (c + (d + e))))
  {
    Four(s + a, b, c, d, e);
    Regroup(s, a, b + (c + (d + e)));
  }

  /** The items behind the first, each behind a comma. */
  function MoreItems(xs: seq<Expr>): seq<Piece>
    requires PrintableAll(xs) && NamedAll(xs)
  {
    if xs == [] then [] else [Tok(Comma), Spaces(1)] + ShowItems(xs)
  }

  lemma {:induction false} ItemsSplit(xs: seq<Expr>)
    requires PrintableAll(xs) && NamedAll(xs) && xs != []
    ensures ShowItems(xs) == ShowExpr(xs[0]) + MoreItems(xs[1..])
  {
    if |xs| == 1 { assert ShowExpr(xs[0]) + [] == ShowExpr(xs[0]); }
  }

  lemma {:induction false} ItemStep(s: seq<Piece>, xs: seq<Expr>)
    requires PrintableAll(xs) && NamedAll(xs) && xs != []
    ensures s + MoreItems(xs) == s + [Tok(Comma), Spaces(1)] + ShowExpr(xs[0]) + MoreItems(xs[1..])
  {
    ItemsSplit(xs);
    Three(s, [Tok(Comma), Spaces(1)], ShowExpr(xs[0]), MoreItems(xs[1..]));
  }

  class Printer {
    var os: string
    var level: nat

    /** What the output consists of. */
    ghost var pieces: seq<Piece>

    ghost predicate Valid()
      reads this
    {
      AllSpellable(pieces) && os == Render(pieces)
    }

    constructor ()
      ensures Valid() && pieces == [] && level == 0
    {
      os, level, pieces := [], 0, [];
    }

    method Put(p: Piece)
      requires Valid() && (p.Tok? ==> Spellable(p.t))
      modifies this`os, this`pieces
      ensures Valid() && pieces == old(pieces) + [p]
    {
      RenderMore(pieces, p);
      os, pieces := os + Shown(p), pieces + [p];
    }

    method Write(t: Token)
      requires Valid() && Spellable(t)
      modifies this`os, this`pieces
      ensures Valid() && pieces == old(pieces) + [Tok(t)]
    {
      Put(Tok(t));
    }

    /** A token between two spaces. */
    method WriteSpaced(t: Token)
      requires Valid() && Spellable(t)
      modifies this`os, this`pieces
      ensures Valid() && pieces == old(pieces) + Spaced(t)
    {
      Put(Spaces(1));
      Put(Tok(t));
      Put(Spaces(1));
      Three(old(pieces), [Spaces(1)], [Tok(t)], [Spaces(1)]);
      assert [Spaces(1)] + ([Tok(t)] + [Spaces(1)]) == Spaced(t);
    }

    method VisitExpr(e: Expr)
      requires Valid() && Legible(e)
      modifies this`os, this`pieces
      ensures Valid() && pieces == old(pieces) + ShowExpr(e)
      decreases e, 1
    {
      match e
      case Number(n) => VisitNumber(n);
      case Truth(b) => Write(if b then True else False);
      case Variable(x) => Write(Ident(x));
      case IndexAccess(t, i) => VisitIndexAccess(e);
      case Binary(l, op, r) => VisitBinary(e);
      case Unary(u, x) =>
        Write(Op(u));
        VisitExpr(x);
        Regroup(old(pieces), [Tok(Op(u))], ShowExpr(x));
      case List(xs) =>
        Write(OpenCurly);
        VisitItems(xs);
        Write(CloseCurly);
        Three(old(pieces), [Tok(OpenCurly)], ShowItems(xs), [Tok(CloseCurly)]);
      case RotateCall(x, k) => VisitCall(e);
    }

    method VisitNumber(n: int)
      requires Valid() && Named(Number(n))
      modifies this`os, this`pieces
      ensures Valid() && pieces == old(pieces) + ShowNumber(n)
    {
      if n < 0 {
        Write(Op(Sub));
        Write(IntLit(-n));
      } else {
        Write(IntLit(n));
      }
    }

    method VisitIndexAccess(e: Expr)
      requires Valid() && Legible(e) && e.IndexAccess?
      modifies this`os, this`pieces
      ensures Valid() && pieces == old(pieces) + ShowExpr(e)
      decreases e, 0
    {
      VisitExpr(e.target);
      Write(OpenSquare);
      VisitExpr(e.index);
      Write(CloseSquare);
      Four(old(pieces), ShowExpr(e.target), [Tok(OpenSquare)], ShowExpr(e.index), [Tok(CloseSquare)]);
    }

    method VisitBinary(e: Expr)
      requires Valid() && Legible(e) && e.Binary?
      modifies this`os, this`pieces
      ensures Valid() && pieces == old(pieces) + ShowExpr(e)
      decreases e, 0
    {
      Write(OpenRound);
      VisitExpr(e.left);
      WriteSpaced(Op(e.op));
      VisitExpr(e.right);
      Write(CloseRound);
      Five(old(pieces), [Tok(OpenRound)], ShowExpr(e.left), Spaced(Op(e.op)), ShowExpr(e.right), [Tok(CloseRound)]);
    }

    method VisitCall(e: Expr)
      requires Valid() && Legible(e) && e.RotateCall?
      modifies this`os, this`pieces
      ensures Valid() && pieces == old(pieces) + ShowExpr(e)
      decreases e, 0
    {
      Write(Rotate);
      Write(OpenRound);
      VisitExpr(e.x);
      WriteComma();
      VisitExpr(e.offset);
      Write(CloseRound);
      Regroup(old(pieces), [Tok(Rotate)], [Tok(OpenRound)]);
      assert [Tok(Rotate)] + [Tok(OpenRound)] == [Tok(Rotate), Tok(OpenRound)];
      Five(old(pieces), [Tok(Rotate), Tok(OpenRound)], ShowExpr(e.x), [Tok(Comma), Spaces(1)], ShowExpr(e.offset), [Tok(CloseRound)]);
    }

    method WriteComma()
      requires Valid()
      modifies this`os, this`pieces
      ensures Valid() && pieces == old(pieces) + [Tok(Comma), Spaces(1)]
    {
      Write(Comma);
      Put(Spaces(1));
    }

    /** The first item, then each further one behind a comma. */
    method VisitItems(xs: seq<Expr>)
      requires Valid() && PrintableAll(xs) && NamedAll(xs)
      modifies this`os, this`pieces
      ensures Valid() && pieces == old(pieces) + ShowItems(xs)
      decreases xs, 0
    {
      if xs == [] { return; }
      VisitExpr(xs[0]);
      ItemsSplit(xs);
      Regroup(old(pieces), ShowExpr(xs[0]), MoreItems(xs[1..]));
      for i := 1 to |xs|
        invariant Valid() && PrintableAll(xs[i..]) && NamedAll(xs[i..])
        invariant pieces + MoreItems(xs[i..]) == old(pieces) + ShowItems(xs)
      {
        ghost var before, ahead := pieces, xs[i..];
        assert ahead[0] == xs[i] && ahead[1..] == xs[i + 1..];
        WriteComma();
        VisitExpr(xs[i]);
        ItemStep(before, ahead);
      }
      assert xs[|xs|..] == [];
    }

    /** Two spaces for each level. */
    method WriteIndentation()
      requires Valid()
      modifies this`os, this`pieces
      ensures Valid() && pieces == old(pieces) + [Indent(level)]
    {
      Put(Indent(level));
    }

    /** One token on a line of its own. */
    method WriteLine(t: Token)
      requires Valid() && Spellable(t)
      modifies this`os, this`pieces
      ensures Valid() && pieces == old(pieces) + [Indent(level), Tok(t), Newline]
    {
      WriteIndentation();
      Write(t);
      Put(Newline);
    }

    method WriteEnd()
      requires Valid()
      modifies this`os, this`pieces
      ensures Valid() && pieces == old(pieces) + EndOfStatement()
    {
      Write(Semicolon);
      Put(Newline);
    }

    method VisitStmt(s: Stmt)
      requires Valid() && LegibleStmt(s)
      modifies this
      ensures Valid() && level == old(level) && pieces == old(pieces) + ShowStmt(s, level)
      decreases s, 1
    {
      match s
      case Block(_) => VisitBlock(s);
      case Conditional(_, _, _) => VisitIf(s);
      case Give(_) => VisitReturn(s);
      case Assignment(_, _) => VisitAssignment(s);
      case Declaration(_, _, _) => VisitDeclaration(s);
    }

    method VisitBlock(s: Stmt)
      requires Valid() && LegibleStmt(s) && s.Block?
      modifies this
      ensures Valid() && level == old(level) && pieces == old(pieces) + ShowStmt(s, level)
      decreases s, 0
    {
      ghost var head := [Indent(level), Tok(OpenCurly), Newline];
      ghost var foot := [Indent(level), Tok(CloseCurly), Newline];
      ghost var inner := ShowBody(s.body, level + 1);
      WriteLine(OpenCurly);
      level := level + 1;
      VisitBody(s.body);
      level := level - 1;
      assert pieces == old(pieces) + head + inner;
      WriteLine(CloseCurly);
      Three(old(pieces), head, inner, foot);
    }

    method VisitBody(ss: seq<Stmt>)
      requires Valid() && PrintableBody(ss) && NamedBody(ss)
      modifies this
      ensures Valid() && level == old(level) && pieces == old(pieces) + ShowBody(ss, level)
      decreases ss, 0
    {
      for i := 0 to |ss|
        invariant Valid() && level == old(level) && PrintableBody(ss[i..]) && NamedBody(ss[i..])
        invariant pieces + ShowBody(ss[i..], level) == old(pieces) + ShowBody(ss, level)
      {
        ghost var before, ahead := pieces, ss[i..];
        assert ahead[0] == ss[i] && ahead[1..] == ss[i + 1..];
        VisitStmt(ss[i]);
        Regroup(before, ShowStmt(ss[i], level), ShowBody(ahead[1..], level));
      }
      assert ss[|ss|..] == [];
    }

    method VisitIf(s: Stmt)
      requires Valid() && LegibleStmt(s) && s.Conditional?
      modifies this
      ensures Valid() && level == old(level) && pieces == old(pieces) + ShowStmt(s, level)
      decreases s, 0
    {
      ghost var head := [Indent(level), Tok(If), Tok(OpenRound)];
      ghost var close := [Tok(CloseRound), Newline];
      WriteIndentation();
      Write(If);
      Write(OpenRound);
      assert pieces == old(pieces) + head;
      VisitExpr(s.condition);
      Write(CloseRound);
      Put(Newline);
      assert pieces == old(pieces) + head + ShowExpr(s.condition) + close;
      VisitStmt(s.then_);
      VisitElse(s.else_);
      Five(old(pieces), head, ShowExpr(s.condition), close, ShowStmt(s.then_, level), ShowElse(s.else_, level));
    }

    method VisitElse(e: Option<Stmt>)
      requires Valid() && (e.Some? ==> LegibleStmt(e.value))
      modifies this
      ensures Valid() && level == old(level) && pieces == old(pieces) + ShowElse(e, level)
      decreases e, 0
    {
      if e.Some? {
        WriteLine(Else);
        VisitStmt(e.value);
        Regroup(old(pieces), [Indent(level), Tok(Else), Newline], ShowStmt(e.value, level));
      }
    }

    method VisitReturn(s: Stmt)
      requires Valid() && LegibleStmt(s) && s.Give?
      modifies this`os, this`pieces
      ensures Valid() && pieces == old(pieces) + ShowStmt(s, level)
    {
      WriteIndentation();
      Write(Token.Return);
      VisitResult(s.result);
      WriteEnd();
      Regroup(old(pieces), [Indent(level)], [Tok(Token.Return)]);
      assert [Indent(level)] + [Tok(Token.Return)] == [Indent(level), Tok(Token.Return)];
      Three(old(pieces), [Indent(level), Tok(Token.Return)], ShowResult(s.result), EndOfStatement());
    }

    method VisitResult(r: Option<Expr>)
      requires Valid() && (r.Some? ==> Legible(r.value))
      modifies this`os, this`pieces
      ensures Valid() && pieces == old(pieces) + ShowResult(r)
    {
      if r.Some? {
        Put(Spaces(1));
        VisitExpr(r.value);
        Regroup(old(pieces), [Spaces(1)], ShowExpr(r.value));
      }
    }

    method VisitAssignment(s: Stmt)
      requires Valid() && LegibleStmt(s) && s.Assignment?
      modifies this`os, this`pieces
      ensures Valid() && pieces == old(pieces) + ShowStmt(s, level)
    {
      WriteIndentation();
      VisitExpr(s.target);
      WriteSpaced(Assign);
      VisitExpr(s.value);
      WriteEnd();
      Five(old(pieces), [Indent(level)], ShowExpr(s.target), Spaced(Assign), ShowExpr(s.value), EndOfStatement());
    }

    method VisitDeclaration(s: Stmt)
      requires Valid() && LegibleStmt(s) && s.Declaration?
      modifies this`os, this`pieces
      ensures Valid() && pieces == old(pieces) + ShowStmt(s, level)
    {
      ghost var name := [Spaces(1), Tok(Ident(s.name))];
      WriteIndentation();
      VisitDatatype(s.datatype_);
      ghost var before := pieces;
      Put(Spaces(1));
      Write(Ident(s.name));
      assert pieces == before + name;
      if s.init.Some? {
        WriteSpaced(Assign);
        VisitExpr(s.init.value);
        Regroup(before + name, Spaced(Assign), ShowExpr(s.init.value));
      }
      assert pieces == before + name + ShowInit(s.init);
      WriteEnd();
      Five(old(pieces), [Indent(level)], ShowDatatype(s.datatype_), name, ShowInit(s.init), EndOfStatement());
    }

    method VisitDatatype(d: Datatype)
      requires Valid()
      modifies this`os, this`pieces
      ensures Valid() && pieces == old(pieces) + ShowDatatype(d)
    {
      if d.secret {
        Write(Secret);
        Put(Spaces(1));
      }
      Write(TypeName(d.ty));
    }
  }

  /** Prints a statement; reading its text gives the statement back exactly when it is faithful. */
  method Print(s: Stmt) returns (text: string)
    requires LegibleStmt(s)
    ensures text == Render(ShowStmt(s, 0))
    ensures Read(text) == Ok(s, []) <==> FaithfulStmt(s)
  {
    var p := new Printer();
    p.VisitStmt(s);
    assert p.pieces == ShowStmt(s, 0);
    TextRoundTrip(s, 0);
    text := p.os;
  }
}
