/** The text of a program: its pieces in order, and that none of them runs into the next. */
module Layout {
  import opened Syntax
  import opened Lexing
  import opened Texts
  import opened Parsing
  import opened Printing
  import opened Statements

  /** Names are identifiers and numbers fit a 32-bit integer. */
  predicate Named(e: Expr)
    decreases e, 0
  {
    match e
    case Number(n) => -0x8000_0000 < n < 0x8000_0000
    case Truth(_) => true
    case Text(_) => true
    case Variable(x) => Name(x)
    case IndexAccess(t, i) => Named(t) && Named(i)
    case Binary(l, _, r) => Named(l) && Named(r)
    case Unary(_, x) => Named(x)
    case List(xs) => NamedAll(xs)
    case RotateCall(x, k) => Named(x) && Named(k)
  }

  predicate NamedAll(xs: seq<Expr>)
    decreases xs, 1
  {
    xs == [] || (Named(xs[0]) && NamedAll(xs[1..]))
  }

  predicate Legible(e: Expr) { Printable(e) && Named(e) }

  // ---------------------------------------------------------------- pieces of an expression

  function Spaced(t: Token): seq<Piece> { [Spaces(1), Tok(t), Spaces(1)] }

  function ShowNumber(n: int): seq<Piece> { if n < 0 then [Tok(Op(Sub)), Tok(IntLit(-n))] else [Tok(IntLit(n))] }

  function ShowExpr(e: Expr): (ps: seq<Piece>)
    requires Legible(e)
    ensures ps != [] && AllSpellable(ps)
    decreases e, 0
  {
    match e
    case Number(n) => ShowNumber(n)
    case Truth(b) => [Tok(if b then True else False)]
    case Variable(x) => [Tok(Ident(x))]
    case IndexAccess(t, i) => ShowExpr(t) + ([Tok(OpenSquare)] + (ShowExpr(i) + [Tok(CloseSquare)]))
    case Binary(l, op, r) => [Tok(OpenRound)] + (ShowExpr(l) + (Spaced(Op(op)) + (ShowExpr(r) + [Tok(CloseRound)])))
    case Unary(u, x) => [Tok(Op(u))] + ShowExpr(x)
    case List(xs) => [Tok(OpenCurly)] + (ShowItems(xs) + [Tok(CloseCurly)])
    case RotateCall(x, k) =>
      [Tok(Rotate), Tok(OpenRound)] + (ShowExpr(x) + ([Tok(Comma), Spaces(1)] + (ShowExpr(k) + [Tok(CloseRound)])))
  }

  function ShowItems(xs: seq<Expr>): (ps: seq<Piece>)
    requires PrintableAll(xs) && NamedAll(xs)
    ensures AllSpellable(ps)
    decreases xs, 1
  {
    if xs == [] then []
    else if |xs| == 1 then ShowExpr(xs[0])
    else ShowExpr(xs[0]) + ([Tok(Comma), Spaces(1)] + ShowItems(xs[1..]))
  }

  lemma {:induction false} Regroup<T>(a: seq<T>, b: seq<T>, c: seq<T>)
    ensures a + b + c == a + (b + c)
  {}

  lemma {:induction false} TokensConcat(xs: seq<Piece>, ys: seq<Piece>)
    ensures Tokens(xs + ys) == Tokens(xs) + Tokens(ys)
  {
    if xs == [] {
      assert xs + ys == ys;
    } else {
      assert (xs + ys)[1..] == xs[1..] + ys;
      TokensConcat(xs[1..], ys);
      Regroup(TokenIn(xs[0]), Tokens(xs[1..]), Tokens(ys));
    }
  }

  lemma {:induction false} TokenOf(t: Token)
    ensures Tokens([Tok(t)]) == [t]
  {}

  /** Without the white space it is the printed token sequence. */
  lemma {:induction false} ShownTokens(e: Expr)
    requires Legible(e)
    ensures Tokens(ShowExpr(e)) == PrintExpr(e)
    decreases e, 0
  {
    match e
    case Number(n) => NumberTokens(n);
    case Truth(b) => TokenOf(if b then True else False);
    case Variable(x) => TokenOf(Ident(x));
    case IndexAccess(t, i) =>
      ShownTokens(t);
      ShownTokens(i);
      IndexTokens(ShowExpr(t), ShowExpr(i));
    case Binary(l, op, r) =>
      ShownTokens(l);
      ShownTokens(r);
      BinaryTokens(ShowExpr(l), op, ShowExpr(r));
    case Unary(u, x) =>
      ShownTokens(x);
      TokenOf(Op(u));
      TokensConcat([Tok(Op(u))], ShowExpr(x));
    case List(xs) =>
      ItemTokens(xs);
      Enclosed(OpenCurly, ShowItems(xs), CloseCurly);
    case RotateCall(x, k) =>
      ShownTokens(x);
      ShownTokens(k);
      RotateTokens(ShowExpr(x), ShowExpr(k));
  }

  lemma {:induction false} ItemTokens(xs: seq<Expr>)
    requires PrintableAll(xs) && NamedAll(xs)
    ensures Tokens(ShowItems(xs)) == PrintItems(xs)
    decreases xs, 1
  {
    if xs != [] {
      ShownTokens(xs[0]);
      if |xs| > 1 {
        ItemTokens(xs[1..]);
        TokensConcat(ShowExpr(xs[0]), [Tok(Comma), Spaces(1)] + ShowItems(xs[1..]));
        TokensConcat([Tok(Comma), Spaces(1)], ShowItems(xs[1..]));
        assert Tokens([Tok(Comma), Spaces(1)]) == [Comma] by { TokensConcat([Tok(Comma)], [Spaces(1)]); TokenOf(Comma); }
      }
    }
  }

  lemma {:induction false} NumberTokens(n: int)
    ensures Tokens(ShowNumber(n)) == PrintExpr(Number(n))
  {
    if n < 0 { TokensConcat([Tok(Op(Sub))], [Tok(IntLit(-n))]); } else { TokenOf(IntLit(n)); }
  }

  lemma {:induction false} Enclosed(a: Token, ps: seq<Piece>, b: Token)
    ensures Tokens([Tok(a)] + (ps + [Tok(b)])) == [a] + (Tokens(ps) + [b])
  {
    TokensConcat([Tok(a)], ps + [Tok(b)]);
    TokensConcat(ps, [Tok(b)]);
    TokenOf(a);
    TokenOf(b);
  }

  lemma {:induction false} IndexTokens(ts: seq<Piece>, ks: seq<Piece>)
    ensures Tokens(ts + ([Tok(OpenSquare)] + (ks + [Tok(CloseSquare)]))) == Tokens(ts) + ([OpenSquare] + (Tokens(ks) + [CloseSquare]))
  {
    TokensConcat(ts, [Tok(OpenSquare)] + (ks + [Tok(CloseSquare)]));
    Enclosed(OpenSquare, ks, CloseSquare);
  }

  lemma {:induction false} SpacedTokens(t: Token)
    ensures Tokens(Spaced(t)) == [t]
  {
    TokensConcat([Spaces(1)] + [Tok(t)], [Spaces(1)]);
    TokensConcat([Spaces(1)], [Tok(t)]);
    TokenOf(t);
  }

  lemma {:induction false} BinaryTokens(ls: seq<Piece>, op: Operator, rs: seq<Piece>)
    ensures Tokens([Tok(OpenRound)] + (ls + (Spaced(Op(op)) + (rs + [Tok(CloseRound)]))))
         == [OpenRound] + (Tokens(ls) + ([Op(op)] + (Tokens(rs) + [CloseRound])))
  {
    var close := rs + [Tok(CloseRound)];
    TokensConcat([Tok(OpenRound)], ls + (Spaced(Op(op)) + close));
    TokensConcat(ls, Spaced(Op(op)) + close);
    TokensConcat(Spaced(Op(op)), close);
    TokensConcat(rs, [Tok(CloseRound)]);
    SpacedTokens(Op(op));
    TokenOf(OpenRound);
    TokenOf(CloseRound);
  }

  lemma {:induction false} RotateTokens(xs: seq<Piece>, ks: seq<Piece>)
    ensures Tokens([Tok(Rotate), Tok(OpenRound)] + (xs + ([Tok(Comma), Spaces(1)] + (ks + [Tok(CloseRound)]))))
         == [Rotate] + ([OpenRound] + (Tokens(xs) + ([Comma] + (Tokens(ks) + [CloseRound]))))
  {
    var close := ks + [Tok(CloseRound)];
    var mid := [Tok(Comma), Spaces(1)] + close;
    TokensConcat([Tok(Rotate), Tok(OpenRound)], xs + mid);
    TokensConcat([Tok(Rotate)], [Tok(OpenRound)]);
    TokensConcat(xs, mid);
    TokensConcat([Tok(Comma), Spaces(1)], close);
    TokensConcat([Tok(Comma)], [Spaces(1)]);
    TokensConcat(ks, [Tok(CloseRound)]);
    TokenOf(Rotate);
    TokenOf(OpenRound);
    TokenOf(Comma);
    TokenOf(CloseRound);
  }

  // ---------------------------------------------------------------- no piece runs into the next

  /** The text of the pieces is read back as their tokens. */
  predicate Ready(ps: seq<Piece>) { AllSpellable(ps) && Separate(ps, END_OF_FILE) }

  function First(ps: seq<Piece>): char
    requires AllSpellable(ps)
  {
    At(Render(ps), 0)
  }

  /** Pieces whose text may stand right behind a word. */
  predicate ReadyEnd(ps: seq<Piece>) { Ready(ps) && EndsWord(First(ps)) }

  /** Characters an expression begins with. */
  predicate Opens(c: char) { KindOf(c) == Alphanum || c == '-' || c == '(' || c == '{' || c == '!' || c == '~' }

  predicate ReadyExpr(ps: seq<Piece>) { Ready(ps) && Opens(First(ps)) }

  lemma {:induction false} TokThen(t: Token, tail: seq<Piece>)
    requires Spellable(t) && Ready(tail) && Follows(t, First(tail))
    ensures Ready([Tok(t)] + tail) && Spelling(t) != [] && First([Tok(t)] + tail) == Spelling(t)[0]
  {
    var ps := [Tok(t)] + tail;
    assert ps[1..] == tail;
    if Wordlike(t) { SpelledWord(t, Render(tail)); } else { SpelledEntry(t); }
    assert Render(ps) == Spelling(t) + Render(tail);
  }

  lemma {:induction false} SpaceThen(tail: seq<Piece>)
    requires Ready(tail)
    ensures ReadyEnd([Spaces(1)] + tail) && First([Spaces(1)] + tail) == ' '
  {
    var ps := [Spaces(1)] + tail;
    assert ps[1..] == tail;
    assert Render(ps) == Blanks(1) + Render(tail);
  }

  lemma {:induction false} BlankThen(p: Piece, tail: seq<Piece>)
    requires Ready(tail) && !p.Tok?
    ensures Ready([p] + tail)
    ensures p.Newline? ==> ReadyEnd([p] + tail)
  {
    var ps := [p] + tail;
    assert ps[1..] == tail;
    assert Render(ps) == Shown(p) + Render(tail);
  }

  /** Brackets, commas and semicolons end a word, and anything may follow them. */
  predicate Mark(t: Token)
  {
    || t.OpenRound? || t.CloseRound? || t.OpenSquare? || t.CloseSquare? || t.OpenCurly? || t.CloseCurly? || t.Comma? || t.Semicolon?
  }

  lemma {:induction false} MarkThen(t: Token, tail: seq<Piece>)
    requires Mark(t) && Ready(tail)
    ensures ReadyEnd([Tok(t)] + tail)
    ensures t.OpenRound? || t.OpenCurly? ==> ReadyExpr([Tok(t)] + tail)
  {
    MarkSpelled(t);
    TokThen(t, tail);
  }

  lemma {:induction false} MarkSpelled(t: Token)
    requires Mark(t)
    ensures Spellable(t) && Spelling(t) != [] && EndsWord(Spelling(t)[0]) && forall c :: Follows(t, c)
    ensures t.OpenRound? || t.OpenCurly? ==> Opens(Spelling(t)[0])
  {}

  lemma {:induction false} SpacedThen(t: Token, tail: seq<Piece>)
    requires (t.Op? || t.Assign?) && Ready(tail)
    ensures ReadyEnd(Spaced(t) + tail)
  {
    SpaceThen(tail);
    TokThen(t, [Spaces(1)] + tail);
    SpaceThen([Tok(t)] + ([Spaces(1)] + tail));
    assert Spaced(t) + tail == [Spaces(1)] + ([Tok(t)] + ([Spaces(1)] + tail));
  }

  lemma {:induction false} CommaThen(tail: seq<Piece>)
    requires Ready(tail)
    ensures ReadyEnd([Tok(Comma), Spaces(1)] + tail)
  {
    SpaceThen(tail);
    MarkThen(Comma, [Spaces(1)] + tail);
    assert [Tok(Comma), Spaces(1)] + tail == [Tok(Comma)] + ([Spaces(1)] + tail);
  }

  lemma {:induction false} NumberReady(n: int, tail: seq<Piece>)
    requires Named(Number(n)) && ReadyEnd(tail)
    ensures ReadyExpr(ShowNumber(n) + tail)
  {
    var m: nat := if n < 0 then -n else n;
    DecimalDigits(m);
    TokThen(IntLit(m), tail);
    if n < 0 {
      TokThen(Op(Sub), [Tok(IntLit(m))] + tail);
      assert ShowNumber(n) + tail == [Tok(Op(Sub))] + ([Tok(IntLit(m))] + tail);
    }
  }

  lemma {:induction false} WordReady(t: Token, tail: seq<Piece>)
    requires Spellable(t) && Wordlike(t) && ReadyEnd(tail)
    ensures ReadyExpr([Tok(t)] + tail)
  {
    SpelledWord(t, Render(tail));
    TokThen(t, tail);
  }

  lemma {:induction false} PrefixReady(u: Operator, tail: seq<Piece>)
    requires IsUnary(u) && ReadyExpr(tail)
    ensures ReadyExpr([Tok(Op(u))] + tail)
  {
    TokThen(Op(u), tail);
  }

  /** Whatever text may stand behind a word may stand behind an expression. */
  lemma {:induction false} ExprReady(e: Expr, tail: seq<Piece>)
    requires Legible(e) && ReadyEnd(tail)
    ensures ReadyExpr(ShowExpr(e) + tail)
    decreases e, 1
  {
    match e
    case Number(n) => NumberReady(n, tail);
    case Truth(b) => WordReady(if b then True else False, tail);
    case Variable(x) => WordReady(Ident(x), tail);
    case IndexAccess(t, i) => IndexReady(e, tail);
    case Binary(l, op, r) => BinaryReady(e, tail);
    case Unary(u, x) =>
      ExprReady(x, tail);
      PrefixReady(u, ShowExpr(x) + tail);
      Regroup([Tok(Op(u))], ShowExpr(x), tail);
    case List(xs) => ListReady(e, tail);
    case RotateCall(x, k) => RotateReady(e, tail);
  }

  lemma {:induction false} IndexReady(e: Expr, tail: seq<Piece>)
    requires e.IndexAccess? && Legible(e) && ReadyEnd(tail)
    ensures ReadyExpr(ShowExpr(e) + tail)
    decreases e, 0
  {
    var ts, ks := ShowExpr(e.target), ShowExpr(e.index);
    MarkThen(CloseSquare, tail);
    ExprReady(e.index, [Tok(CloseSquare)] + tail);
    MarkThen(OpenSquare, ks + ([Tok(CloseSquare)] + tail));
    ExprReady(e.target, [Tok(OpenSquare)] + (ks + ([Tok(CloseSquare)] + tail)));
    Regroup(ks, [Tok(CloseSquare)], tail);
    Regroup([Tok(OpenSquare)], ks + [Tok(CloseSquare)], tail);
    Regroup(ts, [Tok(OpenSquare)] + (ks + [Tok(CloseSquare)]), tail);
  }

  lemma {:induction false} BinaryReady(e: Expr, tail: seq<Piece>)
    requires e.Binary? && Legible(e) && ReadyEnd(tail)
    ensures ReadyExpr(ShowExpr(e) + tail)
    decreases e, 0
  {
    var ls, ops, rs := ShowExpr(e.left), Spaced(Op(e.op)), ShowExpr(e.right);
    MarkThen(CloseRound, tail);
    ExprReady(e.right, [Tok(CloseRound)] + tail);
    SpacedThen(Op(e.op), rs + ([Tok(CloseRound)] + tail));
    ExprReady(e.left, ops + (rs + ([Tok(CloseRound)] + tail)));
    MarkThen(OpenRound, ls + (ops + (rs + ([Tok(CloseRound)] + tail))));
    Regroup(rs, [Tok(CloseRound)], tail);
    Regroup(ops, rs + [Tok(CloseRound)], tail);
    Regroup(ls, ops + (rs + [Tok(CloseRound)]), tail);
    Regroup([Tok(OpenRound)], ls + (ops + (rs + [Tok(CloseRound)])), tail);
  }

  lemma {:induction false} ListReady(e: Expr, tail: seq<Piece>)
    requires e.List? && Legible(e) && ReadyEnd(tail)
    ensures ReadyExpr(ShowExpr(e) + tail)
    decreases e, 0
  {
    var is_ := ShowItems(e.items);
    MarkThen(CloseCurly, tail);
    ItemsReady(e.items, [Tok(CloseCurly)] + tail);
    MarkThen(OpenCurly, is_ + ([Tok(CloseCurly)] + tail));
    Regroup(is_, [Tok(CloseCurly)], tail);
    Regroup([Tok(OpenCurly)], is_ + [Tok(CloseCurly)], tail);
  }

  lemma {:induction false} ItemsReady(xs: seq<Expr>, tail: seq<Piece>)
    requires PrintableAll(xs) && NamedAll(xs) && ReadyEnd(tail)
    ensures Ready(ShowItems(xs) + tail)
    decreases xs, 0
  {
    if xs == [] {
      assert ShowItems(xs) + tail == tail;
    } else if |xs| == 1 {
      ExprReady(xs[0], tail);
    } else {
      var more := ShowItems(xs[1..]);
      ItemsReady(xs[1..], tail);
      CommaThen(more + tail);
      ExprReady(xs[0], [Tok(Comma), Spaces(1)] + (more + tail));
      Regroup([Tok(Comma), Spaces(1)], more, tail);
      Regroup(ShowExpr(xs[0]), [Tok(Comma), Spaces(1)] + more, tail);
    }
  }

  lemma {:induction false} RotateReady(e: Expr, tail: seq<Piece>)
    requires e.RotateCall? && Legible(e) && ReadyEnd(tail)
    ensures ReadyExpr(ShowExpr(e) + tail)
    decreases e, 0
  {
    var xs, comma, ks, close := ShowExpr(e.x), [Tok(Comma), Spaces(1)], ShowExpr(e.offset), [Tok(CloseRound)];
    MarkThen(CloseRound, tail);
    ExprReady(e.offset, close + tail);
    CommaThen(ks + (close + tail));
    ExprReady(e.x, comma + (ks + (close + tail)));
    RotateHead(xs + (comma + (ks + (close + tail))));
    Regroup(ks, close, tail);
    Regroup(comma, ks + close, tail);
    Regroup(xs, comma + (ks + close), tail);
    Regroup([Tok(Rotate), Tok(OpenRound)], xs + (comma + (ks + close)), tail);
  }

  lemma {:induction false} RotateHead(tail: seq<Piece>)
    requires Ready(tail)
    ensures ReadyExpr([Tok(Rotate), Tok(OpenRound)] + tail)
  {
    MarkThen(OpenRound, tail);
    WordReady(Rotate, [Tok(OpenRound)] + tail);
    Regroup([Tok(Rotate)], [Tok(OpenRound)], tail);
  }

  // ---------------------------------------------------------------- statements

  predicate NamedStmt(s: Stmt)
    decreases s, 0
  {
    match s
    case Block(body) => NamedBody(body)
    case Conditional(c, t, e) => Named(c) && NamedStmt(t) && (e.Some? ==> NamedStmt(e.value))
    case Give(r) => r.Some? ==> Named(r.value)
    case Assignment(t, v) => Named(t) && Named(v)
    case Declaration(_, x, init) => Name(x) && (init.Some? ==> Named(init.value))
    case ForLoop(_, _, _, _) => false
    case Function(_, _, _, _) => false
  }

  predicate NamedBody(ss: seq<Stmt>)
    decreases ss, 1
  {
    ss == [] || (NamedStmt(ss[0]) && NamedBody(ss[1..]))
  }

  predicate LegibleStmt(s: Stmt) { PrintableStmt(s) && NamedStmt(s) }

  /** Two spaces for each level. */
  function Indent(level: nat): Piece { Spaces(2 * level) }

  function EndOfStatement(): seq<Piece> { [Tok(Semicolon), Newline] }

  function ShowResult(r: Option<Expr>): (ps: seq<Piece>)
    requires r.Some? ==> Legible(r.value)
    ensures AllSpellable(ps)
  {
    if r.Some? then [Spaces(1)] + ShowExpr(r.value) else []
  }

  function ShowInit(init: Option<Expr>): (ps: seq<Piece>)
    requires init.Some? ==> Legible(init.value)
    ensures AllSpellable(ps)
  {
    if init.Some? then Spaced(Assign) + ShowExpr(init.value) else []
  }

  function ShowDatatype(d: Datatype): (ps: seq<Piece>)
    ensures AllSpellable(ps)
  {
    if d.secret then [Tok(Secret), Spaces(1), Tok(TypeName(d.ty))] else [Tok(TypeName(d.ty))]
  }

  /** A statement that ends in a semicolon. */
  function ShowSimple(s: Stmt, level: nat): (ps: seq<Piece>)
    requires LegibleStmt(s) && !s.Block? && !s.Conditional?
    ensures AllSpellable(ps)
  {
    match s
    case Give(r) => [Indent(level), Tok(Return)] + (ShowResult(r) + EndOfStatement())
    case Assignment(t, v) => [Indent(level)] + (ShowExpr(t) + (Spaced(Assign) + (ShowExpr(v) + EndOfStatement())))
    case Declaration(d, x, init) => [Indent(level)] + ShowDeclaration(d, x, init)
  }

  function ShowDeclaration(d: Datatype, x: string, init: Option<Expr>): (ps: seq<Piece>)
    requires LegibleStmt(Declaration(d, x, init))
    ensures AllSpellable(ps)
  {
    ShowDatatype(d) + ([Spaces(1), Tok(Ident(x))] + (ShowInit(init) + EndOfStatement()))
  }

  function ShowStmt(s: Stmt, level: nat): (ps: seq<Piece>)
    requires LegibleStmt(s)
    ensures AllSpellable(ps)
    decreases s, 0
  {
    match s
    case Block(body) =>
      [Indent(level), Tok(OpenCurly), Newline] + (ShowBody(body, level + 1) + [Indent(level), Tok(CloseCurly), Newline])
    case Conditional(c, t, e) =>
      [Indent(level), Tok(If), Tok(OpenRound)]
        + (ShowExpr(c) + ([Tok(CloseRound), Newline] + (ShowStmt(t, level) + ShowElse(e, level))))
    case Give(_) => ShowSimple(s, level)
    case Assignment(_, _) => ShowSimple(s, level)
    case Declaration(_, _, _) => ShowSimple(s, level)
  }

  function ShowElse(e: Option<Stmt>, level: nat): (ps: seq<Piece>)
    requires e.Some? ==> LegibleStmt(e.value)
    ensures AllSpellable(ps)
    decreases e, 0
  {
    if e.Some? then [Indent(level), Tok(Else), Newline] + ShowStmt(e.value, level) else []
  }

  function ShowBody(ss: seq<Stmt>, level: nat): (ps: seq<Piece>)
    requires PrintableBody(ss) && NamedBody(ss)
    ensures AllSpellable(ps)
    decreases ss, 1
  {
    if ss == [] then [] else ShowStmt(ss[0], level) + ShowBody(ss[1..], level)
  }

  // ---------------------------------------------------------------- their tokens

  lemma {:induction false} BlankTokens(p: Piece, ps: seq<Piece>)
    requires !p.Tok?
    ensures Tokens([p] + ps) == Tokens(ps)
  {
    assert ([p] + ps)[1..] == ps;
    assert TokenIn(p) + Tokens(ps) == Tokens(ps);
  }

  lemma {:induction false} MoreTokens(t: Token, ps: seq<Piece>)
    ensures Tokens([Tok(t)] + ps) == [t] + Tokens(ps)
  {
    assert ([Tok(t)] + ps)[1..] == ps;
  }

  /** An indented token and what follows it on the line. */
  lemma {:induction false} LineTokens(level: nat, t: Token, ps: seq<Piece>)
    ensures Tokens([Indent(level), Tok(t)] + ps) == [t] + Tokens(ps)
  {
    assert [Indent(level), Tok(t)] + ps == [Indent(level)] + ([Tok(t)] + ps);
    BlankTokens(Indent(level), [Tok(t)] + ps);
    MoreTokens(t, ps);
  }

  lemma {:induction false} EndTokens()
    ensures Tokens(EndOfStatement()) == [Semicolon]
  {
    assert EndOfStatement() == [Tok(Semicolon)] + ([Newline] + []);
    MoreTokens(Semicolon, [Newline] + []);
    BlankTokens(Newline, []);
  }

  lemma {:induction false} GiveTokens(s: Stmt, level: nat)
    requires s.Give? && LegibleStmt(s)
    ensures Tokens(ShowStmt(s, level)) == PrintStmt(s)
  {
    LineTokens(level, Token.Return, ShowResult(s.result) + EndOfStatement());
    TokensConcat(ShowResult(s.result), EndOfStatement());
    EndTokens();
    if s.result.Some? {
      BlankTokens(Spaces(1), ShowExpr(s.result.value));
      ShownTokens(s.result.value);
    }
  }

  lemma {:induction false} AssignmentTokens(s: Stmt, level: nat)
    requires s.Assignment? && LegibleStmt(s)
    ensures Tokens(ShowStmt(s, level)) == PrintStmt(s)
  {
    var ts, vs := ShowExpr(s.target), ShowExpr(s.value);
    BlankTokens(Indent(level), ts + (Spaced(Assign) + (vs + EndOfStatement())));
    TokensConcat(ts, Spaced(Assign) + (vs + EndOfStatement()));
    TokensConcat(Spaced(Assign), vs + EndOfStatement());
    TokensConcat(vs, EndOfStatement());
    SpacedTokens(Assign);
    EndTokens();
    ShownTokens(s.target);
    ShownTokens(s.value);
  }

  lemma {:induction false} InitTokens(init: Option<Expr>)
    requires init.Some? ==> Legible(init.value)
    ensures Tokens(ShowInit(init)) == PrintInit(init)
  {
    if init.Some? {
      TokensConcat(Spaced(Assign), ShowExpr(init.value));
      SpacedTokens(Assign);
      ShownTokens(init.value);
    }
  }

  lemma {:induction false} DatatypeTokens(d: Datatype)
    ensures Tokens(ShowDatatype(d)) == PrintDatatype(d)
  {
    TokenOf(TypeName(d.ty));
    if d.secret {
      assert ShowDatatype(d) == [Tok(Secret)] + ([Spaces(1)] + [Tok(TypeName(d.ty))]);
      MoreTokens(Secret, [Spaces(1)] + [Tok(TypeName(d.ty))]);
      BlankTokens(Spaces(1), [Tok(TypeName(d.ty))]);
    }
  }

  lemma {:induction false} DeclarationPieces(level: nat, ds: seq<Piece>, x: string, is_: seq<Piece>)
    ensures Tokens([Indent(level)] + (ds + ([Spaces(1), Tok(Ident(x))] + (is_ + EndOfStatement()))))
         == Tokens(ds) + ([Ident(x)] + (Tokens(is_) + [Semicolon]))
  {
    var ends := is_ + EndOfStatement();
    var name := [Spaces(1), Tok(Ident(x))];
    BlankTokens(Indent(level), ds + (name + ends));
    TokensConcat(ds, name + ends);
    assert name + ends == [Spaces(1)] + ([Tok(Ident(x))] + ends);
    BlankTokens(Spaces(1), [Tok(Ident(x))] + ends);
    MoreTokens(Ident(x), ends);
    TokensConcat(is_, EndOfStatement());
    EndTokens();
  }

  lemma {:induction false} DeclarationTokens(s: Stmt, level: nat)
    requires s.Declaration? && LegibleStmt(s)
    ensures Tokens(ShowStmt(s, level)) == PrintStmt(s)
  {
    DatatypeTokens(s.datatype_);
    InitTokens(s.init);
    DeclarationPieces(level, ShowDatatype(s.datatype_), s.name, ShowInit(s.init));
  }

  /** Without the white space it is the printed token sequence. */
  lemma {:induction false} StmtTokens(s: Stmt, level: nat)
    requires LegibleStmt(s)
    ensures Tokens(ShowStmt(s, level)) == PrintStmt(s)
    decreases s, 1
  {
    match s
    case Block(body) => BlockTokens(s, level);
    case Conditional(c, t, e) => IfTokens(s, level);
    case Give(r) => GiveTokens(s, level);
    case Assignment(t, v) => AssignmentTokens(s, level);
    case Declaration(d, x, init) => DeclarationTokens(s, level);
  }

  lemma {:induction false} BlockTokens(s: Stmt, level: nat)
    requires s.Block? && LegibleStmt(s)
    ensures Tokens(ShowStmt(s, level)) == PrintStmt(s)
    decreases s, 0
  {
    var body, close := ShowBody(s.body, level + 1), [Indent(level), Tok(CloseCurly), Newline];
    assert [Indent(level), Tok(OpenCurly), Newline] + (body + close)
        == [Indent(level), Tok(OpenCurly)] + ([Newline] + (body + close));
    LineTokens(level, OpenCurly, [Newline] + (body + close));
    BlankTokens(Newline, body + close);
    TokensConcat(body, close);
    BodyTokens(s.body, level + 1);
    assert close == [Indent(level), Tok(CloseCurly)] + ([Newline] + []);
    LineTokens(level, CloseCurly, [Newline] + []);
    BlankTokens(Newline, []);
  }

  lemma {:induction false} BodyTokens(ss: seq<Stmt>, level: nat)
    requires PrintableBody(ss) && NamedBody(ss)
    ensures Tokens(ShowBody(ss, level)) == PrintBody(ss)
    decreases ss, 0
  {
    if ss != [] {
      StmtTokens(ss[0], level);
      BodyTokens(ss[1..], level);
      TokensConcat(ShowStmt(ss[0], level), ShowBody(ss[1..], level));
    }
  }

  lemma {:induction false} ElseTokens(e: Option<Stmt>, level: nat)
    requires e.Some? ==> LegibleStmt(e.value)
    ensures Tokens(ShowElse(e, level)) == PrintElse(e)
    decreases e, 0
  {
    if e.Some? {
      var body := ShowStmt(e.value, level);
      StmtTokens(e.value, level);
      assert [Indent(level), Tok(Else), Newline] + body == [Indent(level), Tok(Else)] + ([Newline] + body);
      LineTokens(level, Else, [Newline] + body);
      BlankTokens(Newline, body);
    }
  }

  lemma {:induction false} IfTokens(s: Stmt, level: nat)
    requires s.Conditional? && LegibleStmt(s)
    ensures Tokens(ShowStmt(s, level)) == PrintStmt(s)
    decreases s, 0
  {
    StmtTokens(s.then_, level);
    ElseTokens(s.else_, level);
    ShownTokens(s.condition);
    IfPieces(level, ShowExpr(s.condition), ShowStmt(s.then_, level), ShowElse(s.else_, level));
  }

  lemma {:induction false} IfPieces(level: nat, cs: seq<Piece>, ts: seq<Piece>, es: seq<Piece>)
    ensures Tokens([Indent(level), Tok(If), Tok(OpenRound)] + (cs + ([Tok(CloseRound), Newline] + (ts + es))))
         == [If] + ([OpenRound] + (Tokens(cs) + ([CloseRound] + (Tokens(ts) + Tokens(es)))))
  {
    var branches := [Tok(CloseRound), Newline] + (ts + es);
    assert [Indent(level), Tok(If), Tok(OpenRound)] + (cs + branches) == [Indent(level), Tok(If)] + ([Tok(OpenRound)] + (cs + branches));
    LineTokens(level, If, [Tok(OpenRound)] + (cs + branches));
    MoreTokens(OpenRound, cs + branches);
    TokensConcat(cs, branches);
    assert branches == [Tok(CloseRound)] + ([Newline] + (ts + es));
    MoreTokens(CloseRound, [Newline] + (ts + es));
    BlankTokens(Newline, ts + es);
    TokensConcat(ts, es);
  }

  // ---------------------------------------------------------------- no piece of a statement runs into the next

  lemma {:induction false} EndReady(tail: seq<Piece>)
    requires Ready(tail)
    ensures ReadyEnd(EndOfStatement() + tail)
  {
    BlankThen(Newline, tail);
    MarkThen(Semicolon, [Newline] + tail);
    Regroup([Tok(Semicolon)], [Newline], tail);
  }

  lemma {:induction false} ResultReady(r: Option<Expr>, tail: seq<Piece>)
    requires (r.Some? ==> Legible(r.value)) && ReadyEnd(tail)
    ensures ReadyEnd(ShowResult(r) + tail)
  {
    if r.Some? {
      ExprReady(r.value, tail);
      SpaceThen(ShowExpr(r.value) + tail);
      Regroup([Spaces(1)], ShowExpr(r.value), tail);
    } else {
      assert ShowResult(r) + tail == tail;
    }
  }

  lemma {:induction false} GiveReady(s: Stmt, level: nat, tail: seq<Piece>)
    requires s.Give? && LegibleStmt(s) && Ready(tail)
    ensures Ready(ShowStmt(s, level) + tail)
  {
    var rs, ends := ShowResult(s.result), EndOfStatement();
    EndReady(tail);
    ResultReady(s.result, ends + tail);
    WordReady(Token.Return, rs + (ends + tail));
    BlankThen(Indent(level), [Tok(Token.Return)] + (rs + (ends + tail)));
    Regroup(rs, ends, tail);
    Regroup([Indent(level), Tok(Token.Return)], rs + ends, tail);
    Regroup([Indent(level)], [Tok(Token.Return)], rs + (ends + tail));
    assert [Indent(level)] + [Tok(Token.Return)] == [Indent(level), Tok(Token.Return)];
  }

  lemma {:induction false} AssignmentReady(s: Stmt, level: nat, tail: seq<Piece>)
    requires s.Assignment? && LegibleStmt(s) && Ready(tail)
    ensures Ready(ShowStmt(s, level) + tail)
  {
    var ts, as_, vs, ends := ShowExpr(s.target), Spaced(Assign), ShowExpr(s.value), EndOfStatement();
    EndReady(tail);
    ExprReady(s.value, ends + tail);
    SpacedThen(Assign, vs + (ends + tail));
    ExprReady(s.target, as_ + (vs + (ends + tail)));
    BlankThen(Indent(level), ts + (as_ + (vs + (ends + tail))));
    Regroup(vs, ends, tail);
    Regroup(as_, vs + ends, tail);
    Regroup(ts, as_ + (vs + ends), tail);
    Regroup([Indent(level)], ts + (as_ + (vs + ends)), tail);
  }

  lemma {:induction false} InitReady(init: Option<Expr>, tail: seq<Piece>)
    requires (init.Some? ==> Legible(init.value)) && ReadyEnd(tail)
    ensures ReadyEnd(ShowInit(init) + tail)
  {
    if init.Some? {
      ExprReady(init.value, tail);
      SpacedThen(Assign, ShowExpr(init.value) + tail);
      Regroup(Spaced(Assign), ShowExpr(init.value), tail);
    } else {
      assert ShowInit(init) + tail == tail;
    }
  }

  lemma {:induction false} DatatypeReady(d: Datatype, tail: seq<Piece>)
    requires ReadyEnd(tail)
    ensures Ready(ShowDatatype(d) + tail)
  {
    WordReady(TypeName(d.ty), tail);
    if d.secret {
      SpaceThen([Tok(TypeName(d.ty))] + tail);
      WordReady(Secret, [Spaces(1)] + ([Tok(TypeName(d.ty))] + tail));
      assert ShowDatatype(d) + tail == [Tok(Secret)] + ([Spaces(1)] + ([Tok(TypeName(d.ty))] + tail));
    }
  }

  lemma {:induction false} DeclarationReady(s: Stmt, level: nat, tail: seq<Piece>)
    requires s.Declaration? && LegibleStmt(s) && Ready(tail)
    ensures Ready(ShowStmt(s, level) + tail)
  {
    var ds, name, is_, ends := ShowDatatype(s.datatype_), [Spaces(1), Tok(Ident(s.name))], ShowInit(s.init), EndOfStatement();
    var more := is_ + (ends + tail);
    EndReady(tail);
    InitReady(s.init, ends + tail);
    WordReady(Ident(s.name), more);
    SpaceThen([Tok(Ident(s.name))] + more);
    assert name + more == [Spaces(1)] + ([Tok(Ident(s.name))] + more);
    DatatypeReady(s.datatype_, name + more);
    BlankThen(Indent(level), ds + (name + more));
    Regroup(is_, ends, tail);
    Regroup(name, is_ + ends, tail);
    Regroup(ds, name + (is_ + ends), tail);
    Regroup([Indent(level)], ds + (name + (is_ + ends)), tail);
  }

  lemma {:induction false} StmtReady(s: Stmt, level: nat, tail: seq<Piece>)
    requires LegibleStmt(s) && Ready(tail)
    ensures Ready(ShowStmt(s, level) + tail)
    decreases s, 1
  {
    match s
    case Block(body) => BlockReady(s, level, tail);
    case Conditional(c, t, e) => IfReady(s, level, tail);
    case Give(r) => GiveReady(s, level, tail);
    case Assignment(t, v) => AssignmentReady(s, level, tail);
    case Declaration(d, x, init) => DeclarationReady(s, level, tail);
  }

  /** A mark on a line of its own. */
  lemma {:induction false} LineReady(level: nat, t: Token, tail: seq<Piece>)
    requires (Mark(t) || t.Else?) && Ready(tail)
    ensures Ready([Indent(level), Tok(t), Newline] + tail)
  {
    BlankThen(Newline, tail);
    TokThen(t, [Newline] + tail);
    BlankThen(Indent(level), [Tok(t)] + ([Newline] + tail));
    assert [Indent(level), Tok(t), Newline] + tail == [Indent(level)] + ([Tok(t)] + ([Newline] + tail));
  }

  lemma {:induction false} BlockReady(s: Stmt, level: nat, tail: seq<Piece>)
    requires s.Block? && LegibleStmt(s) && Ready(tail)
    ensures Ready(ShowStmt(s, level) + tail)
    decreases s, 0
  {
    var open, body, close := [Indent(level), Tok(OpenCurly), Newline], ShowBody(s.body, level + 1), [Indent(level), Tok(CloseCurly), Newline];
    LineReady(level, CloseCurly, tail);
    BodyReady(s.body, level + 1, close + tail);
    LineReady(level, OpenCurly, body + (close + tail));
    Regroup(body, close, tail);
    Regroup(open, body + close, tail);
  }

  lemma {:induction false} BodyReady(ss: seq<Stmt>, level: nat, tail: seq<Piece>)
    requires PrintableBody(ss) && NamedBody(ss) && Ready(tail)
    ensures Ready(ShowBody(ss, level) + tail)
    decreases ss, 0
  {
    if ss == [] {
      assert ShowBody(ss, level) + tail == tail;
    } else {
      BodyReady(ss[1..], level, tail);
      StmtReady(ss[0], level, ShowBody(ss[1..], level) + tail);
      Regroup(ShowStmt(ss[0], level), ShowBody(ss[1..], level), tail);
    }
  }

  lemma {:induction false} ElseReady(e: Option<Stmt>, level: nat, tail: seq<Piece>)
    requires (e.Some? ==> LegibleStmt(e.value)) && Ready(tail)
    ensures Ready(ShowElse(e, level) + tail)
    decreases e, 0
  {
    if e.Some? {
      var body := ShowStmt(e.value, level);
      StmtReady(e.value, level, tail);
      LineReady(level, Else, body + tail);
      Regroup([Indent(level), Tok(Else), Newline], body, tail);
    } else {
      assert ShowElse(e, level) + tail == tail;
    }
  }

  lemma {:induction false} IfReady(s: Stmt, level: nat, tail: seq<Piece>)
    requires s.Conditional? && LegibleStmt(s) && Ready(tail)
    ensures Ready(ShowStmt(s, level) + tail)
    decreases s, 0
  {
    var head, cs, close := [Indent(level), Tok(If), Tok(OpenRound)], ShowExpr(s.condition), [Tok(CloseRound), Newline];
    var ts, es := ShowStmt(s.then_, level), ShowElse(s.else_, level);
    ElseReady(s.else_, level, tail);
    StmtReady(s.then_, level, es + tail);
    CloseLine(ts + (es + tail));
    ExprReady(s.condition, close + (ts + (es + tail)));
    IfHead(level, cs + (close + (ts + (es + tail))));
    Regroup(ts, es, tail);
    Regroup(close, ts + es, tail);
    Regroup(cs, close + (ts + es), tail);
    Regroup(head, cs + (close + (ts + es)), tail);
  }

  lemma {:induction false} CloseLine(tail: seq<Piece>)
    requires Ready(tail)
    ensures ReadyEnd([Tok(CloseRound), Newline] + tail)
  {
    BlankThen(Newline, tail);
    MarkThen(CloseRound, [Newline] + tail);
    Regroup([Tok(CloseRound)], [Newline], tail);
  }

  lemma {:induction false} IfHead(level: nat, tail: seq<Piece>)
    requires Ready(tail)
    ensures Ready([Indent(level), Tok(If), Tok(OpenRound)] + tail)
  {
    MarkThen(OpenRound, tail);
    WordReady(If, [Tok(OpenRound)] + tail);
    BlankThen(Indent(level), [Tok(If)] + ([Tok(OpenRound)] + tail));
    assert [Indent(level), Tok(If), Tok(OpenRound)] + tail == [Indent(level)] + ([Tok(If)] + ([Tok(OpenRound)] + tail));
  }

  // ---------------------------------------------------------------- main results

  /** The tokenizer reads the printed text of a statement as exactly the tokens that were printed. */
  lemma {:induction false} LexPrinted(s: Stmt, level: nat)
    requires LegibleStmt(s)
    ensures Lex(OPERATORS, Render(ShowStmt(s, level))) == Some(Lexemes(PrintStmt(s)))
  {
    StmtTokens(s, level);
    StmtReady(s, level, []);
    assert ShowStmt(s, level) + [] == ShowStmt(s, level);
    LexRender(ShowStmt(s, level));
  }

  predicate AllKnown(ls: seq<Lexeme>) { forall i :: 0 <= i < |ls| ==> ls[i].Known? }

  /** The tokenizer and the parser one after the other. */
  function Read(text: string): Outcome<Stmt>
  {
    var ls := Lex(OPERATORS, text);
    if ls.Some? && AllKnown(ls.value) then
      ParseStatement(seq(|ls.value|, i requires 0 <= i < |ls.value| => ls.value[i].t))
    else
      Error
  }

  /** From a tree to its text and back: printing, tokenizing and parsing give a statement back exactly when
      it is faithful. */
  lemma {:induction false} TextRoundTrip(s: Stmt, level: nat)
    requires LegibleStmt(s)
    ensures Read(Render(ShowStmt(s, level))) == Ok(s, []) <==> FaithfulStmt(s)
  {
    var ts := PrintStmt(s);
    LexPrinted(s, level);
    assert seq(|ts|, i requires 0 <= i < |ts| => Lexemes(ts)[i].t) == ts;
    StmtRoundTripExact(s, []);
    assert PrintStmt(s) + [] == ts;
  }
}
