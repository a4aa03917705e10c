/** The operators with their spelling, row by row, and how operators of two rows group. */
module Precedence {
  import opened Syntax
  import opened Parsing
  import opened Infix
  import opened Lexing
  import opened Texts
  import Spacing

  /** The binary operators, tightest first. */
  const ROWS: seq<seq<Operator>> :=
    [[Mul, FheMul, Div, Mod],
     [Add, FheAdd, Sub, FheSub],
     [Less, LessEq, Greater, GreaterEq],
     [Equal, NotEqual],
     [BitAnd],
     [BitXor],
     [BitOr],
     [And],
     [Or]]

  predicate InRow(i: nat, op: Operator) { i < |ROWS| && op in ROWS[i] }

  datatype Entry = Entry(text: string, op: Operator)

  const SPELLINGS: seq<Entry> :=
    [Entry("*", Mul), Entry("***", FheMul), Entry("/", Div), Entry("%", Mod), Entry("+", Add), Entry("+++", FheAdd),
     Entry("-", Sub), Entry("---", FheSub), Entry("<", Less), Entry("<=", LessEq), Entry(">", Greater),
     Entry(">=", GreaterEq), Entry("==", Equal), Entry("!=", NotEqual), Entry("&", BitAnd), Entry("^", BitXor),
     Entry("|", BitOr), Entry("&&", And), Entry("||", Or), Entry("!", Not), Entry("~", BitNot)]

  function RowOf(op: Operator): nat
    requires !IsUnary(op)
  {
    match op
    case Mul | FheMul | Div | Mod => 0
    case Add | FheAdd | Sub | FheSub => 1
    case Less | LessEq | Greater | GreaterEq => 2
    case Equal | NotEqual => 3
    case BitAnd => 4
    case BitXor => 5
    case BitOr => 6
    case And => 7
    case Or => 8
  }

  /** Every binary operator stands in one row, and no other operator in any. */
  lemma {:induction false} RowExact(i: nat, op: Operator)
    ensures InRow(i, op) <==> !IsUnary(op) && i == RowOf(op)
  {}

  /** Operators of one row are on one level, those of a row behind on a looser one. */
  lemma {:induction false} RowLevel(p: Operator, q: Operator)
    requires !IsUnary(p) && !IsUnary(q)
    ensures RowOf(p) <= RowOf(q) <==> Level(p) <= Level(q)
  {}

  lemma {:induction false} SpellingText(e: Entry)
    requires e in SPELLINGS
    ensures e.text == OperatorText(e.op) != []
  {}

  lemma {:induction false} SpellingRead(e: Entry)
    requires e in SPELLINGS
    ensures e.text != [] && e.text in OPERATORS && OperatorToken(e.text) == Known(Op(e.op))
  {
    SpellingText(e);
    OperatorEntry(e.op);
    OperatorMeaning(e.op);
  }

  // ---------------------------------------------------------------- trees by rows

  /** The left operand's operator comes from no row behind, the right operand's from a row before. */
  predicate RowsRespected(t: Tree)
    requires BinaryTree(t)
  {
    match t
    case Leaf(_) => true
    case Branch(l, op, r) =>
      && RowsRespected(l) && RowsRespected(r)
      && (l.Branch? ==> RowOf(l.op) <= RowOf(op))
      && (r.Branch? ==> RowOf(r.op) < RowOf(op))
  }

  predicate BinaryTree(t: Tree)
  {
    t.Leaf? || (!IsUnary(t.op) && BinaryTree(t.l) && BinaryTree(t.r))
  }

  lemma {:induction false} RespectsRows(t: Tree)
    requires BinaryTree(t)
    ensures Respects(t) <==> RowsRespected(t)
    decreases t
  {
    if t.Branch? {
      RespectsRows(t.l);
      RespectsRows(t.r);
      if t.l.Branch? { RowLevel(t.l.op, t.op); }
      if t.r.Branch? { RowLevel(t.op, t.r.op); }
    }
  }

  lemma {:induction false} OperatorsBinary(t: Tree)
    requires forall i :: 0 <= i < |Operators(t)| ==> !IsUnary(Operators(t)[i])
    ensures BinaryTree(t)
    decreases t
  {
    if t.Branch? {
      var l, r, ops := Operators(t.l), Operators(t.r), Operators(t);
      assert ops[|l|] == t.op;
      forall i | 0 <= i < |l| ensures !IsUnary(l[i]) { assert ops[i] == l[i]; }
      forall i | 0 <= i < |r| ensures !IsUnary(r[i]) { assert ops[|l| + 1 + i] == r[i]; }
      OperatorsBinary(t.l);
      OperatorsBinary(t.r);
    }
  }

  /** What the parser returns for an infix sequence is the one tree over its operands that groups by the rows. */
  lemma {:induction false} GroupsByRows(c: Chain, t: Tree, rest: seq<Token>)
    requires ShapedChain(c) && FineChain(c) && Stops(rest)
    requires Operands(t) == [AtomExpr(c.first)] + LinkExprs(c.links) && Operators(t) == LinkOps(c.links)
    requires BinaryTree(t) && RowsRespected(t)
    ensures ParseExpression(ChainTokens(c) + rest) == Ok(ToExpr(t), rest)
  {
    RespectsRows(t);
    ParsedUnique(t);
    ChainOk(c, rest);
  }

  /** And there always is such a tree. */
  lemma {:induction false} RowsTree(c: Chain) returns (t: Tree)
    requires ShapedChain(c)
    ensures Operands(t) == [AtomExpr(c.first)] + LinkExprs(c.links) && Operators(t) == LinkOps(c.links)
    ensures BinaryTree(t) && RowsRespected(t)
  {
    var es, ops := [AtomExpr(c.first)] + LinkExprs(c.links), LinkOps(c.links);
    t := Parsed(es, ops);
    ParsedFits(es, ops);
    LinksBinary(c.links);
    OperatorsBinary(t);
    RespectsRows(t);
  }

  lemma {:induction false} LinksBinary(ls: seq<Link>)
    requires forall i :: 0 <= i < |ls| ==> ShapedLink(ls[i])
    ensures forall i :: 0 <= i < |LinkOps(ls)| ==> !IsUnary(LinkOps(ls)[i])
  {
    if ls != [] {
      assert ShapedLink(ls[0]);
      LinksBinary(ls[1..]);
    }
  }

  // ---------------------------------------------------------------- three operands

  /** An operand that no prefix operator and no minus sign begins. */
  predicate Operand(a: Atom) { Shaped(a) && Fine(a) && Plain(a) }

  function Grouped(x: Expr, i: nat, p: Operator, y: Expr, j: nat, q: Operator, z: Expr): Expr
  {
    if i <= j then Binary(Binary(x, p, y), q, z) else Binary(x, p, Binary(y, q, z))
  }

  /** a p b q c is (a p b) q c unless p stands in a row behind q's; then it is a p (b q c). */
  lemma {:induction false} ThreeOperands(a: Atom, i: nat, p: Operator, b: Atom, j: nat, q: Operator, c: Atom, rest: seq<Token>)
    requires Shaped(a) && Fine(a) && Operand(b) && Operand(c) && InRow(i, p) && InRow(j, q) && Stops(rest)
    ensures ParseExpression(AtomTokens(a) + ([Op(p)] + (AtomTokens(b) + ([Op(q)] + (AtomTokens(c) + rest)))))
         == Ok(Grouped(AtomExpr(a), i, p, AtomExpr(b), j, q, AtomExpr(c)), rest)
  {
    RowExact(i, p);
    RowExact(j, q);
    GroupedThree(a, p, b, q, c, rest);
  }

  lemma {:induction false} GroupedThree(a: Atom, p: Operator, b: Atom, q: Operator, c: Atom, rest: seq<Token>)
    requires Shaped(a) && Fine(a) && Operand(b) && Operand(c) && !IsUnary(p) && !IsUnary(q) && Stops(rest)
    ensures ParseExpression(AtomTokens(a) + ([Op(p)] + (AtomTokens(b) + ([Op(q)] + (AtomTokens(c) + rest)))))
         == Ok(Grouped(AtomExpr(a), RowOf(p), p, AtomExpr(b), RowOf(q), q, AtomExpr(c)), rest)
  {
    var k := Chain(a, [Link(p, b), Link(q, c)]);
    TwoLinks(a, Link(p, b), Link(q, c), rest);
    var t := ThreeLeaves(AtomExpr(a), p, AtomExpr(b), q, AtomExpr(c));
    GroupsByRows(k, t, rest);
  }

  lemma {:induction false} ThreeLeaves(x: Expr, p: Operator, y: Expr, q: Operator, z: Expr) returns (t: Tree)
    requires !IsUnary(p) && !IsUnary(q)
    ensures Operands(t) == [x, y, z] == [x] + [y, z] && Operators(t) == [p, q] && BinaryTree(t) && RowsRespected(t)
    ensures ToExpr(t) == Grouped(x, RowOf(p), p, y, RowOf(q), q, z)
  {
    var a, b, c := Leaf(x), Leaf(y), Leaf(z);
    if RowOf(p) <= RowOf(q) {
      Joins(a, p, b);
      t := Branch(Branch(a, p, b), q, c);
      Joins(Branch(a, p, b), q, c);
    } else {
      Joins(b, q, c);
      t := Branch(a, p, Branch(b, q, c));
      Joins(a, p, Branch(b, q, c));
    }
  }

  lemma {:induction false} Joins(l: Tree, op: Operator, r: Tree)
    requires BinaryTree(l) && BinaryTree(r) && RowsRespected(l) && RowsRespected(r) && !IsUnary(op)
    requires (l.Branch? ==> RowOf(l.op) <= RowOf(op)) && (r.Branch? ==> RowOf(r.op) < RowOf(op))
    ensures var t := Branch(l, op, r);
      && BinaryTree(t) && RowsRespected(t) && ToExpr(t) == Binary(ToExpr(l), op, ToExpr(r))
      && Operands(t) == Operands(l) + Operands(r) && Operators(t) == Operators(l) + [op] + Operators(r)
  {}

  lemma {:induction false} TwoLinks(a: Atom, l: Link, m: Link, rest: seq<Token>)
    ensures ChainTokens(Chain(a, [l, m])) + rest
         == AtomTokens(a) + ([Op(l.op)] + (AtomTokens(l.atom) + ([Op(m.op)] + (AtomTokens(m.atom) + rest))))
    ensures LinkOps([l, m]) == [l.op, m.op] && LinkExprs([l, m]) == [AtomExpr(l.atom), AtomExpr(m.atom)]
  {
    assert [l, m][1..] == [m] && [m][1..] == [];
    assert LinkTokens([m]) == [Op(m.op)] + (AtomTokens(m.atom) + []);
    assert LinkTokens([l, m]) == [Op(l.op)] + (AtomTokens(l.atom) + LinkTokens([m]));
    TwoExprs(l, m);
  }

  lemma {:induction false} TwoExprs(l: Link, m: Link)
    ensures LinkOps([l, m]) == [l.op, m.op] && LinkExprs([l, m]) == [AtomExpr(l.atom), AtomExpr(m.atom)]
  {
    assert [l, m][1..] == [m] && [m][1..] == [];
    assert LinkExprs([m]) == [AtomExpr(m.atom)];
  }

  // ---------------------------------------------------------------- as text

  function ThreeTokens(x: string, p: Operator, y: string, q: Operator, z: string): seq<Token>
  {
    [Ident(x), Op(p), Ident(y), Op(q), Ident(z)]
  }

  /** From the text of three names under two operators to the tree. */
  lemma {:induction false} TextGroups(x: string, i: nat, p: Entry, y: string, j: nat, q: Entry, z: string)
    requires Name(x) && Name(y) && Name(z) && p in SPELLINGS && q in SPELLINGS && InRow(i, p.op) && InRow(j, q.op)
    ensures var ts := ThreeTokens(x, p.op, y, q.op, z);
      && Lex(OPERATORS, x + " " + p.text + " " + y + " " + q.text + " " + z + " ") == Some(Lexemes(ts))
      && ParseExpression(ts) == Ok(Grouped(Variable(x), i, p.op, Variable(y), j, q.op, Variable(z)), [])
  {
    SpellingRead(p);
    SpellingRead(q);
    TextTokens(x, p.text, p.op, y, q.text, q.op, z);
    NamesGroup(x, i, p.op, y, j, q.op, z);
  }

  lemma {:induction false} NamesGroup(x: string, i: nat, p: Operator, y: string, j: nat, q: Operator, z: string)
    requires InRow(i, p) && InRow(j, q)
    ensures ParseExpression(ThreeTokens(x, p, y, q, z)) == Ok(Grouped(Variable(x), i, p, Variable(y), j, q, Variable(z)), [])
  {
    ThreeOperands(AVariable(x), i, p, AVariable(y), j, q, AVariable(z), []);
    assert ThreeTokens(x, p, y, q, z) == [Ident(x)] + ([Op(p)] + ([Ident(y)] + ([Op(q)] + ([Ident(z)] + []))));
  }

  lemma {:induction false} TextTokens(x: string, w: string, p: Operator, y: string, v: string, q: Operator, z: string)
    requires Name(x) && Name(y) && Name(z) && w in OPERATORS && v in OPERATORS && w != [] && v != []
    requires OperatorToken(w) == Known(Op(p)) && OperatorToken(v) == Known(Op(q))
    ensures Lex(OPERATORS, x + " " + w + " " + y + " " + v + " " + z + " ") == Some(Lexemes(ThreeTokens(x, p, y, q, z)))
  {
    var is_ := FiveItems(x, w, y, v, z);
    SymbolMeant(w, p);
    SymbolMeant(v, q);
    NameMeant(x);
    NameMeant(y);
    NameMeant(z);
    FiveMeant(is_, ThreeTokens(x, p, y, q, z));
    Spacing.LexSpaced(is_);
    SpacedFive(x, w, y, v, z);
  }

  predicate Means(i: Spacing.Item, t: Token) { Spacing.Legal(i) && Spacing.Meant(i) == Known(t) }

  lemma {:induction false} SymbolMeant(w: string, p: Operator)
    requires w in OPERATORS && w != [] && OperatorToken(w) == Known(Op(p))
    ensures Means(Spacing.Symbol(w), Op(p))
  {}

  lemma {:induction false} NameMeant(x: string)
    requires Name(x)
    ensures Means(Spacing.Identifier(x), Ident(x))
  {}

  lemma {:induction false} FiveMeant(is_: seq<Spacing.Item>, ts: seq<Token>)
    requires |is_| == |ts| && forall k :: 0 <= k < |is_| ==> Means(is_[k], ts[k])
    ensures Spacing.AllLegal(is_) && Spacing.AllMeant(is_) == Lexemes(ts)
  {}

  function FiveItems(x: string, w: string, y: string, v: string, z: string): seq<Spacing.Item>
  {
    [Spacing.Identifier(x), Spacing.Symbol(w), Spacing.Identifier(y), Spacing.Symbol(v), Spacing.Identifier(z)]
  }

  lemma {:induction false} SpacedFrom(is_: seq<Spacing.Item>, k: nat)
    requires k < |is_|
    ensures Spacing.Spaced(is_[k..]) == Spacing.Written(is_[k]) + (" " + Spacing.Spaced(is_[k + 1..]))
  {
    assert is_[k..][1..] == is_[k + 1..];
  }

  lemma {:induction false} SpacedFive(x: string, w: string, y: string, v: string, z: string)
    ensures Spacing.Spaced(FiveItems(x, w, y, v, z)) == x + " " + w + " " + y + " " + v + " " + z + " "
  {
    var e := FiveItems(x, w, y, v, z);
    SpacedFrom(e, 4);
    SpacedFrom(e, 3);
    SpacedFrom(e, 2);
    SpacedFrom(e, 1);
    SpacedFrom(e, 0);
    assert e[0..] == e && e[5..] == [];
    Joined(x, w, y, v, z);
  }

  lemma {:induction false} Joined(x: string, w: string, y: string, v: string, z: string)
    ensures x + (" " + (w + (" " + (y + (" " + (v + (" " + (z + (" " + [])))))))))
         == x + " " + w + " " + y + " " + v + " " + z + " "
  {}

  /** So "a + b * c" multiplies first. */
  lemma {:induction false} SumOfProduct(text: string, ts: seq<Token>)
    requires text == "a + b * c " && ts == [Ident("a"), Op(Add), Ident("b"), Op(Mul), Ident("c")]
    ensures Lex(OPERATORS, text) == Some(Lexemes(ts))
    ensures ParseExpression(ts) == Ok(Binary(Variable("a"), Add, Binary(Variable("b"), Mul, Variable("c"))), [])
  {
    assert text == "a" + " " + "+" + " " + "b" + " " + "*" + " " + "c" + " ";
    Sampled("a", "b", "c", "+", "*", text, ts);
  }

  lemma {:induction false} Sampled(x: string, y: string, z: string, w: string, v: string, text: string, ts: seq<Token>)
    requires x == "a" && y == "b" && z == "c" && w == "+" && v == "*"
    requires text == x + " " + w + " " + y + " " + v + " " + z + " " && ts == ThreeTokens(x, Add, y, Mul, z)
    ensures Lex(OPERATORS, text) == Some(Lexemes(ts))
    ensures ParseExpression(ts) == Ok(Binary(Variable(x), Add, Binary(Variable(y), Mul, Variable(z))), [])
  {
    ABC();
    PlusAndTimes();
    TextGroups(x, 1, Entry(w, Add), y, 0, Entry(v, Mul), z);
  }

  lemma {:induction false} ABC()
    ensures Name("a") && Name("b") && Name("c")
  {}

  lemma {:induction false} PlusAndTimes()
    ensures InRow(1, Add) && InRow(0, Mul) && Entry("+", Add) in SPELLINGS && Entry("*", Mul) in SPELLINGS
  {
    assert ROWS[1][0] == Add && ROWS[0][0] == Mul;
    assert SPELLINGS[4] == Entry("+", Add) && SPELLINGS[0] == Entry("*", Mul);
  }
}
