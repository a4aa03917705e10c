/** Tokens, operators and trees of the text front end, and the one tree an infix sequence stands for. */
module Syntax {

  datatype Option<+T> = None | Some(value: T)

  datatype Operator =
    | Add | Sub | Mul | Div | Mod | FheAdd | FheSub | FheMul
    | And | Or | Less | LessEq | Greater | GreaterEq | Equal | NotEqual | BitAnd | BitXor | BitOr
    | Not | BitNot

  predicate IsUnary(op: Operator) { op.Not? || op.BitNot? }

  /** Precedence level; a lower level binds tighter. */
  function Level(op: Operator): nat
  {
    match op
    case Not | BitNot => 3
    case Mul | FheMul | Div | Mod => 5
    case Add | FheAdd | Sub | FheSub => 6
    case Less | LessEq | Greater | GreaterEq => 9
    case Equal | NotEqual => 10
    case BitAnd => 11
    case BitXor => 12
    case BitOr => 13
    case And => 14
    case Or => 15
  }

  datatype Type = Void | Bool | Char | Int | Float | Double | String

  datatype Token =
    | Op(op: Operator)
    | Unsupported              // an operator of the language that the trees have no place for
    | Postfix                  // ++ and --
    | IntLit(n: int)         // as the 32-bit integer it was read into
    | True
    | False
    | StringLit(s: string)
    | Ident(name: string)
    | OpenRound | CloseRound | OpenSquare | CloseSquare | OpenCurly | CloseCurly
    | Comma | Semicolon | Assign
    | Rotate | If | Else | For | Public | Return | Secret
    | TypeName(ty: Type)
    | End

  datatype Expr =
    | Number(n: int)
    | Truth(b: bool)
    | Text(s: string)
    | Variable(name: string)
    | IndexAccess(target: Expr, index: Expr)
    | Binary(left: Expr, op: Operator, right: Expr)
    | Unary(op: Operator, operand: Expr)
    | List(items: seq<Expr>)
    | RotateCall(x: Expr, offset: Expr)

  // ---------------------------------------------------------------- precedence

  /** The operator that binds loosest; among equals, the last one. */
  function Loosest(ops: seq<Operator>): (k: nat)
    requires ops != []
    ensures k < |ops|
    ensures forall i :: 0 <= i < k ==> Level(ops[i]) <= Level(ops[k])
    ensures forall i :: k < i < |ops| ==> Level(ops[i]) < Level(ops[k])
  {
    if |ops| == 1 then 0 else
      var k := Loosest(ops[..|ops| - 1]);
      if Level(ops[|ops| - 1]) >= Level(ops[k]) then |ops| - 1 else k
  }

  /** A tree over the operands of one infix sequence. */
  datatype Tree = Leaf(e: Expr) | Branch(l: Tree, op: Operator, r: Tree)

  function Operands(t: Tree): (es: seq<Expr>)
    ensures |es| == |Operators(t)| + 1
  {
    match t
    case Leaf(e) => [e]
    case Branch(l, op, r) => Operands(l) + Operands(r)
  }

  function Operators(t: Tree): seq<Operator>
  {
    match t
    case Leaf(e) => []
    case Branch(l, op, r) => Operators(l) + [op] + Operators(r)
  }

  /** Looser operators stand above tighter ones, and operators of one level group to the left. */
  predicate Respects(t: Tree)
  {
    match t
    case Leaf(_) => true
    case Branch(l, op, r) =>
      && Respects(l) && Respects(r)
      && (l.Branch? ==> Level(l.op) <= Level(op))
      && (r.Branch? ==> Level(r.op) < Level(op))
  }

  /** The expression e0 op1 e1 op2 ... stands for: split at the loosest operator. */
  function Parsed(es: seq<Expr>, ops: seq<Operator>): (t: Tree)
    requires |es| == |ops| + 1
    decreases |ops|
  {
    if ops == [] then Leaf(es[0]) else
      var k := Loosest(ops);
      Branch(Parsed(es[..k + 1], ops[..k]), ops[k], Parsed(es[k + 1..], ops[k + 1..]))
  }

  lemma {:induction false} Split<T>(s: seq<T>, k: nat)
    requires k < |s|
    ensures s == s[..k] + [s[k]] + s[k + 1..] && s == s[..k + 1] + s[k + 1..]
  {}

  lemma {:induction false} ParsedYield(es: seq<Expr>, ops: seq<Operator>)
    requires |es| == |ops| + 1
    ensures Operands(Parsed(es, ops)) == es && Operators(Parsed(es, ops)) == ops
    decreases |ops|
  {
    if ops == [] {
      assert es == [es[0]];
    } else {
      var k := Loosest(ops);
      var l, r := Parsed(es[..k + 1], ops[..k]), Parsed(es[k + 1..], ops[k + 1..]);
      ParsedYield(es[..k + 1], ops[..k]);
      ParsedYield(es[k + 1..], ops[k + 1..]);
      assert Parsed(es, ops) == Branch(l, ops[k], r);
      Split(es, k);
      Split(ops, k);
    }
  }

  lemma {:induction false} ParsedRoot(es: seq<Expr>, ops: seq<Operator>, level: nat)
    requires |es| == |ops| + 1 && forall i :: 0 <= i < |ops| ==> Level(ops[i]) <= level
    ensures Parsed(es, ops).Branch? ==> Level(Parsed(es, ops).op) <= level
  {}

  lemma {:induction false} ParsedRespects(es: seq<Expr>, ops: seq<Operator>)
    requires |es| == |ops| + 1
    ensures Respects(Parsed(es, ops))
    decreases |ops|
  {
    if ops != [] {
      var k := Loosest(ops);
      ParsedRespects(es[..k + 1], ops[..k]);
      ParsedRespects(es[k + 1..], ops[k + 1..]);
      ParsedRoot(es[..k + 1], ops[..k], Level(ops[k]));
      if k + 1 < |ops| {
        assert Level(ops[k + 1]) < Level(ops[k]);
        ParsedRoot(es[k + 1..], ops[k + 1..], Level(ops[k]) - 1);
      }
    }
  }

  /** The tree has the sequence as its yield and respects precedence and grouping to the left. */
  lemma {:induction false} ParsedFits(es: seq<Expr>, ops: seq<Operator>)
    requires |es| == |ops| + 1
    ensures Operands(Parsed(es, ops)) == es && Operators(Parsed(es, ops)) == ops && Respects(Parsed(es, ops))
  {
    ParsedYield(es, ops);
    ParsedRespects(es, ops);
  }

  /** The root of a tree that respects precedence is its loosest operator. */
  lemma {:induction false} RootLoosest(t: Tree)
    requires Respects(t) && t.Branch?
    ensures forall i :: 0 <= i < |Operators(t.l)| ==> Level(Operators(t.l)[i]) <= Level(t.op)
    ensures forall i :: 0 <= i < |Operators(t.r)| ==> Level(Operators(t.r)[i]) < Level(t.op)
    decreases t
  {
    if t.l.Branch? { RootLoosest(t.l); }
    if t.r.Branch? { RootLoosest(t.r); }
  }

  lemma {:induction false} LoosestIs(ops: seq<Operator>, k: nat)
    requires k < |ops|
    requires forall i :: 0 <= i < k ==> Level(ops[i]) <= Level(ops[k])
    requires forall i :: k < i < |ops| ==> Level(ops[i]) < Level(ops[k])
    ensures Loosest(ops) == k
  {}

  /** There is exactly one such tree over given operands and operators. */
  lemma {:induction false} ParsedUnique(t: Tree)
    requires Respects(t)
    ensures t == Parsed(Operands(t), Operators(t))
    decreases t
  {
    if t.Branch? {
      var l, r, k := Operators(t.l), Operators(t.r), |Operators(t.l)|;
      var ops, es := Operators(t), Operands(t);
      RootLoosest(t);
      assert ops[k] == t.op && ops[..k] == l && ops[k + 1..] == r;
      forall i | 0 <= i < k ensures Level(ops[i]) <= Level(ops[k]) { assert ops[i] == l[i]; }
      forall i | k < i < |ops| ensures Level(ops[i]) < Level(ops[k]) { assert ops[i] == r[i - k - 1]; }
      LoosestIs(ops, k);
      assert es[..k + 1] == Operands(t.l) && es[k + 1..] == Operands(t.r);
      ParsedUnique(t.l);
      ParsedUnique(t.r);
    }
  }

  function ToExpr(t: Tree): Expr
  {
    match t
    case Leaf(e) => e
    case Branch(l, op, r) => Binary(ToExpr(l), op, ToExpr(r))
  }
}
