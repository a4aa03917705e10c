/** The operator-precedence loop builds the right tree: for every infix sequence, with nested parentheses,
    indices, lists and rotations as operands. */
module Infix {
  import opened Syntax
  import opened Parsing

  // ---------------------------------------------------------------- concrete syntax

  datatype Atom =
    | ANumber(n: int)
    | ATruth(b: bool)
    | AText(s: string)
    | AVariable(name: string)
    | AIndex(target: Atom, index: Chain)
    | AParen(inner: Chain)
    | AList(items: seq<Chain>)
    | ARotate(x: Chain, offset: Chain)
    | APrefix(u: Operator, operand: Atom)

  datatype Link = Link(op: Operator, atom: Atom)

  /** atom op atom op atom ... */
  datatype Chain = Chain(first: Atom, links: seq<Link>)

  predicate Negative(a: Atom) { a.ANumber? && a.n < 0 }

  /** The first token already tells that an operand comes. */
  predicate Plain(a: Atom) { !Negative(a) && !a.APrefix? }

  function AtomTokens(a: Atom): (r: seq<Token>)
    ensures r != []
    decreases a, 0
  {
    match a
    case ANumber(n) => if n < 0 then [Op(Sub), IntLit(-n)] else [IntLit(n)]
    case ATruth(b) => [if b then True else False]
    case AText(s) => [StringLit(s)]
    case AVariable(x) => [Ident(x)]
    case AIndex(t, i) => AtomTokens(t) + ([OpenSquare] + (ChainTokens(i) + [CloseSquare]))
    case AParen(c) => [OpenRound] + (ChainTokens(c) + [CloseRound])
    case AList(cs) => [OpenCurly] + (ItemTokens(cs) + [CloseCurly])
    case ARotate(x, k) => [Rotate, OpenRound] + (ChainTokens(x) + ([Comma] + (ChainTokens(k) + [CloseRound])))
    case APrefix(u, b) => [Op(u)] + AtomTokens(b)
  }

  function ItemTokens(cs: seq<Chain>): seq<Token>
    decreases cs, 1
  {
    if cs == [] then []
    else if |cs| == 1 then ChainTokens(cs[0])
    else ChainTokens(cs[0]) + ([Comma] + ItemTokens(cs[1..]))
  }

  function LinkTokens(ls: seq<Link>): seq<Token>
    decreases ls, 1
  {
    if ls == [] then [] else [Op(ls[0].op)] + (LinkAtomTokens(ls[0]) + LinkTokens(ls[1..]))
  }

  function LinkAtomTokens(l: Link): (r: seq<Token>)
    ensures r == AtomTokens(l.atom)
    decreases l, 0
  {
    AtomTokens(l.atom)
  }

  function ChainTokens(c: Chain): (r: seq<Token>)
    ensures r != []
    decreases c, 2
  {
    AtomTokens(c.first) + LinkTokens(c.links)
  }

  function AtomExpr(a: Atom): Expr
    decreases a, 0
  {
    match a
    case ANumber(n) => Number(n)
    case ATruth(b) => Truth(b)
    case AText(s) => Text(s)
    case AVariable(x) => Variable(x)
    case AIndex(t, i) => IndexAccess(AtomExpr(t), ChainExpr(i))
    case AParen(c) => ChainExpr(c)
    case AList(cs) => List(ItemExprs(cs))
    case ARotate(x, k) => RotateCall(ChainExpr(x), ChainExpr(k))
    case APrefix(u, b) => Unary(u, AtomExpr(b))
  }

  function ItemExprs(cs: seq<Chain>): (es: seq<Expr>)
    ensures |es| == |cs|
    decreases cs, 1
  {
    if cs == [] then [] else [ChainExpr(cs[0])] + ItemExprs(cs[1..])
  }

  function LinkExprs(ls: seq<Link>): (es: seq<Expr>)
    ensures |es| == |ls|
    decreases ls, 1
  {
    if ls == [] then [] else [LinkExpr(ls[0])] + LinkExprs(ls[1..])
  }

  function LinkExpr(l: Link): (e: Expr)
    ensures e == AtomExpr(l.atom)
    decreases l, 0
  {
    AtomExpr(l.atom)
  }

  function LinkOps(ls: seq<Link>): (ops: seq<Operator>)
    ensures |ops| == |ls|
  {
    if ls == [] then [] else [ls[0].op] + LinkOps(ls[1..])
  }

  /** The one tree over the operands that respects precedence and grouping to the left. */
  function ChainExpr(c: Chain): Expr
    decreases c, 2
  {
    ToExpr(Parsed([AtomExpr(c.first)] + LinkExprs(c.links), LinkOps(c.links)))
  }

  /** Operators between operands are binary, only variables are indexed, and a prefix operator stands where
      an expression begins, at most one. */
  predicate Shaped(a: Atom)
    decreases a, 0
  {
    match a
    case AIndex(t, i) => (t.AVariable? || t.AIndex?) && Shaped(t) && ShapedChain(i)
    case AParen(c) => ShapedChain(c)
    case AList(cs) => forall i :: 0 <= i < |cs| ==> ShapedChain(cs[i])
    case ARotate(x, k) => ShapedChain(x) && ShapedChain(k)
    case APrefix(u, b) => IsUnary(u) && Shaped(b) && !b.APrefix?
    case _ => true
  }

  predicate ShapedLink(l: Link)
    decreases l, 1
  {
    !IsUnary(l.op) && Shaped(l.atom) && !l.atom.APrefix?
  }

  predicate ShapedChain(c: Chain)
    decreases c, 2
  {
    Shaped(c.first) && forall i :: 0 <= i < |c.links| ==> ShapedLink(c.links[i])
  }

  /** Lists are not empty, and a negative literal stands only where an expression begins. */
  predicate Fine(a: Atom)
    decreases a, 0
  {
    match a
    case AIndex(t, i) => Fine(t) && FineChain(i)
    case AParen(c) => FineChain(c)
    case AList(cs) => cs != [] && forall i :: 0 <= i < |cs| ==> FineChain(cs[i])
    case ARotate(x, k) => FineChain(x) && FineChain(k)
    case APrefix(u, b) => Fine(b) && !Negative(b)
    case _ => true
  }

  predicate FineLink(l: Link)
    decreases l, 1
  {
    Fine(l.atom) && !Negative(l.atom)
  }

  predicate FineChain(c: Chain)
    decreases c, 2
  {
    Fine(c.first) && forall i :: 0 <= i < |c.links| ==> FineLink(c.links[i])
  }

  /** The next token does not carry the expression on. */
  predicate Stops(rest: seq<Token>)
  {
    var t := Peek(rest);
    !t.Op? && !t.Unsupported? && !t.Postfix? && !StartsOperand(t) && t != OpenSquare
  }

  // ---------------------------------------------------------------- the stacks as segments

  /** A stretch of the sequence that has become one operand on the stack. */
  datatype Segment = Segment(es: seq<Expr>, ops: seq<Operator>)

  predicate Whole(s: Segment) { |s.es| == |s.ops| + 1 }

  function SegmentExpr(s: Segment): Expr
    requires Whole(s)
  {
    ToExpr(Parsed(s.es, s.ops))
  }

  function Join(a: Segment, op: Operator, b: Segment): Segment { Segment(a.es + b.es, a.ops + [op] + b.ops) }

  predicate UpTo(ops: seq<Operator>, level: nat) { forall i :: 0 <= i < |ops| ==> Level(ops[i]) <= level }

  predicate Under(ops: seq<Operator>, level: nat) { forall i :: 0 <= i < |ops| ==> Level(ops[i]) < level }

  /** What stands left of the operator binds at least as tight, what stands right of it tighter. */
  predicate Fits(a: Segment, op: Operator, b: Segment)
  {
    Whole(a) && Whole(b) && !IsUnary(op) && UpTo(a.ops, Level(op)) && Under(b.ops, Level(op))
  }

  predicate FitsAt(segs: seq<Segment>, ops: seq<Operator>, i: nat)
    requires i < |ops| && |segs| == |ops| + 1
  {
    Fits(segs[i], ops[i], segs[i + 1])
  }

  predicate TighterAt(ops: seq<Operator>, i: nat)
    requires 0 < i < |ops|
  {
    Level(ops[i - 1]) > Level(ops[i])
  }

  /** The operators on the stack bind ever tighter, and each fits between its neighbours. */
  predicate Tower(segs: seq<Segment>, ops: seq<Operator>)
  {
    && |segs| == |ops| + 1 && Whole(segs[0])
    && (forall i :: 0 <= i < |ops| ==> FitsAt(segs, ops, i))
    && (forall i :: 0 < i < |ops| ==> TighterAt(ops, i))
  }

  lemma {:induction false} TowerWhole(segs: seq<Segment>, ops: seq<Operator>)
    requires Tower(segs, ops)
    ensures AllWhole(segs)
  {
    forall i | 0 <= i < |segs| ensures Whole(segs[i]) {
      if i > 0 { assert FitsAt(segs, ops, i - 1); }
    }
  }

  predicate AllWhole(segs: seq<Segment>) { forall i :: 0 <= i < |segs| ==> Whole(segs[i]) }

  function Exprs(segs: seq<Segment>): (es: seq<Expr>)
    requires AllWhole(segs)
    ensures |es| == |segs| && forall i :: 0 <= i < |es| ==> es[i] == SegmentExpr(segs[i])
  {
    seq(|segs|, i requires 0 <= i < |segs| => SegmentExpr(segs[i]))
  }

  /** The sequence read so far. */
  function Flat(segs: seq<Segment>, ops: seq<Operator>): (s: Segment)
    requires |segs| == |ops| + 1
    decreases |ops|
  {
    if ops == [] then segs[0] else
      var m := |ops| - 1;
      Join(Flat(segs[..m + 1], ops[..m]), ops[m], segs[m + 1])
  }

  /** Joining two segments at an operator looser than those to the right and no tighter than those to the
      left is building that operator. */
  lemma {:induction false} JoinExpr(a: Segment, op: Operator, b: Segment)
    requires Whole(a) && Whole(b) && UpTo(a.ops, Level(op)) && Under(b.ops, Level(op))
    ensures Whole(Join(a, op, b)) && SegmentExpr(Join(a, op, b)) == Binary(SegmentExpr(a), op, SegmentExpr(b))
  {
    var j, k := Join(a, op, b), |a.ops|;
    assert j.ops[k] == op && j.ops[..k] == a.ops && j.ops[k + 1..] == b.ops;
    forall i | 0 <= i < k ensures Level(j.ops[i]) <= Level(op) { assert j.ops[i] == a.ops[i]; }
    forall i | k < i < |j.ops| ensures Level(j.ops[i]) < Level(op) { assert j.ops[i] == b.ops[i - k - 1]; }
    LoosestIs(j.ops, k);
    assert j.es[..k + 1] == a.es && j.es[k + 1..] == b.es;
  }

  lemma {:induction false} JoinAssociative(a: Segment, p: Operator, b: Segment, q: Operator, c: Segment)
    ensures Join(Join(a, p, b), q, c) == Join(a, p, Join(b, q, c))
  {}

  /** The stacks after building the topmost operator. */
  function Merged(segs: seq<Segment>, ops: seq<Operator>): seq<Segment>
    requires |segs| == |ops| + 1 && ops != []
  {
    var m := |ops| - 1;
    segs[..m] + [Join(segs[m], ops[m], segs[m + 1])]
  }

  lemma {:induction false} MergedFlat(segs: seq<Segment>, ops: seq<Operator>)
    requires |segs| == |ops| + 1 && ops != []
    ensures Flat(Merged(segs, ops), ops[..|ops| - 1]) == Flat(segs, ops)
  {
    var m := |ops| - 1;
    var j := Merged(segs, ops);
    if m > 0 {
      assert j[..m] == segs[..m] && ops[..m][..m - 1] == ops[..m - 1];
      assert segs[..m + 1][..m] == segs[..m];
      JoinAssociative(Flat(segs[..m], ops[..m - 1]), ops[m - 1], segs[m], ops[m], segs[m + 1]);
    }
  }

  lemma {:induction false} JoinFits(a: Segment, p: Operator, b: Segment, q: Operator, c: Segment)
    requires Fits(b, q, c)
    ensures UpTo(Join(b, q, c).ops, Level(q))
    ensures Fits(a, p, b) && Level(p) > Level(q) ==> Fits(a, p, Join(b, q, c))
  {
    var j, k := Join(b, q, c).ops, |b.ops|;
    forall i | 0 <= i < |j|
      ensures Level(j[i]) <= Level(q)
      ensures Fits(a, p, b) && Level(p) > Level(q) ==> Level(j[i]) < Level(p)
    {
      assert j[i] == if i < k then b.ops[i] else if i == k then q else c.ops[i - k - 1];
    }
  }

  lemma {:induction false} MergedTower(segs: seq<Segment>, ops: seq<Operator>)
    requires Tower(segs, ops) && ops != []
    ensures Tower(Merged(segs, ops), ops[..|ops| - 1])
    ensures UpTo(Merged(segs, ops)[|ops| - 1].ops, Level(ops[|ops| - 1]))
  {
    var m, segs', ops' := |ops| - 1, Merged(segs, ops), ops[..|ops| - 1];
    assert FitsAt(segs, ops, m);
    JoinFits(if m > 0 then segs[m - 1] else segs[m], if m > 0 then ops[m - 1] else ops[m], segs[m], ops[m], segs[m + 1]);
    forall i | 0 <= i < |ops'| ensures FitsAt(segs', ops', i) {
      assert FitsAt(segs, ops, i);
      assert TighterAt(ops, i + 1);
    }
    forall i | 0 < i < |ops'| ensures TighterAt(ops', i) { assert TighterAt(ops, i); }
  }

  lemma {:induction false} MergedExprs(segs: seq<Segment>, ops: seq<Operator>)
    requires Tower(segs, ops) && ops != []
    ensures AllWhole(segs) && AllWhole(Merged(segs, ops))
    ensures var m := |ops| - 1;
      Exprs(Merged(segs, ops)) == Exprs(segs)[..m] + [Binary(Exprs(segs)[m], ops[m], Exprs(segs)[m + 1])]
  {
    var m := |ops| - 1;
    TowerWhole(segs, ops);
    MergedTower(segs, ops);
    TowerWhole(Merged(segs, ops), ops[..m]);
    assert FitsAt(segs, ops, m);
    JoinExpr(segs[m], ops[m], segs[m + 1]);
  }

  datatype Stacked = Stacked(segs: seq<Segment>, ops: seq<Operator>)

  /** The stacks after making room for a new operator. */
  function Reduced(segs: seq<Segment>, ops: seq<Operator>, op: Operator): (r: Stacked)
    requires |segs| == |ops| + 1
    ensures |r.segs| == |r.ops| + 1 && (r.ops != [] ==> Level(op) < Level(r.ops[|r.ops| - 1]))
    decreases |ops|
  {
    if ops == [] || Level(op) < Level(ops[|ops| - 1]) then Stacked(segs, ops)
    else Reduced(Merged(segs, ops), ops[..|ops| - 1], op)
  }

  /** Making room keeps the sequence read so far and the order on the stack. */
  lemma {:induction false} ReducedTower(segs: seq<Segment>, ops: seq<Operator>, op: Operator)
    requires Tower(segs, ops) && UpTo(segs[|segs| - 1].ops, Level(op))
    ensures var r := Reduced(segs, ops, op);
      Tower(r.segs, r.ops) && UpTo(r.segs[|r.segs| - 1].ops, Level(op)) && Flat(r.segs, r.ops) == Flat(segs, ops)
    decreases |ops|
  {
    if ops != [] && Level(op) >= Level(ops[|ops| - 1]) {
      var next := Merged(segs, ops);
      MergedTower(segs, ops);
      MergedFlat(segs, ops);
      LooserUpTo(next[|next| - 1].ops, Level(ops[|ops| - 1]), Level(op));
      ReducedTower(next, ops[..|ops| - 1], op);
    }
  }

  /** Making room is building the topmost operators. */
  lemma {:induction false} ReduceOk(segs: seq<Segment>, ops: seq<Operator>, op: Operator)
    requires Tower(segs, ops)
    ensures var r := Reduced(segs, ops, op);
      && AllWhole(segs) && AllWhole(r.segs)
      && Reduce(Exprs(segs), ops, op) == Stacks(Exprs(r.segs), r.ops)
    decreases |ops|
  {
    TowerWhole(segs, ops);
    if ops != [] && Level(op) >= Level(ops[|ops| - 1]) {
      ReduceRound(segs, ops, op);
      ReduceOk(Merged(segs, ops), ops[..|ops| - 1], op);
    }
  }

  lemma {:induction false} ReduceRound(segs: seq<Segment>, ops: seq<Operator>, op: Operator)
    requires Tower(segs, ops) && ops != [] && Level(op) >= Level(ops[|ops| - 1])
    ensures var next, ops' := Merged(segs, ops), ops[..|ops| - 1];
      && Tower(next, ops') && AllWhole(segs) && AllWhole(next)
      && Reduce(Exprs(segs), ops, op) == Reduce(Exprs(next), ops', op)
  {
    MergedTower(segs, ops);
    MergedExprs(segs, ops);
  }

  lemma {:induction false} LooserUpTo(ops: seq<Operator>, level: nat, level': nat)
    requires UpTo(ops, level) && level <= level'
    ensures UpTo(ops, level')
  {}

  /** What is left is built into the tree of the whole sequence. */
  lemma {:induction false} FinishOk(segs: seq<Segment>, ops: seq<Operator>, ts: seq<Token>)
    requires Tower(segs, ops)
    ensures AllWhole(segs) && Whole(Flat(segs, ops)) && Finish(Exprs(segs), ops, ts) == Ok(SegmentExpr(Flat(segs, ops)), ts)
    decreases |ops|
  {
    TowerWhole(segs, ops);
    if ops != [] {
      assert FitsAt(segs, ops, |ops| - 1);
      MergedTower(segs, ops);
      MergedExprs(segs, ops);
      MergedFlat(segs, ops);
      FinishOk(Merged(segs, ops), ops[..|ops| - 1], ts);
    }
  }

  /** A new operator and operand on the stacks. */
  lemma {:induction false} PushOk(segs: seq<Segment>, ops: seq<Operator>, op: Operator, e: Expr)
    requires Tower(segs, ops) && !IsUnary(op) && UpTo(segs[|segs| - 1].ops, Level(op))
    requires ops != [] ==> Level(op) < Level(ops[|ops| - 1])
    ensures var segs', ops' := segs + [Segment([e], [])], ops + [op];
      && Tower(segs', ops') && AllWhole(segs) && AllWhole(segs') && Exprs(segs') == Exprs(segs) + [e]
      && Flat(segs', ops') == Join(Flat(segs, ops), op, Segment([e], []))
  {
    var new_ := Segment([e], []);
    var segs', ops' := segs + [new_], ops + [op];
    TowerWhole(segs, ops);
    assert segs'[..|ops| + 1] == segs && ops'[..|ops|] == ops;
    assert SegmentExpr(new_) == e;
    forall i | 0 <= i < |ops'| ensures FitsAt(segs', ops', i) {
      if i < |ops| { assert FitsAt(segs, ops, i); }
    }
    forall i | 0 < i < |ops'| ensures TighterAt(ops', i) {
      if i < |ops| { assert TighterAt(ops, i); }
    }
    TowerWhole(segs', ops');
    assert Exprs(segs') == Exprs(segs) + [e];
  }

  // ---------------------------------------------------------------- operands

  lemma {:induction false} Around(o: seq<Token>, x: seq<Token>, c: seq<Token>, rest: seq<Token>)
    ensures o + (x + c) + rest == o + (x + (c + rest))
  {}

  lemma {:induction false} First(t: Token, ts: seq<Token>)
    ensures Peek([t] + ts) == t && ([t] + ts)[1..] == ts
  {}

  lemma {:induction false} PeekFirst(xs: seq<Token>, ts: seq<Token>)
    requires xs != []
    ensures Peek(xs + ts) == xs[0]
  {}

  lemma {:induction false} AtomStarts(a: Atom)
    requires Shaped(a) && Plain(a)
    ensures StartsOperand(AtomTokens(a)[0])
    decreases a
  {
    if a.AIndex? { AtomStarts(a.target); }
  }

  lemma {:induction false} IndexSplit(t: Atom, i: Chain, rest: seq<Token>)
    ensures AtomTokens(AIndex(t, i)) + rest == AtomTokens(t) + ([OpenSquare] + (ChainTokens(i) + ([CloseSquare] + rest)))
  {
    var ts, is_ := AtomTokens(t), ChainTokens(i);
    Around(ts, [OpenSquare], is_ + [CloseSquare], rest);
    Around([OpenSquare], is_, [CloseSquare], rest);
  }

  lemma {:induction false} TargetOk(a: Atom, rest: seq<Token>)
    requires (a.AVariable? || a.AIndex?) && Shaped(a) && Fine(a)
    ensures AtomTokens(a)[0].Ident?
    ensures ParseTarget(AtomTokens(a) + rest) == ParseIndices(rest, AtomExpr(a))
    decreases a, 1
  {
    match a
    case AVariable(x) => First(Ident(x), rest);
    case AIndex(t, i) =>
      var more := ChainTokens(i) + ([CloseSquare] + rest);
      TargetOk(t, [OpenSquare] + more);
      IndexSplit(t, i, rest);
      First(OpenSquare, more);
      First(CloseSquare, rest);
      ChainOk(i, [CloseSquare] + rest);
  }

  lemma {:induction false} LiteralOk(a: Atom, rest: seq<Token>)
    requires (a.ANumber? && a.n >= 0) || a.ATruth? || a.AText?
    ensures StartsOperand(Peek(AtomTokens(a) + rest))
    ensures ParseOperand(AtomTokens(a) + rest, false) == Ok(AtomExpr(a), rest)
  {
    First(AtomTokens(a)[0], rest);
  }

  /** An operand is read as what it stands for. */
  lemma {:induction false} AtomOk(a: Atom, rest: seq<Token>)
    requires Shaped(a) && Fine(a) && Plain(a) && Peek(rest) != OpenSquare
    ensures StartsOperand(Peek(AtomTokens(a) + rest))
    ensures ParseOperand(AtomTokens(a) + rest, false) == Ok(AtomExpr(a), rest)
    decreases a, 3
  {
    AtomStarts(a);
    PeekFirst(AtomTokens(a), rest);
    match a
    case ANumber(n) => LiteralOk(a, rest);
    case ATruth(b) => LiteralOk(a, rest);
    case AText(s) => LiteralOk(a, rest);
    case AVariable(x) => TargetOk(a, rest);
    case AIndex(t, i) => TargetOk(a, rest);
    case AParen(c) => ParenOk(c, rest);
    case AList(cs) => ListOk(cs, rest);
    case ARotate(x, k) => RotateOk(x, k, rest);
  }

  lemma {:induction false} ListOk(cs: seq<Chain>, rest: seq<Token>)
    requires cs != [] && forall i :: 0 <= i < |cs| ==> ShapedChain(cs[i]) && FineChain(cs[i])
    ensures Peek(AtomTokens(AList(cs)) + rest) == OpenCurly
    ensures ParseOperand(AtomTokens(AList(cs)) + rest, false) == Ok(List(ItemExprs(cs)), rest)
    decreases cs, 2
  {
    var ts := ItemTokens(cs) + ([CloseCurly] + rest);
    Around([OpenCurly], ItemTokens(cs), [CloseCurly], rest);
    OpensList(ts);
    ItemsOk(cs, [], rest);
    assert [] + ItemExprs(cs) == ItemExprs(cs);
  }

  lemma {:induction false} OpensList(ts: seq<Token>)
    ensures Peek([OpenCurly] + ts) == OpenCurly && ParseOperand([OpenCurly] + ts, false) == ParseItems(ts, [])
  {
    First(OpenCurly, ts);
  }

  lemma {:induction false} ParenOk(c: Chain, rest: seq<Token>)
    requires ShapedChain(c) && FineChain(c)
    ensures Peek(AtomTokens(AParen(c)) + rest) == OpenRound
    ensures ParseOperand(AtomTokens(AParen(c)) + rest, false) == Ok(ChainExpr(c), rest)
    decreases c, 3
  {
    Around([OpenRound], ChainTokens(c), [CloseRound], rest);
    First(OpenRound, ChainTokens(c) + ([CloseRound] + rest));
    First(CloseRound, rest);
    ChainOk(c, [CloseRound] + rest);
  }

  lemma {:induction false} RotateSplit(x: Chain, k: Chain, rest: seq<Token>)
    ensures AtomTokens(ARotate(x, k)) + rest
         == [Rotate] + ([OpenRound] + (ChainTokens(x) + ([Comma] + (ChainTokens(k) + ([CloseRound] + rest)))))
  {
    var xs, ks, c := ChainTokens(x), ChainTokens(k), [CloseRound];
    assert [Rotate, OpenRound] == [Rotate] + [OpenRound];
    Around([Comma], ks, c, rest);
    Around([Rotate, OpenRound], xs, [Comma] + (ks + c), rest);
    Around([Rotate], [OpenRound], xs + ([Comma] + (ks + (c + rest))), []);
  }

  lemma {:induction false} RotateOk(x: Chain, k: Chain, rest: seq<Token>)
    requires ShapedChain(x) && FineChain(x) && ShapedChain(k) && FineChain(k)
    ensures ParseRotate(AtomTokens(ARotate(x, k)) + rest) == Ok(RotateCall(ChainExpr(x), ChainExpr(k)), rest)
    ensures Peek(AtomTokens(ARotate(x, k)) + rest) == Rotate
    decreases ARotate(x, k), 2
  {
    var last := ChainTokens(k) + ([CloseRound] + rest);
    var mid := ChainTokens(x) + ([Comma] + last);
    RotateSplit(x, k, rest);
    First(Rotate, [OpenRound] + mid);
    First(OpenRound, mid);
    First(Comma, last);
    First(CloseRound, rest);
    ChainOk(x, [Comma] + last);
    ChainOk(k, [CloseRound] + rest);
  }

  lemma {:induction false} ItemsSplit(cs: seq<Chain>, rest: seq<Token>)
    requires |cs| > 1
    ensures ItemTokens(cs) + rest == ChainTokens(cs[0]) + ([Comma] + (ItemTokens(cs[1..]) + rest))
  {
    var a, m := ChainTokens(cs[0]), ItemTokens(cs[1..]);
    assert ItemTokens(cs) == a + ([Comma] + m);
    Around(a, [Comma], m, rest);
  }

  /** An item and the comma behind it. */
  lemma {:induction false} OneItem(c: Chain, items: seq<Expr>, more: seq<Token>)
    requires ShapedChain(c) && FineChain(c)
    ensures ParseItems(ChainTokens(c) + ([Comma] + more), items) == ParseItems(more, items + [ChainExpr(c)])
    decreases c, 3
  {
    First(Comma, more);
    ChainOk(c, [Comma] + more);
  }

  /** The last item and the closing brace. */
  lemma {:induction false} LastItem(c: Chain, items: seq<Expr>, rest: seq<Token>)
    requires ShapedChain(c) && FineChain(c)
    ensures ParseItems(ChainTokens(c) + ([CloseCurly] + rest), items) == Ok(List(items + [ChainExpr(c)]), rest)
    decreases c, 3
  {
    First(CloseCurly, rest);
    ChainOk(c, [CloseCurly] + rest);
  }

  lemma {:induction false} ItemsOk(cs: seq<Chain>, items: seq<Expr>, rest: seq<Token>)
    requires cs != [] && forall i :: 0 <= i < |cs| ==> ShapedChain(cs[i]) && FineChain(cs[i])
    ensures ParseItems(ItemTokens(cs) + ([CloseCurly] + rest), items) == Ok(List(items + ItemExprs(cs)), rest)
    decreases cs, 1
  {
    var e := ChainExpr(cs[0]);
    if |cs| == 1 {
      LastItem(cs[0], items, rest);
      assert ItemExprs(cs) == [e];
    } else {
      ItemsSplit(cs, [CloseCurly] + rest);
      OneItem(cs[0], items, ItemTokens(cs[1..]) + ([CloseCurly] + rest));
      ItemsOk(cs[1..], items + [e], rest);
      assert items + [e] + ItemExprs(cs[1..]) == items + ItemExprs(cs);
    }
  }

  // ---------------------------------------------------------------- the whole sequence

  lemma {:induction false} NoUnary(operands: seq<Expr>, ops: seq<Operator>)
    requires ops == [] || !IsUnary(ops[|ops| - 1])
    ensures ApplyUnary(operands, ops) == Stacks(operands, ops)
  {}

  lemma {:induction false} TowerBinary(segs: seq<Segment>, ops: seq<Operator>)
    requires Tower(segs, ops)
    ensures ops != [] ==> !IsUnary(ops[|ops| - 1])
  {
    if ops != [] { assert FitsAt(segs, ops, |ops| - 1); }
  }

  lemma {:induction false} LinksStart(ls: seq<Link>, rest: seq<Token>)
    requires Peek(rest) != OpenSquare
    ensures Peek(LinkTokens(ls) + rest) != OpenSquare
  {
    if ls == [] { assert LinkTokens(ls) + rest == rest; } else { PeekFirst(LinkTokens(ls), rest); }
  }

  lemma {:induction false} LinkSplit(ls: seq<Link>, rest: seq<Token>)
    requires ls != []
    ensures LinkTokens(ls) + rest == [Op(ls[0].op)] + (AtomTokens(ls[0].atom) + (LinkTokens(ls[1..]) + rest))
  {}

  /** What was read so far and the remaining links. */
  function Completed(s: Segment, ls: seq<Link>): Segment
  {
    Segment(s.es + LinkExprs(ls), s.ops + LinkOps(ls))
  }

  /** With the stacks holding what was read so far, the remaining links complete the tree. */
  lemma {:induction false} LinksOk(segs: seq<Segment>, ops: seq<Operator>, ls: seq<Link>, rest: seq<Token>)
    requires Tower(segs, ops) && segs[|segs| - 1].ops == [] && Stops(rest)
    requires forall i :: 0 <= i < |ls| ==> ShapedLink(ls[i]) && FineLink(ls[i])
    ensures AllWhole(segs) && Whole(Completed(Flat(segs, ops), ls))
    ensures ExpressionLoop(LinkTokens(ls) + rest, Exprs(segs), ops) == Ok(SegmentExpr(Completed(Flat(segs, ops), ls)), rest)
    decreases ls, 1
  {
    if ls == [] {
      EndOk(segs, ops, rest);
      assert LinkTokens(ls) + rest == rest;
      assert Completed(Flat(segs, ops), ls) == Flat(segs, ops);
    } else {
      var r := Pushed(segs, ops, ls[0]);
      OneLink(segs, ops, ls, rest);
      PushedTower(segs, ops, ls[0]);
      LinksOk(r.segs, r.ops, ls[1..], rest);
      CompletedNext(Flat(segs, ops), ls);
    }
  }

  lemma {:induction false} EndOk(segs: seq<Segment>, ops: seq<Operator>, rest: seq<Token>)
    requires Tower(segs, ops) && Stops(rest)
    ensures AllWhole(segs) && Whole(Flat(segs, ops))
    ensures ExpressionLoop(rest, Exprs(segs), ops) == Ok(SegmentExpr(Flat(segs, ops)), rest)
  {
    TowerWhole(segs, ops);
    FinishOk(segs, ops, rest);
    TowerBinary(segs, ops);
    NoUnary(Exprs(segs), ops);
  }

  lemma {:induction false} Grouped<T>(xs: seq<T>, y: T, zs: seq<T>)
    ensures xs + [y] + zs == xs + ([y] + zs)
  {}

  lemma {:induction false} CompletedNext(s: Segment, ls: seq<Link>)
    requires ls != []
    ensures Completed(Join(s, ls[0].op, Segment([AtomExpr(ls[0].atom)], [])), ls[1..]) == Completed(s, ls)
  {
    Grouped(s.es, LinkExpr(ls[0]), LinkExprs(ls[1..]));
    Grouped(s.ops, ls[0].op, LinkOps(ls[1..]));
    assert s.ops + [ls[0].op] + [] == s.ops + [ls[0].op];
  }

  /** One round at an operator. */
  lemma {:induction false} OperatorRound(op: Operator, more: seq<Token>, operands: seq<Expr>, ops: seq<Operator>, s: Stacks)
    requires !IsUnary(op) && Reduce(operands, ops, op) == s && s.Stacks?
    ensures ExpressionLoop([Op(op)] + more, operands, ops) == ExpressionLoop(more, s.operands, s.ops + [op])
  {
    First(Op(op), more);
    NoUnary(s.operands, s.ops + [op]);
  }

  /** One round at an operand. */
  lemma {:induction false} OperandRound(ts: seq<Token>, e: Expr, rest: seq<Token>, operands: seq<Expr>, ops: seq<Operator>)
    requires StartsOperand(Peek(ts)) && ParseOperand(ts, false) == Ok(e, rest) && !Negated(Peek(ts), operands, ops)
    requires ops == [] || !IsUnary(ops[|ops| - 1])
    ensures ExpressionLoop(ts, operands, ops) == ExpressionLoop(rest, operands + [e], ops)
  {
    NoUnary(operands + [e], ops);
  }

  /** The stacks after one operator and one operand. */
  function Pushed(segs: seq<Segment>, ops: seq<Operator>, l: Link): (r: Stacked)
    requires |segs| == |ops| + 1
    ensures |r.segs| == |r.ops| + 1
  {
    var s := Reduced(segs, ops, l.op);
    Stacked(s.segs + [Segment([AtomExpr(l.atom)], [])], s.ops + [l.op])
  }

  lemma {:induction false} PushedTower(segs: seq<Segment>, ops: seq<Operator>, l: Link)
    requires Tower(segs, ops) && segs[|segs| - 1].ops == [] && !IsUnary(l.op)
    ensures var r := Pushed(segs, ops, l);
      && Tower(r.segs, r.ops) && r.segs[|r.segs| - 1].ops == []
      && Flat(r.segs, r.ops) == Join(Flat(segs, ops), l.op, Segment([AtomExpr(l.atom)], []))
  {
    ReducedTower(segs, ops, l.op);
    var s := Reduced(segs, ops, l.op);
    PushOk(s.segs, s.ops, l.op, AtomExpr(l.atom));
  }

  /** One operator and one operand. */
  lemma {:induction false} OneLink(segs: seq<Segment>, ops: seq<Operator>, ls: seq<Link>, rest: seq<Token>)
    requires Tower(segs, ops) && segs[|segs| - 1].ops == [] && Stops(rest) && ls != []
    requires ShapedLink(ls[0]) && FineLink(ls[0])
    ensures var r := Pushed(segs, ops, ls[0]);
      && AllWhole(segs) && AllWhole(r.segs)
      && ExpressionLoop(LinkTokens(ls) + rest, Exprs(segs), ops) == ExpressionLoop(LinkTokens(ls[1..]) + rest, Exprs(r.segs), r.ops)
    decreases ls, 0
  {
    var op, a, more := ls[0].op, ls[0].atom, LinkTokens(ls[1..]) + rest;
    LinkSplit(ls, rest);
    OneOperator(segs, ops, op, AtomTokens(a) + more);
    LinksStart(ls[1..], rest);
    LinkAtomOk(ls[0], more);
    OneOperand(segs, ops, ls[0], more);
  }

  lemma {:induction false} OneOperator(segs: seq<Segment>, ops: seq<Operator>, op: Operator, ts: seq<Token>)
    requires Tower(segs, ops) && !IsUnary(op)
    ensures var s := Reduced(segs, ops, op);
      && AllWhole(segs) && AllWhole(s.segs)
      && ExpressionLoop([Op(op)] + ts, Exprs(segs), ops) == ExpressionLoop(ts, Exprs(s.segs), s.ops + [op])
  {
    var s := Reduced(segs, ops, op);
    ReduceOk(segs, ops, op);
    OperatorRound(op, ts, Exprs(segs), ops, Stacks(Exprs(s.segs), s.ops));
  }

  lemma {:induction false} OneOperand(segs: seq<Segment>, ops: seq<Operator>, l: Link, more: seq<Token>)
    requires Tower(segs, ops) && segs[|segs| - 1].ops == [] && !IsUnary(l.op)
    requires StartsOperand(Peek(AtomTokens(l.atom) + more))
    requires ParseOperand(AtomTokens(l.atom) + more, false) == Ok(AtomExpr(l.atom), more)
    ensures var s, r := Reduced(segs, ops, l.op), Pushed(segs, ops, l);
      && AllWhole(s.segs) && AllWhole(r.segs)
      && ExpressionLoop(AtomTokens(l.atom) + more, Exprs(s.segs), s.ops + [l.op]) == ExpressionLoop(more, Exprs(r.segs), r.ops)
  {
    var s, e := Reduced(segs, ops, l.op), AtomExpr(l.atom);
    ReducedTower(segs, ops, l.op);
    PushOk(s.segs, s.ops, l.op, e);
    OperandRound(AtomTokens(l.atom) + more, e, more, Exprs(s.segs), s.ops + [l.op]);
  }

  lemma {:induction false} LinkAtomOk(l: Link, rest: seq<Token>)
    requires ShapedLink(l) && FineLink(l) && Peek(rest) != OpenSquare
    ensures StartsOperand(Peek(AtomTokens(l.atom) + rest))
    ensures ParseOperand(AtomTokens(l.atom) + rest, false) == Ok(AtomExpr(l.atom), rest)
    decreases l, 0
  {
    AtomOk(l.atom, rest);
  }

  /** A minus sign and a literal with nothing before them are one literal. */
  lemma {:induction false} NegatedRound(n: int, more: seq<Token>)
    ensures ExpressionLoop([IntLit(n)] + more, [], [Sub]) == ExpressionLoop(more, [Number(-n)], [])
  {
    var e := Number(-n);
    First(IntLit(n), more);
    NoUnary([e], []);
    assert [] + [e] == [e] && [Sub][..0] == [];
    assert Negated(IntLit(n), [], [Sub]);
  }

  /** A prefix operator with nothing before it waits for its operand. */
  lemma {:induction false} PrefixRound(u: Operator, ts: seq<Token>)
    requires IsUnary(u)
    ensures ExpressionLoop([Op(u)] + ts, [], []) == ExpressionLoop(ts, [], [u])
  {
    First(Op(u), ts);
    assert [] + [u] == [u];
  }

  lemma {:induction false} PrefixedRound(u: Operator, ts: seq<Token>, e: Expr, more: seq<Token>)
    requires IsUnary(u) && StartsOperand(Peek(ts)) && ParseOperand(ts, false) == Ok(e, more)
    ensures ExpressionLoop(ts, [], [u]) == ExpressionLoop(more, [Unary(u, e)], [])
  {
    assert !Negated(Peek(ts), [], [u]);
    assert [] + [e] == [e] && [e][..0] + [Unary(u, e)] == [Unary(u, e)] && [u][..0] == [];
    assert ApplyUnary([e], [u]) == Stacks([Unary(u, e)], []);
  }

  /** The first operand, whose minus sign may be part of it. */
  lemma {:induction false} FirstOk(a: Atom, more: seq<Token>)
    requires Shaped(a) && Fine(a) && Peek(more) != OpenSquare
    ensures ParseExpression(AtomTokens(a) + more) == ExpressionLoop(more, [AtomExpr(a)], [])
    decreases a, 4
  {
    var ts := AtomTokens(a) + more;
    if Negative(a) {
      var n: nat := -a.n;
      assert ts == [Op(Sub)] + ([IntLit(n)] + more);
      OperatorRound(Sub, [IntLit(n)] + more, [], [], Stacks([], []));
      assert [] + [Sub] == [Sub];
      NegatedRound(n, more);
    } else if a.APrefix? {
      AtomOk(a.operand, more);
      assert ts == [Op(a.u)] + (AtomTokens(a.operand) + more);
      PrefixRound(a.u, AtomTokens(a.operand) + more);
      PrefixedRound(a.u, AtomTokens(a.operand) + more, AtomExpr(a.operand), more);
    } else {
      AtomOk(a, more);
      OperandRound(ts, AtomExpr(a), more, [], []);
      assert [] + [AtomExpr(a)] == [AtomExpr(a)];
    }
  }

  /** Shunting-yard correctness: for every infix sequence, the parser returns the tree over its operands
      that respects precedence and grouping to the left, and stops right behind it. */
  lemma {:induction false} ChainOk(c: Chain, rest: seq<Token>)
    requires ShapedChain(c) && FineChain(c) && Stops(rest)
    ensures ParseExpression(ChainTokens(c) + rest) == Ok(ChainExpr(c), rest)
    decreases c, 2
  {
    var e := AtomExpr(c.first);
    var more := LinkTokens(c.links) + rest;
    assert ChainTokens(c) + rest == AtomTokens(c.first) + more;
    LinksStart(c.links, rest);
    FirstOk(c.first, more);
    var segs := [Segment([e], [])];
    assert SegmentExpr(segs[0]) == e;
    assert Exprs(segs) == [e];
    LinksOk(segs, [], c.links, rest);
    assert [] + LinkOps(c.links) == LinkOps(c.links);
  }
}
