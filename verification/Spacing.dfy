/** Any list of operators, keywords, identifiers and numbers with a space behind each is read back as it is. */
module Spacing {
  import opened Syntax
  import opened Lexing
  import opened Texts

  datatype Item = Symbol(text: string) | Key(text: string) | Identifier(text: string) | Numeric(n: nat)

  predicate Legal(i: Item)
  {
    match i
    case Symbol(w) => w in OPERATORS
    case Key(w) => Keyword(w).Some?
    case Identifier(w) => Name(w)
    case Numeric(n) => n < 0x8000_0000
  }

  function Written(i: Item): string
  {
    match i
    case Symbol(w) => w
    case Key(w) => w
    case Identifier(w) => w
    case Numeric(n) => Decimal(n)
  }

  function Meant(i: Item): Lexeme
    requires Legal(i)
  {
    match i
    case Symbol(w) => EntriesPlain(w); OperatorToken(w)
    case Key(w) => Keyword(w).value
    case Identifier(w) => Known(Ident(w))
    case Numeric(n) => Known(IntLit(n))
  }

  function Spaced(is_: seq<Item>): string
  {
    if is_ == [] then [] else Written(is_[0]) + (" " + Spaced(is_[1..]))
  }

  predicate AllLegal(is_: seq<Item>) { forall k :: 0 <= k < |is_| ==> Legal(is_[k]) }

  function AllMeant(is_: seq<Item>): (ls: seq<Lexeme>)
    requires AllLegal(is_)
    ensures |ls| == |is_| && forall k :: 0 <= k < |is_| ==> ls[k] == Meant(is_[k])
  {
    seq(|is_|, k requires 0 <= k < |is_| => Meant(is_[k]))
  }

  // ---------------------------------------------------------------- operators

  /** How an operator begins: no quote, and no comment. */
  predicate Begins(w: string)
  {
    w != [] && KindOf(w[0]) == Punct && w[0] != '"' && (w[0] == '/' && |w| > 1 ==> w[1] == '=')
  }

  lemma {:induction false} EntriesPlain(w: string)
    requires w in OPERATORS
    ensures Begins(w)
  {
    if w in ARITHMETIC { ArithmeticPlain(w); } else if w in ASSIGNMENTS { AssignmentsPlain(w); } else if w in LOGIC { LogicPlain(w); }
  }

  lemma {:induction false} ArithmeticPlain(w: string)
    requires w in ARITHMETIC
    ensures Begins(w)
  {}

  lemma {:induction false} AssignmentsPlain(w: string)
    requires w in ASSIGNMENTS
    ensures Begins(w)
  {}

  lemma {:induction false} LogicPlain(w: string)
    requires w in LOGIC
    ensures Begins(w)
  {}

  /** No entry holds a blank behind its first character. */
  lemma {:induction false} EntryBlank(u: string, k: nat)
    requires Entry(u) && 0 < k < |u|
    ensures u[k] != ' '
  {}

  /** A blank ends the longest match, whatever entry stands before it. */
  lemma {:induction false} SpacedMunch(w: string, rest: string)
    requires w in OPERATORS
    ensures Longest(OPERATORS, w + (" " + rest)) == |w|
  {
    var s := w + (" " + rest);
    var n := Longest(OPERATORS, s);
    EntriesPlain(w);
    assert w <= s && s[|w|] == ' ';
    TableEntries(s[..n]);
    if n > |w| { EntryBlank(s[..n], |w|); }
  }

  lemma {:induction false} SymbolNext(w: string, rest: string)
    requires w in OPERATORS
    ensures Begins(w) && Next(OPERATORS, w + (" " + rest)) == Got(OperatorToken(w), " " + rest)
  {
    EntriesPlain(w);
    SymbolRead(w, rest);
    SymbolBegins(w, rest);
    PunctNext(w + (" " + rest));
  }

  lemma {:induction false} SymbolRead(w: string, rest: string)
    requires w in OPERATORS && Begins(w)
    ensures ReadOperator(OPERATORS, w + (" " + rest)) == Got(OperatorToken(w), " " + rest)
  {
    var s := w + (" " + rest);
    SpacedMunch(w, rest);
    assert s[..|w|] == w && s[|w|..] == " " + rest;
  }

  lemma {:induction false} SymbolBegins(w: string, rest: string)
    requires Begins(w)
    ensures var s := w + (" " + rest);
      s != [] && KindOf(s[0]) == Punct && s[0] != '"' && !(s[0] == '/' && (At(s, 1) == '/' || At(s, 1) == '*'))
  {
    var s := w + (" " + rest);
    assert s[0] == w[0] && At(s, 1) == if |w| > 1 then w[1] else ' ';
  }

  lemma {:induction false} PunctNext(s: string)
    requires s != [] && KindOf(s[0]) == Punct && s[0] != '"' && !(s[0] == '/' && (At(s, 1) == '/' || At(s, 1) == '*'))
    ensures Next(OPERATORS, s) == ReadOperator(OPERATORS, s)
  {}

  // ---------------------------------------------------------------- words

  lemma {:induction false} TypeWord(w: string)
    requires TypeKeyword(w).Some?
    ensures w != [] && AllAlphanum(w)
  {}

  lemma {:induction false} OtherWord(w: string)
    requires w in OTHER_KEYWORDS
    ensures w != [] && AllAlphanum(w)
  {}

  lemma {:induction false} KeywordWord(w: string)
    requires Keyword(w).Some?
    ensures w != [] && AllAlphanum(w)
  {
    if TypeKeyword(w).Some? { TypeWord(w); } else if w in OTHER_KEYWORDS { OtherWord(w); }
  }

  lemma {:induction false} WordNext(w: string, rest: string)
    requires w != [] && AllAlphanum(w) && EndsWord(At(rest, 0)) && (Keyword(w).Some? || !Digit(w[0]))
    ensures Next(OPERATORS, w + rest) == Got(if Keyword(w).Some? then Keyword(w).value else Known(Ident(w)), rest)
  {
    WholeWord(w, rest, 1);
    assert (w + rest)[..|w|] == w && (w + rest)[|w|..] == rest;
  }

  // ---------------------------------------------------------------- main result

  lemma {:induction false} ItemNext(i: Item, rest: string)
    requires Legal(i)
    ensures Next(OPERATORS, Written(i) + (" " + rest)) == Got(Meant(i), " " + rest)
  {
    match i
    case Symbol(w) => SymbolNext(w, rest);
    case Key(w) =>
      KeywordWord(w);
      WordNext(w, " " + rest);
    case Identifier(w) => WordNext(w, " " + rest);
    case Numeric(n) => SpelledWord(IntLit(n), " " + rest);
  }

  /** The lexing round trip: every operator of the table, every keyword, every identifier and every number in
      the range of an integer, in any order. */
  lemma {:induction false} LexSpaced(is_: seq<Item>)
    requires AllLegal(is_)
    ensures Lex(OPERATORS, Spaced(is_)) == Some(AllMeant(is_))
  {
    if is_ == [] {
      assert AllMeant(is_) == [];
    } else {
      LexSpaced(is_[1..]);
      ItemThen(is_[0], Spaced(is_[1..]), AllMeant(is_[1..]));
      assert AllMeant(is_) == [Meant(is_[0])] + AllMeant(is_[1..]);
    }
  }

  lemma {:induction false} ItemThen(i: Item, rest: string, ls: seq<Lexeme>)
    requires Legal(i) && Lex(OPERATORS, rest) == Some(ls)
    ensures Lex(OPERATORS, Written(i) + (" " + rest)) == Some([Meant(i)] + ls)
  {
    SpaceSkipped(rest);
    ItemNext(i, rest);
    LexStep(OPERATORS, Written(i) + (" " + rest), Meant(i), " " + rest, ls);
  }

  lemma {:induction false} SpaceSkipped(rest: string)
    ensures Lex(OPERATORS, " " + rest) == Lex(OPERATORS, rest)
  {
    assert (" " + rest)[1..] == rest;
    SameNext(OPERATORS, " " + rest, rest);
  }
}
