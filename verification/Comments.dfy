/** Comments: whatever stands in one, the tokenizer reads what it would read without it. */
module Comments {
  import opened Syntax
  import opened Lexing
  import opened Texts
  import opened Literals
  import Spacing

  /** No character is negative, which would end the input. */
  predicate Ascii(u: string) { forall i :: 0 <= i < |u| ==> u[i] as int < 128 }

  // ---------------------------------------------------------------- line comments

  lemma {:induction false} LineSkipped(u: string, rest: string)
    requires Ascii(u) && '\n' !in u
    ensures AfterLine(u + ("\n" + rest)) == rest && AfterLine(u) == []
  {
    var s := u + ("\n" + rest);
    if u == [] {
      assert s[0] == '\n' && s[1..] == rest;
    } else {
      assert s[0] == u[0] && s[1..] == u[1..] + ("\n" + rest);
      LineSkipped(u[1..], rest);
    }
  }

  lemma {:induction false} LineNext(table: seq<string>, more: string)
    ensures Next(table, "//" + more) == Next(table, AfterLine(more))
  {
    var s := "//" + more;
    assert s[0] == '/' && s[1] == '/' && s[2..] == more;
  }

  /** A line comment ends with its line; the rest of the text is read as if it stood alone. */
  lemma {:induction false} LineComment(table: seq<string>, u: string, rest: string)
    requires Ascii(u) && '\n' !in u
    ensures Lex(table, "//" + (u + ("\n" + rest))) == Lex(table, rest)
  {
    LineSkipped(u, rest);
    LineNext(table, u + ("\n" + rest));
    SameNext(table, "//" + (u + ("\n" + rest)), rest);
  }

  /** On the last line it ends with the text. */
  lemma {:induction false} LastComment(table: seq<string>, u: string)
    requires Ascii(u) && '\n' !in u
    ensures Lex(table, "//" + u) == Some([])
  {
    LineSkipped(u, []);
    LineNext(table, u);
  }

  // ---------------------------------------------------------------- block comments

  // No star with a slash behind it.
  predicate Open(u: string) { forall i :: 0 < i < |u| ==> !(u[i - 1] == '*' && u[i] == '/') }

  lemma {:induction false} BlockSkipped(u: string, star: bool, rest: string)
    requires Ascii(u) && Open(u) && !(star && u != [] && u[0] == '/')
    ensures AfterBlock(u + ("*/" + rest), star) == Some(rest) && AfterBlock(u, star) == None
  {
    var s := u + ("*/" + rest);
    if u == [] {
      assert s[0] == '*' && s[1..][0] == '/' && s[1..][1..] == rest;
    } else {
      assert s[0] == u[0] && s[1..] == u[1..] + ("*/" + rest);
      forall i | 0 < i < |u[1..]| ensures !(u[1..][i - 1] == '*' && u[1..][i] == '/') { assert u[1..][i] == u[i + 1] && u[1..][i - 1] == u[i]; }
      BlockSkipped(u[1..], u[0] == '*', rest);
    }
  }

  lemma {:induction false} BlockNext(table: seq<string>, more: string)
    ensures Next(table, "/*" + more) == if AfterBlock(more, false).Some? then Next(table, AfterBlock(more, false).value) else Bad
  {
    var s := "/*" + more;
    assert s[0] == '/' && s[1] == '*' && s[2..] == more;
  }

  /** A block comment ends with the first star that has a slash behind it; the rest of the text is
      read as if it stood alone. */
  lemma {:induction false} BlockComment(table: seq<string>, u: string, rest: string)
    requires Ascii(u) && Open(u)
    ensures Lex(table, "/*" + (u + ("*/" + rest))) == Lex(table, rest)
  {
    BlockSkipped(u, false, rest);
    BlockNext(table, u + ("*/" + rest));
    SameNext(table, "/*" + (u + ("*/" + rest)), rest);
  }

  /** One that is never closed is an error. */
  lemma {:induction false} OpenComment(table: seq<string>, u: string)
    requires Ascii(u) && Open(u)
    ensures Lex(table, "/*" + u) == None
  {
    BlockSkipped(u, false, []);
    BlockNext(table, u);
  }

  // ---------------------------------------------------------------- texts with comments

  /** What a program text consists of; a blank stands behind every token. */
  datatype Part =
    | Item(item: Spacing.Item)
    | Quoted(signs: seq<Sign>)
    | Hexadecimal(figures: seq<Figure>)
    | Blank(c: char)
    | Remark(u: string)
    | Block(u: string)

  const BLANKS := " \t\n\r"

  predicate Proper(p: Part)
  {
    match p
    case Item(i) => Spacing.Legal(i)
    case Quoted(ss) => AllWritable(ss)
    case Hexadecimal(fs) => fs != [] && Figures(fs, 16) && fs[|fs| - 1] != Figure(15, false) && Value(fs, 16) < 0x8000_0000
    case Blank(c) => c in BLANKS
    case Remark(u) => Ascii(u) && '\n' !in u
    case Block(u) => Ascii(u) && Open(u)
  }

  predicate AllProper(ps: seq<Part>) { forall i :: 0 <= i < |ps| ==> Proper(ps[i]) }

  function PartText(p: Part, rest: string): string
    requires Proper(p)
  {
    match p
    case Item(i) => Spacing.Written(i) + (" " + rest)
    case Quoted(ss) => "\"" + (Signs(ss) + ("\"" + (" " + rest)))
    case Hexadecimal(fs) => HexText(fs, false) + (" " + rest)
    case Blank(c) => [c] + rest
    case Remark(u) => "//" + (u + ("\n" + rest))
    case Block(u) => "/*" + (u + ("*/" + rest))
  }

  function PartMeans(p: Part): seq<Lexeme>
    requires Proper(p)
  {
    match p
    case Item(i) => [Spacing.Meant(i)]
    case Quoted(ss) => [Known(StringLit(Senses(ss)))]
    case Hexadecimal(fs) => [Known(IntLit(Value(fs, 16)))]
    case _ => []
  }

  function Written(ps: seq<Part>): string
    requires AllProper(ps)
  {
    if ps == [] then [] else PartText(ps[0], Written(ps[1..]))
  }

  function Meant(ps: seq<Part>): seq<Lexeme>
    requires AllProper(ps)
  {
    if ps == [] then [] else PartMeans(ps[0]) + Meant(ps[1..])
  }

  lemma {:induction false} BlankSkipped(c: char, rest: string)
    requires c in BLANKS
    ensures Lex(OPERATORS, [c] + rest) == Lex(OPERATORS, rest)
  {
    assert ([c] + rest)[0] == c && ([c] + rest)[1..] == rest;
    SameNext(OPERATORS, [c] + rest, rest);
  }

  lemma {:induction false} LiteralThen(s: string, l: Lexeme, rest: string, ls: seq<Lexeme>)
    requires Next(OPERATORS, s) == Got(l, " " + rest) && Lex(OPERATORS, rest) == Some(ls)
    ensures Lex(OPERATORS, s) == Some([l] + ls)
  {
    Spacing.SpaceSkipped(rest);
    LexStep(OPERATORS, s, l, " " + rest, ls);
  }

  lemma {:induction false} HexThen(fs: seq<Figure>, rest: string, ls: seq<Lexeme>)
    requires Proper(Hexadecimal(fs)) && Lex(OPERATORS, rest) == Some(ls)
    ensures Lex(OPERATORS, HexText(fs, false) + (" " + rest)) == Some([Known(IntLit(Value(fs, 16)))] + ls)
  {
    var n := HexExact(OPERATORS, fs, false, " " + rest);
    LiteralThen(HexText(fs, false) + (" " + rest), Known(IntLit(n)), rest, ls);
  }

  lemma {:induction false} PartRead(p: Part, rest: string, ls: seq<Lexeme>)
    requires Proper(p) && Lex(OPERATORS, rest) == Some(ls)
    ensures Lex(OPERATORS, PartText(p, rest)) == Some(PartMeans(p) + ls)
  {
    assert [] + ls == ls;
    match p
    case Item(i) => Spacing.ItemThen(i, rest, ls);
    case Quoted(ss) =>
      StringRead(OPERATORS, ss, " " + rest);
      LiteralThen(PartText(p, rest), Known(StringLit(Senses(ss))), rest, ls);
    case Hexadecimal(fs) => HexThen(fs, rest, ls);
    case Blank(c) => BlankSkipped(c, rest);
    case Remark(u) => LineComment(OPERATORS, u, rest);
    case Block(u) => BlockComment(OPERATORS, u, rest);
  }

  /** A text of tokens, literals, white space and comments in any order is tokenized to what the tokens and literals
      mean, in this order. */
  lemma {:induction false} LexCommented(ps: seq<Part>)
    requires AllProper(ps)
    ensures Lex(OPERATORS, Written(ps)) == Some(Meant(ps))
  {
    if ps != [] {
      LexCommented(ps[1..]);
      PartRead(ps[0], Written(ps[1..]), Meant(ps[1..]));
    }
  }
}
