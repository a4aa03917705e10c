/** The reserved words, brackets and operators of the language and the token each one stands for. */
module Vocabulary {
  import opened Syntax
  import opened Lexing
  import opened Texts
  import Literals
  import Precedence
  import Spacing

  datatype Entry = Entry(text: string, token: Token)

  const STATEMENT_WORDS: seq<Entry> :=
    [Entry("if", If), Entry("else", Else), Entry("for", For), Entry("return", Token.Return), Entry("public", Public),
     Entry("secret", Secret), Entry("rotate", Rotate), Entry("true", True), Entry("false", False)]

  const TYPE_WORDS: seq<Entry> :=
    [Entry("bool", TypeName(Bool)), Entry("char", TypeName(Char)), Entry("int", TypeName(Int)), Entry("float", TypeName(Float)),
     Entry("double", TypeName(Type.Double)), Entry("string", TypeName(String)), Entry("void", TypeName(Void))]

  const BRACKETS: seq<Entry> :=
    [Entry("(", OpenRound), Entry(")", CloseRound), Entry("[", OpenSquare), Entry("]", CloseSquare),
     Entry("{", OpenCurly), Entry("}", CloseCurly), Entry(",", Comma), Entry(";", Semicolon), Entry("=", Assign)]

  predicate Word(e: Entry) { e in STATEMENT_WORDS || e in TYPE_WORDS }

  /** Brackets and the like, and the operators as `Precedence` lists them. */
  predicate Sign(e: Entry) { e in BRACKETS || (e.token.Op? && Precedence.Entry(e.text, e.token.op) in Precedence.SPELLINGS) }

  lemma {:induction false} StatementWord(e: Entry)
    requires e in STATEMENT_WORDS
    ensures Fixed(e.token) && Spellable(e.token) && Spelling(e.token) == e.text
  {}

  lemma {:induction false} TypeWord(e: Entry)
    requires e in TYPE_WORDS
    ensures Fixed(e.token) && Spellable(e.token) && Spelling(e.token) == e.text
  {}

  lemma {:induction false} BracketSign(e: Entry)
    requires e in BRACKETS
    ensures Spellable(e.token) && !Wordlike(e.token) && Spelling(e.token) == e.text && |e.text| == 1
  {}

  lemma {:induction false} SignSpelled(e: Entry)
    requires Sign(e)
    ensures Spellable(e.token) && !Wordlike(e.token) && Spelling(e.token) == e.text
  {
    if e in BRACKETS { BracketSign(e); } else { Precedence.SpellingText(Precedence.Entry(e.text, e.token.op)); }
  }

  lemma {:induction false} WordSpelled(e: Entry)
    requires Word(e)
    ensures Fixed(e.token) && Spellable(e.token) && Wordlike(e.token) && Spelling(e.token) == e.text
  {
    if e in STATEMENT_WORDS { StatementWord(e); } else { TypeWord(e); }
  }

  /** A reserved word is read as its token wherever a word may end. */
  lemma {:induction false} WordRead(e: Entry, rest: string)
    requires Word(e) && EndsWord(At(rest, 0))
    ensures Next(OPERATORS, e.text + rest) == Got(Known(e.token), rest)
  {
    WordSpelled(e);
    SpelledWord(e.token, rest);
  }

  lemma {:induction false} BlankFollows(t: Token)
    requires Spellable(t)
    ensures Follows(t, ' ')
  {}

  /** A sign is read as its token when a blank comes behind it. */
  lemma {:induction false} SignRead(e: Entry, rest: string)
    requires Sign(e)
    ensures Next(OPERATORS, e.text + (" " + rest)) == Got(Known(e.token), " " + rest)
  {
    SignSpelled(e);
    BlankFollows(e.token);
    SpelledOperator(e.token, " " + rest);
  }

  /** The printer writes every token of fixed text as the language spells it. */
  lemma {:induction false} TokenWritten(t: Token) returns (e: Entry)
    requires Spellable(t) && !t.IntLit? && !t.Ident?
    ensures (Word(e) || Sign(e)) && e.token == t && Spelling(t) == e.text
  {
    e := Entry(Spelling(t), t);
    if t.Op? {
      OperatorListed(t.op);
    } else if t.TypeName? {
      TypeListed(t.ty);
    } else if Wordlike(t) {
      WordListed(t);
    } else {
      BracketListed(t);
    }
  }

  lemma {:induction false} OperatorListed(op: Operator)
    ensures Precedence.Entry(OperatorText(op), op) in Precedence.SPELLINGS
  {}

  lemma {:induction false} TypeListed(ty: Type)
    ensures Entry(TypeText(ty), TypeName(ty)) in TYPE_WORDS
  {}

  lemma {:induction false} WordListed(t: Token)
    requires Fixed(t) && !t.TypeName?
    ensures Entry(Spelling(t), t) in STATEMENT_WORDS
  {}

  lemma {:induction false} BracketListed(t: Token)
    requires Spellable(t) && !Wordlike(t) && !t.Op?
    ensures Entry(Spelling(t), t) in BRACKETS
  {}

  // ---------------------------------------------------------------- characters and names

  /** Letters, digits and the underscore make words; blanks and what a line ends with separate; a character from 128 on
      is negative and ends the input; the rest is punctuation. */
  lemma {:induction false} CharacterKinds(c: char)
    ensures KindOf(c) == Alphanum <==> 'a' <= c <= 'z' || 'A' <= c <= 'Z' || '0' <= c <= '9' || c == '_'
    ensures KindOf(c) == Space <==> c == ' ' || c == '\t' || c == '\n' || c == '\r' || c == 11 as char || c == 12 as char
    ensures KindOf(c) == Eof <==> c >= 128 as char
  {}

  /** Words that are reserved though the trees have no place for them. */
  const UNUSED_WORDS := ["sizeof", "tostring", "elif", "switch", "case", "default", "while", "do", "break", "continue", "function"]

  ghost predicate ReservedWord(w: string)
  {
    w in UNUSED_WORDS || exists e :: Word(e) && e.text == w
  }

  lemma {:induction false} KeywordExact(w: string)
    ensures Keyword(w).Some? <==> ReservedWord(w)
  {
    UnusedExact(w);
    if Keyword(w).Some? && Keyword(w).value.Known? { KeywordListed(w, Keyword(w).value.t); }
    if e :| Word(e) && e.text == w { WordKeyword(e); }
    if w in OTHER_KEYWORDS { UnusedKeyword(w); }
    if Keyword(w).Some? && !Keyword(w).value.Known? { ReservedKeyword(w); }
  }

  lemma {:induction false} UnusedExact(w: string)
    ensures w in UNUSED_WORDS <==> w in OTHER_KEYWORDS
  {
    assert UNUSED_WORDS == OTHER_KEYWORDS;
  }

  lemma {:induction false} UnusedKeyword(w: string)
    requires w in OTHER_KEYWORDS
    ensures Keyword(w).Some?
  {}

  lemma {:induction false} ReservedKeyword(w: string)
    requires Keyword(w).Some? && !Keyword(w).value.Known?
    ensures w in OTHER_KEYWORDS
  {}

  lemma {:induction false} WordKeyword(e: Entry)
    requires Word(e)
    ensures Keyword(e.text).Some?
  {
    WordSpelled(e);
    KeywordMeaning(e.token);
  }

  lemma {:induction false} KeywordListed(w: string, t: Token)
    requires Keyword(w) == Some(Known(t))
    ensures Word(Entry(w, t))
  {
    if TypeKeyword(w).Some? {
      TypeKeywordOf(w, t);
      TypeKeywordListed(w);
      assert Entry(w, t) in TYPE_WORDS;
    } else {
      StatementWordListed(w, t);
    }
  }

  lemma {:induction false} StatementWordListed(w: string, t: Token)
    requires TypeKeyword(w).None? && Keyword(w) == Some(Known(t))
    ensures Entry(w, t) in STATEMENT_WORDS
  {
    var k := match t case If => 0 case Else => 1 case For => 2 case Return => 3 case Public => 4 case Secret => 5
      case Rotate => 6 case True => 7 case _ => 8;
    assert STATEMENT_WORDS[k] == Entry(w, t);
  }

  lemma {:induction false} TypeKeywordOf(w: string, t: Token)
    requires TypeKeyword(w).Some? && Keyword(w) == Some(Known(t))
    ensures t == TypeName(TypeKeyword(w).value)
  {}

  lemma {:induction false} TypeKeywordListed(w: string)
    requires TypeKeyword(w).Some?
    ensures Entry(w, TypeName(TypeKeyword(w).value)) in TYPE_WORDS
  {
    var k := match TypeKeyword(w).value case Bool => 0 case Char => 1 case Int => 2 case Float => 3 case Double => 4 case String => 5 case Void => 6;
    assert TYPE_WORDS[k] == Entry(w, TypeName(TypeKeyword(w).value));
  }

  predicate WordCharacter(c: char) { 'a' <= c <= 'z' || 'A' <= c <= 'Z' || '0' <= c <= '9' || c == '_' }

  /** A word of letters, digits and underscores is read as a name exactly when no digit begins it and it is not
      reserved. */
  lemma {:induction false} NameExact(x: string, rest: string)
    requires x != [] && (forall i :: 0 <= i < |x| ==> WordCharacter(x[i])) && EndsWord(At(rest, 0))
    ensures Next(OPERATORS, x + rest) == Got(Known(Ident(x)), rest) <==> !('0' <= x[0] <= '9') && !ReservedWord(x)
  {
    forall i | 0 <= i < |x| ensures KindOf(x[i]) == Alphanum { CharacterKinds(x[i]); }
    KeywordExact(x);
    if Digit(x[0]) {
      NumberNoName(x, rest);
    } else {
      Spacing.WordNext(x, rest);
      if Keyword(x).Some? { KeywordNoName(x); }
    }
  }

  lemma {:induction false} NumberNoName(x: string, rest: string)
    requires x != [] && Digit(x[0]) && AllAlphanum(x) && EndsWord(At(rest, 0))
    ensures Next(OPERATORS, x + rest) != Got(Known(Ident(x)), rest)
  {
    Literals.WordRead(OPERATORS, x, rest);
  }

  lemma {:induction false} KeywordNoName(x: string)
    requires Keyword(x).Some?
    ensures Keyword(x).value != Known(Ident(x))
  {}

  // ---------------------------------------------------------------- operators without a place in the trees

  const UNSUPPORTED := ["\\", "..", "<<", ">>"]

  const COUNTERS := ["++", "--"]

  const LONG_ASSIGNMENTS := ["+=", "-=", "..=", "*=", "/=", "\\=", "%=", "&=", "|=", "^=", "<<=", ">>="]

  const UNUSED_SIGNS := LONG_ASSIGNMENTS + ["?", ":"]

  /** The signs the expression parser refuses, steps over or stops at. */
  lemma {:induction false} OtherSigns(w: string, rest: string)
    requires w in UNSUPPORTED || w in COUNTERS || w in UNUSED_SIGNS
    ensures Next(OPERATORS, w + (" " + rest))
         == Got(if w in UNSUPPORTED then Known(Unsupported) else if w in COUNTERS then Known(Postfix) else Reserved(w), " " + rest)
  {
    if w in UNSUPPORTED { UnsupportedSign(w); } else if w in COUNTERS { CounterSign(w); } else { UnusedSign(w); }
    Spacing.SymbolNext(w, rest);
  }

  lemma {:induction false} UnsupportedSign(w: string)
    requires w in UNSUPPORTED
    ensures w in OPERATORS && w != [] && OperatorToken(w) == Known(Unsupported)
  {
    assert w in ARITHMETIC || w in BITWISE by {
      assert ARITHMETIC[5] == "\\" && ARITHMETIC[11] == ".." && BITWISE[4] == "<<" && BITWISE[5] == ">>";
    }
  }

  lemma {:induction false} CounterSign(w: string)
    requires w in COUNTERS
    ensures w in OPERATORS && w !in UNSUPPORTED && w != [] && OperatorToken(w) == Known(Postfix)
  {
    assert w in ARITHMETIC by { assert ARITHMETIC[9] == "++" && ARITHMETIC[10] == "--"; }
  }

  lemma {:induction false} UnusedSign(w: string)
    requires w in UNUSED_SIGNS
    ensures w in OPERATORS && w !in UNSUPPORTED && w !in COUNTERS && w != [] && OperatorToken(w) == Reserved(w)
  {
    if w in LONG_ASSIGNMENTS {
      LongAssignment(w);
    } else {
      assert w == "?" || w == ":";
      assert PUNCTUATION[8] == "?" && PUNCTUATION[9] == ":";
    }
  }

  lemma {:induction false} LongAssignment(w: string)
    requires w in LONG_ASSIGNMENTS
    ensures w in ASSIGNMENTS && w !in UNSUPPORTED && w !in COUNTERS && w != [] && OperatorToken(w) == Reserved(w)
  {
    assert ASSIGNMENTS == ["="] + LONG_ASSIGNMENTS;
    AssignmentReserved(w);
  }

  lemma {:induction false} AssignmentReserved(w: string)
    requires w in LONG_ASSIGNMENTS
    ensures |w| > 1 && w[|w| - 1] == '=' && OperatorToken(w) == Reserved(w)
  {}

  /** Characters no sign begins with are an error. */
  lemma {:induction false} UnknownCharacter(c: char, rest: string)
    requires c in "@#$`'." && (c == '.' ==> At(rest, 0) != '.')
    ensures Lex(OPERATORS, [c] + rest) == None
  {
    var s := [c] + rest;
    UnknownPunct(c);
    NothingBegins(c, rest);
    NothingRead(OPERATORS, s);
  }

  lemma {:induction false} NothingRead(table: seq<string>, s: string)
    requires s != [] && KindOf(s[0]) == Punct && s[0] != '"' && s[0] != '/' && Longest(table, s) == 0
    ensures Lex(table, s) == None
  {
    assert At(s, 0) == s[0];
    assert Next(table, s) == ReadOperator(table, s) == Bad;
  }

  lemma {:induction false} UnknownPunct(c: char)
    requires c in "@#$`'."
    ensures KindOf(c) == Punct && c != '"' && c != '/'
  {}

  lemma {:induction false} NothingBegins(c: char, rest: string)
    requires c in "@#$`'." && (c == '.' ==> At(rest, 0) != '.')
    ensures Longest(OPERATORS, [c] + rest) == 0
  {
    var s := [c] + rest;
    var n := Longest(OPERATORS, s);
    if n > 0 { NoSignBegins(s[..n], c); }
  }

  lemma {:induction false} NoSignBegins(w: string, c: char)
    requires w in OPERATORS && w != [] && c in "@#$`'."
    ensures w[0] == c ==> c == '.' && |w| > 1 && w[1] == '.'
  {
    if w in ARITHMETIC { ArithmeticBegins(w); } else if w in ASSIGNMENTS { AssignmentBegins(w); } else if w in LOGIC { LogicBegins(w); }
  }

  lemma {:induction false} ArithmeticBegins(w: string)
    requires w in ARITHMETIC
    ensures w[0] !in "@#$`'" && (w[0] == '.' ==> w[1] == '.')
  {}

  lemma {:induction false} AssignmentBegins(w: string)
    requires w in ASSIGNMENTS
    ensures w[0] !in "@#$`'" && (w[0] == '.' ==> w[1] == '.')
  {}

  lemma {:induction false} LogicBegins(w: string)
    requires w in LOGIC
    ensures w[0] !in "@#$`'."
  {}
}
