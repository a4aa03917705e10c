/** Printed text: tokens and white space, and the tokenizer that reads it back. */
module Texts {
  import opened Syntax
  import opened Lexing

  /** A piece of output. */
  datatype Piece = Tok(t: Token) | Spaces(n: nat) | Newline

  // ---------------------------------------------------------------- spelling

  function OperatorText(op: Operator): string
  {
    match op
    case Add => "+"
    case Sub => "-"
    case Mul => "*"
    case Div => "/"
    case Mod => "%"
    case FheAdd => "+++"
    case FheSub => "---"
    case FheMul => "***"
    case And => "&&"
    case Or => "||"
    case Less => "<"
    case LessEq => "<="
    case Greater => ">"
    case GreaterEq => ">="
    case Equal => "=="
    case NotEqual => "!="
    case BitAnd => "&"
    case BitXor => "^"
    case BitOr => "|"
    case Not => "!"
    case BitNot => "~"
  }

  function TypeText(ty: Type): string
  {
    match ty
    case Void => "void"
    case Bool => "bool"
    case Char => "char"
    case Int => "int"
    case Float => "float"
    case Double => "double"
    case String => "string"
  }

  function Decimal(n: nat): (w: string)
    ensures w != []
  {
    if n < 10 then [('0' as int + n) as char] else Decimal(n / 10) + [('0' as int + n % 10) as char]
  }

  predicate Name(x: string)
  {
    x != [] && !Digit(x[0]) && (forall i :: 0 <= i < |x| ==> KindOf(x[i]) == Alphanum) && Keyword(x).None?
  }

  /** Names are identifiers and numbers fit a 32-bit integer. */
  predicate Spellable(t: Token)
  {
    match t
    case Unsupported => false
    case Postfix => false
    case StringLit(_) => false
    case End => false
    case IntLit(n) => 0 <= n < 0x8000_0000
    case Ident(x) => Name(x)
    case _ => true
  }

  function Spelling(t: Token): string
    requires Spellable(t)
  {
    match t
    case Op(op) => OperatorText(op)
    case IntLit(n) => Decimal(n)
    case True => "true"
    case False => "false"
    case Ident(x) => x
    case OpenRound => "("
    case CloseRound => ")"
    case OpenSquare => "["
    case CloseSquare => "]"
    case OpenCurly => "{"
    case CloseCurly => "}"
    case Comma => ","
    case Semicolon => ";"
    case Assign => "="
    case Rotate => "rotate"
    case If => "if"
    case Else => "else"
    case For => "for"
    case Public => "public"
    case Return => "return"
    case Secret => "secret"
    case TypeName(ty) => TypeText(ty)
  }

  predicate Wordlike(t: Token)
  {
    t.IntLit? || t.True? || t.False? || t.Ident? || t.Rotate? || t.If? || t.Else? || t.For? || t.Public? || t.Return? || t.Secret? || t.TypeName?
  }

  // ---------------------------------------------------------------- what may follow

  /** The character ends a word. */
  predicate EndsWord(c: char) { KindOf(c) != Alphanum && c != '.' }

  /** With this character an operator of one character would go on, or a comment begin. */
  predicate Continues(a: char, c: char)
  {
    match a
    case '+' => c == '+' || c == '='
    case '-' => c == '-' || c == '='
    case '*' => c == '*' || c == '='
    case '/' => c == '/' || c == '*' || c == '='
    case '%' => c == '='
    case '&' => c == '&' || c == '='
    case '|' => c == '|' || c == '='
    case '^' => c == '='
    case '<' => c == '<' || c == '='
    case '>' => c == '>' || c == '='
    case '=' => c == '='
    case '!' => c == '='
    case '.' => c == '.'
    case '\\' => c == '='
    case _ => false
  }

  predicate Follows(t: Token, c: char)
    requires Spellable(t)
  {
    if Wordlike(t) then EndsWord(c) else |Spelling(t)| == 1 ==> !Continues(Spelling(t)[0], c)
  }

  // ---------------------------------------------------------------- operators

  /** The table holds single characters, pairs and triples. */
  predicate Entry(w: string)
  {
    || |w| == 1
    || (|w| == 2 && Continues(w[0], w[1]) && !(w[0] == '*' && w[1] == '*'))
    || (|w| == 3 && w[0] == w[1] && (Thrice(w[0], w[2]) || (Doubles(w[0]) && w[2] == '=')))
  }

  predicate Thrice(a: char, c: char) { a == c && (a == '+' || a == '-' || a == '*') }

  predicate Doubles(a: char) { a == '.' || a == '<' || a == '>' }

  lemma {:induction false} TableEntries(w: string)
    requires w in OPERATORS
    ensures Entry(w)
  {
    if w in ARITHMETIC { ArithmeticEntries(w); } else if w in ASSIGNMENTS { AssignmentEntries(w); }
  }

  lemma {:induction false} ArithmeticEntries(w: string)
    requires w in ARITHMETIC
    ensures Entry(w)
  {}

  lemma {:induction false} AssignmentEntries(w: string)
    requires w in ASSIGNMENTS
    ensures Entry(w)
  {}

  lemma {:induction false} OperatorEntry(op: Operator)
    ensures OperatorText(op) in OPERATORS
  {
    var w := OperatorText(op);
  }

  lemma {:induction false} OperatorMeaning(op: Operator)
    ensures var w := OperatorText(op); OperatorToken(w) == Known(Op(op)) && KindOf(w[0]) == Punct && w[0] != '"'
  {}

  lemma {:induction false} PunctuationEntry(t: Token)
    requires Spellable(t) && !Wordlike(t) && !t.Op?
    ensures Spelling(t) in OPERATORS
  {
    if t.Assign? { assert ASSIGNMENTS[0] == Spelling(t); } else { assert Spelling(t) in PUNCTUATION; }
  }

  lemma {:induction false} PunctuationMeaning(t: Token)
    requires Spellable(t) && !Wordlike(t) && !t.Op?
    ensures var w := Spelling(t); w != [] && OperatorToken(w) == Known(t) && KindOf(w[0]) == Punct && w[0] != '"'
  {}

  lemma {:induction false} SpelledEntry(t: Token)
    requires Spellable(t) && !Wordlike(t)
    ensures Spelling(t) in OPERATORS && OperatorToken(Spelling(t)) == Known(t)
    ensures KindOf(Spelling(t)[0]) == Punct && Spelling(t)[0] != '"'
  {
    if t.Op? {
      OperatorEntry(t.op);
      OperatorMeaning(t.op);
    } else {
      PunctuationEntry(t);
      PunctuationMeaning(t);
    }
  }

  /** Nothing longer than a spelled operator matches when what follows cannot continue it. */
  lemma {:induction false} NothingLonger(t: Token, w: string, s: string)
    requires Spellable(t) && !Wordlike(t) && Entry(w) && w <= s && Spelling(t) <= s
    requires Follows(t, At(s, |Spelling(t)|))
    ensures |w| <= |Spelling(t)|
  {}

  /** Maximal munch stops at the end of a spelled operator. */
  lemma {:induction false} SpelledMunch(t: Token, rest: string)
    requires Spellable(t) && !Wordlike(t) && Follows(t, At(rest, 0))
    ensures Longest(OPERATORS, Spelling(t) + rest) == |Spelling(t)|
  {
    var u := Spelling(t);
    var s := u + rest;
    var n := Longest(OPERATORS, s);
    SpelledEntry(t);
    assert u <= s;
    TableEntries(s[..n]);
    NothingLonger(t, s[..n], s);
  }

  // ---------------------------------------------------------------- words

  predicate AllAlphanum(w: string) { forall i :: 0 <= i < |w| ==> KindOf(w[i]) == Alphanum }

  lemma {:induction false} WholeWord(w: string, rest: string, i: nat)
    requires AllAlphanum(w) && 0 < i <= |w| && EndsWord(At(rest, 0))
    ensures KindOf((w + rest)[0]) == Alphanum && WordLength(w + rest, i) == |w|
    decreases |w| - i
  {
    var s := w + rest;
    assert At(s, i) == if i < |w| then w[i] else At(rest, 0);
    assert s[i - 1] == w[i - 1];
    if i < |w| { WholeWord(w, rest, i + 1); }
  }

  lemma {:induction false} DecimalDigits(n: nat)
    ensures AllDigits(Decimal(n)) && (Decimal(n)[0] == '0' ==> n == 0)
  {
    if n >= 10 { DecimalDigits(n / 10); }
  }

  predicate AllDigits(w: string) { forall i :: 0 <= i < |w| ==> Digit(w[i]) }

  /** Reading what was printed gives the number back. */
  lemma {:induction false} DecimalNumeral(n: nat)
    ensures Numeral(Decimal(n), 10) == Some(n)
  {
    if n >= 10 {
      DecimalNumeral(n / 10);
      assert Decimal(n)[..|Decimal(n)| - 1] == Decimal(n / 10);
    } else {
      assert Decimal(n)[..0] == [];
    }
  }

  lemma {:induction false} DecimalInteger(n: nat)
    requires n < 0x8000_0000
    ensures Integer(Decimal(n)) == Some(n)
  {
    DecimalDigits(n);
    DecimalNumeral(n);
    if n == 0 {
      assert Decimal(0) == "0" && "0"[..0] == [];
      assert Numeral("0", 8) == Some(0);
    }
  }

  /** A word that begins with a digit is no keyword. */
  lemma {:induction false} DigitNoKeyword(w: string)
    requires w != [] && Digit(w[0])
    ensures Keyword(w).None?
  {}

  predicate Fixed(t: Token) { t.True? || t.False? || t.Rotate? || t.If? || t.Else? || t.For? || t.Public? || t.Return? || t.Secret? || t.TypeName? }

  lemma {:induction false} KeywordLetters(t: Token)
    requires Fixed(t)
    ensures Spelling(t) != [] && AllAlphanum(Spelling(t))
  {}

  lemma {:induction false} TypeMeaning(ty: Type)
    ensures Keyword(TypeText(ty)) == Some(Known(TypeName(ty)))
  {}

  lemma {:induction false} KeywordMeaning(t: Token)
    requires Fixed(t)
    ensures Keyword(Spelling(t)) == Some(Known(t))
  {
    match t
    case TypeName(ty) => TypeMeaning(ty);
    case True => assert Keyword("true") == Some(Known(True));
    case False => assert Keyword("false") == Some(Known(False));
    case Rotate => assert Keyword("rotate") == Some(Known(Rotate));
    case If => assert Keyword("if") == Some(Known(If));
    case Else => assert Keyword("else") == Some(Known(Else));
    case For => assert Keyword("for") == Some(Known(For));
    case Public => assert Keyword("public") == Some(Known(Public));
    case Return => assert Keyword("return") == Some(Known(Token.Return));
    case Secret => assert Keyword("secret") == Some(Known(Secret));
  }

  lemma {:induction false} SpelledWord(t: Token, rest: string)
    requires Spellable(t) && Wordlike(t) && EndsWord(At(rest, 0))
    ensures Spelling(t) != [] && AllAlphanum(Spelling(t)) && Next(OPERATORS, Spelling(t) + rest) == Got(Known(t), rest)
  {
    var w := Spelling(t);
    if t.IntLit? {
      DecimalDigits(t.n);
      DecimalInteger(t.n);
      DigitNoKeyword(w);
    } else if !t.Ident? {
      KeywordMeaning(t);
      KeywordLetters(t);
    }
    WholeWord(w, rest, 1);
    assert (w + rest)[..|w|] == w && (w + rest)[|w|..] == rest;
  }

  lemma {:induction false} SpelledOperator(t: Token, rest: string)
    requires Spellable(t) && !Wordlike(t) && Follows(t, At(rest, 0))
    ensures Spelling(t) != [] && Next(OPERATORS, Spelling(t) + rest) == Got(Known(t), rest)
  {
    var w := Spelling(t);
    var s := w + rest;
    SpelledEntry(t);
    SpelledMunch(t, rest);
    assert s[..|w|] == w && s[|w|..] == rest;
    NoComment(t, rest);
    assert Next(OPERATORS, s) == ReadOperator(OPERATORS, s);
  }

  lemma {:induction false} NoComment(t: Token, rest: string)
    requires Spellable(t) && !Wordlike(t) && Follows(t, At(rest, 0))
    ensures var s := Spelling(t) + rest; s != [] && !(s[0] == '/' && (At(s, 1) == '/' || At(s, 1) == '*'))
  {}

  // ---------------------------------------------------------------- whole texts

  function Blanks(n: nat): string { seq(n, i => ' ') }

  function Shown(p: Piece): string
    requires p.Tok? ==> Spellable(p.t)
  {
    match p
    case Tok(t) => Spelling(t)
    case Spaces(n) => Blanks(n)
    case Newline => "\n"
  }

  predicate AllSpellable(ps: seq<Piece>) { forall i :: 0 <= i < |ps| && ps[i].Tok? ==> Spellable(ps[i].t) }

  function Render(ps: seq<Piece>): string
    requires AllSpellable(ps)
  {
    if ps == [] then [] else Shown(ps[0]) + Render(ps[1..])
  }

  function Tokens(ps: seq<Piece>): seq<Token>
  {
    if ps == [] then [] else TokenIn(ps[0]) + Tokens(ps[1..])
  }

  function TokenIn(p: Piece): seq<Token> { if p.Tok? then [p.t] else [] }

  function Lexemes(ts: seq<Token>): (ls: seq<Lexeme>)
    ensures |ls| == |ts| && forall i :: 0 <= i < |ts| ==> ls[i] == Known(ts[i])
  {
    seq(|ts|, i requires 0 <= i < |ts| => Known(ts[i]))
  }

  /** No token runs into the text behind it; c comes after the last piece. */
  predicate Separate(ps: seq<Piece>, c: char)
  {
    ps == [] || (
      && AllSpellable(ps) && Separate(ps[1..], c)
      && (ps[0].Tok? ==> Follows(ps[0].t, FirstOf(ps[1..], c))))
  }

  function FirstOf(ps: seq<Piece>, c: char): char
    requires AllSpellable(ps)
  {
    if Render(ps) == [] then c else Render(ps)[0]
  }

  lemma {:induction false} SkipsBlanks(n: nat, rest: string)
    ensures Next(OPERATORS, Blanks(n) + rest) == Next(OPERATORS, rest)
  {
    if n == 0 {
      assert Blanks(n) + rest == rest;
    } else {
      assert (Blanks(n) + rest)[0] == ' ' && (Blanks(n) + rest)[1..] == Blanks(n - 1) + rest;
      SkipsBlanks(n - 1, rest);
    }
  }

  lemma {:induction false} BlankNext(p: Piece, rest: string)
    requires !p.Tok?
    ensures Next(OPERATORS, Shown(p) + rest) == Next(OPERATORS, rest)
  {
    if p.Spaces? { SkipsBlanks(p.n, rest); } else { assert ("\n" + rest)[1..] == rest; }
  }

  lemma {:induction false} TokenNext(t: Token, rest: string)
    requires Spellable(t) && Follows(t, At(rest, 0))
    ensures Next(OPERATORS, Spelling(t) + rest) == Got(Known(t), rest)
  {
    if Wordlike(t) { SpelledWord(t, rest); } else { SpelledOperator(t, rest); }
  }

  lemma {:induction false} SameNext(table: seq<string>, s: string, r: string)
    requires Next(table, s) == Next(table, r)
    ensures Lex(table, s) == Lex(table, r)
  {}

  lemma {:induction false} LexStep(table: seq<string>, s: string, l: Lexeme, rest: string, ls: seq<Lexeme>)
    requires Next(table, s) == Got(l, rest) && Lex(table, rest) == Some(ls)
    ensures Lex(table, s) == Some([l] + ls)
  {}

  lemma {:induction false} LexToken(t: Token, rest: string, ts: seq<Token>)
    requires Spellable(t) && Follows(t, At(rest, 0)) && Lex(OPERATORS, rest) == Some(Lexemes(ts))
    ensures Lex(OPERATORS, Spelling(t) + rest) == Some(Lexemes([t] + ts))
  {
    TokenNext(t, rest);
    LexGot(OPERATORS, Spelling(t) + rest, t, rest, ts);
  }

  lemma {:induction false} LexGot(table: seq<string>, s: string, t: Token, rest: string, ts: seq<Token>)
    requires Next(table, s) == Got(Known(t), rest) && Lex(table, rest) == Some(Lexemes(ts))
    ensures Lex(table, s) == Some(Lexemes([t] + ts))
  {
    LexStep(table, s, Known(t), rest, Lexemes(ts));
    assert Lexemes([t] + ts) == [Known(t)] + Lexemes(ts);
  }

  lemma {:induction false} LexBlank(p: Piece, rest: string)
    requires !p.Tok?
    ensures Lex(OPERATORS, Shown(p) + rest) == Lex(OPERATORS, rest)
  {
    BlankNext(p, rest);
    SameNext(OPERATORS, Shown(p) + rest, rest);
  }

  /** The tokenizer reads the tokens of a text back, in order, when none runs into the next. */
  lemma {:induction false} LexRender(ps: seq<Piece>)
    requires AllSpellable(ps) && Separate(ps, END_OF_FILE)
    ensures Lex(OPERATORS, Render(ps)) == Some(Lexemes(Tokens(ps)))
  {
    if ps == [] {
      assert Lexemes(Tokens(ps)) == [];
    } else {
      LexRender(ps[1..]);
      if ps[0].Tok? {
        assert FirstOf(ps[1..], END_OF_FILE) == At(Render(ps[1..]), 0);
        LexToken(ps[0].t, Render(ps[1..]), Tokens(ps[1..]));
      } else {
        LexBlank(ps[0], Render(ps[1..]));
        assert Tokens(ps) == Tokens(ps[1..]);
      }
    }
  }
}
