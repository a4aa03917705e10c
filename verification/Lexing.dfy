/** Characters to tokens: what the tokenizer reads from the front of its input. */
module Lexing {
  import opened Syntax

  /** A char of value -1: the stream's mark for the end of the input. */
  const END_OF_FILE: char := '\U{FF}'

  function At(s: string, i: nat): char { if i < |s| then s[i] else END_OF_FILE }

  datatype Kind = Eof | Space | Alphanum | Punct

  predicate Digit(c: char) { '0' <= c <= '9' }

  predicate Letter(c: char) { 'a' <= c <= 'z' || 'A' <= c <= 'Z' }

  /** A char is signed: from 128 on it is negative. */
  function KindOf(c: char): Kind
  {
    if c as int >= 128 then Eof
    else if c == ' ' || 9 <= c as int <= 13 then Space
    else if Letter(c) || Digit(c) || c == '_' then Alphanum
    else Punct
  }

  /** A token, a reserved word or operator the trees have no place for, or a number with a fraction. */
  datatype Lexeme = Known(t: Token) | Reserved(word: string) | Real(text: string)

  // ---------------------------------------------------------------- operators

  const ARITHMETIC := ["+", "-", "*", "/", "%", "\\", "+++", "---", "***", "++", "--", ".."]

  const LOGIC := ["!", "&&", "||", "==", "!=", "<", ">", "<=", ">="]

  const BITWISE := ["~", "&", "|", "^", "<<", ">>"]

  const ASSIGNMENTS := ["=", "+=", "-=", "..=", "*=", "/=", "\\=", "%=", "&=", "|=", "^=", "<<=", ">>="]

  const PUNCTUATION := [",", ";", "(", ")", "{", "}", "[", "]", "?", ":"]

  const OPERATORS: seq<string> := ARITHMETIC + LOGIC + BITWISE + ASSIGNMENTS + PUNCTUATION

  /** The longest table entry that the text begins with; 0 if there is none. */
  function Longest(table: seq<string>, s: string): (n: nat)
    ensures n <= |s| && (n > 0 ==> s[..n] in table)
    ensures forall w :: w in table && w <= s ==> |w| <= n
  {
    if table == [] then 0 else
      var m := |table| - 1;
      var n := Longest(table[..m], s);
      assert table[m] <= s ==> s[..|table[m]|] == table[m];
      if table[m] <= s && |table[m]| > n then |table[m]| else n
  }

  function Single(c: char): Lexeme
  {
    match c
    case '+' => Known(Op(Add))
    case '-' => Known(Op(Sub))
    case '*' => Known(Op(Mul))
    case '/' => Known(Op(Div))
    case '%' => Known(Op(Mod))
    case '~' => Known(Op(BitNot))
    case '&' => Known(Op(BitAnd))
    case '|' => Known(Op(BitOr))
    case '^' => Known(Op(BitXor))
    case '=' => Known(Assign)
    case '!' => Known(Op(Not))
    case '<' => Known(Op(Less))
    case '>' => Known(Op(Greater))
    case ',' => Known(Comma)
    case ';' => Known(Semicolon)
    case '(' => Known(OpenRound)
    case ')' => Known(CloseRound)
    case '{' => Known(OpenCurly)
    case '}' => Known(CloseCurly)
    case '[' => Known(OpenSquare)
    case ']' => Known(CloseSquare)
    case '\\' => Known(Unsupported)
    case _ => Reserved([c])
  }

  function Double(c: char, d: char): Lexeme
  {
    if c == d then
      match c
      case '+' => Known(Postfix)
      case '-' => Known(Postfix)
      case '&' => Known(Op(And))
      case '|' => Known(Op(Or))
      case '=' => Known(Op(Equal))
      case _ => Known(Unsupported)
    else if d == '=' then
      match c
      case '!' => Known(Op(NotEqual))
      case '<' => Known(Op(LessEq))
      case '>' => Known(Op(GreaterEq))
      case _ => Reserved([c, d])
    else
      Reserved([c, d])
  }

  /** What a table entry stands for. */
  function OperatorToken(w: string): Lexeme
    requires w != []
  {
    if |w| == 1 then Single(w[0])
    else if |w| == 2 then Double(w[0], w[1])
    else if w == "+++" then Known(Op(FheAdd))
    else if w == "---" then Known(Op(FheSub))
    else if w == "***" then Known(Op(FheMul))
    else Reserved(w)
  }

  // ---------------------------------------------------------------- words

  /** Keywords the trees have no place for. */
  const OTHER_KEYWORDS := ["sizeof", "tostring", "elif", "switch", "case", "default", "while", "do", "break",
                           "continue", "function"]

  function TypeKeyword(w: string): Option<Type>
  {
    if w == "bool" then Some(Bool)
    else if w == "char" then Some(Char)
    else if w == "int" then Some(Int)
    else if w == "float" then Some(Float)
    else if w == "double" then Some(Type.Double)
    else if w == "string" then Some(String)
    else if w == "void" then Some(Void)
    else None
  }

  function Keyword(w: string): Option<Lexeme>
  {
    if w == "if" then Some(Known(If))
    else if w == "else" then Some(Known(Else))
    else if w == "for" then Some(Known(For))
    else if w == "public" then Some(Known(Public))
    else if w == "return" then Some(Known(Token.Return))
    else if w == "secret" then Some(Known(Secret))
    else if w == "rotate" then Some(Known(Rotate))
    else if w == "true" then Some(Known(True))
    else if w == "false" then Some(Known(False))
    else if TypeKeyword(w).Some? then Some(Known(TypeName(TypeKeyword(w).value)))
    else if w in OTHER_KEYWORDS then Some(Reserved(w))
    else None
  }

  function DigitValue(c: char): nat
  {
    if Digit(c) then c as int - '0' as int
    else if 'a' <= c <= 'f' then 10 + (c as int - 'a' as int)
    else if 'A' <= c <= 'F' then 10 + (c as int - 'A' as int)
    else 16
  }

  /** The number written in a base, if all its digits belong to that base. */
  function Numeral(w: string, base: nat): Option<nat>
  {
    if w == [] then Some(0) else
      var m := |w| - 1;
      var v := Numeral(w[..m], base);
      if v.Some? && DigitValue(w[m]) < base then Some(v.value * base + DigitValue(w[m])) else None
  }

  const LONG_MAX := 0x7fff_ffff_ffff_ffff

  /** A long that is converted to a 32-bit integer. */
  function ToInt(v: nat): int
  {
    var r := (if v > LONG_MAX then LONG_MAX else v) % 0x1_0000_0000;
    if r >= 0x8000_0000 then r - 0x1_0000_0000 else r
  }

  /** `strtol` with base 0: hexadecimal after 0x, octal after 0, decimal otherwise. */
  function Integer(w: string): Option<int>
    requires w != []
  {
    var v :=
      if |w| > 2 && w[0] == '0' && (w[1] == 'x' || w[1] == 'X') then Numeral(w[2..], 16)
      else Numeral(w, if w[0] == '0' then 8 else 10);
    if v.Some? then Some(ToInt(v.value)) else None
  }

  /** Where the digits from place i on end. */
  function DigitsEnd(w: string, i: nat, base: nat): (r: nat)
    requires i <= |w|
    ensures i <= r <= |w|
    decreases |w| - i
  {
    if i < |w| && DigitValue(w[i]) < base then DigitsEnd(w, i + 1, base) else i
  }

  /** Nothing is left from place i on, or an exponent. */
  predicate Exponent(w: string, i: nat, lower: char, upper: char)
    requires i <= |w|
  {
    i == |w| || ((w[i] == lower || w[i] == upper) && i + 1 < |w| && DigitsEnd(w, i + 1, 10) == |w|)
  }

  /** `strtod` reads the whole word, which begins with a digit. */
  predicate Fraction(w: string)
  {
    if |w| > 2 && w[0] == '0' && (w[1] == 'x' || w[1] == 'X') then
      var a := DigitsEnd(w, 2, 16);
      var b := if a < |w| && w[a] == '.' then DigitsEnd(w, a + 1, 16) else a;
      (a > 2 || b > a + 1) && Exponent(w, b, 'p', 'P')
    else
      var a := DigitsEnd(w, 0, 10);
      var b := if a < |w| && w[a] == '.' then DigitsEnd(w, a + 1, 10) else a;
      Exponent(w, b, 'e', 'E')
  }

  /** How far the word goes of which i characters are taken. Two dots in a row are not part of a number. */
  function WordLength(s: string, i: nat): (n: nat)
    requires 0 < i <= |s| && KindOf(s[0]) == Alphanum
    ensures 0 < n <= |s|
    decreases |s| - i
  {
    var c := At(s, i);
    if c == '.' && s[i - 1] == '.' then i - 1
    else if KindOf(c) == Alphanum || (Digit(s[0]) && c == '.') then WordLength(s, i + 1)
    else i
  }

  /** What is read from the front of the text, and what is left of it. */
  datatype Step = Got(l: Lexeme, rest: string) | Finished | Bad

  function ReadWord(s: string): (r: Step)
    requires s != [] && KindOf(s[0]) == Alphanum
    ensures r.Got? ==> |r.rest| < |s|
  {
    var n := WordLength(s, 1);
    var w, rest := s[..n], s[n..];
    var k := Keyword(w);
    if k.Some? then Got(k.value, rest)
    else if !Digit(w[0]) then Got(Known(Ident(w)), rest)
    else if w[n - 1] == 'f' then (if Fraction(w[..n - 1]) then Got(Real(w), rest) else Bad)
    else if '.' in w then (if Fraction(w) then Got(Real(w), rest) else Bad)
    else
      var v := Integer(w);
      if v.Some? then Got(Known(IntLit(v.value)), rest) else Bad
  }

  function ReadOperator(table: seq<string>, s: string): (r: Step)
    ensures r.Got? ==> |r.rest| < |s|
  {
    var n := Longest(table, s);
    if n > 0 then Got(OperatorToken(s[..n]), s[n..]) else Bad
  }

  function Escape(c: char): char
  {
    match c
    case 't' => '\t'
    case 'n' => '\n'
    case 'r' => '\r'
    case '0' => '\0'
    case _ => c
  }

  /** A string literal behind its opening quote. A backslash behind a backslash escapes again. */
  function ReadString(s: string, read: string, escaped: bool): (r: Step)
    ensures r.Got? ==> |r.rest| < |s|
  {
    var c := At(s, 0);
    if KindOf(c) == Eof then Bad
    else if c == '\\' then ReadString(s[1..], read, true)
    else if escaped then ReadString(s[1..], read + [Escape(c)], false)
    else if c == '\t' || c == '\n' || c == '\r' then Bad
    else if c == '"' then Got(Known(StringLit(read)), s[1..])
    else ReadString(s[1..], read + [c], false)
  }

  /** The text behind a line comment. */
  function AfterLine(s: string): (r: string)
    ensures |r| <= |s|
  {
    if KindOf(At(s, 0)) == Eof then s else if s[0] == '\n' then s[1..] else AfterLine(s[1..])
  }

  /** The text behind a block comment, if it is closed. */
  function AfterBlock(s: string, star: bool): (r: Option<string>)
    ensures r.Some? ==> |r.value| < |s|
  {
    var c := At(s, 0);
    if KindOf(c) == Eof then None
    else if star && c == '/' then Some(s[1..])
    else AfterBlock(s[1..], c == '*')
  }

  /** Skips space and comments and reads one token. */
  function Next(table: seq<string>, s: string): (r: Step)
    ensures r.Got? ==> |r.rest| < |s|
    decreases |s|
  {
    var c := At(s, 0);
    match KindOf(c)
    case Eof => Finished
    case Space => Next(table, s[1..])
    case Alphanum => ReadWord(s)
    case Punct =>
      if c == '"' then ReadString(s[1..], [], false)
      else if c == '/' && At(s, 1) == '/' then Next(table, AfterLine(s[2..]))
      else if c == '/' && At(s, 1) == '*' then
        var rest := AfterBlock(s[2..], false);
        if rest.Some? then Next(table, rest.value) else Bad
      else ReadOperator(table, s)
  }

  /** All tokens of a text, unless one of them cannot be read. */
  function Lex(table: seq<string>, s: string): Option<seq<Lexeme>>
    decreases |s|
  {
    match Next(table, s)
    case Finished => Some([])
    case Bad => None
    case Got(l, rest) =>
      var more := Lex(table, rest);
      if more.Some? then Some([l] + more.value) else None
  }
}
