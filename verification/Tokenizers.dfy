/** The tokenizer in its own form: methods that take characters from a stream. */
module Tokenizers {
  import opened Syntax
  import opened Lexing
  import opened Streams

  /** What comes of one token. */
  datatype Fetched = Token(l: Lexeme) | EndOfInput | Unexpected

  /** The method did to the stream what the specification says of its text. */
  ghost predicate Does(f: Fetched, stream: PushBackStream, want: Step)
    reads stream
  {
    match want
    case Got(l, rest) => f == Token(l) && stream.Valid() && stream.ahead == rest
    case Finished => f == EndOfInput
    case Bad => f == Unexpected
  }

  /** The word may go on with c. */
  predicate GoesOn(word: string, c: char)
    requires word != []
  {
    KindOf(c) == Alphanum || (Digit(word[0]) && c == '.')
  }

  /** The word of which k characters are taken: how far it goes. */
  lemma {:induction false} WordStep(s: string, k: nat)
    requires 0 < k <= |s| && KindOf(s[0]) == Alphanum
    ensures var c := At(s, k);
      && (c == '.' && s[k - 1] == '.' ==> WordLength(s, k) == k - 1 && k - 1 > 0)
      && (!(c == '.' && s[k - 1] == '.') && GoesOn(s[..k], c) ==> k < |s| && WordLength(s, k) == WordLength(s, k + 1))
      && (!(c == '.' && s[k - 1] == '.') && !GoesOn(s[..k], c) ==> WordLength(s, k) == k)
  {}

  lemma {:induction false} PrefixNext(s: string, k: nat)
    requires k < |s|
    ensures s[..k] + [At(s, k)] == s[..k + 1]
  {}

  /** Some characters and the one behind them have been taken. */
  ghost predicate TakenFrom(stream: PushBackStream, s: string, word: string, c: char)
    reads stream
  {
    && stream.Valid() && stream.ahead == Drop(s, |word| + 1) && c == At(s, |word|)
    && 0 < |word| <= |s| && word == s[..|word|]
  }

  /** They are part of one word. */
  ghost predicate Holding(stream: PushBackStream, s: string, word: string, c: char)
    reads stream
  {
    TakenFrom(stream, s, word, c) && KindOf(s[0]) == Alphanum && WordLength(s, |word|) == WordLength(s, 1)
  }

  method TakeOne(stream: PushBackStream, word: string, c: char, ghost s: string) returns (word': string, c': char)
    requires Holding(stream, s, word, c) && GoesOn(word, c) && !(c == '.' && word[|word| - 1] == '.')
    modifies stream
    ensures Holding(stream, s, word', c') && |word'| == |word| + 1
  {
    WordStep(s, |word|);
    PrefixNext(s, |word|);
    word' := word + [c];
    c' := TakeNext(stream, s, |word'|);
  }

  /** The characters of a word and the stream behind it. */
  method TakeWord(stream: PushBackStream) returns (word: string)
    requires stream.Valid() && stream.ahead != [] && KindOf(stream.ahead[0]) == Alphanum
    modifies stream
    ensures stream.Valid()
    ensures var s, n := old(stream.ahead), WordLength(old(stream.ahead), 1); word == s[..n] && stream.ahead == s[n..]
  {
    ghost var s := stream.ahead;
    AheadStripped(stream);
    var c := TakeNext(stream, s, 0);
    word := [c];
    c := TakeNext(stream, s, 1);
    while GoesOn(word, c) && !(c == '.' && word[|word| - 1] == '.')
      invariant Holding(stream, s, word, c)
      decreases |s| - |word|
    {
      word, c := TakeOne(stream, word, c, s);
    }
    WordStep(s, |word|);
    word := EndWord(stream, word, c, s);
  }

  /** Gives back what is not part of the word: the character behind it, and a dot before another dot. */
  method EndWord(stream: PushBackStream, word: string, c: char, ghost s: string) returns (kept: string)
    requires TakenFrom(stream, s, word, c) && Stripped(s)
    modifies stream
    ensures stream.Valid() && |kept| <= |s| && stream.ahead == Drop(s, |kept|) && kept == s[..|kept|]
    ensures |kept| == if c == '.' && word[|word| - 1] == '.' then |word| - 1 else |word|
  {
    var m := |word| - 1;
    PrefixCut(s, |word|, m);
    GiveBack(stream, c, s, |word|);
    if c == '.' && word[m] == '.' {
      GiveBack(stream, word[m], s, m);
      kept := word[..m];
    } else {
      kept := word;
    }
  }

  lemma {:induction false} PrefixCut(s: string, k: nat, m: nat)
    requires m < k <= |s|
    ensures s[..k][..m] == s[..m] && s[..k][m] == At(s, m)
  {}

  method FetchWord(stream: PushBackStream) returns (f: Fetched)
    requires stream.Valid() && stream.ahead != [] && KindOf(stream.ahead[0]) == Alphanum
    modifies stream
    ensures stream.Valid() && Does(f, stream, ReadWord(old(stream.ahead)))
  {
    var word := TakeWord(stream);
    var k, m := Keyword(word), |word| - 1;
    if k.Some? {
      f := Token(k.value);
    } else if !Digit(word[0]) {
      f := Token(Known(Ident(word)));
    } else if word[m] == 'f' {
      f := if Fraction(word[..m]) then Token(Real(word)) else Unexpected;
    } else if '.' in word {
      f := if Fraction(word) then Token(Real(word)) else Unexpected;
    } else {
      var v := Integer(word);
      f := if v.Some? then Token(Known(IntLit(v.value))) else Unexpected;
    }
  }

  method FetchOperator(table: seq<string>, ghost entries: seq<string>, stream: PushBackStream) returns (f: Fetched)
    requires stream.Valid() && Fits(table, entries)
    modifies stream
    ensures stream.Valid() && Does(f, stream, ReadOperator(entries, old(stream.ahead)))
  {
    var found := GetOperator(table, stream);
    f := if found.Some? then Token(OperatorToken(found.value)) else Unexpected;
  }

  /** A string literal, whose opening quote has been taken. */
  method FetchString(stream: PushBackStream) returns (f: Fetched)
    requires stream.Valid()
    modifies stream
    ensures stream.Valid() && Does(f, stream, ReadString(old(stream.ahead), [], false))
  {
    var str: string, escaped := [], false;
    ghost var text := stream.ahead;
    var c := stream.Read();
    while KindOf(c) != Eof
      invariant stream.Valid() && c == At(text, 0) && stream.ahead == Drop(text, 1)
      invariant ReadString(text, str, escaped) == ReadString(old(stream.ahead), [], false)
      decreases |text|
    {
      if c == '\\' {
        escaped := true;
      } else if escaped {
        str, escaped := str + [Escape(c)], false;
      } else if c == '\t' || c == '\n' || c == '\r' {
        stream.PushBack(c);
        return Unexpected;
      } else if c == '"' {
        return Token(Known(StringLit(str)));
      } else {
        str := str + [c];
      }
      text := stream.ahead;
      c := stream.Read();
    }
    stream.PushBack(c);
    f := Unexpected;
  }

  method SkipLineComment(stream: PushBackStream)
    requires stream.Valid()
    modifies stream
    ensures stream.Valid() && stream.ahead == AfterLine(old(stream.ahead))
  {
    ghost var text := stream.ahead;
    AheadStripped(stream);
    var c := stream.Read();
    while c != '\n' && KindOf(c) != Eof
      invariant stream.Valid() && c == At(text, 0) && stream.ahead == Drop(text, 1)
      invariant Stripped(text)
      invariant AfterLine(text) == AfterLine(old(stream.ahead))
      decreases |text|
    {
      text := stream.ahead;
      c := stream.Read();
    }
    if c != '\n' {
      GiveBack(stream, c, text, 0);
    }
  }

  method SkipBlockComment(stream: PushBackStream) returns (closed: bool)
    requires stream.Valid()
    modifies stream
    ensures stream.Valid() && closed == AfterBlock(old(stream.ahead), false).Some?
    ensures closed ==> stream.ahead == AfterBlock(old(stream.ahead), false).value
  {
    var closing := false;
    ghost var text := stream.ahead;
    var c := stream.Read();
    while KindOf(c) != Eof
      invariant stream.Valid() && c == At(text, 0) && stream.ahead == Drop(text, 1)
      invariant AfterBlock(text, closing) == AfterBlock(old(stream.ahead), false)
      decreases |text|
    {
      if closing && c == '/' { return true; }
      closing := c == '*';
      text := stream.ahead;
      c := stream.Read();
    }
    stream.PushBack(c);
    closed := false;
  }

  lemma {:induction false} NextUnfolds(entries: seq<string>, s: string)
    ensures var c := At(s, 0);
      && (KindOf(c) == Eof ==> Next(entries, s) == Finished)
      && (KindOf(c) == Space ==> s != [] && Next(entries, s) == Next(entries, Drop(s, 1)))
      && (KindOf(c) == Alphanum ==> s != [] && Next(entries, s) == ReadWord(s))
      && (KindOf(c) == Punct && c == '"' ==> Next(entries, s) == ReadString(Drop(s, 1), [], false))
      && (KindOf(c) == Punct && c != '"' && c != '/' ==> Next(entries, s) == ReadOperator(entries, s))
  {}

  lemma {:induction false} SlashUnfolds(entries: seq<string>, s: string)
    requires At(s, 0) == '/'
    ensures var c, after := At(s, 1), AfterBlock(Drop(s, 2), false);
      && (c == '/' ==> |s| >= 2 && Next(entries, s) == Next(entries, AfterLine(Drop(s, 2))))
      && (c == '*' ==> |s| >= 2 && Next(entries, s) == if after.Some? then Next(entries, after.value) else Bad)
      && (c != '/' && c != '*' ==> Next(entries, s) == ReadOperator(entries, s))
  {}

  /** Skips space and comments and takes one token from the stream. */
  method Tokenize(table: seq<string>, ghost entries: seq<string>, stream: PushBackStream) returns (f: Fetched)
    requires stream.Valid() && Fits(table, entries)
    modifies stream
    ensures stream.Valid() && Does(f, stream, Next(entries, old(stream.ahead)))
  {
    ghost var want := Next(entries, stream.ahead);
    while true
      invariant stream.Valid() && Next(entries, stream.ahead) == want
      decreases |stream.ahead|
    {
      ghost var s := stream.ahead;
      AheadStripped(stream);
      NextUnfolds(entries, s);
      var c := TakeNext(stream, s, 0);
      match KindOf(c)
      case Eof => return EndOfInput;
      case Space =>
      case Alphanum =>
        GiveBack(stream, c, s, 0);
        f := FetchWord(stream);
        return;
      case Punct =>
        var skipped: bool;
        skipped, f := FetchPunctuation(table, entries, stream, c, s);
        if !skipped { return; }
    }
  }

  /** Behind a character that is neither a space nor part of a word: a string, an operator, or a comment that
      is skipped. */
  method FetchPunctuation(table: seq<string>, ghost entries: seq<string>, stream: PushBackStream, c: char, ghost s: string)
    returns (skipped: bool, f: Fetched)
    requires stream.Valid() && stream.ahead == Drop(s, 1) && c == At(s, 0) && KindOf(c) == Punct && Stripped(s)
    requires Fits(table, entries)
    modifies stream
    ensures stream.Valid()
    ensures skipped ==> |stream.ahead| < |s| && Next(entries, s) == Next(entries, stream.ahead)
    ensures !skipped ==> Does(f, stream, Next(entries, s))
  {
    NextUnfolds(entries, s);
    if c == '"' {
      skipped := false;
      f := FetchString(stream);
    } else if c == '/' {
      skipped, f := FetchSlash(table, entries, stream, s);
    } else {
      skipped := false;
      GiveBack(stream, c, s, 0);
      assert Drop(s, 0) == s;
      f := FetchOperator(table, entries, stream);
    }
  }

  method FetchSlash(table: seq<string>, ghost entries: seq<string>, stream: PushBackStream, ghost s: string) returns (skipped: bool, f: Fetched)
    requires stream.Valid() && stream.ahead == Drop(s, 1) && At(s, 0) == '/' && Stripped(s) && Fits(table, entries)
    modifies stream
    ensures stream.Valid()
    ensures skipped ==> |stream.ahead| < |s| && Next(entries, s) == Next(entries, stream.ahead)
    ensures !skipped ==> Does(f, stream, Next(entries, s))
  {
    var closed: bool;
    f := Unexpected;
    skipped, closed := SkipComment(stream, entries, s);
    if skipped || !closed {
      skipped := closed;
    } else {
      GiveBack(stream, '/', s, 0);
      assert Drop(s, 0) == s;
      f := FetchOperator(table, entries, stream);
    }
  }

  /** Behind a slash: skips a comment, if there is one. */
  method SkipComment(stream: PushBackStream, ghost entries: seq<string>, ghost s: string) returns (skipped: bool, closed: bool)
    requires stream.Valid() && stream.ahead == Drop(s, 1) && At(s, 0) == '/' && Stripped(s)
    modifies stream
    ensures stream.Valid()
    ensures closed && !skipped ==> stream.ahead == Drop(s, 1) && Next(entries, s) == ReadOperator(entries, s)
    ensures closed && skipped ==> |stream.ahead| < |s| && Next(entries, s) == Next(entries, stream.ahead)
    ensures !closed ==> Next(entries, s) == Bad
  {
    SlashUnfolds(entries, s);
    var next := TakeNext(stream, s, 1);
    skipped, closed := true, true;
    if next == '/' {
      SkipLineComment(stream);
    } else if next == '*' {
      closed := SkipBlockComment(stream);
    } else {
      GiveBack(stream, next, s, 1);
      skipped := false;
    }
  }

  /** A tokenizer over the sorted operator table takes the tokens of a text one after the other. */
  method TokenizeAll(text: string) returns (ls: Option<seq<Lexeme>>)
    ensures ls == Lex(OPERATORS, Strip(text))
  {
    var table := OperatorTable();
    ls := TokenizeWith(table, OPERATORS, text);
  }

  method TokenizeWith(table: seq<string>, ghost entries: seq<string>, text: string) returns (ls: Option<seq<Lexeme>>)
    requires Fits(table, entries)
    ensures ls == Lex(entries, Strip(text))
  {
    var stream := new PushBackStream(text);
    OntoNothing(Lex(entries, stream.ahead));
    var read: seq<Lexeme> := [];
    while true
      invariant stream.Valid() && fresh(stream)
      invariant Lex(entries, Strip(text)) == Onto(read, Lex(entries, stream.ahead))
      decreases |stream.ahead|
    {
      ghost var s := stream.ahead;
      var f := Tokenize(table, entries, stream);
      match f
      case EndOfInput =>
        assert Lex(entries, s) == Some([]) && read + [] == read;
        return Some(read);
      case Unexpected => return None;
      case Token(l) =>
        OntoNext(read, l, Lex(entries, stream.ahead));
        read := read + [l];
    }
  }

  function Onto(read: seq<Lexeme>, more: Option<seq<Lexeme>>): Option<seq<Lexeme>>
  {
    if more.Some? then Some(read + more.value) else None
  }

  lemma {:induction false} OntoNothing(more: Option<seq<Lexeme>>)
    ensures Onto([], more) == more
  {
    if more.Some? { assert [] + more.value == more.value; }
  }

  lemma {:induction false} OntoNext(read: seq<Lexeme>, l: Lexeme, more: Option<seq<Lexeme>>)
    ensures Onto(read, if more.Some? then Some([l] + more.value) else None) == Onto(read + [l], more)
  {
    if more.Some? { assert read + ([l] + more.value) == read + [l] + more.value; }
  }
}
