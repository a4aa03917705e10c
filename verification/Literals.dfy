/** String and number literals: how they are written and what is read. */
module Literals {
  import opened Syntax
  import opened Lexing
  import opened Texts

  // ---------------------------------------------------------------- strings

  /** A character of a string literal: as it is, or behind one or more backslashes. */
  datatype Sign = Plain(c: char) | Escaped(c: char, more: nat)

  predicate Writable(s: Sign)
  {
    && s.c as int < 128 && s.c != '\\'
    && (s.Plain? ==> s.c != '"' && s.c != '\t' && s.c != '\n' && s.c != '\r')
  }

  predicate AllWritable(ss: seq<Sign>) { forall i :: 0 <= i < |ss| ==> Writable(ss[i]) }

  function Backslashes(n: nat): string { seq(n, i => '\\') }

  function SignText(s: Sign): (w: string)
    ensures w != []
  {
    if s.Plain? then [s.c] else Backslashes(s.more + 1) + [s.c]
  }

  function Signs(ss: seq<Sign>): string
  {
    if ss == [] then [] else SignText(ss[0]) + Signs(ss[1..])
  }

  /** Tab, line feed, carriage return and the zero character have a letter; any other character stands for itself. */
  function Sense(s: Sign): char
  {
    if s.Plain? then s.c
    else if s.c == 't' then 9 as char
    else if s.c == 'n' then 10 as char
    else if s.c == 'r' then 13 as char
    else if s.c == '0' then 0 as char
    else s.c
  }

  function Senses(ss: seq<Sign>): (v: string)
    ensures |v| == |ss| && forall i :: 0 <= i < |ss| ==> v[i] == Sense(ss[i])
  {
    seq(|ss|, i requires 0 <= i < |ss| => Sense(ss[i]))
  }

  lemma {:induction false} SenseEscape(s: Sign)
    requires s.Escaped?
    ensures Sense(s) == Escape(s.c)
  {}

  lemma {:induction false} SkipsBackslashes(n: nat, more: string, read: string)
    ensures ReadString(Backslashes(n) + more, read, true) == ReadString(more, read, true)
  {
    var s := Backslashes(n) + more;
    if n == 0 {
      assert s == more;
    } else {
      assert s[0] == '\\' && s[1..] == Backslashes(n - 1) + more;
      SkipsBackslashes(n - 1, more, read);
    }
  }

  lemma {:induction false} SignRead(s: Sign, more: string, read: string)
    requires Writable(s)
    ensures ReadString(SignText(s) + more, read, false) == ReadString(more, read + [Sense(s)], false)
  {
    var t := SignText(s) + more;
    if s.Plain? {
      assert t[0] == s.c && t[1..] == more;
    } else {
      var tail := [s.c] + more;
      assert t[0] == '\\' && t[1..] == Backslashes(s.more) + tail;
      SkipsBackslashes(s.more, tail, read);
      assert tail[0] == s.c && tail[1..] == more;
      SenseEscape(s);
    }
  }

  lemma {:induction false} QuoteCloses(rest: string, read: string)
    ensures ReadString("\"" + rest, read, false) == Got(Known(StringLit(read)), rest)
  {
    var close := "\"" + rest;
    assert close[0] == '"' && close[1..] == rest;
  }

  lemma {:induction false} SignsRead(ss: seq<Sign>, rest: string, read: string)
    requires AllWritable(ss)
    ensures ReadString(Signs(ss) + ("\"" + rest), read, false) == Got(Known(StringLit(read + Senses(ss))), rest)
  {
    var close := "\"" + rest;
    if ss == [] {
      assert Signs(ss) + close == close && read + Senses(ss) == read;
      QuoteCloses(rest, read);
    } else {
      assert Signs(ss) + close == SignText(ss[0]) + (Signs(ss[1..]) + close);
      SignRead(ss[0], Signs(ss[1..]) + close, read);
      SignsRead(ss[1..], rest, read + [Sense(ss[0])]);
      SensesMore(ss[0], ss[1..]);
      assert ss == [ss[0]] + ss[1..];
      assert read + Senses(ss) == (read + [Sense(ss[0])]) + Senses(ss[1..]);
    }
  }

  lemma {:induction false} QuoteOpens(table: seq<string>, u: string)
    ensures Next(table, "\"" + u) == ReadString(u, [], false)
  {
    var s := "\"" + u;
    assert s[0] == '"' && s[1..] == u;
  }

  /** Every literal written this way is read as what its signs stand for, right up to its closing quote. */
  lemma {:induction false} StringRead(table: seq<string>, ss: seq<Sign>, rest: string)
    requires AllWritable(ss)
    ensures Next(table, "\"" + (Signs(ss) + ("\"" + rest))) == Got(Known(StringLit(Senses(ss))), rest)
  {
    QuoteOpens(table, Signs(ss) + ("\"" + rest));
    SignsRead(ss, rest, []);
    assert [] + Senses(ss) == Senses(ss);
  }

  lemma {:induction false} SignsOf(s: string, read: string, escaped: bool) returns (ss: seq<Sign>)
    requires ReadString(s, read, escaped).Got?
    ensures var r := ReadString(s, read, escaped);
      && AllWritable(ss) && r.l == Known(StringLit(read + Senses(ss)))
      && (!escaped ==> s == Signs(ss) + ("\"" + r.rest))
      && (escaped ==> "\\" + s == Signs(ss) + ("\"" + r.rest))
    decreases |s|
  {
    var c, r := s[0], ReadString(s, read, escaped);
    assert s == [c] + s[1..];
    if c == '\\' {
      ss := SignsOf(s[1..], read, true);
      if escaped { ss := OneMore(ss, s, r.rest); }
    } else if escaped {
      var x := Escaped(c, 0);
      SenseEscape(x);
      ss := SignsOf(s[1..], read + [Escape(c)], false);
      Behind(c, s[1..]);
      ss := Prefixed(x, ss, "\\" + s, s[1..], read, r.rest);
    } else if c == '"' {
      ss := [];
      assert s == [] + ("\"" + s[1..]) && read + [] == read;
    } else {
      ss := SignsOf(s[1..], read + [c], false);
      ss := Prefixed(Plain(c), ss, s, s[1..], read, r.rest);
    }
  }

  lemma {:induction false} Behind(c: char, more: string)
    ensures "\\" + ([c] + more) == SignText(Escaped(c, 0)) + more
  {
    assert Backslashes(1) == "\\";
  }

  /** A backslash in front of one. */
  lemma {:induction false} OneMore(ss: seq<Sign>, s: string, rest: string) returns (tt: seq<Sign>)
    requires AllWritable(ss) && s != [] && s[0] == '\\' && s == Signs(ss) + ("\"" + rest)
    ensures AllWritable(tt) && "\\" + s == Signs(tt) + ("\"" + rest) && Senses(tt) == Senses(ss)
  {
    assert ss != [];
    var x := ss[0];
    assert s[0] == SignText(x)[0];
    assert x.Escaped?;
    var y := Escaped(x.c, x.more + 1);
    tt := [y] + ss[1..];
    assert Backslashes(x.more + 2) == "\\" + Backslashes(x.more + 1);
    assert SignText(y) == "\\" + SignText(x);
    assert tt[1..] == ss[1..];
    assert Sense(y) == Sense(x);
  }

  lemma {:induction false} Prefixed(x: Sign, ss: seq<Sign>, s: string, s': string, read: string, rest: string) returns (tt: seq<Sign>)
    requires Writable(x) && AllWritable(ss) && s == SignText(x) + s' && s' == Signs(ss) + ("\"" + rest)
    ensures AllWritable(tt) && s == Signs(tt) + ("\"" + rest) && read + Senses(tt) == read + [Sense(x)] + Senses(ss)
  {
    tt := [x] + ss;
    SignsMore(x, ss);
    Group3(SignText(x), Signs(ss), "\"" + rest);
    Group3(read, [Sense(x)], Senses(ss));
  }

  lemma {:induction false} SignsMore(x: Sign, ss: seq<Sign>)
    ensures Signs([x] + ss) == SignText(x) + Signs(ss) && Senses([x] + ss) == [Sense(x)] + Senses(ss)
    ensures Writable(x) && AllWritable(ss) ==> AllWritable([x] + ss)
  {
    var tt := [x] + ss;
    assert tt[0] == x && tt[1..] == ss;
    SensesMore(x, ss);
  }

  lemma {:induction false} SensesMore(x: Sign, ss: seq<Sign>)
    ensures Senses([x] + ss) == [Sense(x)] + Senses(ss)
  {
    var a, b := Senses([x] + ss), [Sense(x)] + Senses(ss);
    forall i | 0 <= i < |a| ensures a[i] == b[i] { if i > 0 { assert ([x] + ss)[i] == ss[i - 1]; } }
  }

  lemma {:induction false} Group3<T>(a: seq<T>, b: seq<T>, c: seq<T>)
    ensures a + b + c == a + (b + c)
  {}

  /** And there are no others: whatever string literal is read was written this way. */
  lemma {:induction false} StringWritten(table: seq<string>, s: string) returns (ss: seq<Sign>)
    requires Next(table, "\"" + s).Got?
    ensures var r := Next(table, "\"" + s);
      AllWritable(ss) && s == Signs(ss) + ("\"" + r.rest) && r.l == Known(StringLit(Senses(ss)))
  {
    var t := "\"" + s;
    assert t[0] == '"' && t[1..] == s;
    ss := SignsOf(s, [], false);
    assert [] + Senses(ss) == Senses(ss);
  }

  /** So no literal stands for a text with a backslash, however many are written. */
  lemma {:induction false} NoBackslash(table: seq<string>, s: string)
    requires Next(table, "\"" + s).Got?
    ensures Next(table, "\"" + s).l.Known? && Next(table, "\"" + s).l.t.StringLit? && '\\' !in Next(table, "\"" + s).l.t.s
  {
    var ss := StringWritten(table, s);
    forall i | 0 <= i < |ss| ensures Senses(ss)[i] != '\\' { assert Writable(ss[i]); }
  }

  /** Any other text has one, when its characters are below 128. */
  lemma {:induction false} Sayable(v: string) returns (ss: seq<Sign>)
    requires forall i :: 0 <= i < |v| ==> v[i] as int < 128 && v[i] != '\\'
    ensures AllWritable(ss) && Senses(ss) == v
  {
    ss := seq(|v|, i requires 0 <= i < |v| => SignFor(v[i]));
    forall i | 0 <= i < |v| ensures Writable(ss[i]) && Sense(ss[i]) == v[i] {}
  }

  function SignFor(c: char): Sign
  {
    if c == '\t' then Escaped('t', 0)
    else if c == '\n' then Escaped('n', 0)
    else if c == '\r' then Escaped('r', 0)
    else if c == '"' then Escaped('"', 0)
    else Plain(c)
  }

  // ---------------------------------------------------------------- numbers

  const LOWER := "0123456789abcdef"

  const UPPER := "0123456789ABCDEF"

  datatype Figure = Figure(value: nat, upper: bool)

  predicate Figures(fs: seq<Figure>, base: nat) { base <= 16 && forall i :: 0 <= i < |fs| ==> fs[i].value < base }

  function FigureChar(f: Figure): char
    requires f.value < 16
  {
    if f.upper then UPPER[f.value] else LOWER[f.value]
  }

  function FigureText(fs: seq<Figure>): (w: string)
    requires Figures(fs, 16)
    ensures |w| == |fs| && forall i :: 0 <= i < |fs| ==> w[i] == FigureChar(fs[i])
  {
    seq(|fs|, i requires 0 <= i < |fs| => FigureChar(fs[i]))
  }

  /** The last figure counts once, the one before it base times, and so on. */
  function Value(fs: seq<Figure>, base: nat): nat
  {
    if fs == [] then 0 else fs[0].value * Power(base, |fs| - 1) + Value(fs[1..], base)
  }

  function Power(base: nat, k: nat): nat { if k == 0 then 1 else base * Power(base, k - 1) }

  lemma {:induction false} ValueLast(fs: seq<Figure>, f: Figure, base: nat)
    ensures Value(fs + [f], base) == Value(fs, base) * base + f.value
  {
    if fs == [] {
      assert (fs + [f])[1..] == [];
      assert Value([f], base) == f.value * Power(base, 0) + Value([], base);
    } else {
      var k := |fs| - 1;
      assert (fs + [f])[1..] == fs[1..] + [f];
      ValueLast(fs[1..], f, base);
      Shifted(fs[0].value, base, Power(base, k), Value(fs[1..], base));
      assert Power(base, k + 1) == base * Power(base, k);
    }
  }

  lemma {:induction false} Shifted(a: nat, b: nat, p: nat, v: nat)
    ensures (a * p + v) * b == a * (b * p) + v * b
  {}

  lemma {:induction false} FigureDigit(f: Figure)
    requires f.value < 16
    ensures DigitValue(FigureChar(f)) == f.value && KindOf(FigureChar(f)) == Alphanum
    ensures f.value < 10 <==> Digit(FigureChar(f))
  {}

  lemma {:induction false} FiguresRead(fs: seq<Figure>, base: nat)
    requires Figures(fs, base)
    ensures Figures(fs, 16) && Numeral(FigureText(fs), base) == Some(Value(fs, base))
  {
    if fs != [] {
      var m := |fs| - 1;
      FiguresRead(fs[..m], base);
      assert FigureText(fs)[..m] == FigureText(fs[..m]);
      FigureDigit(fs[m]);
      ValueLast(fs[..m], fs[m], base);
      assert fs == fs[..m] + [fs[m]];
    }
  }

  /** What becomes of a number in a 32-bit integer: itself when it fits; otherwise the number that differs by a
      multiple of 2^32, but -1 when not even 63 bits hold it. */
  predicate Truncated(v: nat, r: int)
  {
    && -0x8000_0000 <= r < 0x8000_0000
    && (v < 0x8000_0000 ==> r == v)
    && (v < 0x8000_0000_0000_0000 ==> (v - r) % 0x1_0000_0000 == 0)
    && (v >= 0x8000_0000_0000_0000 ==> r == -1)
  }

  lemma {:induction false} ToIntTruncates(v: nat)
    ensures Truncated(v, ToInt(v))
  {
    var l := if v > LONG_MAX then LONG_MAX else v;
    var r := l % 0x1_0000_0000;
    assert l == l / 0x1_0000_0000 * 0x1_0000_0000 + r;
    if v < 0x8000_0000_0000_0000 {
      Congruent(v, r, ToInt(v));
    }
  }

  lemma {:induction false} Congruent(v: nat, r: nat, t: int)
    requires r == v % 0x1_0000_0000 && (t == r || t == r - 0x1_0000_0000)
    ensures (v - t) % 0x1_0000_0000 == 0
  {}

  predicate AlphanumWord(w: string) { w != [] && Digit(w[0]) && AllAlphanum(w) }

  lemma {:induction false} WordRead(table: seq<string>, w: string, rest: string)
    requires AlphanumWord(w) && EndsWord(At(rest, 0))
    ensures Next(table, w + rest) == ReadWord(w + rest)
    ensures ReadWord(w + rest) ==
      if w[|w| - 1] == 'f' then (if Fraction(w[..|w| - 1]) then Got(Real(w), rest) else Bad)
      else if Integer(w).Some? then Got(Known(IntLit(Integer(w).value)), rest) else Bad
  {
    WholeWord(w, rest, 1);
    DigitNoKeyword(w);
    var s := w + rest;
    assert s[..|w|] == w && s[|w|..] == rest && s[0] == w[0];
    forall i | 0 <= i < |w| ensures w[i] != '.' { assert KindOf(w[i]) == Alphanum; }
    assert KindOf(s[0]) == Alphanum;
  }

  lemma {:induction false} FiguresWord(fs: seq<Figure>)
    requires Figures(fs, 16)
    ensures AllAlphanum(FigureText(fs))
  {
    forall i | 0 <= i < |fs| ensures KindOf(FigureText(fs)[i]) == Alphanum { FigureDigit(fs[i]); }
  }

  function HexText(fs: seq<Figure>, big: bool): string
    requires Figures(fs, 16)
  {
    (if big then "0X" else "0x") + FigureText(fs)
  }

  lemma {:induction false} HexWord(fs: seq<Figure>, big: bool)
    requires Figures(fs, 16) && fs != []
    ensures var w := HexText(fs, big); AlphanumWord(w) && |w| > 2 && w[|w| - 1] == FigureChar(fs[|fs| - 1])
    ensures Integer(HexText(fs, big)) == Some(ToInt(Value(fs, 16)))
  {
    var t := FigureText(fs);
    FiguresWord(fs);
    FiguresRead(fs, 16);
    Behind0x(t, if big then 'X' else 'x');
  }

  lemma {:induction false} Behind0x(t: string, x: char)
    requires t != [] && AllAlphanum(t) && (x == 'x' || x == 'X')
    ensures var w := ['0', x] + t;
      && AlphanumWord(w) && |w| > 2 && w[|w| - 1] == t[|t| - 1]
      && Integer(w) == (if Numeral(t, 16).Some? then Some(ToInt(Numeral(t, 16).value)) else None)
  {
    var w := ['0', x] + t;
    assert w[2..] == t;
    forall i | 0 <= i < |w| ensures KindOf(w[i]) == Alphanum { if i >= 2 { assert w[i] == t[i - 2]; } }
  }

  /** A hexadecimal number is read as its value, cut to 32 bits, exactly when its last figure is no lower-case f: that
      one is taken for the suffix of a float. */
  lemma {:induction false} HexExact(table: seq<string>, fs: seq<Figure>, big: bool, rest: string) returns (n: int)
    requires Figures(fs, 16) && fs != [] && EndsWord(At(rest, 0))
    ensures Truncated(Value(fs, 16), n)
    ensures Next(table, HexText(fs, big) + rest) == Got(Known(IntLit(n)), rest) <==> fs[|fs| - 1] != Figure(15, false)
  {
    n := ToInt(Value(fs, 16));
    var w := HexText(fs, big);
    HexWord(fs, big);
    ToIntTruncates(Value(fs, 16));
    WordRead(table, w, rest);
    LastF(fs[|fs| - 1]);
  }

  lemma {:induction false} LastF(f: Figure)
    requires f.value < 16
    ensures FigureChar(f) == 'f' <==> f == Figure(15, false)
  {}

  /** A number that begins with 0 is octal; a figure 8 or 9 in it is an error. */
  lemma {:induction false} OctalExact(table: seq<string>, fs: seq<Figure>, rest: string) returns (n: int)
    requires Figures(fs, 10) && EndsWord(At(rest, 0))
    ensures Figures(fs, 16) && Truncated(Value(fs, 8), n)
    ensures Next(table, "0" + FigureText(fs) + rest) == if Figures(fs, 8) then Got(Known(IntLit(n)), rest) else Bad
  {
    n := ToInt(Value(fs, 8));
    ToIntTruncates(Value(fs, 8));
    OctalWord(fs);
    WordRead(table, "0" + FigureText(fs), rest);
    OctalNumeral(fs);
  }

  lemma {:induction false} OctalWord(fs: seq<Figure>)
    requires Figures(fs, 10)
    ensures Figures(fs, 16) && AlphanumWord("0" + FigureText(fs))
    ensures var w := "0" + FigureText(fs); w[|w| - 1] != 'f' && w[0] == '0' && !(|w| > 2 && (w[1] == 'x' || w[1] == 'X'))
  {
    var t := FigureText(fs);
    var w := "0" + t;
    FiguresWord(fs);
    forall i | 0 <= i < |w| ensures Digit(w[i]) && KindOf(w[i]) == Alphanum {
      if i > 0 {
        assert w[i] == t[i - 1];
        FigureDigit(fs[i - 1]);
      }
    }
  }

  lemma {:induction false} OctalNumeral(fs: seq<Figure>)
    requires Figures(fs, 10)
    ensures Figures(fs, 16)
    ensures Numeral("0" + FigureText(fs), 8) == if Figures(fs, 8) then Some(Value(fs, 8)) else None
  {
    var w := "0" + FigureText(fs);
    if fs == [] {
      assert w == "0" && w[..0] == [];
    } else {
      var m := |fs| - 1;
      assert fs == fs[..m] + [fs[m]];
      OctalNumeral(fs[..m]);
      NumeralNext("0" + FigureText(fs[..m]), FigureChar(fs[m]), 8);
      assert w == "0" + FigureText(fs[..m]) + [FigureChar(fs[m])];
      FigureDigit(fs[m]);
      ValueLast(fs[..m], fs[m], 8);
      FiguresLast(fs[..m], fs[m], 8);
    }
  }

  lemma {:induction false} NumeralNext(w: string, c: char, base: nat)
    ensures var v := Numeral(w, base);
      Numeral(w + [c], base) == if v.Some? && DigitValue(c) < base then Some(v.value * base + DigitValue(c)) else None
  {
    assert (w + [c])[..|w|] == w;
  }

  lemma {:induction false} FiguresLast(fs: seq<Figure>, f: Figure, base: nat)
    ensures Figures(fs + [f], base) <==> Figures(fs, base) && f.value < base
  {
    var gs := fs + [f];
    assert gs[|fs|] == f && forall i :: 0 <= i < |fs| ==> gs[i] == fs[i];
  }

  /** Any other number is decimal. */
  lemma {:induction false} DecimalRead(table: seq<string>, fs: seq<Figure>, rest: string) returns (n: int)
    requires Figures(fs, 10) && fs != [] && fs[0].value > 0 && EndsWord(At(rest, 0))
    ensures Figures(fs, 16) && Truncated(Value(fs, 10), n) && Next(table, FigureText(fs) + rest) == Got(Known(IntLit(n)), rest)
  {
    n := ToInt(Value(fs, 10));
    ToIntTruncates(Value(fs, 10));
    var w := FigureText(fs);
    FiguresWord(fs);
    FiguresRead(fs, 10);
    forall i | 0 <= i < |w| ensures Digit(w[i]) { FigureDigit(fs[i]); }
    assert w[0] != '0' by { FigureDigit(fs[0]); }
    WordRead(table, w, rest);
  }

  /** A letter in a decimal number is an error, unless it is a final f. */
  lemma {:induction false} LetterInNumber(table: seq<string>, w: string, i: nat, rest: string)
    requires AlphanumWord(w) && '1' <= w[0] && i < |w| && !Digit(w[i]) && w[|w| - 1] != 'f' && EndsWord(At(rest, 0))
    ensures Next(table, w + rest) == Bad
  {
    WordRead(table, w, rest);
    NoNumeral(w, i);
  }

  lemma {:induction false} NoNumeral(w: string, i: nat)
    requires i < |w| && !Digit(w[i])
    ensures Numeral(w, 10) == None
  {
    var m := |w| - 1;
    if i < m { NoNumeral(w[..m], i); }
  }

  // ---------------------------------------------------------------- fractions and ranges

  lemma {:induction false} DigitsEndAt(w: string, i: nat, j: nat)
    requires i <= j <= |w| && (forall k :: i <= k < j ==> Digit(w[k])) && (j < |w| ==> !Digit(w[j]))
    ensures DigitsEnd(w, i, 10) == j
    decreases j - i
  {
    if i < j { DigitsEndAt(w, i + 1, j); }
  }

  /** In a number dots are part of the word, but not two in a row. */
  predicate NumberWord(w: string)
  {
    && w != [] && Digit(w[0]) && (forall i :: 0 <= i < |w| ==> KindOf(w[i]) == Alphanum || w[i] == '.')
    && forall i :: 1 <= i < |w| ==> !(w[i - 1] == '.' && w[i] == '.')
  }

  lemma {:induction false} NumberEnds(w: string, rest: string, i: nat)
    requires NumberWord(w) && 0 < i <= |w| && EndsWord(At(rest, 0))
    ensures KindOf((w + rest)[0]) == Alphanum && WordLength(w + rest, i) == |w|
    decreases |w| - i
  {
    var s := w + rest;
    assert At(s, i) == if i < |w| then w[i] else At(rest, 0);
    assert s[i - 1] == w[i - 1] && s[0] == w[0];
    if i < |w| { NumberEnds(w, rest, i + 1); }
  }

  function Fractional(ds: string, es: string, suffix: bool): string { ds + ("." + (es + if suffix then "f" else [])) }

  lemma {:induction false} FractionalWord(ds: string, es: string, suffix: bool)
    requires ds != [] && AllDigits(ds) && AllDigits(es)
    ensures var w := Fractional(ds, es, suffix);
      && NumberWord(w) && w[|ds|] == '.' && |w| == |ds| + 1 + |es| + (if suffix then 1 else 0)
      && (forall i :: 0 <= i < |ds| ==> w[i] == ds[i]) && (forall i :: 0 <= i < |es| ==> w[|ds| + 1 + i] == es[i])
      && (suffix ==> w[|w| - 1] == 'f')
  {
    var w := Fractional(ds, es, suffix);
    forall i | 0 <= i < |w| ensures KindOf(w[i]) == Alphanum || w[i] == '.' {
      if i > |ds| && i < |ds| + 1 + |es| { assert w[i] == es[i - |ds| - 1]; }
    }
  }

  lemma {:induction false} FractionalRead(ds: string, es: string, suffix: bool)
    requires ds != [] && AllDigits(ds) && AllDigits(es)
    ensures var w := Fractional(ds, es, suffix); Fraction(if suffix then w[..|w| - 1] else w)
  {
    FractionalWord(ds, es, suffix);
    FractionalWord(ds, es, false);
    var w := Fractional(ds, es, false);
    assert (if suffix then Fractional(ds, es, true)[..|w|] else w) == w;
    forall k | |ds| + 1 <= k < |w| ensures Digit(w[k]) { assert w[k] == es[k - |ds| - 1]; }
    DigitsEndAt(w, 0, |ds|);
    DigitsEndAt(w, |ds| + 1, |w|);
    if |w| > 2 && w[0] == '0' { assert w[1] == if |ds| > 1 then ds[1] else '.'; }
  }

  lemma {:induction false} DottedRead(table: seq<string>, w: string, rest: string)
    requires NumberWord(w) && '.' in w && EndsWord(At(rest, 0))
    ensures Next(table, w + rest) == if Fraction(if w[|w| - 1] == 'f' then w[..|w| - 1] else w) then Got(Real(w), rest) else Bad
  {
    NumberEnds(w, rest, 1);
    DigitNoKeyword(w);
    var s := w + rest;
    assert s[..|w|] == w && s[|w|..] == rest && s[0] == w[0];
  }

  /** Digits, a point, digits if there are any, and an f if one likes. */
  lemma {:induction false} RealRead(table: seq<string>, ds: string, es: string, suffix: bool, rest: string)
    requires ds != [] && AllDigits(ds) && AllDigits(es) && EndsWord(At(rest, 0))
    ensures Next(table, Fractional(ds, es, suffix) + rest) == Got(Real(Fractional(ds, es, suffix)), rest)
  {
    var w := Fractional(ds, es, suffix);
    FractionalWord(ds, es, suffix);
    FractionalRead(ds, es, suffix);
    if !suffix { assert w[|w| - 1] == if es == [] then '.' else es[|es| - 1]; }
    DottedRead(table, w, rest);
  }

  /** Behind the fraction only an exponent may come: a further point, or any letter but a final f, is an error. */
  lemma {:induction false} FractionEnds(table: seq<string>, ds: string, es: string, c: char, more: string, rest: string)
    requires ds != [] && AllDigits(ds) && AllDigits(es) && !Digit(c) && c != 'e' && c != 'E' && EndsWord(At(rest, 0))
    requires var w := ds + ("." + (es + ([c] + more))); NumberWord(w) && w[|w| - 1] != 'f'
    ensures Next(table, ds + ("." + (es + ([c] + more))) + rest) == Bad
  {
    var w := ds + ("." + (es + ([c] + more)));
    assert w[|ds|] == '.';
    NoFraction(ds, es, c, more);
    DottedRead(table, w, rest);
  }

  lemma {:induction false} NoFraction(ds: string, es: string, c: char, more: string)
    requires ds != [] && AllDigits(ds) && AllDigits(es) && !Digit(c) && c != 'e' && c != 'E'
    ensures !Fraction(ds + ("." + (es + ([c] + more))))
  {
    var w := ds + ("." + (es + ([c] + more)));
    var b := |ds| + 1 + |es|;
    assert w[|ds|] == '.' && w[b] == c;
    forall k | 0 <= k < |ds| ensures Digit(w[k]) { assert w[k] == ds[k]; }
    forall k | |ds| + 1 <= k < b ensures Digit(w[k]) { assert w[k] == es[k - |ds| - 1]; }
    DigitsEndAt(w, 0, |ds|);
    DigitsEndAt(w, |ds| + 1, b);
    assert w[1] == if |ds| > 1 then ds[1] else '.';
  }

  /** Two dots behind a number are left where they are. */
  lemma {:induction false} RangeRead(table: seq<string>, fs: seq<Figure>, rest: string) returns (n: int)
    requires Figures(fs, 10) && fs != [] && fs[0].value > 0
    ensures Figures(fs, 16) && Truncated(Value(fs, 10), n) && Next(table, FigureText(fs) + (".." + rest)) == Got(Known(IntLit(n)), ".." + rest)
  {
    n := ToInt(Value(fs, 10));
    var w := FigureText(fs);
    var s := w + (".." + rest);
    ToIntTruncates(Value(fs, 10));
    FiguresRead(fs, 10);
    forall i | 0 <= i < |w| ensures Digit(w[i]) { FigureDigit(fs[i]); }
    assert w[0] != '0' by { FigureDigit(fs[0]); }
    DotsEnd(w, rest, 1);
    DigitNoKeyword(w);
    assert s[..|w|] == w && s[|w|..] == ".." + rest && s[0] == w[0];
  }

  lemma {:induction false} DotsEnd(w: string, rest: string, i: nat)
    requires w != [] && AllDigits(w) && 0 < i <= |w|
    ensures var s := w + (".." + rest); KindOf(s[0]) == Alphanum && WordLength(s, i) == |w|
    decreases |w| - i
  {
    var s := w + (".." + rest);
    assert s[0] == w[0] && s[i - 1] == w[i - 1];
    if i < |w| {
      assert At(s, i) == w[i];
      DotsEnd(w, rest, i + 1);
    } else {
      assert At(s, i) == '.' && At(s, i + 1) == '.';
    }
  }
}
