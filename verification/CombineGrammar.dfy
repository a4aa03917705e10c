/** Which texts of a combine are read, and as what: both directions, for every sequence of tokens. */
module CombineGrammar {
  import opened Ir
  import opened CombineText

  /** An operand as it is written: without a list, with one index, or with a range. */
  datatype Spelled = Whole(v: nat) | Single(v: nat, i: int) | Range(v: nat, a: int, b: int)

  function SpelledTokens(s: Spelled): seq<Token>
  {
    match s
    case Whole(v) => [Value(v)]
    case Single(v, i) => [Value(v), OpenSquare, Number(i), CloseSquare]
    case Range(v, a, b) => [Value(v), OpenSquare, Number(a), Colon, Number(b), CloseSquare]
  }

  function Joined(ss: seq<Spelled>): seq<Token>
  {
    if ss == [] then []
    else if |ss| == 1 then SpelledTokens(ss[0])
    else SpelledTokens(ss[0]) + ([Comma] + Joined(ss[1..]))
  }

  /** Numbers that a 32-bit integer holds, the largest one excepted. */
  predicate InBounds(s: Spelled)
  {
    match s
    case Whole(_) => true
    case Single(_, i) => -0x8000_0000 <= i < 0x7fff_ffff
    case Range(_, a, b) => -0x8000_0000 <= a < 0x7fff_ffff && -0x8000_0000 <= b < 0x7fff_ffff
  }

  predicate AllInBounds(ss: seq<Spelled>) { forall k :: 0 <= k < |ss| ==> InBounds(ss[k]) }

  /** The operands without a list. */
  function Wholes(ss: seq<Spelled>): (vs: seq<nat>)
    ensures |vs| <= |ss|
  {
    if ss == [] then [] else (if ss[0].Whole? then [ss[0].v] else []) + Wholes(ss[1..])
  }

  /** A range of one index is that index; a range that runs backwards is empty. */
  function IndexOf(a: int, b: int): Index
  {
    if a == b then One(a) else Many(seq(if a < b then b - a + 1 else 0, j => a + j))
  }

  /** The operands with a list, in order. */
  function Listed(ss: seq<Spelled>): seq<Operand>
  {
    if ss == [] then [] else
      (match ss[0]
       case Whole(_) => []
       case Single(v, i) => [Operand(v, One(i))]
       case Range(v, a, b) => [Operand(v, IndexOf(a, b))]) + Listed(ss[1..])
  }

  /** The operand without a list comes last. */
  function Meaning(ss: seq<Spelled>): seq<Operand>
  {
    Listed(ss) + (if Wholes(ss) == [] then [] else [Operand(Wholes(ss)[0], All)])
  }

  ghost predicate Spells(ss: seq<Spelled>, ts: seq<Token>)
  {
    && ss != [] && AllInBounds(ss) && |Wholes(ss)| <= 1
    && ts == [OpenRound] + (Joined(ss) + [CloseRound, Colon, Type])
  }

  // ---------------------------------------------------------------- one operand

  /** What reading one operand adds. */
  function Added(s: Spelled, r: Read): Read
  {
    match s
    case Whole(v) => r.(remaining := Some(v))
    case Single(v, i) => r.(inputs := r.inputs + [(v, Upto(i, i))])
    case Range(v, a, b) => r.(inputs := r.inputs + [(v, Upto(a, b))])
  }

  predicate Addable(s: Spelled, r: Read) { InBounds(s) && (s.Whole? ==> r.remaining.None?) }

  lemma {:induction false} OneRead(s: Spelled, r: Read, rest: seq<Token>)
    requires Peek(rest) != OpenSquare && Addable(s, r)
    ensures ParseOperand(SpelledTokens(s) + rest, r) == Some((Added(s, r), rest))
  {
    var ts := SpelledTokens(s) + rest;
    assert ts != [] && ts[0] == Value(s.v);
    match s
    case Whole(_) => assert ts[1..] == rest;
    case Single(_, i) =>
      assert ts[2..] == [Number(i), CloseSquare] + rest && ts[1..][0] == OpenSquare;
      assert ts[2..][2..] == rest;
    case Range(_, a, b) =>
      assert ts[2..] == [Number(a), Colon, Number(b), CloseSquare] + rest && ts[1..][0] == OpenSquare;
      assert ts[2..][4..] == rest;
  }

  lemma {:induction false} OneWritten(ts: seq<Token>, r: Read) returns (s: Spelled)
    requires ParseOperand(ts, r).Some?
    ensures var q := ParseOperand(ts, r).value; Addable(s, r) && ts == SpelledTokens(s) + q.1 && q.0 == Added(s, r)
  {
    var v, rest := ts[0].v, ParseOperand(ts, r).value.1;
    if Peek(ts[1..]) == OpenSquare {
      var us := ts[2..];
      assert ts == [Value(v), OpenSquare] + us;
      if us[1] == CloseSquare {
        s := Single(v, us[0].i);
        assert us == [us[0], us[1]] + us[2..];
      } else {
        s := Range(v, us[0].i, us[2].i);
        assert us == [us[0], us[1], us[2], us[3]] + us[4..];
      }
    } else {
      s := Whole(v);
      assert ts == [ts[0]] + ts[1..];
    }
  }

  // ---------------------------------------------------------------- all operands

  function AllAdded(ss: seq<Spelled>, r: Read): Read
    decreases |ss|
  {
    if ss == [] then r else AllAdded(ss[1..], Added(ss[0], r))
  }

  predicate AllAddable(ss: seq<Spelled>, r: Read)
    decreases |ss|
  {
    ss == [] || (Addable(ss[0], r) && AllAddable(ss[1..], Added(ss[0], r)))
  }

  lemma {:induction false} AllRead(ss: seq<Spelled>, r: Read, end: seq<Token>)
    requires ss != [] && AllAddable(ss, r) && Peek(end) != OpenSquare && Peek(end) != Comma
    ensures ParseOperands(Joined(ss) + end, r) == Some((AllAdded(ss, r), end))
    decreases |ss|
  {
    if |ss| == 1 {
      OneRead(ss[0], r, end);
      assert ss[1..] == [];
    } else {
      var rest := [Comma] + (Joined(ss[1..]) + end);
      assert Joined(ss) + end == SpelledTokens(ss[0]) + rest;
      OneRead(ss[0], r, rest);
      assert rest[1..] == Joined(ss[1..]) + end;
      AllRead(ss[1..], Added(ss[0], r), end);
    }
  }

  lemma {:induction false} AllWritten(ts: seq<Token>, r: Read) returns (ss: seq<Spelled>)
    requires ParseOperands(ts, r).Some?
    ensures var q := ParseOperands(ts, r).value;
      ss != [] && AllAddable(ss, r) && ts == Joined(ss) + q.1 && q.0 == AllAdded(ss, r)
    decreases |ts|
  {
    var s := OneWritten(ts, r);
    var q := ParseOperand(ts, r).value;
    if Peek(q.1) == Comma && q.1 != [] {
      var more := AllWritten(q.1[1..], q.0);
      ss := [s] + more;
      assert ss[1..] == more && q.1 == [Comma] + q.1[1..];
      Behind(s, more, ParseOperands(ts, r).value.1);
    } else {
      ss := [s];
      assert ss[1..] == [];
    }
  }

  lemma {:induction false} Behind(s: Spelled, more: seq<Spelled>, rest: seq<Token>)
    requires more != []
    ensures SpelledTokens(s) + ([Comma] + (Joined(more) + rest)) == Joined([s] + more) + rest
  {
    assert ([s] + more)[1..] == more;
  }

  // ---------------------------------------------------------------- what they mean

  lemma {:induction false} UptoIndex(v: nat, a: int, b: int)
    ensures BuildInput((v, Upto(a, b))) == Operand(v, IndexOf(a, b))
  {
    if a < b { assert |Upto(a, b)| == b - a + 1; }
  }

  lemma {:induction false} BuildMore(xs: seq<(nat, seq<int>)>, p: (nat, seq<int>))
    ensures BuildInputs(xs + [p]) == BuildInputs(xs) + [BuildInput(p)]
  {}

  lemma {:induction false} AllMean(ss: seq<Spelled>, r: Read)
    ensures AllAddable(ss, r) <==> AllInBounds(ss) && (Wholes(ss) == [] || (|Wholes(ss)| == 1 && r.remaining.None?))
    ensures BuildInputs(AllAdded(ss, r).inputs) == BuildInputs(r.inputs) + Listed(ss)
    ensures Wholes(ss) == [] ==> AllAdded(ss, r).remaining == r.remaining
    ensures |Wholes(ss)| == 1 ==> AllAdded(ss, r).remaining == Some(Wholes(ss)[0])
    decreases |ss|
  {
    if ss == [] {
      assert BuildInputs(r.inputs) + [] == BuildInputs(r.inputs);
    } else {
      AllMean(ss[1..], Added(ss[0], r));
      OneMeans(ss, r);
      BoundsSplit(ss);
    }
  }

  lemma {:induction false} BoundsSplit(ss: seq<Spelled>)
    requires ss != []
    ensures AllInBounds(ss) <==> InBounds(ss[0]) && AllInBounds(ss[1..])
  {
    assert forall k :: 1 <= k < |ss| ==> ss[k] == ss[1..][k - 1];
  }

  lemma {:induction false} OneMeans(ss: seq<Spelled>, r: Read)
    requires ss != []
    ensures BuildInputs(Added(ss[0], r).inputs) + Listed(ss[1..]) == BuildInputs(r.inputs) + Listed(ss)
  {
    match ss[0]
    case Whole(_) => assert Listed(ss) == [] + Listed(ss[1..]);
    case Single(v, i) =>
      BuildMore(r.inputs, (v, Upto(i, i)));
      UptoIndex(v, i, i);
    case Range(v, a, b) =>
      BuildMore(r.inputs, (v, Upto(a, b)));
      UptoIndex(v, a, b);
  }

  lemma {:induction false} BuiltMeaning(ss: seq<Spelled>)
    requires |Wholes(ss)| <= 1
    ensures var r := AllAdded(ss, Read([], None)); Build(r.inputs, r.remaining) == Meaning(ss)
  {
    AllMean(ss, Read([], None));
    assert BuildInputs([]) + Listed(ss) == Listed(ss);
  }

  /** Texts of this form are read as what they mean. */
  lemma {:induction false} SpelledRead(ss: seq<Spelled>, ts: seq<Token>)
    requires Spells(ss, ts)
    ensures Parse(ts) == Some(Meaning(ss))
  {
    var end := [CloseRound, Colon, Type];
    AllMean(ss, Read([], None));
    AllRead(ss, Read([], None), end);
    assert ts[1..] == Joined(ss) + end;
    BuiltMeaning(ss);
  }

  /** And no others: whatever is read has this form. */
  lemma {:induction false} ReadSpelled(ts: seq<Token>) returns (ss: seq<Spelled>)
    requires Parse(ts).Some?
    ensures Spells(ss, ts) && Parse(ts) == Some(Meaning(ss))
  {
    ss := AllWritten(ts[1..], Read([], None));
    AllMean(ss, Read([], None));
    BuiltMeaning(ss);
    assert ts == [ts[0]] + ts[1..];
  }

  /** The parser reads a text as c exactly when c is what some writing of operands means that has this text. */
  lemma {:induction false} ParseExact(ts: seq<Token>, c: seq<Operand>)
    ensures Parse(ts) == Some(c) <==> exists ss :: Spells(ss, ts) && c == Meaning(ss)
  {
    if Parse(ts) == Some(c) { var ss := ReadSpelled(ts); }
    if ss :| Spells(ss, ts) && c == Meaning(ss) { SpelledRead(ss, ts); }
  }
}
