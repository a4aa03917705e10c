/** The text form of a combine: its printer, its parser, and when the parser reads back what was printed. */
module CombineText {
  import opened Ir

  datatype Option<+T> = None | Some(value: T)

  datatype Token = OpenRound | CloseRound | OpenSquare | CloseSquare | Comma | Colon | Value(v: nat) | Number(i: int) | Type

  /** An operand and what the `indices` attribute says of it. */
  datatype Operand = Operand(v: nat, ix: Index)

  // ---------------------------------------------------------------- printing

  predicate Continuous(run: seq<int>) { |run| > 1 && forall j :: 1 <= j < |run| ==> run[j - 1] + 1 == run[j] }

  function ShowList(run: seq<int>): (ts: seq<Token>)
    requires run != []
    ensures ts != [] && ts[0] == Number(run[0])
  {
    if |run| == 1 then [Number(run[0])] else [Number(run[0])] + ([Comma] + ShowList(run[1..]))
  }

  /** An empty list has no first element to print. */
  predicate Printable(x: Index) { x.Many? ==> x.run != [] }

  function ShowIndex(x: Index): seq<Token>
    requires Printable(x)
  {
    match x
    case One(i) => [OpenSquare, Number(i), CloseSquare]
    case Many(run) =>
      if Continuous(run) then [OpenSquare, Number(run[0]), Colon, Number(run[|run| - 1]), CloseSquare]
      else [OpenSquare] + (ShowList(run) + [CloseSquare])
    case All => []
  }

  predicate AllPrintable(c: seq<Operand>) { forall k :: 0 <= k < |c| ==> Printable(c[k].ix) }

  function ShowOperands(c: seq<Operand>): seq<Token>
    requires AllPrintable(c)
  {
    if c == [] then []
    else [Value(c[0].v)] + (ShowIndex(c[0].ix) + (if |c| == 1 then [] else [Comma] + ShowOperands(c[1..])))
  }

  function Print(c: seq<Operand>): seq<Token>
    requires AllPrintable(c)
  {
    [OpenRound] + (ShowOperands(c) + [CloseRound, Colon, Type])
  }

  // ---------------------------------------------------------------- parsing

  /** The operands with index lists so far, and the one without. */
  datatype Read = Read(inputs: seq<(nat, seq<int>)>, remaining: Option<nat>)

  function Peek(ts: seq<Token>): Token { if ts == [] then Type else ts[0] }

  /** a, a + 1, ..., b */
  function Upto(a: int, b: int): (r: seq<int>)
    ensures |r| == (if a <= b then b - a + 1 else 0) && forall j :: 0 <= j < |r| ==> r[j] == a + j
  {
    seq(if a <= b then b - a + 1 else 0, j => a + j)
  }

  predicate Fits(i: int) { -0x8000_0000 <= i < 0x7fff_ffff }

  /** What stands in square brackets: a number or a range of numbers. */
  function ParseRange(ts: seq<Token>): (r: Option<(seq<int>, seq<Token>)>)
    ensures r.Some? ==> |r.value.1| < |ts|
  {
    if |ts| >= 2 && ts[0].Number? && Fits(ts[0].i) && ts[1] == CloseSquare then
      Some((Upto(ts[0].i, ts[0].i), ts[2..]))
    else if |ts| >= 4 && ts[0].Number? && ts[1] == Colon && ts[2].Number? && ts[3] == CloseSquare && Fits(ts[0].i) && Fits(ts[2].i) then
      Some((Upto(ts[0].i, ts[2].i), ts[4..]))
    else
      None
  }

  /** One operand, with or without a list. A second one without a list is refused. */
  function ParseOperand(ts: seq<Token>, r: Read): (q: Option<(Read, seq<Token>)>)
    ensures q.Some? ==> |q.value.1| < |ts|
  {
    if !Peek(ts).Value? || ts == [] then None
    else if Peek(ts[1..]) == OpenSquare then
      var range := ParseRange(ts[2..]);
      if range.Some? then Some((r.(inputs := r.inputs + [(ts[0].v, range.value.0)]), range.value.1)) else None
    else if r.remaining.Some? then None
    else Some((r.(remaining := Some(ts[0].v)), ts[1..]))
  }

  function ParseOperands(ts: seq<Token>, r: Read): Option<(Read, seq<Token>)>
    decreases |ts|
  {
    var q := ParseOperand(ts, r);
    if q.None? then None
    else if Peek(q.value.1) == Comma then ParseOperands(q.value.1[1..], q.value.0)
    else q
  }

  /** A list of one index becomes the index; the operand without a list comes last. */
  function Build(inputs: seq<(nat, seq<int>)>, remaining: Option<nat>): seq<Operand>
  {
    BuildInputs(inputs) + (if remaining.Some? then [Operand(remaining.value, All)] else [])
  }

  function BuildInput(p: (nat, seq<int>)): Operand { Operand(p.0, if |p.1| == 1 then One(p.1[0]) else Many(p.1)) }

  function BuildInputs(inputs: seq<(nat, seq<int>)>): (c: seq<Operand>)
    ensures |c| == |inputs| && forall k :: 0 <= k < |c| ==> c[k] == BuildInput(inputs[k])
  {
    seq(|inputs|, k requires 0 <= k < |inputs| => BuildInput(inputs[k]))
  }

  function Parse(ts: seq<Token>): Option<seq<Operand>>
  {
    if Peek(ts) != OpenRound then None else
      var q := ParseOperands(ts[1..], Read([], None));
      if q.Some? && q.value.1 == [CloseRound, Colon, Type] then Some(Build(q.value.0.inputs, q.value.0.remaining)) else None
  }

  // ---------------------------------------------------------------- what comes back

  /** The list a printed list is read as, if any. */
  function Reread(x: Index): Option<seq<int>>
    requires Printable(x) && !x.All?
  {
    match x
    case One(i) => if Fits(i) then Some([i]) else None
    case Many(run) =>
      if (Continuous(run) || |run| == 1) && Fits(run[0]) && Fits(run[|run| - 1]) then Some(run) else None
  }

  /** Reading on after printed operands. */
  function Taken(c: seq<Operand>, r: Read): Option<Read>
    requires AllPrintable(c)
    decreases |c|
  {
    if c == [] then Some(r)
    else
      var next := TakenOne(c[0], r);
      if next.None? then None else Taken(c[1..], next.value)
  }

  function TakenOne(o: Operand, r: Read): Option<Read>
    requires Printable(o.ix)
  {
    if o.ix.All? then (if r.remaining.Some? then None else Some(r.(remaining := Some(o.v))))
    else if Reread(o.ix).Some? then Some(r.(inputs := r.inputs + [(o.v, Reread(o.ix).value)]))
    else None
  }

  /** What stands behind the opening bracket. */
  function Inside(x: Index): seq<Token>
    requires Printable(x) && !x.All?
  {
    ShowIndex(x)[1..]
  }

  lemma {:induction false} RangeRead(x: Index, rest: seq<Token>)
    requires Printable(x) && !x.All?
    ensures ShowIndex(x) != [] && ShowIndex(x)[0] == OpenSquare
    ensures ParseRange((ShowIndex(x) + rest)[1..]) == if Reread(x).Some? then Some((Reread(x).value, rest)) else None
  {
    assert (ShowIndex(x) + rest)[1..] == Inside(x) + rest;
    InsideRead(x, rest);
  }

  lemma {:induction false} InsideRead(x: Index, rest: seq<Token>)
    requires Printable(x) && !x.All?
    ensures ParseRange(Inside(x) + rest) == if Reread(x).Some? then Some((Reread(x).value, rest)) else None
  {
    match x
    case One(i) => SingleRead(i, rest);
    case Many(run) =>
      if Continuous(run) { RunRead(run, rest); }
      else if |run| == 1 { SingleRead(run[0], rest); assert [run[0]] == run; }
      else { ListRefused(run, rest); }
  }

  lemma {:induction false} SingleRead(i: int, rest: seq<Token>)
    ensures Inside(One(i)) == [Number(i), CloseSquare] == Inside(Many([i]))
    ensures ParseRange([Number(i), CloseSquare] + rest) == if Fits(i) then Some(([i], rest)) else None
  {
    var ts := [Number(i), CloseSquare] + rest;
    assert ts[2..] == rest && Upto(i, i) == [i] && ts[1] == CloseSquare;
    assert ShowList([i]) == [Number(i)];
  }

  lemma {:induction false} RunRead(run: seq<int>, rest: seq<Token>)
    requires Continuous(run)
    ensures ParseRange(Inside(Many(run)) + rest)
         == if Fits(run[0]) && Fits(run[|run| - 1]) then Some((run, rest)) else None
  {
    var ts := Inside(Many(run)) + rest;
    assert ts == [Number(run[0]), Colon, Number(run[|run| - 1]), CloseSquare] + rest;
    assert ts[4..] == rest && ts[1] == Colon && ts[3] == CloseSquare;
    ContinuousUpto(run);
  }

  /** A comma in the brackets is an error. */
  lemma {:induction false} ListRefused(run: seq<int>, rest: seq<Token>)
    requires |run| > 1 && !Continuous(run)
    ensures ParseRange(Inside(Many(run)) + rest) == None
  {
    var ts := Inside(Many(run)) + rest;
    assert ShowList(run) == [Number(run[0])] + ([Comma] + ShowList(run[1..]));
    assert ts[1] == Comma;
  }

  lemma {:induction false} ContinuousAt(run: seq<int>, j: nat)
    requires Continuous(run) && j < |run|
    ensures run[j] == run[0] + j
  {
    if j > 0 { ContinuousAt(run, j - 1); }
  }

  lemma {:induction false} ContinuousUpto(run: seq<int>)
    requires Continuous(run)
    ensures Upto(run[0], run[|run| - 1]) == run
  {
    forall j: nat | j < |run| ensures run[j] == run[0] + j { ContinuousAt(run, j); }
  }

  /** One printed operand. */
  lemma {:induction false} OperandRead(o: Operand, r: Read, rest: seq<Token>)
    requires Printable(o.ix) && Peek(rest) != OpenSquare
    ensures ParseOperand([Value(o.v)] + (ShowIndex(o.ix) + rest), r) == if TakenOne(o, r).Some? then Some((TakenOne(o, r).value, rest)) else None
  {
    var ts := [Value(o.v)] + (ShowIndex(o.ix) + rest);
    assert ts[1..] == ShowIndex(o.ix) + rest;
    if o.ix.All? {
      assert ts[1..] == rest;
    } else {
      RangeRead(o.ix, rest);
      assert ts[2..] == (ShowIndex(o.ix) + rest)[1..];
    }
  }

  lemma {:induction false} OperandsRead(c: seq<Operand>, r: Read, end: seq<Token>)
    requires AllPrintable(c) && c != [] && Peek(end) != OpenSquare && Peek(end) != Comma
    ensures ParseOperands(ShowOperands(c) + end, r) == if Taken(c, r).Some? then Some((Taken(c, r).value, end)) else None
    decreases |c|
  {
    var xs := ShowIndex(c[0].ix);
    if |c| == 1 {
      assert ShowOperands(c) + end == [Value(c[0].v)] + (xs + end);
      OperandRead(c[0], r, end);
      if TakenOne(c[0], r).Some? { assert c[1..] == []; }
    } else {
      var rest := [Comma] + (ShowOperands(c[1..]) + end);
      assert ShowOperands(c) + end == [Value(c[0].v)] + (xs + rest);
      OperandRead(c[0], r, rest);
      assert rest[1..] == ShowOperands(c[1..]) + end;
      if TakenOne(c[0], r).Some? { OperandsRead(c[1..], TakenOne(c[0], r).value, end); }
    }
  }

  /** What parsing makes of a printed combine. */
  lemma {:induction false} PrintedParse(c: seq<Operand>)
    requires AllPrintable(c)
    ensures var t := Taken(c, Read([], None));
      Parse(Print(c)) == if c != [] && t.Some? then Some(Build(t.value.inputs, t.value.remaining)) else None
  {
    var end := [CloseRound, Colon, Type];
    assert Print(c)[1..] == ShowOperands(c) + end;
    if c == [] {
      assert ShowOperands(c) + end == end;
    } else {
      OperandsRead(c, Read([], None), end);
    }
  }

  // ---------------------------------------------------------------- main result

  /** Single indices, runs of at least two, and at most one "all", in the last place. */
  predicate Readable(c: seq<Operand>)
  {
    && (forall k :: 0 <= k < |c| ==> ReadableIndex(c[k].ix))
    && (forall k :: 0 <= k < |c| - 1 ==> !c[k].ix.All?)
  }

  predicate ReadableIndex(x: Index)
  {
    match x
    case One(i) => Fits(i)
    case Many(run) => Continuous(run) && Fits(run[0]) && Fits(run[|run| - 1])
    case All => true
  }

  /** Operands with lists come back as they are exactly when their lists are readable. */
  lemma {:induction false} InputBack(o: Operand)
    requires Printable(o.ix) && !o.ix.All?
    ensures ReadableIndex(o.ix) <==> Reread(o.ix).Some? && BuildInput((o.v, Reread(o.ix).value)) == o
  {}

  /** Before an operand without a list: the inputs built so far are the operands so far, if all were readable. */
  lemma {:induction false} TakenBack(c: seq<Operand>, r: Read, before: seq<Operand>)
    requires AllPrintable(c) && r.remaining.None?
    requires BuildInputs(r.inputs) == before
    ensures Readable(c) <==> Taken(c, r).Some? && Build(Taken(c, r).value.inputs, Taken(c, r).value.remaining) == before + c
    decreases |c|
  {
    if c == [] {
      assert before + c == before && BuildInputs(r.inputs) + [] == before;
    } else if c[0].ix.All? {
      AllBack(c, r, before);
    } else {
      InputBack(c[0]);
      ReadableTail(c);
      if Reread(c[0].ix).Some? {
        var p := (c[0].v, Reread(c[0].ix).value);
        var r' := r.(inputs := r.inputs + [p]);
        assert BuildInputs(r'.inputs) == before + [BuildInput(p)];
        if BuildInput(p) == c[0] {
          TakenBack(c[1..], r', before + [c[0]]);
          assert before + [c[0]] + c[1..] == before + c;
        } else {
          TakenKeeps(c[1..], r');
          if Taken(c, r).Some? {
            var t := Taken(c, r).value;
            BuildKeeps(r'.inputs, t.inputs);
            DiffersAt(before, BuildInput(p), c, Build(t.inputs, t.remaining));
          }
        }
      }
    }
  }

  lemma {:induction false} BuildKeeps(xs: seq<(nat, seq<int>)>, ys: seq<(nat, seq<int>)>)
    requires xs <= ys
    ensures BuildInputs(xs) <= BuildInputs(ys)
  {}

  lemma {:induction false} ReadableTail(c: seq<Operand>)
    requires c != [] && !c[0].ix.All?
    ensures Readable(c) <==> ReadableIndex(c[0].ix) && Readable(c[1..])
  {
    var t := c[1..];
    assert forall k :: 0 < k < |c| ==> c[k] == t[k - 1];
    assert forall k :: 0 <= k < |t| ==> t[k] == c[k + 1];
  }

  /** Inputs once read stay where they are. */
  lemma {:induction false} TakenKeeps(c: seq<Operand>, r: Read)
    requires AllPrintable(c)
    ensures Taken(c, r).Some? ==> r.inputs <= Taken(c, r).value.inputs
    ensures Taken(c, r).Some? && r.remaining.Some? ==> Taken(c, r).value.remaining == r.remaining
    decreases |c|
  {
    if c != [] && TakenOne(c[0], r).Some? { TakenKeeps(c[1..], TakenOne(c[0], r).value); }
  }

  lemma {:induction false} DiffersAt(before: seq<Operand>, o: Operand, c: seq<Operand>, d: seq<Operand>)
    requires c != [] && o != c[0] && before + [o] <= d
    ensures d != before + c
  {
    assert d[|before|] == (before + [o])[|before|] == o;
    assert (before + c)[|before|] == c[0];
  }

  /** An operand without a list is put last, so it must be last. */
  lemma {:induction false} AllBack(c: seq<Operand>, r: Read, before: seq<Operand>)
    requires AllPrintable(c) && r.remaining.None? && c != [] && c[0].ix.All? && BuildInputs(r.inputs) == before
    ensures Readable(c) <==> Taken(c, r).Some? && Build(Taken(c, r).value.inputs, Taken(c, r).value.remaining) == before + c
  {
    var r' := r.(remaining := Some(c[0].v));
    if |c| == 1 {
      assert c[1..] == [] && Taken(c, r) == Some(r') && before + c == before + [Operand(c[0].v, All)];
    } else {
      assert !Readable(c);
      TakenKeeps(c[1..], r');
      if Taken(c, r).Some? { LastIsAll(c[1..], r', before, c[0]); }
    }
  }

  lemma {:induction false} LastIsAll(c: seq<Operand>, r: Read, before: seq<Operand>, first: Operand)
    requires AllPrintable(c) && c != [] && first.ix.All? && r.remaining.Some? && Taken(c, r).Some?
    ensures Build(Taken(c, r).value.inputs, Taken(c, r).value.remaining) != before + ([first] + c)
  {
    var t := Taken(c, r).value;
    TakenKeeps(c, r);
    NoneWithout(c, r);
    var built := Build(t.inputs, t.remaining);
    assert built[|built| - 1].ix.All?;
    assert (before + ([first] + c))[|before| + |c|] == c[|c| - 1];
  }

  lemma {:induction false} NoneWithout(c: seq<Operand>, r: Read)
    requires AllPrintable(c) && c != [] && r.remaining.Some? && Taken(c, r).Some?
    ensures !c[|c| - 1].ix.All?
    decreases |c|
  {
    if |c| > 1 { NoneWithout(c[1..], TakenOne(c[0], r).value); }
  }

  /** Parsing a printed combine gives it back exactly when it has operands and is readable. */
  lemma {:induction false} RoundTripExact(c: seq<Operand>)
    requires AllPrintable(c)
    ensures Parse(Print(c)) == Some(c) <==> c != [] && Readable(c)
  {
    PrintedParse(c);
    TakenBack(c, Read([], None), []);
    assert [] + c == c;
  }
}
