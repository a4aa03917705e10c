/** A sum of products ends up as one vector product and a logarithmic rotate-and-add reduction. */
module Reduction {
  import opened Ir
  import opened Walk
  import opened Folding
  import opened Dce
  import opened Terms
  import opened Sums
  import opened SlotSums
  import opened Vectors
  import opened Internal
  import opened Windows
  import Batching
  import Pipeline

  // ---------------------------------------------------------------- folding the batched sum

  function Hadamard(): Term { Node(Mul, [X(), Y()]) }

  /** The product rotated so that slot i comes to slot 0. */
  function Turned(n: nat, i: int): Term
  {
    if i == 0 then Hadamard() else Node(Rotate(n - i), [Hadamard()])
  }

  function Spread(n: nat, sigma: seq<int>): Term
  {
    Node(Add, seq(|sigma|, p requires 0 <= p < |sigma| => Turned(n, sigma[p])))
  }

  function SpreadReturn(n: nat, sigma: seq<int>): Term { Node(Return, [Node(Extract(0), [Spread(n, sigma)])]) }

  lemma {:induction false} KeptAll(h: Head, ts: seq<Term>)
    requires Arith(h) && forall j :: 0 <= j < |ts| ==> !Constant(ts[j].head)
    ensures KeptTerms(h, ts) == ts
  {
    if ts != [] {
      KeptAll(h, ts[..|ts| - 1]);
    }
  }

  lemma {:induction false} FoldRaw(n: nat)
    ensures EvalTerm(FoldTop(n), Raw()) == Hadamard()
  {
    FoldRotateZero(n, X());
    FoldRotateZero(n, Y());
    FoldLeaf(n, Arg(0));
    FoldLeaf(n, Arg(1));
    FoldPair(n, Mul, Node(Rotate(0), [X()]), Node(Rotate(0), [Y()]));
  }

  lemma {:induction false} FoldRotateZero(n: nat, t: Term)
    ensures EvalTerm(FoldTop(n), Node(Rotate(0), [t])) == EvalTerm(FoldTop(n), t)
  {
    EvalFold(n, Rotate(0), [t]);
  }

  lemma {:induction false} FoldTurned(n: nat, i: int)
    requires 0 <= i < n
    ensures EvalTerm(FoldTop(n), Node(Rotate(0 - i), [Raw()])) == Turned(n, i)
  {
    FoldRaw(n);
    EvalFold(n, Rotate(0 - i), [Raw()]);
    assert Folded(n, [Raw()]) == [Hadamard()];
  }

  lemma {:induction false} FoldSpread(n: nat, sigma: seq<int>)
    requires SlotList(n, sigma) && |sigma| > 1
    ensures EvalTerm(FoldTop(n), RawSum(sigma)) == Spread(n, sigma)
  {
    var ts, us := RawSum(sigma).kids, Spread(n, sigma).kids;
    forall p | 0 <= p < |sigma| ensures Folded(n, ts)[p] == us[p] { FoldTurned(n, sigma[p]); }
    assert Folded(n, ts) == us;
    EvalFold(n, Add, ts);
    KeptAll(Add, us);
    FoldOfAdd(n, us);
  }

  lemma {:induction false} FoldRawSum(n: nat, sigma: seq<int>)
    requires SlotList(n, sigma) && |sigma| > 1
    ensures EvalTerm(FoldTop(n), Node(Return, [Node(Extract(0), [RawSum(sigma)])])) == SpreadReturn(n, sigma)
  {
    FoldSpread(n, sigma);
    FoldExtract(n, 0, RawSum(sigma));
    FoldReturn(n, Node(Extract(0), [RawSum(sigma)]));
  }

  lemma {:induction false} LeafNoFold(n: nat)
    ensures NoFold(n, Hadamard()) && NoFold(n, X()) && NoFold(n, Y())
  {
    KeptAll(Mul, [X(), Y()]);
  }

  lemma {:induction false} NoFoldNode(n: nat, h: Head, ts: seq<Term>)
    requires FoldTerm(n, h, ts) == Node(h, ts) && forall j :: 0 <= j < |ts| ==> NoFold(n, ts[j])
    ensures NoFold(n, Node(h, ts))
  {}

  lemma {:induction false} TurnedNoFold(n: nat, i: int)
    requires 0 <= i < n
    ensures NoFold(n, Turned(n, i))
  {
    LeafNoFold(n);
    if i > 0 { NoFoldNode(n, Rotate(n - i), [Hadamard()]); }
  }

  lemma {:induction false} SpreadNoFold(n: nat, sigma: seq<int>)
    requires SlotList(n, sigma) && |sigma| > 1
    ensures NoFold(n, SpreadReturn(n, sigma))
  {
    var ts := Spread(n, sigma).kids;
    forall p | 0 <= p < |ts| ensures NoFold(n, ts[p]) { TurnedNoFold(n, sigma[p]); }
    KeptAll(Add, ts);
    NoFoldNode(n, Add, ts);
    NoFoldNode(n, Extract(0), [Spread(n, sigma)]);
    NoFoldNode(n, Return, [Node(Extract(0), [Spread(n, sigma)])]);
  }

  lemma {:induction false} SpreadVec(n: nat, sigma: seq<int>)
    requires SlotList(n, sigma) && |sigma| > 1 && n > 0
    ensures VecReturn(TwoVectors(n), SpreadReturn(n, sigma))
    ensures VecReturn(TwoVectors(n), Node(Return, [Node(Extract(0), [RawSum(sigma)])]))
  {
    var g := TwoVectors(n);
    assert Vec(g, X()) && Vec(g, Y());
    assert Vec(g, Hadamard());
    assert Vec(g, Node(Rotate(0), [X()])) && Vec(g, Node(Rotate(0), [Y()]));
    assert Vec(g, Raw());
    forall p | 0 <= p < |sigma| ensures Vec(g, Turned(n, sigma[p])) && Vec(g, RawSum(sigma).kids[p]) {}
    assert Vec(g, Spread(n, sigma)) && Vec(g, RawSum(sigma));
    assert Lane(g, Node(Extract(0), [Spread(n, sigma)])) && Lane(g, Node(Extract(0), [RawSum(sigma)]));
  }

  /** What the internal batching pass gets to see. */
  lemma {:induction false} VectorizeSum(n: nat, o: Batching.UseOrder, b: Body, sigma: seq<int>)
    requires Prepared(n, b, sigma) && Batching.Enumerates(o)
    ensures var r := Pipeline.Vectorize(n, o, b);
      VecBody(TwoVectors(n), r) && TermUnique(r) && Result(Unfold(), r) == SpreadReturn(n, sigma)
  {
    var g := TwoVectors(n);
    PermutationSlots(n, sigma);
    BatchedSum(n, o, b, sigma);
    SpreadVec(n, sigma);
    FoldRawSum(n, sigma);
    SpreadNoFold(n, sigma);
    CleanVec(g, Pipeline.Slotted(o, b));
    CleanAgain(g, Pipeline.Deduplicate(Canonical(n, Pipeline.Slotted(o, b))));
  }

  // ---------------------------------------------------------------- the uses of the product

  /** By how much slot i is turned to come to slot 0. */
  function Turn(n: nat, i: int): int { if i == 0 then 0 else n - i }

  function Turns(n: nat, sigma: seq<int>): (r: seq<int>)
    ensures |r| == |sigma| && forall p :: 0 <= p < |r| ==> r[p] == Turn(n, sigma[p])
  {
    seq(|sigma|, p requires 0 <= p < |sigma| => Turn(n, sigma[p]))
  }

  lemma {:induction false} BagAppend(s: seq<int>, x: int, j: int)
    ensures multiset(s + [x])[j] == multiset(s)[j] + if x == j then 1 else 0
  {}

  lemma {:induction false} TurnsBag(n: nat, sigma: seq<int>, j: int)
    requires SlotList(n, sigma) && 0 <= j < n
    ensures multiset(Turns(n, sigma))[j] == multiset(sigma)[Turn(n, j)]
  {
    if sigma != [] {
      var m := |sigma| - 1;
      TurnsBag(n, sigma[..m], j);
      assert sigma == sigma[..m] + [sigma[m]];
      assert Turns(n, sigma) == Turns(n, sigma[..m]) + [Turn(n, sigma[m])];
      BagAppend(sigma[..m], sigma[m], Turn(n, j));
      BagAppend(Turns(n, sigma[..m]), Turn(n, sigma[m]), j);
    }
  }

  /** All slots, turned, are all rotations. */
  lemma {:induction false} TurnsPermute(n: nat, sigma: seq<int>)
    requires n > 1 && multiset(sigma) == multiset(Upto(n))
    ensures ContiguousUses(Turns(n, sigma)) && |Turns(n, sigma)| == n
  {
    PermutationSlots(n, sigma);
    forall j ensures multiset(Turns(n, sigma))[j] == multiset(Upto(n))[j] {
      UptoBag(n, j);
      if 0 <= j < n {
        TurnsBag(n, sigma, j);
        UptoBag(n, Turn(n, j));
      } else if j in Turns(n, sigma) {
        assert false;
      }
    }
    ContiguousExact(Turns(n, sigma));
  }

  lemma {:induction false} UsesAll(out: Body, args: seq<nat>, o: nat, idx: seq<int>)
    requires Below(args, |out|) && |idx| == |args|
    requires forall p :: 0 <= p < |args| ==> Origin(out, args[p]) == o && Index0(out, args[p]) == idx[p]
    ensures Uses(out, args, o) == idx
  {
    if args != [] {
      var m := |args| - 1;
      UsesAll(out, args[..m], o, idx[..m]);
      assert idx == idx[..m] + [idx[m]];
    }
  }

  lemma {:induction false} OriginsOne(out: Body, args: seq<nat>, o: nat)
    requires Below(args, |out|) && args != []
    requires forall p :: 0 <= p < |args| ==> Origin(out, args[p]) == o
    ensures Origins(out, args) == [o]
  {
    var m := |args| - 1;
    if m > 0 { OriginsOne(out, args[..m], o); }
  }

  lemma {:induction false} OthersNone(out: Body, uses: seq<nat>, o: nat, cur: seq<nat>)
    requires forall p :: 0 <= p < |cur| ==> cur[p] in uses && cur[p] < |out| && Origin(out, cur[p]) == o
    ensures Others(out, uses, o, cur) == []
  {
    if cur != [] { OthersNone(out, uses, o, cur[..|cur| - 1]); }
  }

  lemma {:induction false} CollapseNone(out0: Body, args0: seq<nat>, os: seq<nat>, out: Body, cur: seq<nat>)
    requires Below(args0, |out0|) && forall o :: o in os ==> !Collapsible(out0, args0, o)
    ensures CollapseAll(out0, args0, os, out, cur) == Collapsed(out, cur)
    decreases |os|
  {
    if os != [] {
      assert os[0] in os && forall o :: o in os[1..] ==> o in os;
      CollapseNone(out0, args0, os[1..], out, cur);
    }
  }

  /** Without a collapsible origin a visit leaves the operation as it is. */
  lemma {:induction false} InternalIdle(out: Body, op: Op)
    requires Below(op.args, |out|) && forall o :: !Collapsible(out, op.args, o)
    ensures InternalVisit(out, op) == Emit([op], |out|)
  {
    CollapseNone(out, op.args, Origins(out, op.args), out, op.args);
    assert out[|out|..] + [op] == [op];
  }

  lemma {:induction false} FewUses(uses: seq<int>)
    requires |uses| <= 1
    ensures !ContiguousUses(uses)
  {
    SortBag(uses);
    assert |Sort(uses)| == |multiset(Sort(uses))| == |multiset(uses)| == |uses|;
  }

  /** Two operands that are different origins of their own. */
  lemma {:induction false} TwoOrigins(out: Body, args: seq<nat>, o: nat)
    requires |args| == 2 && Below(args, |out|) && args[0] != args[1]
    requires Origin(out, args[0]) == args[0] && Origin(out, args[1]) == args[1]
    ensures !Collapsible(out, args, o)
  {
    assert args[..1][..0] == [];
    assert |Uses(out, args[..1], o)| <= 1;
    FewUses(Uses(out, args, o));
  }
}
