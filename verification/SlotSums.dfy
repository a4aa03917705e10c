/** Batching a flat sum of products: one vector product, rotated so that each addend meets slot 0. */
module SlotSums {
  import opened Ir
  import opened Walk
  import opened Batching
  import opened Dce
  import opened Terms
  import opened Sums
  import opened Windows
  import opened Flattened
  import Pipeline

  // ---------------------------------------------------------------- before batching

  lemma {:induction false} SummandClean(n: nat, t: Term)
    requires Summand(n, t)
    ensures Clean(t)
    decreases t
  {
    if t.head.Add? {
      forall j | 0 <= j < |t.kids| ensures Clean(t.kids[j]) { SummandClean(n, t.kids[j]); }
    } else if t != Zero() {
      EvalProduct(t.kids[0].head.i);
    }
  }

  lemma {:induction false} SumsReturnOnly(n: nat, r: Term)
    requires SumsProducts(n, r)
    ensures ReturnOnly(r)
  {
    SummandClean(n, r.kids[0]);
  }

  /** All indices are slots. */
  predicate SlotList(n: nat, sigma: seq<int>) { forall p :: 0 <= p < |sigma| ==> 0 <= sigma[p] < n }

  lemma {:induction false} PermutationSlots(n: nat, sigma: seq<int>)
    requires multiset(sigma) == multiset(Upto(n))
    ensures SlotList(n, sigma) && |sigma| == n
  {
    assert |multiset(sigma)| == |multiset(Upto(n))|;
    forall p | 0 <= p < |sigma| ensures 0 <= sigma[p] < n {
      assert sigma[p] in multiset(sigma);
      UptoBag(n, sigma[p]);
    }
  }

  /** What batching gets to see: the plain sum of all products, in some order, nothing else, and each
      subterm computed once. */
  ghost predicate Prepared(n: nat, b: Body, sigma: seq<int>)
  {
    && n > 1 && WellTyped(TwoVectors(n), b) && Ordered(b) && EndsInReturn(b) && AllLive(b)
    && TermUnique(b) && OneReturn(b)
    && multiset(sigma) == multiset(Upto(n))
    && Result(Unfold(), b) == Node(Return, [Products(sigma)])
  }

  lemma {:induction false} FoldFlatReturn(n: nat, ts: seq<Term>)
    requires Leaves(n, ts) && |Flat(AllIndices(ts))| > 1
    ensures EvalTerm(FoldTop(n), Node(Return, [Node(Add, ts)])) == Node(Return, [Products(Flat(AllIndices(ts)))])
  {
    FoldReturn(n, Node(Add, ts));
    FoldFlat(n, ts);
  }

  /** Cleaning up a flat sum, twice. */
  lemma {:induction false} CleanSum(n: nat, b: Body) returns (sigma: seq<int>)
    requires n > 1 && WellTyped(TwoVectors(n), b) && Ordered(b) && EndsInReturn(b)
    requires var r := Result(Unfold(), b); SumsProducts(n, r) && r.kids[0].head == Add && Leaves(n, r.kids[0].kids)
    ensures var c := Canonical(n, Canonical(n, b));
      && WellTyped(TwoVectors(n), c) && AllLive(c) && OneReturn(c)
      && multiset(sigma) == multiset(Upto(n)) && Result(Unfold(), c) == Node(Return, [Products(sigma)])
  {
    var r := Result(Unfold(), b);
    var ts := r.kids[0].kids;
    assert r == Node(Return, [Node(Add, ts)]);
    IndicesAdd(ts);
    sigma := Flat(AllIndices(ts));
    PermutationSlots(n, sigma);
    CanonicalSums(n, b);
    FoldFlatReturn(n, ts);
    var b1 := Canonical(n, b);
    assert Result(Unfold(), b1) == Node(Return, [Products(sigma)]);
    CanonicalSums(n, b1);
    FoldSums(n, Result(Unfold(), b1));
    SumsReturnOnly(n, EvalTerm(FoldTop(n), Result(Unfold(), b1)));
    CanonicalOne(TwoVectors(n), b1);
    ProductsIndices(n, sigma);
    FoldFlatReturn(n, Products(sigma).kids);
  }

  lemma {:induction false} PrepareSums(n: nat, b: Body) returns (sigma: seq<int>)
    requires n > 1 && WellTyped(TwoVectors(n), b) && Ordered(b) && EndsInReturn(b) && SumsProducts(n, Result(Unfold(), b))
    ensures Prepared(n, Pipeline.Prepare(n, b), sigma)
  {
    var g, b1 := TwoVectors(n), Canonical(n, b);
    CanonicalSums(n, b);
    MergeTerm(g, b1);
    var b2 := Pipeline.Deduplicate(b1);
    FlattenSums(n, b2);
    var b3 := Pipeline.Flatten(b2);
    sigma := CleanSum(n, b3);
    var b4 := Canonical(n, Canonical(n, b3));
    PermutationSlots(n, sigma);
    ProductsClean(n, sigma);
    MergeUnique(g, b4);
    MergeTerm(g, b4);
  }

  lemma {:induction false} ProductsClean(n: nat, sigma: seq<int>)
    requires SlotList(n, sigma)
    ensures ReturnOnly(Node(Return, [Products(sigma)]))
  {
    forall p | 0 <= p < |sigma| ensures Clean(Products(sigma).kids[p]) { SummandClean(n, Product(sigma[p])); }
    assert Clean(Products(sigma));
  }

  // ---------------------------------------------------------------- what batching makes of it

  predicate Lanes(ts: seq<Term>) { forall j :: 0 <= j < |ts| ==> ts[j].head.Extract? && |ts[j].kids| == 1 }

  function Rotated(t: int, ts: seq<Term>): (r: seq<Term>)
    requires Lanes(ts)
    ensures |r| == |ts| && forall j :: 0 <= j < |r| ==> r[j] == Node(Rotate(t - ts[j].head.i), ts[j].kids)
  {
    seq(|ts|, j requires 0 <= j < |ts| => Node(Rotate(t - ts[j].head.i), ts[j].kids))
  }

  /** Arithmetic on slots becomes arithmetic on rotated vectors, read at one slot: 0 for the opcode that
      is returned, and the slot of the first operand for any other. */
  function BatchTerm(returned: Head, h: Head, ts: seq<Term>): Term
  {
    if Arith(h) && ts != [] && Lanes(ts) then
      var t := if h == returned then 0 else ts[0].head.i;
      Node(Extract(t), [Node(h, Rotated(t, ts))])
    else
      Node(h, ts)
  }

  function BatchTop(returned: Head): Algebra<Term> { (h: Head, ts: seq<Term>) => BatchTerm(returned, h, ts) }

  /** Everything that occurs in the prepared sum. */
  predicate SumPart(n: nat, sigma: seq<int>, t: Term)
  {
    || t == Node(Return, [Products(sigma)]) || t == Products(sigma) || IsProduct(n, t)
    || (t.head.Extract? && 0 <= t.head.i < n && (t.kids == [X()] || t.kids == [Y()]))
    || t == X() || t == Y()
  }

  lemma {:induction false} SumPartKid(n: nat, sigma: seq<int>, t: Term, j: nat)
    requires SumPart(n, sigma, t) && SlotList(n, sigma) && j < |t.kids|
    ensures SumPart(n, sigma, t.kids[j])
  {}

  lemma {:induction false} SumPartWithin(n: nat, sigma: seq<int>, t: Term, r: Term)
    requires SumPart(n, sigma, r) && SlotList(n, sigma) && Within(t, r)
    ensures SumPart(n, sigma, t)
    decreases r
  {
    if t != r {
      var j :| 0 <= j < |r.kids| && Within(t, r.kids[j]);
      SumPartKid(n, sigma, r, j);
      SumPartWithin(n, sigma, t, r.kids[j]);
    }
  }

  lemma {:induction false} PreparedPart(n: nat, b: Body, sigma: seq<int>, k: nat)
    requires Prepared(n, b, sigma) && k < |b|
    ensures SumPart(n, sigma, Run(Unfold(), b)[k]) && b[k].head == Run(Unfold(), b)[k].head
    ensures Arith(b[k].head) ==> ScalarArith(b[k])
  {
    PermutationSlots(n, sigma);
    TermAt(b, k);
    assert Within(Run(Unfold(), b)[k], Result(Unfold(), b));
    SumPartWithin(n, sigma, Run(Unfold(), b)[k], Result(Unfold(), b));
    if Arith(b[k].head) { PartSecret(n, b, sigma, k); }
  }

  lemma {:induction false} PartSecret(n: nat, b: Body, sigma: seq<int>, k: nat)
    requires Prepared(n, b, sigma) && k < |b| && SumPart(n, sigma, Run(Unfold(), b)[k]) && Arith(b[k].head)
    requires b[k].head == Run(Unfold(), b)[k].head && SlotList(n, sigma) && |sigma| == n
    ensures b[k].ty == Secret
  {
    if !IsProduct(n, Run(Unfold(), b)[k]) { ProductsSummand(n, sigma); }
    SummandSecret(n, b, k);
  }

  lemma {:induction false} ProductsSummand(n: nat, sigma: seq<int>)
    requires SlotList(n, sigma) && |sigma| == n > 0
    ensures Summand(n, Products(sigma))
  {
    assert Products(sigma).kids[0] != Zero();
  }

  // ---------------------------------------------------------------- target slots

  lemma {:induction false} ArithUsers(b: Body, us: seq<nat>)
    requires forall u :: u in us ==> u < |b| && Arith(b[u].head)
    ensures UserSlot(b, us) == -1
  {
    if us != [] {
      assert us[0] in us && forall u :: u in us[1..] ==> u in us;
      ArithUsers(b, us[1..]);
    }
  }

  /** The kid of a user is the term of what it uses. */
  lemma {:induction false} UserKid(n: nat, b: Body, sigma: seq<int>, k: nat, u: nat) returns (j: nat)
    requires Prepared(n, b, sigma) && k < |b| && u in Users(b, k)
    ensures u < |b| && j < |Run(Unfold(), b)[u].kids| && Run(Unfold(), b)[u].kids[j] == Run(Unfold(), b)[k]
    ensures SumPart(n, sigma, Run(Unfold(), b)[u]) && b[u].head == Run(Unfold(), b)[u].head && k in b[u].args
  {
    j :| 0 <= j < |b[u].args| && b[u].args[j] == k;
    TermAt(b, u);
    PreparedPart(n, b, sigma, u);
  }

  /** Products are only used by the sum, which asks for no slot. */
  lemma {:induction false} ProductUser(n: nat, o: UseOrder, b: Body, sigma: seq<int>, k: nat)
    requires Prepared(n, b, sigma) && Enumerates(o) && k < |b| && b[k].head == Mul
    ensures UserSlot(b, o(Users(b, k))) == -1
  {
    PreparedPart(n, b, sigma, k);
    var us := o(Users(b, k));
    forall u | u in us ensures u < |b| && Arith(b[u].head) {
      var j := UserKid(n, b, sigma, k, u);
    }
    ArithUsers(b, us);
  }

  /** The sum is returned, and so asked for in slot 0. */
  lemma {:induction false} SumUser(n: nat, o: UseOrder, b: Body, sigma: seq<int>, k: nat)
    requires Prepared(n, b, sigma) && Enumerates(o) && k < |b| && b[k].head == Add
    ensures Run(Unfold(), b)[k] == Products(sigma) && UserSlot(b, o(Users(b, k))) == 0
  {
    PreparedPart(n, b, sigma, k);
    var us, e := o(Users(b, k)), |b| - 1;
    TermAt(b, e);
    assert b[e].args[0] == k;
    assert e in Users(b, k) && e in us;
    assert us[0] in us;
    var u := us[0];
    var j := UserKid(n, b, sigma, k, u);
    assert OpOk(TwoVectors(n), b[..u], b[u]);
  }

  lemma {:induction false} SumOperand(n: nat, b: Body, sigma: seq<int>, k: nat, j: nat)
    requires Prepared(n, b, sigma) && k < |b| && Arith(b[k].head) && j < |b[k].args|
    ensures var a := b[k].args[j];
      && a < k
      && (b[k].head == Add ==> ScalarArith(b[a]))
      && (b[k].head == Mul ==> IsProduct(n, Run(Unfold(), b)[k]) && b[a].head == Extract(Run(Unfold(), b)[k].kids[0].head.i))
  {
    TermAt(b, k);
    PreparedPart(n, b, sigma, k);
    PreparedPart(n, b, sigma, b[k].args[j]);
  }

  lemma {:induction false} SumsBatchable(n: nat, b: Body, sigma: seq<int>)
    requires Prepared(n, b, sigma)
    ensures AllBatchable(b)
  {
    forall k | 0 <= k < |b| ensures Batchable(b, b[k]) && HasSlot(b, k) {
      if Arith(b[k].head) {
        forall j | 0 <= j < |b[k].args|
          ensures b[k].args[j] < |b| && (Convertible1(b[b[k].args[j]]) || Arith(b[b[k].args[j]].head)) && !b[b[k].args[j]].head.Const?
        {
          PreparedPart(n, b, sigma, k);
          SumOperand(n, b, sigma, k, j);
        }
        assert OpOk(TwoVectors(n), b[..k], b[k]);
        PreparedPart(n, b, sigma, k);
        ScalarOperands(TwoVectors(n), b[..k], b[k]);
        var j :| 0 <= j < |b[k].args| && b[..k][b[k].args[j]].ty == Secret;
        assert SlottedOperand(b, b[k]);
      }
    }
  }

  // ---------------------------------------------------------------- the walk

  /** The operands of arithmetic, as the walk meets them, are extracts; those of a product from its own
      slot. */
  lemma {:induction false} MetOperand(n: nat, b: Body, sigma: seq<int>, k: nat, w: Walked, j: nat)
    requires Prepared(n, b, sigma) && k < |b| && Arith(b[k].head) && j < |b[k].args|
    requires WellTyped(TwoVectors(n), w.out) && Ordered(w.out) && Tracks(b, w) && Images(b, w) && |w.ren| == k
    ensures Below(b[k].args, k) && (b[k].head == Mul ==> IsProduct(n, Run(Unfold(), b)[k]))
    ensures var a := Renamed(b[k], w.ren).args[j];
      && FromExtract(w.out, a) && |w.out[a].args| == 1
      && (b[k].head == Mul ==> w.out[a].head == Extract(Run(Unfold(), b)[k].kids[0].head.i))
  {
    SumOperand(n, b, sigma, k, j);
    var x := b[k].args[j];
    var a := Renamed(b[k], w.ren).args[j];
    PreparedPart(n, b, sigma, k);
    assert a == w.ren[x] && w.out[a].ty == b[x].ty;
    assert OpOk(TwoVectors(n), b[..x], b[x]) && OpOk(TwoVectors(n), w.out[..a], w.out[a]);
  }

  lemma {:induction false} OperandSlotTwo(out: Body, args: seq<nat>, i: int)
    requires |args| == 2 && forall j :: 0 <= j < 2 ==> FromExtract(out, args[j]) && out[args[j]].head == Extract(i)
    requires i >= 0
    ensures OperandSlot(out, args) == i
  {
    assert args[..1][..0] == [];
    assert OperandSlot(out, args[..1]) == i;
  }

  /** The slot the walk chooses is the one BatchTerm names. */
  lemma {:induction false} ChosenSlot(n: nat, o: UseOrder, b: Body, sigma: seq<int>, k: nat, w: Walked)
    requires Prepared(n, b, sigma) && Enumerates(o) && k < |b| && Arith(b[k].head)
    requires WellTyped(TwoVectors(n), w.out) && Ordered(w.out) && Tracks(b, w) && Images(b, w) && |w.ren| == k
    ensures Below(b[k].args, k) && b[k].args != []
    ensures var args := Renamed(b[k], w.ren).args;
      && args[0] < |w.out| && w.out[args[0]].head.Extract?
      && TargetSlot(UserSlot(b, o(Users(b, k))), w.out, args) == (if b[k].head.Add? then 0 else w.out[args[0]].head.i)
  {
    PreparedPart(n, b, sigma, k);
    TermAt(b, k);
    PermutationSlots(n, sigma);
    assert b[k].args != [];
    MetOperand(n, b, sigma, k, w, 0);
    if b[k].head.Add? {
      SumUser(n, o, b, sigma, k);
    } else {
      ProductUser(n, o, b, sigma, k);
      MetOperand(n, b, sigma, k, w, 1);
      OperandSlotTwo(w.out, Renamed(b[k], w.ren).args, Run(Unfold(), b)[k].kids[0].head.i);
    }
  }

  /** The stand-ins of extracts are the rotated vectors. */
  lemma {:induction false} StandTerms(out: Body, t: int, args: seq<nat>)
    requires Ordered(out) && Below(args, |out|)
    requires forall j :: 0 <= j < |args| ==> FromExtract(out, args[j]) && |out[args[j]].args| == 1
    ensures Convertible(out, args, 0)
    ensures var ts := Pick(Run(Unfold(), out), args); Lanes(ts) && StandVals(Unfold(), t, out, args) == Rotated(t, ts)
    ensures args != [] ==> Pick(Run(Unfold(), out), args)[0].head == out[args[0]].head
  {
    var ts := Pick(Run(Unfold(), out), args);
    forall j | 0 <= j < |args|
      ensures ts[j].head.Extract? && |ts[j].kids| == 1 && ts[j].head == out[args[j]].head
      ensures StandVal(Unfold(), t, out, args[j]) == Node(Rotate(t - ts[j].head.i), ts[j].kids)
    {
      TermAt(out, args[j]);
    }
    assert StandVals(Unfold(), t, out, args) == Rotated(t, ts);
  }

  /** A visit of arithmetic on extracts does what BatchTerm says, if the slot chosen is the one it names. */
  lemma {:induction false} SlotVisit(g: Signature, o: UseOrder, b: Body, k: nat, returned: Head)
    requires Ordered(b) && k < |b| && ScalarArith(b[k]) && b[k].args != []
    requires var w := Before(BatchStep(o, b), b, k); WellTyped(g, w.out) && Ordered(w.out)
    requires var w, op := Before(BatchStep(o, b), b, k), Visited(BatchStep(o, b), b, k);
      && OpOk(g, w.out, op)
      && (forall j :: 0 <= j < |op.args| ==> FromExtract(w.out, op.args[j]) && |w.out[op.args[j]].args| == 1)
      && var t := TargetSlot(UserSlot(b, o(Users(b, k))), w.out, op.args);
         t != -1 && t == if op.head == returned then 0 else w.out[op.args[0]].head.i
    ensures VisitTranslates(BatchStep(o, b), b, BatchTop(returned), Unfold(), k)
  {
    var w, op := Before(BatchStep(o, b), b, k), Visited(BatchStep(o, b), b, k);
    var user := UserSlot(b, o(Users(b, k)));
    StandTerms(w.out, TargetSlot(user, w.out, op.args), op.args);
    BatchVisits(o, b, k);
    BatchVisitValue(g, Unfold(), user, w.out, op);
  }

  lemma {:induction false} SumVisit(n: nat, o: UseOrder, b: Body, sigma: seq<int>, k: nat)
    requires Prepared(n, b, sigma) && Enumerates(o) && k < |b|
    ensures VisitTranslates(BatchStep(o, b), b, BatchTop(Add), Unfold(), k)
  {
    var g, w := TwoVectors(n), Before(BatchStep(o, b), b, k);
    SumsBatchable(n, b, sigma);
    BatchInvariant(g, o, b, k);
    TypedOrdered(g, w.out);
    PreparedPart(n, b, sigma, k);
    if Arith(b[k].head) {
      SumVisitArith(n, o, b, sigma, k);
    } else {
      SumVisitOther(n, o, b, k);
    }
  }

  lemma {:induction false} SumVisitOther(n: nat, o: UseOrder, b: Body, k: nat)
    requires Enumerates(o) && WellTyped(TwoVectors(n), b) && Ordered(b) && k < |b| && !Arith(b[k].head)
    requires var w := Before(BatchStep(o, b), b, k); WellTyped(TwoVectors(n), w.out) && Ordered(w.out) && Tracks(b, w)
    ensures VisitTranslates(BatchStep(o, b), b, BatchTop(Add), Unfold(), k)
  {
    var w, op := Before(BatchStep(o, b), b, k), Visited(BatchStep(o, b), b, k);
    BatchVisits(o, b, k);
    RenamedOk(TwoVectors(n), b, k, w);
    UnfoldAppend(w.out, op);
  }

  lemma {:induction false} SumVisitArith(n: nat, o: UseOrder, b: Body, sigma: seq<int>, k: nat)
    requires Prepared(n, b, sigma) && Enumerates(o) && k < |b| && Arith(b[k].head) && ScalarArith(b[k]) && AllBatchable(b)
    requires var w := Before(BatchStep(o, b), b, k);
      WellTyped(TwoVectors(n), w.out) && Ordered(w.out) && Tracks(b, w) && Images(b, w)
    ensures VisitTranslates(BatchStep(o, b), b, BatchTop(Add), Unfold(), k)
  {
    var g, w, op := TwoVectors(n), Before(BatchStep(o, b), b, k), Visited(BatchStep(o, b), b, k);
    var user := UserSlot(b, o(Users(b, k)));
    RenamedOk(g, b, k, w);
    BatchReady(g, o, b, k);
    ChosenSlot(n, o, b, sigma, k, w);
    forall j | 0 <= j < |op.args| ensures FromExtract(w.out, op.args[j]) && |w.out[op.args[j]].args| == 1 {
      MetOperand(n, b, sigma, k, w, j);
    }
    SlotVisit(g, o, b, k, Add);
  }

  // ---------------------------------------------------------------- the batched term

  /** The product of the two vectors with the operands still rotated by 0. */
  function Raw(): Term { Node(Mul, [Node(Rotate(0), [X()]), Node(Rotate(0), [Y()])]) }

  function RawSum(sigma: seq<int>): Term
  {
    Node(Add, seq(|sigma|, p requires 0 <= p < |sigma| => Node(Rotate(0 - sigma[p]), [Raw()])))
  }

  lemma {:induction false} BatchLeaf(t: Term, vs: seq<Term>)
    requires !Arith(t.head) && |vs| == |t.kids| && forall j :: 0 <= j < |vs| ==> vs[j] == EvalTerm(BatchTop(Add), t.kids[j])
    ensures EvalTerm(BatchTop(Add), t) == Node(t.head, vs)
  {
    assert t == Node(t.head, t.kids);
    EvalNode(BatchTop(Add), t.head, t.kids, vs);
  }

  lemma {:induction false} BatchProduct(i: int)
    ensures EvalTerm(BatchTop(Add), Product(i)) == Node(Extract(i), [Raw()])
  {
    BatchLeaf(X(), []);
    BatchLeaf(Y(), []);
    var x, y := Node(Extract(i), [X()]), Node(Extract(i), [Y()]);
    BatchLeaf(x, [X()]);
    BatchLeaf(y, [Y()]);
    EvalNode(BatchTop(Add), Mul, [x, y], [x, y]);
    assert Rotated(i, [x, y]) == [Node(Rotate(0), [X()]), Node(Rotate(0), [Y()])];
  }

  lemma {:induction false} BatchSum(sigma: seq<int>)
    requires sigma != []
    ensures EvalTerm(BatchTop(Add), Node(Return, [Products(sigma)])) == Node(Return, [Node(Extract(0), [RawSum(sigma)])])
  {
    var ts := Products(sigma).kids;
    var vs := seq(|sigma|, p requires 0 <= p < |sigma| => Node(Extract(sigma[p]), [Raw()]));
    forall p | 0 <= p < |sigma| ensures vs[p] == EvalTerm(BatchTop(Add), ts[p]) { BatchProduct(sigma[p]); }
    EvalNode(BatchTop(Add), Add, ts, vs);
    assert Lanes(vs);
    assert Rotated(0, vs) == RawSum(sigma).kids;
    BatchLeaf(Node(Return, [Products(sigma)]), [Node(Extract(0), [RawSum(sigma)])]);
  }

  /** Batching the prepared sum: the rotated copies of one raw product, added up and read in slot 0. */
  lemma {:induction false} BatchedSum(n: nat, o: UseOrder, b: Body, sigma: seq<int>)
    requires Prepared(n, b, sigma) && Enumerates(o)
    ensures var out := Pipeline.Slotted(o, b);
      WellTyped(TwoVectors(n), out) && Result(Unfold(), out) == Node(Return, [Node(Extract(0), [RawSum(sigma)])])
  {
    var k := |b| - 1;
    SumsBatchable(n, b, sigma);
    BatchInvariant(TwoVectors(n), o, b, |b|);
    Pipeline.BatchEnds(o, b);
    forall j | 0 <= j < |b| ensures VisitTranslates(BatchStep(o, b), b, BatchTop(Add), Unfold(), j) {
      SumVisit(n, o, b, sigma, j);
    }
    WalkTranslates(BatchStep(o, b), b, BatchTop(Add), Unfold(), |b|);
    TermIsFree(BatchTop(Add), b, k);
    PermutationSlots(n, sigma);
    BatchSum(sigma);
  }
}
