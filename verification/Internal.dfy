/** Batching inside one operation: operands that are all rotations of one vector become a
    rotate-and-add reduction. */
module Internal {
  import opened Ir
  import opened Walk
  import opened Meaning
  import opened Folding
  import opened Windows

  // ---------------------------------------------------------------- origins

  /** The value an operand is taken from: what a rotation rotates, otherwise the operand itself. */
  function Origin(out: Body, a: nat): nat
    requires a < |out|
  {
    if out[a].ty == Batched && out[a].head.Rotate? && |out[a].args| == 1 then out[a].args[0] else a
  }

  /** The rotation of the origin it is: -1 for constants and plaintexts, which fit any slot. */
  function Index0(out: Body, a: nat): int
    requires a < |out|
  {
    if out[a].ty != Batched then -1
    else if out[a].head.Rotate? && |out[a].args| == 1 then out[a].head.off
    else if Constant(out[a].head) then -1
    else 0
  }

  /** The rotations in which origin o is used, in operand order. */
  function Uses(out: Body, args: seq<nat>, o: nat): (r: seq<int>)
    requires Below(args, |out|)
  {
    if args == [] then [] else
      var m := |args| - 1;
      var rest := Uses(out, args[..m], o);
      if Origin(out, args[m]) == o then rest + [Index0(out, args[m])] else rest
  }

  /** The distinct origins in order of first occurrence. */
  function Origins(out: Body, args: seq<nat>): (r: seq<nat>)
    requires Below(args, |out|)
  {
    if args == [] then [] else
      var m := |args| - 1;
      var rest := Origins(out, args[..m]);
      if Origin(out, args[m]) in rest then rest else rest + [Origin(out, args[m])]
  }

  function InsertSorted(x: int, s: seq<int>): (r: seq<int>)
  {
    if s == [] then [x] else if x <= s[0] then [x] + s else [s[0]] + InsertSorted(x, s[1..])
  }

  function Sort(s: seq<int>): (r: seq<int>)
  {
    if s == [] then [] else InsertSorted(s[|s| - 1], Sort(s[..|s| - 1]))
  }

  /** More than one use, and sorted they read 0, 1, 2, ... */
  predicate ContiguousUses(uses: seq<int>)
  {
    var s := Sort(uses);
    |s| > 1 && s[0] == 0 && forall i :: 1 <= i < |s| ==> s[i - 1] + 1 == s[i]
  }

  predicate PowerOfTwo(n: nat)
    decreases n
  {
    n == 1 || (n > 0 && n % 2 == 0 && PowerOfTwo(n / 2))
  }

  predicate Collapsible(out: Body, args: seq<nat>, o: nat)
    requires Below(args, |out|)
  {
    ContiguousUses(Uses(out, args, o)) && PowerOfTwo(|Uses(out, args, o)|)
  }

  // ---------------------------------------------------------------- the reduction

  datatype Chain = Chain(out: Body, last: nat)

  /** The halving loop: rotate down by i, add, halve i. */
  function Halve(out: Body, prev: nat, i: nat): (c: Chain)
    decreases i
  {
    if i == 0 then Chain(out, prev) else
      var r := |out|;
      Halve(out + [Op(Rotate(-(i as int)), [prev], Batched)] + [Op(Add, [prev, r], Batched)], r + 1, i / 2)
  }

  /** The operands that are not uses of origin o. */
  function Others(out: Body, uses: seq<nat>, o: nat, cur: seq<nat>): (r: seq<nat>)
  {
    if cur == [] then [] else
      var m := |cur| - 1;
      var rest := Others(out, uses, o, cur[..m]);
      if cur[m] in uses && cur[m] < |out| && Origin(out, cur[m]) == o then rest else rest + [cur[m]]
  }

  datatype Collapsed = Collapsed(out: Body, args: seq<nat>)

  /** For each origin in turn: build its reduction, take its uses out of the operand list and put the
      reduction at the end. The uses are those of the original operand list `args0` in `out0`. */
  function CollapseAll(out0: Body, args0: seq<nat>, os: seq<nat>, out: Body, cur: seq<nat>): Collapsed
    requires Below(args0, |out0|)
    decreases os
  {
    if os == [] then Collapsed(out, cur) else
      var o := os[0];
      if Collapsible(out0, args0, o) then
        var c := Halve(out, o, |Uses(out0, args0, o)| / 2);
        CollapseAll(out0, args0, os[1..], c.out, Others(out0, args0, o, cur) + [c.last])
      else
        CollapseAll(out0, args0, os[1..], out, cur)
  }

  function InternalVisit(out: Body, op: Op): Emit
    requires Below(op.args, |out|)
  {
    if Arith(op.head) && op.ty == Batched then
      var c := CollapseAll(out, op.args, Origins(out, op.args), out, op.args);
      if |c.out| >= |out| then Emit(c.out[|out|..] + [op.(args := c.args)], |c.out|) else Emit([op], |out|)
    else
      Emit([op], |out|)
  }

  function InternalStep(): Step
  {
    (k: nat, out: Body, op: Op) => if Below(op.args, |out|) then InternalVisit(out, op) else Emit([op], |out|)
  }

  function InternalBatch(b: Body): (w: Walked)
    requires Ordered(b)
    ensures Ordered(w.out) && |w.ren| == |b| && Below(w.ren, |w.out|)
  {
    InternalOrdered(b);
    Apply(InternalStep(), b)
  }

  lemma {:induction false} HalveOrdered(out: Body, prev: nat, i: nat)
    requires Ordered(out) && prev < |out|
    ensures var c := Halve(out, prev, i); Ordered(c.out) && out <= c.out && c.last < |c.out|
    decreases i
  {
    if i > 0 {
      var r, a := Op(Rotate(-(i as int)), [prev], Batched), Op(Add, [prev, |out|], Batched);
      assert Ordered(out + [r]);
      assert Ordered(out + [r] + [a]);
      HalveOrdered(out + [r] + [a], |out| + 1, i / 2);
    }
  }

  lemma {:induction false} CollapseAllOrdered(out0: Body, args0: seq<nat>, os: seq<nat>, out: Body, cur: seq<nat>)
    requires Ordered(out) && out0 <= out && Below(args0, |out0|) && Below(os, |out0|) && Below(cur, |out|)
    ensures var c := CollapseAll(out0, args0, os, out, cur); Ordered(c.out) && out <= c.out && Below(c.args, |c.out|)
    decreases |os|
  {
    if os != [] {
      if Collapsible(out0, args0, os[0]) {
        var c := Halve(out, os[0], |Uses(out0, args0, os[0])| / 2);
        HalveOrdered(out, os[0], |Uses(out0, args0, os[0])| / 2);
        OthersBelow(out0, args0, os[0], cur, |out|);
        var rest := Others(out0, args0, os[0], cur);
        BelowConcat(rest, [c.last], |c.out|);
        CollapseAllOrdered(out0, args0, os[1..], c.out, rest + [c.last]);
      } else {
        CollapseAllOrdered(out0, args0, os[1..], out, cur);
      }
    }
  }

  lemma {:induction false} InternalLinks(out: Body, op: Op)
    requires Below(op.args, |out|) && Ordered(out)
    ensures Links(out, op, InternalVisit(out, op))
  {
    LinksReplace(out, op, op);
    if Arith(op.head) && op.ty == Batched {
      OriginsMembers(out, op.args);
      var os := Origins(out, op.args);
      forall i | 0 <= i < |os| ensures os[i] < |out| {
        assert os[i] in os;
        var p :| 0 <= p < |op.args| && Origin(out, op.args[p]) == os[i];
        assert Below(out[op.args[p]].args, op.args[p]);
      }
      CollapseAllOrdered(out, op.args, os, out, op.args);
      var c := CollapseAll(out, op.args, os, out, op.args);
      assert out + (c.out[|out|..] + [op.(args := c.args)]) == c.out + [op.(args := c.args)];
    }
  }

  lemma {:induction false} InternalOrdered(b: Body)
    requires Ordered(b)
    ensures var w := Apply(InternalStep(), b); Ordered(w.out) && Below(w.ren, |w.out|)
  {
    forall j: nat, out: Body, op: Op | j < |b| ensures Links(out, op, InternalStep()(j, out, op)) {
      if Below(op.args, |out|) && Ordered(out) { InternalLinks(out, op); } else { LinksReplace(out, op, op); }
    }
    WalkOrdered(InternalStep(), b, |b|);
  }

  // ---------------------------------------------------------------- contiguous uses

  lemma {:induction false} InsertSortedBag(x: int, s: seq<int>)
    ensures multiset(InsertSorted(x, s)) == multiset(s) + multiset{x}
  {
    if s != [] && x > s[0] {
      InsertSortedBag(x, s[1..]);
      assert s == [s[0]] + s[1..];
    }
  }

  lemma {:induction false} SortBag(s: seq<int>)
    ensures multiset(Sort(s)) == multiset(s)
  {
    if s != [] {
      var m := |s| - 1;
      assert s == s[..m] + [s[m]];
      assert multiset(s) == multiset(s[..m]) + multiset{s[m]};
      SortBag(s[..m]);
      InsertSortedBag(s[m], Sort(s[..m]));
    }
  }

  predicate Sorted(s: seq<int>) { forall i, j :: 0 <= i < j < |s| ==> s[i] <= s[j] }

  lemma {:induction false} InsertSortedKeeps(x: int, s: seq<int>)
    requires Sorted(s)
    ensures Sorted(InsertSorted(x, s))
    ensures forall y :: y in InsertSorted(x, s) <==> y == x || y in s
  {
    if s != [] && x > s[0] {
      InsertSortedKeeps(x, s[1..]);
      var r := InsertSorted(x, s[1..]);
      assert s == [s[0]] + s[1..];
      forall j | 0 <= j < |r| ensures s[0] <= r[j] { assert r[j] in r; }
    }
  }

  lemma {:induction false} SortSorted(s: seq<int>)
    ensures Sorted(Sort(s))
  {
    if s != [] {
      SortSorted(s[..|s| - 1]);
      InsertSortedKeeps(s[|s| - 1], Sort(s[..|s| - 1]));
    }
  }

  lemma {:induction false} HeadBag(s: seq<int>)
    requires s != []
    ensures multiset(s) == multiset{s[0]} + multiset(s[1..])
  {
    assert s == [s[0]] + s[1..];
  }

  lemma {:induction false} SortedHead(s: seq<int>, t: seq<int>)
    requires Sorted(s) && s != [] && t != [] && multiset(s) == multiset(t)
    ensures s[0] <= t[0]
  {
    HeadBag(t);
    assert t[0] in multiset(s);
  }

  lemma {:induction false} SortedTail(s: seq<int>, t: seq<int>)
    requires s != [] && t != [] && s[0] == t[0] && multiset(s) == multiset(t)
    ensures multiset(s[1..]) == multiset(t[1..])
  {
    HeadBag(s);
    HeadBag(t);
    assert multiset(s[1..]) == multiset(s) - multiset{s[0]};
    assert multiset(t[1..]) == multiset(t) - multiset{s[0]};
  }

  lemma {:induction false} SortedUnique(s: seq<int>, t: seq<int>)
    requires Sorted(s) && Sorted(t) && multiset(s) == multiset(t)
    ensures s == t
  {
    assert |s| == |multiset(s)| == |multiset(t)| == |t|;
    if s != [] {
      SortedHead(s, t);
      SortedHead(t, s);
      SortedTail(s, t);
      SortedUnique(s[1..], t[1..]);
      assert s == [s[0]] + s[1..] && t == [t[0]] + t[1..];
    }
  }

  /** The test finds exactly the permutations of 0, ..., m - 1 with m > 1. */
  lemma {:induction false} ContiguousExact(uses: seq<int>)
    ensures ContiguousUses(uses) <==> |uses| > 1 && multiset(uses) == multiset(Upto(|uses|))
  {
    var s := Sort(uses);
    SortBag(uses);
    SortSorted(uses);
    assert |s| == |multiset(s)| == |multiset(uses)| == |uses|;
    if ContiguousUses(uses) {
      Consecutive(s, |s| - 1);
      assert s == Upto(|s|);
    }
    if |uses| > 1 && multiset(uses) == multiset(Upto(|uses|)) {
      SortedUnique(s, Upto(|uses|));
    }
  }

  lemma {:induction false} Consecutive(s: seq<int>, k: nat)
    requires |s| > 0 && s[0] == 0 && k < |s| && forall i :: 1 <= i < |s| ==> s[i - 1] + 1 == s[i]
    ensures forall j :: 0 <= j <= k ==> s[j] == j
  {
    if k > 0 {
      Consecutive(s, k - 1);
      assert s[k - 1] + 1 == s[k];
    }
  }

  // ---------------------------------------------------------------- the halving loop

  /** What the loop computes from x, told in any algebra. */
  function ChainVal<T>(alg: Algebra<T>, x: T, i: nat): T
    decreases i
  {
    if i == 0 then x else ChainVal(alg, alg(Add, [x, alg(Rotate(-(i as int)), [x])]), i / 2)
  }

  lemma {:induction false} HalveOk<T>(g: Signature, alg: Algebra<T>, out: Body, prev: nat, i: nat)
    requires WellTyped(g, out) && Ordered(out) && prev < |out| && out[prev].ty == Batched
    ensures var c := Halve(out, prev, i);
      && WellTyped(g, c.out) && Ordered(c.out) && out <= c.out && c.last < |c.out| && c.out[c.last].ty == Batched
      && (i > 0 ==> |out| <= c.last && c.out[c.last].head == Add)
      && Run(alg, c.out)[c.last] == ChainVal(alg, Run(alg, out)[prev], i)
    decreases i
  {
    if i > 0 {
      var r, a := Op(Rotate(-(i as int)), [prev], Batched), Op(Add, [prev, |out|], Batched);
      var grown := out + [r] + [a];
      HalveOnce(g, alg, out, prev, i);
      HalveOk(g, alg, grown, |out| + 1, i / 2);
      var c := Halve(grown, |out| + 1, i / 2);
      assert Halve(out, prev, i) == c;
      Grown(out, r, a, c.out);
      if i / 2 == 0 { assert c.last == |out| + 1; }
    }
  }

  lemma {:induction false} Grown(out: Body, r: Op, a: Op, c: Body)
    requires out + [r] + [a] <= c
    ensures out <= c && |out| + 1 < |c| && c[|out| + 1] == a
  {
    assert c[..|out|] == (out + [r] + [a])[..|out|] == out;
    assert c[|out| + 1] == (out + [r] + [a])[|out| + 1];
  }

  lemma {:induction false} HalveTyped(g: Signature, out: Body, prev: nat, i: nat)
    requires WellTyped(g, out) && prev < |out| && out[prev].ty == Batched
    ensures WellTyped(g, out + [Op(Rotate(-(i as int)), [prev], Batched)] + [Op(Add, [prev, |out|], Batched)])
  {
    var r, a := Op(Rotate(-(i as int)), [prev], Batched), Op(Add, [prev, |out|], Batched);
    TypedAppend(g, out, r);
    assert (out + [r])[a.args[0]].ty == Batched;
    assert SomeOperand(out + [r], a.args, Batched);
    TypedAppend(g, out + [r], a);
  }

  lemma {:induction false} PickPair<T>(v: seq<T>, p: nat, y: T)
    requires p < |v|
    ensures Pick(v + [y], [p, |v|]) == [v[p], y]
  {}

  lemma {:induction false} HalveOnce<T>(g: Signature, alg: Algebra<T>, out: Body, prev: nat, i: nat)
    requires WellTyped(g, out) && Ordered(out) && prev < |out| && out[prev].ty == Batched
    ensures var r, a := Op(Rotate(-(i as int)), [prev], Batched), Op(Add, [prev, |out|], Batched);
      var x := Run(alg, out)[prev];
      && WellTyped(g, out + [r] + [a]) && Ordered(out + [r] + [a])
      && Run(alg, out + [r] + [a])[|out| + 1] == alg(Add, [x, alg(Rotate(-(i as int)), [x])])
  {
    var r, a := Op(Rotate(-(i as int)), [prev], Batched), Op(Add, [prev, |out|], Batched);
    var v := Run(alg, out);
    HalveTyped(g, out, prev, i);
    RunAppend(alg, out, r);
    assert Pick(v, [prev]) == [v[prev]];
    var y := alg(Rotate(-(i as int)), [v[prev]]);
    assert Run(alg, out + [r]) == v + [y];
    PickPair(v, prev, y);
    RunAppend(alg, out + [r], a);
  }

  lemma {:induction false} StridePeriodic(s: seq<int>, j: int, k: int, d: int, c: nat)
    requires |s| > 0 && j % |s| == k % |s|
    ensures Stride(s, j, d, c) == Stride(s, k, d, c)
  {
    if c > 0 {
      StridePeriodic(s, j, k, d, c - 1);
      var q := SameResidue(j, k, |s|);
      AtPeriodic(s, k + (c - 1) * d, q);
    }
  }

  lemma {:induction false} SameResidue(j: int, k: int, n: nat) returns (q: int)
    requires n > 0 && j % n == k % n
    ensures j - k == q * n
  {
    q := j / n - k / n;
    assert j == (j / n) * n + j % n && k == (k / n) * n + k % n;
    assert q * n == (j / n) * n - (k / n) * n;
  }

  /** Each slot holds a sum of c slots of s at distance d. */
  predicate Strided(s: seq<int>, p: seq<int>, d: int, c: nat)
  {
    |s| > 0 && |p| == |s| && forall j :: 0 <= j < |p| ==> p[j] == Stride(s, j, d, c)
  }

  lemma {:induction false} HalveStrided(s: seq<int>, p: seq<int>, i: nat, c: nat)
    requires Strided(s, p, 2 * i, c)
    ensures var q := Lift(Plus(), V(p), V(Rot(p, -(i as int)))); q.V? && Strided(s, q.s, i, 2 * c)
  {
    var q := Lift(Plus(), V(p), V(Rot(p, -(i as int)))).s;
    forall j | 0 <= j < |q| ensures q[j] == Stride(s, j, i, 2 * c) {
      var k := (j - -(i as int)) % |p|;
      assert q[j] == p[j] + p[k];
      ModMod(j + i, |s|);
      StridePeriodic(s, k, j + i, 2 * i, c);
      Interleave(s, j, i, c);
    }
  }

  lemma {:induction false} ModMod(a: int, n: nat)
    requires n > 0
    ensures (a % n) % n == a % n
  {}

  lemma {:induction false} AddPair(n: nat, inp: nat -> Val, x: Val, y: Val)
    ensures Denote(n, inp)(Add, [x, y]) == Lift(Plus(), x, y)
  {
    var m := Addition();
    AdditionLawful();
    assert Denote(n, inp)(Add, [x, y]) == Compute(n, inp, Add, [x, y]);
    assert [x, y][..1] == [x];
    FoldOne(m, x);
  }

  /** The stride-halving invariant: from sums at distance 2i down to sums of neighbours. */
  lemma {:induction false} ChainSum(n: nat, inp: nat -> Val, s: seq<int>, p: seq<int>, i: nat, c: nat)
    requires |s| == n && Strided(s, p, if i == 0 then 1 else 2 * i, c) && (i == 0 || PowerOfTwo(i))
    ensures var r := ChainVal(Denote(n, inp), V(p), i);
      r.V? && |r.s| == n && forall j :: 0 <= j < n ==> r.s[j] == Window(s, j, if i == 0 then c else c * (2 * i))
    decreases i
  {
    if i > 0 {
      var alg := Denote(n, inp);
      var q := Lift(Plus(), V(p), V(Rot(p, -(i as int)))).s;
      RungValue(n, inp, p, i);
      HalveStrided(s, p, i, c);
      HalfTimes(i, c);
      ChainSum(n, inp, s, q, i / 2, 2 * c);
    }
  }

  lemma {:induction false} RungValue(n: nat, inp: nat -> Val, p: seq<int>, i: nat)
    requires |p| == n
    ensures var alg := Denote(n, inp);
      alg(Add, [V(p), alg(Rotate(-(i as int)), [V(p)])]) == V(Lift(Plus(), V(p), V(Rot(p, -(i as int)))).s)
  {
    RotateValue(n, inp, -(i as int), p);
    AddPair(n, inp, V(p), V(Rot(p, -(i as int))));
  }

  lemma {:induction false} HalfTimes(i: nat, c: nat)
    requires PowerOfTwo(i)
    ensures i > 1 ==> i == 2 * (i / 2) && 2 * c * (2 * (i / 2)) == c * (2 * i)
  {
    if i > 1 {
      var h := i / 2;
      assert i == 2 * h;
      assert 2 * c * (2 * h) == c * (2 * (2 * h));
    }
  }

  /** For n = 2^k slots the loop leaves in every slot j the sum of the n slots from j on. */
  lemma {:induction false} HalvingSums(n: nat, inp: nat -> Val, s: seq<int>, m: nat)
    requires |s| == n > 0 && PowerOfTwo(m) && m > 1
    ensures var r := ChainVal(Denote(n, inp), V(s), m / 2);
      r.V? && |r.s| == n && forall j :: 0 <= j < n ==> r.s[j] == Window(s, j, m)
  {
    StridedStart(s, m);
    assert 2 * (m / 2) == m;
    ChainSum(n, inp, s, s, m / 2, 1);
  }

  lemma {:induction false} StridedStart(s: seq<int>, d: int)
    requires |s| > 0
    ensures Strided(s, s, d, 1)
  {
    forall j | 0 <= j < |s| ensures s[j] == Stride(s, j, d, 1) {
      assert Stride(s, j, d, 1) == Stride(s, j, d, 0) + At(s, j + 0 * d);
    }
  }

  // ---------------------------------------------------------------- replacing one origin's uses

  predicate IsUse(out: Body, uses: seq<nat>, o: nat, a: nat)
  {
    a in uses && a < |out| && Origin(out, a) == o
  }

  /** The operands that are uses of origin o. */
  function Picked(out: Body, uses: seq<nat>, o: nat, cur: seq<nat>): (r: seq<nat>)
  {
    if cur == [] then [] else
      var m := |cur| - 1;
      var rest := Picked(out, uses, o, cur[..m]);
      if IsUse(out, uses, o, cur[m]) then rest + [cur[m]] else rest
  }

  /** Slot j summed over the operands. */
  function Tot(v: seq<Val>, args: seq<nat>, j: nat): int
    requires Below(args, |v|)
  {
    if args == [] then 0 else
      var m := |args| - 1;
      assert Below(args[..m], |v|);
      Tot(v, args[..m], j) + Slot(v[args[m]], j)
  }

  lemma {:induction false} TotIsFold(v: seq<Val>, args: seq<nat>, j: nat)
    requires Below(args, |v|)
    ensures Tot(v, args, j) == Fold(Monoid(0, Plus()), Slots(Pick(v, args), j))
  {
    if args != [] {
      var m := |args| - 1;
      TotIsFold(v, args[..m], j);
      assert Slots(Pick(v, args), j)[..m] == Slots(Pick(v, args[..m]), j);
    }
  }

  lemma {:induction false} TotPrefix(v: seq<Val>, w: seq<Val>, args: seq<nat>, j: nat)
    requires Below(args, |v|) && v <= w
    ensures Below(args, |w|) && Tot(w, args, j) == Tot(v, args, j)
  {
    if args != [] { TotPrefix(v, w, args[..|args| - 1], j); }
  }

  lemma {:induction false} OthersBelow(out: Body, uses: seq<nat>, o: nat, cur: seq<nat>, k: nat)
    requires Below(cur, k)
    ensures Below(Others(out, uses, o, cur), k) && Below(Picked(out, uses, o, cur), k)
  {
    if cur != [] { OthersBelow(out, uses, o, cur[..|cur| - 1], k); }
  }

  lemma {:induction false} TotSplit(v: seq<Val>, out: Body, uses: seq<nat>, o: nat, cur: seq<nat>, j: nat)
    requires Below(cur, |v|)
    ensures Below(Others(out, uses, o, cur), |v|) && Below(Picked(out, uses, o, cur), |v|)
    ensures Tot(v, cur, j) == Tot(v, Others(out, uses, o, cur), j) + Tot(v, Picked(out, uses, o, cur), j)
  {
    OthersBelow(out, uses, o, cur, |v|);
    if cur != [] { TotSplit(v, out, uses, o, cur[..|cur| - 1], j); }
  }

  /** Taking out the uses of o and adding a new value leaves the uses of every other origin. */
  lemma {:induction false} PickedOthers(out: Body, uses: seq<nat>, o: nat, cur: seq<nat>, o': nat)
    requires o != o'
    ensures Picked(out, uses, o', Others(out, uses, o, cur)) == Picked(out, uses, o', cur)
  {
    if cur != [] {
      var m := |cur| - 1;
      PickedOthers(out, uses, o, cur[..m], o');
      var rest := Others(out, uses, o, cur[..m]);
      if !IsUse(out, uses, o, cur[m]) { assert (rest + [cur[m]])[..|rest|] == rest; }
    }
  }

  lemma {:induction false} PickedAppend(out: Body, uses: seq<nat>, o: nat, cur: seq<nat>, a: nat)
    ensures Picked(out, uses, o, cur + [a]) == Picked(out, uses, o, cur) + if IsUse(out, uses, o, a) then [a] else []
  {
    assert (cur + [a])[..|cur|] == cur;
  }

  lemma {:induction false} OthersFirst(out: Body, uses: seq<nat>, o: nat, cur: seq<nat>)
    requires cur != [] && !IsUse(out, uses, o, cur[0])
    ensures Others(out, uses, o, cur) != [] && Others(out, uses, o, cur)[0] == cur[0]
  {
    if |cur| > 1 { OthersFirst(out, uses, o, cur[..|cur| - 1]); }
  }

  // ---------------------------------------------------------------- the sum of one origin's uses

  /** The sum over the uses of the slots they bring to slot j. */
  function UseSum(s: seq<int>, j: int, uses: seq<int>): int
    requires |s| > 0
  {
    if uses == [] then 0 else UseSum(s, j, uses[..|uses| - 1]) + At(s, j - uses[|uses| - 1])
  }

  lemma {:induction false} UseSumFront(s: seq<int>, j: int, x: int, uses: seq<int>)
    requires |s| > 0
    ensures UseSum(s, j, [x] + uses) == At(s, j - x) + UseSum(s, j, uses)
  {
    if uses == [] {
      assert [x] + uses == [x] && [x][..0] == [];
    } else {
      UseSumFront(s, j, x, uses[..|uses| - 1]);
      assert ([x] + uses)[..|uses|] == [x] + uses[..|uses| - 1];
    }
  }

  lemma {:induction false} UseSumHead(s: seq<int>, j: int, x: int, xs: seq<int>, ys: seq<int>)
    requires |s| > 0
    ensures UseSum(s, j, [x] + ys) - UseSum(s, j, [x] + xs) == UseSum(s, j, ys) - UseSum(s, j, xs)
  {
    UseSumFront(s, j, x, xs);
    UseSumFront(s, j, x, ys);
  }

  lemma {:induction false} UseSumInsert(s: seq<int>, j: int, x: int, uses: seq<int>)
    requires |s| > 0
    ensures UseSum(s, j, InsertSorted(x, uses)) == UseSum(s, j, uses) + At(s, j - x)
  {
    if uses == [] {
      UseSumFront(s, j, x, []);
      assert [x] == [x] + [];
    } else if x <= uses[0] {
      UseSumFront(s, j, x, uses);
    } else {
      UseSumInsert(s, j, x, uses[1..]);
      UseSumHead(s, j, uses[0], uses[1..], InsertSorted(x, uses[1..]));
      assert uses == [uses[0]] + uses[1..];
    }
  }

  lemma {:induction false} UseSumSort(s: seq<int>, j: int, uses: seq<int>)
    requires |s| > 0
    ensures UseSum(s, j, Sort(uses)) == UseSum(s, j, uses)
  {
    if uses != [] {
      UseSumSort(s, j, uses[..|uses| - 1]);
      UseSumInsert(s, j, uses[|uses| - 1], Sort(uses[..|uses| - 1]));
    }
  }

  lemma {:induction false} UseSumUpto(s: seq<int>, j: int, m: nat)
    requires |s| > 0
    ensures UseSum(s, j, Upto(m)) == RotationSum(s, j, m)
  {
    if m > 0 {
      UseSumUpto(s, j, m - 1);
      assert Upto(m)[..m - 1] == Upto(m - 1);
      assert j - (m - 1) == j + (m - 1) * -1;
    }
  }

  /** Contiguous uses sum to the rotation sum, in whatever order they are listed. */
  lemma {:induction false} ContiguousSum(s: seq<int>, j: int, uses: seq<int>)
    requires |s| > 0 && ContiguousUses(uses)
    ensures UseSum(s, j, uses) == RotationSum(s, j, |uses|)
  {
    SortBag(uses);
    SortSorted(uses);
    var t := Sort(uses);
    assert |t| == |multiset(t)| == |multiset(uses)| == |uses|;
    Consecutive(t, |t| - 1);
    assert t == Upto(|uses|);
    UseSumSort(s, j, uses);
    UseSumUpto(s, j, |uses|);
  }

  /** A rotated, or bare, use of an origin. */
  lemma {:induction false} UseSlot(g: Signature, inp: nat -> Val, out: Body, a: nat, j: nat)
    requires WellTyped(g, out) && Ordered(out) && InputsOk(g, inp) && a < |out| && Index0(out, a) >= 0 && j < g.n
    ensures var v := Run(Denote(g.n, inp), out); var o := Origin(out, a);
      && o <= a && out[o].ty == Batched && v[o].V? && |v[o].s| == g.n
      && Slot(v[a], j) == At(v[o].s, j - Index0(out, a))
  {
    assert OpOk(g, out[..a], out[a]);
    ValuesFit(g, out, inp, Origin(out, a));
    if out[a].head.Rotate? {
      RotatedAt(g, inp, out, a);
    } else {
      assert j % g.n == j;
    }
  }

  lemma {:induction false} RotatedAt(g: Signature, inp: nat -> Val, out: Body, a: nat)
    requires WellTyped(g, out) && Ordered(out) && InputsOk(g, inp) && a < |out| && out[a].head.Rotate?
    ensures var v := Run(Denote(g.n, inp), out);
      && |out[a].args| == 1 && out[a].args[0] < a
      && v[out[a].args[0]].V? && v[a] == V(Rot(v[out[a].args[0]].s, out[a].head.off))
  {
    var alg := Denote(g.n, inp);
    assert OpOk(g, out[..a], out[a]);
    RunAt(alg, out, a);
    var x := out[a].args[0];
    ValuesFit(g, out, inp, x);
    assert Pick(Run(alg, out), out[a].args) == [V(Run(alg, out)[x].s)];
    RotateValue(g.n, inp, out[a].head.off, Run(alg, out)[x].s);
  }

  predicate NonNegative(uses: seq<int>) { forall i :: 0 <= i < |uses| ==> uses[i] >= 0 }

  /** The picked operands sum up to the listed rotations of value o. */
  predicate SumsUses(n: nat, out: Body, v: seq<Val>, o: nat, j: nat, picked: seq<nat>, uses: seq<int>)
  {
    && |v| == |out| && Below(picked, |v|) && (uses == [] ==> picked == [])
    && (uses != [] ==> o < |out| && out[o].ty == Batched && v[o].V? && |v[o].s| == n > 0
                       && Tot(v, picked, j) == UseSum(v[o].s, j, uses))
  }

  lemma {:induction false} SumsUsesNext(n: nat, out: Body, v: seq<Val>, o: nat, j: nat, picked: seq<nat>, uses: seq<int>, a: nat, u: int)
    requires SumsUses(n, out, v, o, j, picked, uses) && n > 0 && a < |v|
    requires o < |out| && out[o].ty == Batched && v[o].V? && |v[o].s| == n && Slot(v[a], j) == At(v[o].s, j - u)
    ensures SumsUses(n, out, v, o, j, picked + [a], uses + [u])
  {
    assert (picked + [a])[..|picked|] == picked && (uses + [u])[..|uses|] == uses;
  }

  lemma {:induction false} PickedSum(g: Signature, inp: nat -> Val, out: Body, all: seq<nat>, args: seq<nat>, o: nat, j: nat)
    requires WellTyped(g, out) && Ordered(out) && InputsOk(g, inp) && Below(args, |out|) && j < g.n
    requires forall p :: 0 <= p < |args| ==> args[p] in all
    requires NonNegative(Uses(out, args, o))
    ensures SumsUses(g.n, out, Run(Denote(g.n, inp), out), o, j, Picked(out, all, o, args), Uses(out, args, o))
  {
    if args != [] {
      var m := |args| - 1;
      var a, rest := args[m], Uses(out, args[..m], o);
      assert rest <= Uses(out, args, o);
      PickedSum(g, inp, out, all, args[..m], o, j);
      if Origin(out, a) == o {
        assert Uses(out, args, o)[|rest|] == Index0(out, a);
        UseSlot(g, inp, out, a, j);
        SumsUsesNext(g.n, out, Run(Denote(g.n, inp), out), o, j, Picked(out, all, o, args[..m]), rest, a, Index0(out, a));
      }
    }
  }

  lemma {:induction false} ContiguousNonNegative(uses: seq<int>)
    requires ContiguousUses(uses)
    ensures uses != [] && NonNegative(uses)
  {
    ContiguousExact(uses);
    forall i | 0 <= i < |uses| ensures uses[i] >= 0 {
      assert uses[i] in multiset(uses);
      assert uses[i] in multiset(Upto(|uses|));
    }
  }

  /** The reduction built for a collapsible origin holds, in every slot, the sum of that origin's uses,
      provided their number is 0 or 1 modulo the vector size. */
  lemma {:induction false} ReductionSlot(g: Signature, inp: nat -> Val, out0: Body, args0: seq<nat>, o: nat, j: nat)
    requires WellTyped(g, out0) && Ordered(out0) && InputsOk(g, inp) && Below(args0, |out0|) && j < g.n
    requires Collapsible(out0, args0, o) && |Uses(out0, args0, o)| % g.n <= 1
    ensures var v := Run(Denote(g.n, inp), out0);
      && o < |out0| && out0[o].ty == Batched && Below(Picked(out0, args0, o, args0), |out0|)
      && var r := ChainVal(Denote(g.n, inp), v[o], |Uses(out0, args0, o)| / 2);
      r.V? && |r.s| == g.n && r.s[j] == Tot(v, Picked(out0, args0, o, args0), j)
  {
    var v, uses := Run(Denote(g.n, inp), out0), Uses(out0, args0, o);
    ContiguousNonNegative(uses);
    PickedSum(g, inp, out0, args0, args0, o, j);
    var s := v[o].s;
    ContiguousExact(uses);
    HalvingSums(g.n, inp, s, |uses|);
    assert v[o] == V(s);
    WindowsAreRotations(s, j, |uses|);
    ContiguousSum(s, j, uses);
  }

  // ---------------------------------------------------------------- all origins

  /** When the collapse of origin o in this operation is right: enough uses to go around the vector,
      and an operation for which a sum may stand for its terms. */
  predicate SafeOrigin(n: nat, out: Body, op: Op, o: nat)
    requires Below(op.args, |out|) && n > 0
  {
    Collapsible(out, op.args, o) ==>
      && |Uses(out, op.args, o)| % n <= 1
      && !op.head.Mul?
      && (op.head.Sub? ==> Origin(out, op.args[0]) != o)
  }

  predicate SafeInternal(n: nat, out: Body, op: Op)
    requires Below(op.args, |out|) && n > 0
  {
    Arith(op.head) && op.ty == Batched ==> forall o :: o in Origins(out, op.args) ==> SafeOrigin(n, out, op, o)
  }

  /** The state between two origins. */
  ghost predicate Collapsing(g: Signature, out0: Body, op: Op, os: seq<nat>, out: Body, cur: seq<nat>)
    requires Below(op.args, |out0|)
  {
    && WellTyped(g, out) && out0 <= out && Below(cur, |out|) && SomeOperand(out, cur, Batched)
    && (forall o :: o in os ==> Picked(out0, op.args, o, cur) == Picked(out0, op.args, o, op.args))
    && (op.head.Sub? ==> cur != [] && op.args != [] && cur[0] == op.args[0])
    && (cur == op.args || op.head.Add? || op.head.Sub?)
  }

  ghost predicate SameTotals(g: Signature, inp: nat -> Val, out0: Body, args: seq<nat>, out: Body, cur: seq<nat>)
    requires Ordered(out0) && Ordered(out) && Below(args, |out0|) && Below(cur, |out|)
  {
    forall j :: 0 <= j < g.n ==>
      Tot(Run(Denote(g.n, inp), out), cur, j) == Tot(Run(Denote(g.n, inp), out0), args, j)
  }

  predicate AllDistinct(os: seq<nat>) { forall i, j :: 0 <= i < j < |os| ==> os[i] != os[j] }

  /** Collapsing one origin keeps the state and the totals. */
  lemma {:induction false} CollapseOne(g: Signature, inp: nat -> Val, out0: Body, op: Op, os: seq<nat>, out: Body, cur: seq<nat>)
    requires WellTyped(g, out0) && Ordered(out0) && InputsOk(g, inp) && g.n > 0 && Below(op.args, |out0|)
    requires os != [] && AllDistinct(os) && Ordered(out)
    requires Collapsing(g, out0, op, os, out, cur) && SameTotals(g, inp, out0, op.args, out, cur)
    requires Collapsible(out0, op.args, os[0]) && SafeOrigin(g.n, out0, op, os[0]) && Arith(op.head)
    ensures var c := Halve(out, os[0], |Uses(out0, op.args, os[0])| / 2);
      var cur' := Others(out0, op.args, os[0], cur) + [c.last];
      && Ordered(c.out) && Collapsing(g, out0, op, os[1..], c.out, cur')
      && SameTotals(g, inp, out0, op.args, c.out, cur')
  {
    var c := Halve(out, os[0], |Uses(out0, op.args, os[0])| / 2);
    OriginReduced(g, inp, out0, op.args, os[0], out);
    CollapseState(g, out0, op, os, out, cur, c);
    CollapseTotals(g, inp, out0, op, os, out, cur, c);
  }

  /** The reduction of an origin, built behind everything there is. */
  lemma {:induction false} OriginReduced(g: Signature, inp: nat -> Val, out0: Body, args: seq<nat>, o: nat, out: Body)
    requires WellTyped(g, out0) && Ordered(out0) && InputsOk(g, inp) && g.n > 0 && Below(args, |out0|)
    requires WellTyped(g, out) && Ordered(out) && out0 <= out
    requires Collapsible(out0, args, o) && |Uses(out0, args, o)| % g.n <= 1
    ensures var c := Halve(out, o, |Uses(out0, args, o)| / 2);
      && o < |out0| && WellTyped(g, c.out) && Ordered(c.out) && out <= c.out
      && |out| <= c.last < |c.out| && c.out[c.last].ty == Batched
      && Run(Denote(g.n, inp), c.out)[c.last]
         == ChainVal(Denote(g.n, inp), Run(Denote(g.n, inp), out0)[o], |Uses(out0, args, o)| / 2)
  {
    var alg, m := Denote(g.n, inp), |Uses(out0, args, o)|;
    ReductionSlot(g, inp, out0, args, o, 0);
    RunExtends(alg, out0, out);
    assert out[o] == out0[o];
    ContiguousExact(Uses(out0, args, o));
    HalveOk(g, alg, out, o, m / 2);
  }

  lemma {:induction false} CollapseState(g: Signature, out0: Body, op: Op, os: seq<nat>, out: Body, cur: seq<nat>, c: Chain)
    requires Below(op.args, |out0|) && os != [] && AllDistinct(os) && Arith(op.head) && g.n > 0
    requires Collapsing(g, out0, op, os, out, cur)
    requires Collapsible(out0, op.args, os[0]) && SafeOrigin(g.n, out0, op, os[0])
    requires WellTyped(g, c.out) && out <= c.out && |out| <= c.last < |c.out| && c.out[c.last].ty == Batched
    ensures Collapsing(g, out0, op, os[1..], c.out, Others(out0, op.args, os[0], cur) + [c.last])
  {
    var o := os[0];
    var rest := Others(out0, op.args, o, cur);
    var cur' := rest + [c.last];
    OthersBelow(out0, op.args, o, cur, |out|);
    BelowConcat(rest, [c.last], |c.out|);
    assert c.out[cur'[|rest|]].ty == Batched;
    forall o' | o' in os[1..]
      ensures Picked(out0, op.args, o', cur') == Picked(out0, op.args, o', op.args)
    {
      var i :| 0 <= i < |os[1..]| && os[1..][i] == o';
      assert os[i + 1] == o';
      PickedOthers(out0, op.args, o, cur, o');
      PickedAppend(out0, op.args, o', rest, c.last);
    }
    if op.head.Sub? {
      assert !IsUse(out0, op.args, o, cur[0]);
      OthersFirst(out0, op.args, o, cur);
    }
  }

  lemma {:induction false} CollapseTotals(g: Signature, inp: nat -> Val, out0: Body, op: Op, os: seq<nat>, out: Body, cur: seq<nat>, c: Chain)
    requires WellTyped(g, out0) && Ordered(out0) && InputsOk(g, inp) && g.n > 0 && Below(op.args, |out0|) && os != []
    requires Ordered(out) && Ordered(c.out) && out0 <= out <= c.out && Below(cur, |out|) && c.last < |c.out|
    requires SameTotals(g, inp, out0, op.args, out, cur)
    requires Picked(out0, op.args, os[0], cur) == Picked(out0, op.args, os[0], op.args)
    requires Collapsible(out0, op.args, os[0]) && |Uses(out0, op.args, os[0])| % g.n <= 1 && os[0] < |out0|
    requires Run(Denote(g.n, inp), c.out)[c.last]
          == ChainVal(Denote(g.n, inp), Run(Denote(g.n, inp), out0)[os[0]], |Uses(out0, op.args, os[0])| / 2)
    ensures var cur' := Others(out0, op.args, os[0], cur) + [c.last];
      Below(cur', |c.out|) && SameTotals(g, inp, out0, op.args, c.out, cur')
  {
    var o, alg := os[0], Denote(g.n, inp);
    var rest, picked := Others(out0, op.args, o, cur), Picked(out0, op.args, o, op.args);
    var v0, v, w := Run(alg, out0), Run(alg, out), Run(alg, c.out);
    RunExtends(alg, out0, out);
    RunExtends(alg, out, c.out);
    OthersBelow(out0, op.args, o, cur, |out|);
    BelowConcat(rest, [c.last], |c.out|);
    forall j | 0 <= j < g.n ensures Tot(w, rest + [c.last], j) == Tot(v0, op.args, j) {
      ReductionSlot(g, inp, out0, op.args, o, j);
      TotMoved(v0, v, w, out0, op.args, o, cur, c.last, j);
    }
  }

  lemma {:induction false} TotMoved(v0: seq<Val>, v: seq<Val>, w: seq<Val>, out0: Body, args: seq<nat>, o: nat, cur: seq<nat>, last: nat, j: nat)
    requires v0 <= v <= w && Below(args, |v0|) && Below(cur, |v|) && last < |w|
    requires Tot(v, cur, j) == Tot(v0, args, j) && Picked(out0, args, o, cur) == Picked(out0, args, o, args)
    requires Below(Picked(out0, args, o, args), |v0|) && Slot(w[last], j) == Tot(v0, Picked(out0, args, o, args), j)
    ensures var rest := Others(out0, args, o, cur); Below(rest + [last], |w|) && Tot(w, rest + [last], j) == Tot(v0, args, j)
  {
    var rest := Others(out0, args, o, cur);
    TotSplit(v, out0, args, o, cur, j);
    TotPrefix(v, w, rest, j);
    TotPrefix(v0, v, Picked(out0, args, o, args), j);
    TotPush(w, rest, last, j);
  }

  lemma {:induction false} TotPush(v: seq<Val>, args: seq<nat>, a: nat, j: nat)
    requires Below(args, |v|) && a < |v|
    ensures Below(args + [a], |v|) && Tot(v, args + [a], j) == Tot(v, args, j) + Slot(v[a], j)
  {
    assert (args + [a])[..|args|] == args;
  }

  /** All origins in turn keep the totals. */
  lemma {:induction false} CollapseAllOk(g: Signature, inp: nat -> Val, out0: Body, op: Op, os: seq<nat>, out: Body, cur: seq<nat>)
    requires WellTyped(g, out0) && Ordered(out0) && InputsOk(g, inp) && g.n > 0 && Below(op.args, |out0|)
    requires AllDistinct(os) && Ordered(out) && Arith(op.head)
    requires forall o :: o in os ==> SafeOrigin(g.n, out0, op, o)
    requires Collapsing(g, out0, op, os, out, cur) && SameTotals(g, inp, out0, op.args, out, cur)
    ensures var c := CollapseAll(out0, op.args, os, out, cur);
      Ordered(c.out) && Collapsing(g, out0, op, [], c.out, c.args) && SameTotals(g, inp, out0, op.args, c.out, c.args)
    decreases |os|
  {
    if os != [] {
      assert forall o :: o in os[1..] ==> o in os;
      if Collapsible(out0, op.args, os[0]) {
        CollapseOne(g, inp, out0, op, os, out, cur);
        var c := Halve(out, os[0], |Uses(out0, op.args, os[0])| / 2);
        CollapseAllOk(g, inp, out0, op, os[1..], c.out, Others(out0, op.args, os[0], cur) + [c.last]);
      } else {
        CollapseAllOk(g, inp, out0, op, os[1..], out, cur);
      }
    }
  }

  // ---------------------------------------------------------------- the walk

  lemma {:induction false} OriginsMembers(out: Body, args: seq<nat>)
    requires Below(args, |out|)
    ensures AllDistinct(Origins(out, args))
    ensures forall o :: o in Origins(out, args) <==> exists p :: 0 <= p < |args| && Origin(out, args[p]) == o
  {
    if args != [] {
      var m := |args| - 1;
      OriginsMembers(out, args[..m]);
      var rest := Origins(out, args[..m]);
      assert forall p :: 0 <= p < m ==> args[..m][p] == args[p];
      assert forall p :: 0 <= p < m ==> Origin(out, args[..m][p]) in rest;
      forall o | o in rest ensures exists p :: 0 <= p < |args| && Origin(out, args[p]) == o {
        var p :| 0 <= p < m && Origin(out, args[..m][p]) == o;
        assert Origin(out, args[p]) == o;
      }
    }
  }

  lemma {:induction false} StartCollapsing(g: Signature, out: Body, op: Op)
    requires WellTyped(g, out) && OpOk(g, out, op) && Arith(op.head) && op.ty == Batched
    ensures Collapsing(g, out, op, Origins(out, op.args), out, op.args)
  {}

  /** What a safe visit emits is well typed and computes what the operation computed. */
  lemma {:induction false} InternalVisitOk(g: Signature, inp: nat -> Val, out: Body, op: Op)
    requires WellTyped(g, out) && Ordered(out) && InputsOk(g, inp) && g.n > 0 && OpOk(g, out, op)
    requires SafeInternal(g.n, out, op)
    ensures var e := InternalVisit(out, op);
      && EmitOk(g, out, op, e) && VisitKeeps(Denote(g.n, inp), out, op, e)
      && e.res == |out + e.ops| - 1 && (out + e.ops)[e.res].head == op.head && |out| <= e.res
  {
    if Arith(op.head) && op.ty == Batched {
      var c := CollapseAll(out, op.args, Origins(out, op.args), out, op.args);
      OriginsMembers(out, op.args);
      StartCollapsing(g, out, op);
      CollapseAllOk(g, inp, out, op, Origins(out, op.args), out, op.args);
      CollapsedVisitOk(g, inp, out, op, c);
    } else {
      TypedAppend(g, out, op);
      ReplaceKeeps(Denote(g.n, inp), out, op, op);
    }
  }

  lemma {:induction false} CollapsedVisitOk(g: Signature, inp: nat -> Val, out: Body, op: Op, c: Collapsed)
    requires WellTyped(g, out) && Ordered(out) && InputsOk(g, inp) && OpOk(g, out, op) && Ordered(c.out)
    requires Arith(op.head) && op.ty == Batched
    requires Collapsing(g, out, op, [], c.out, c.args) && SameTotals(g, inp, out, op.args, c.out, c.args)
    ensures var e := Emit(c.out[|out|..] + [op.(args := c.args)], |c.out|);
      && EmitOk(g, out, op, e) && VisitKeeps(Denote(g.n, inp), out, op, e)
      && e.res == |out + e.ops| - 1 && (out + e.ops)[e.res].head == op.head && |out| <= e.res
  {
    var op' := op.(args := c.args);
    InternalOpKeeps(g, inp, out, op, c.out, op');
    TypedAppend(g, c.out, op');
    RunAppend(Denote(g.n, inp), c.out, op');
    assert out + (c.out[|out|..] + [op']) == c.out + [op'];
  }

  /** Equal totals (and for a difference, equal first operands) give equal results. */
  lemma {:induction false} InternalOpKeeps(g: Signature, inp: nat -> Val, out: Body, op: Op, out': Body, op': Op)
    requires WellTyped(g, out) && Ordered(out) && InputsOk(g, inp) && OpOk(g, out, op) && Ordered(out')
    requires Arith(op.head) && op.ty == Batched && op' == op.(args := op'.args)
    requires Collapsing(g, out, op, [], out', op'.args) && SameTotals(g, inp, out, op.args, out', op'.args)
    ensures OpOk(g, out', op')
    ensures var alg := Denote(g.n, inp);
      alg(op'.head, Pick(Run(alg, out'), op'.args)) == alg(op.head, Pick(Run(alg, out), op.args))
  {
    var alg := Denote(g.n, inp);
    var xs, ys := Pick(Run(alg, out), op.args), Pick(Run(alg, out'), op'.args);
    RunExtends(alg, out, out');
    if op'.args == op.args {
      PickPrefix(Run(alg, out), Run(alg, out'), op.args);
    } else {
      PickFits(g, out, inp, op.args);
      PickFits(g, out', inp, op'.args);
      ArithSlots(g.n, inp, op.head, xs);
      ArithSlots(g.n, inp, op.head, ys);
      forall j | 0 <= j < g.n ensures Scalar(op.head, Slots(xs, j)) == Scalar(op.head, Slots(ys, j)) {
        TotIsFold(Run(alg, out), op.args, j);
        TotIsFold(Run(alg, out'), op'.args, j);
        if op.head.Sub? {
          SubFromTotal(Slots(xs, j));
          SubFromTotal(Slots(ys, j));
        }
      }
      SameVal(g.n, alg(op.head, xs), alg(op.head, ys), Batched);
    }
  }

  lemma {:induction false} SubFromTotal(ns: seq<int>)
    requires ns != []
    ensures Scalar(Sub, ns) == 2 * ns[0] - Fold(Monoid(0, Plus()), ns)
  {
    var m := Monoid(0, Plus());
    assert ns == [ns[0]] + ns[1..];
    FoldConcat(m, [ns[0]], ns[1..]);
    FoldOne(m, ns[0]);
  }

  /** Renaming keeps opcodes, order, and what rotations rotate. */
  ghost predicate Faithful(b: Body, w: Walked)
  {
    && |w.ren| <= |b|
    && (forall i, j :: 0 <= i < j < |w.ren| ==> w.ren[i] < w.ren[j])
    && (forall j :: 0 <= j < |w.ren| ==> w.ren[j] < |w.out| && w.out[w.ren[j]].head == b[j].head && w.out[w.ren[j]].ty == b[j].ty)
    && (forall j :: 0 <= j < |w.ren| && b[j].head.Rotate? ==>
          Below(b[j].args, |w.ren|) && w.out[w.ren[j]].args == Pick(w.ren, b[j].args))
  }

  lemma {:induction false} OriginRenamed(b: Body, w: Walked, a: nat)
    requires Ordered(b) && Faithful(b, w) && a < |w.ren|
    ensures Origin(b, a) < |w.ren| && Origin(w.out, w.ren[a]) == w.ren[Origin(b, a)]
    ensures Index0(w.out, w.ren[a]) == Index0(b, a)
  {}

  lemma {:induction false} UsesRenamed(b: Body, w: Walked, args: seq<nat>, o: nat)
    requires Ordered(b) && Faithful(b, w) && Below(args, |w.ren|) && o < |w.ren|
    ensures Below(Pick(w.ren, args), |w.out|)
    ensures Uses(w.out, Pick(w.ren, args), w.ren[o]) == Uses(b[..|w.ren|], args, o)
  {
    if args != [] {
      var m := |args| - 1;
      UsesRenamed(b, w, args[..m], o);
      assert Pick(w.ren, args)[..m] == Pick(w.ren, args[..m]);
      OriginRenamed(b, w, args[m]);
    }
  }

  lemma {:induction false} SafeInternalRenamed(g: Signature, b: Body, k: nat, w: Walked)
    requires WellTyped(g, b) && Ordered(b) && k < |b| && Faithful(b, w) && |w.ren| == k && g.n > 0
    requires Below(b[k].args, k) && SafeInternal(g.n, b[..k], b[k])
    ensures SafeInternal(g.n, w.out, Renamed(b[k], w.ren))
  {
    var op, op' := b[k], Renamed(b[k], w.ren);
    if Arith(op.head) && op.ty == Batched {
      OriginsMembers(w.out, op'.args);
      OriginsMembers(b[..k], op.args);
      forall o' | o' in Origins(w.out, op'.args) ensures SafeOrigin(g.n, w.out, op', o') {
        var p :| 0 <= p < |op'.args| && Origin(w.out, op'.args[p]) == o';
        var o := Origin(b[..k], op.args[p]);
        assert SafeOrigin(g.n, b[..k], op, o);
        OriginRenamed(b, w, op.args[p]);
        SafeOriginRenamed(g.n, b, k, w, o);
      }
    }
  }

  lemma {:induction false} SafeOriginRenamed(n: nat, b: Body, k: nat, w: Walked, o: nat)
    requires Ordered(b) && k < |b| && Faithful(b, w) && |w.ren| == k && n > 0
    requires Below(b[k].args, k) && b[k].args != [] && o < k && SafeOrigin(n, b[..k], b[k], o)
    ensures Below(Renamed(b[k], w.ren).args, |w.out|) && SafeOrigin(n, w.out, Renamed(b[k], w.ren), w.ren[o])
  {
    UsesRenamed(b, w, b[k].args, o);
    OriginRenamed(b, w, b[k].args[0]);
  }

  ghost predicate AllSafeInternal(g: Signature, b: Body)
    requires Ordered(b) && g.n > 0
  {
    forall k :: 0 <= k < |b| ==> SafeInternal(g.n, b[..k], b[k])
  }

  lemma {:induction false} FaithfulExtend(b: Body, w: Walked, e: Emit)
    requires Ordered(b) && Faithful(b, w) && |w.ren| < |b| && |w.out| <= e.res < |w.out + e.ops|
    requires var op := Renamed(b[|w.ren|], w.ren); var op' := (w.out + e.ops)[e.res];
      op'.head == op.head && op'.ty == op.ty && (op.head.Rotate? ==> op'.args == op.args)
    ensures Faithful(b, Walked(w.out + e.ops, w.ren + [e.res]))
  {
    var w' := Walked(w.out + e.ops, w.ren + [e.res]);
    forall j | 0 <= j < |w'.ren| && b[j].head.Rotate?
      ensures Below(b[j].args, |w'.ren|) && w'.out[w'.ren[j]].args == Pick(w'.ren, b[j].args)
    {
      assert Below(b[j].args, j);
      PickPrefix(w.ren, w'.ren, b[j].args);
    }
  }

  /** What every prefix of the walk keeps. */
  ghost predicate InternalKept(g: Signature, b: Body, w: Walked)
  {
    WellTyped(g, w.out) && Tracks(b, w) && Faithful(b, w)
  }

  lemma {:induction false} InternalOne(g: Signature, inp: nat -> Val, b: Body, k: nat)
    requires WellTyped(g, b) && Ordered(b) && g.n > 0 && InputsOk(g, inp) && AllSafeInternal(g, b) && k < |b|
    requires var w := Before(InternalStep(), b, k); InternalKept(g, b, w)
    ensures var w, op, e := Before(InternalStep(), b, k), Visited(InternalStep(), b, k), Visit(InternalStep(), b, k);
      && Ordered(w.out) && Below(op.args, |w.out|)
      && EmitOk(g, w.out, op, e) && VisitKeeps(Denote(g.n, inp), w.out, op, e)
      && Faithful(b, Walked(w.out + e.ops, w.ren + [e.res]))
  {
    var w := Before(InternalStep(), b, k);
    TypedOrdered(g, w.out);
    RenamedOk(g, b, k, w);
    assert SafeInternal(g.n, b[..k], b[k]);
    SafeInternalRenamed(g, b, k, w);
    InternalVisitOk(g, inp, w.out, Visited(InternalStep(), b, k));
    FaithfulExtend(b, w, Visit(InternalStep(), b, k));
  }

  lemma {:induction false} InternalInvariant(g: Signature, inp: nat -> Val, b: Body, k: nat)
    requires WellTyped(g, b) && Ordered(b) && g.n > 0 && InputsOk(g, inp) && AllSafeInternal(g, b) && k <= |b|
    ensures var w := Before(InternalStep(), b, k); InternalKept(g, b, w)
  {
    if k > 0 {
      InternalInvariant(g, inp, b, k - 1);
      InternalNext(g, inp, b, k - 1);
    }
  }

  lemma {:induction false} InternalNext(g: Signature, inp: nat -> Val, b: Body, k: nat)
    requires WellTyped(g, b) && Ordered(b) && g.n > 0 && InputsOk(g, inp) && AllSafeInternal(g, b) && k < |b|
    requires var w := Before(InternalStep(), b, k); InternalKept(g, b, w)
    ensures var w := Before(InternalStep(), b, k + 1); InternalKept(g, b, w)
  {
    var w, e := Before(InternalStep(), b, k), Visit(InternalStep(), b, k);
    InternalOne(g, inp, b, k);
    TracksExtend(b, w, e);
    BeforeNext(InternalStep(), b, k);
  }

  /** Internal batching keeps every slot of every value when each collapse is safe. */
  lemma {:induction false} InternalCorrect(g: Signature, b: Body, inp: nat -> Val)
    requires WellTyped(g, b) && Ordered(b) && g.n > 0 && InputsOk(g, inp) && AllSafeInternal(g, b)
    ensures var w := InternalBatch(b);
      WellTyped(g, w.out) && Ordered(w.out) && Tracks(b, w) && Agrees(Denote(g.n, inp), b, w)
  {
    var step, alg := InternalStep(), Denote(g.n, inp);
    forall k | 0 <= k < |b| ensures StepTyped(g, step, b, k) && StepKeeps(g, step, b, k, alg) {
      InternalInvariant(g, inp, b, k);
      InternalOne(g, inp, b, k);
    }
    WalkTyped(g, step, b, |b|);
    WalkKeeps(g, step, b, alg, |b|);
  }
}
