/** What flattening one kind of operation leaves alone. */
module Unnested {
  import opened Ir
  import opened Walk
  import opened Nary

  /** No operation of the kind lists another of it that stands at position i or later. */
  ghost predicate NoNest(kind: Head, b: Body, i: nat)
    requires Ordered(b)
  {
    forall q, a :: 0 <= q < |b| && b[q].head == kind && a in b[q].args && i <= a ==> b[a].head != kind
  }

  /** No operation uses one with opcode h. */
  ghost predicate Unused(h: Head, b: Body)
    requires Ordered(b)
  {
    forall q, a :: 0 <= q < |b| && a in b[q].args ==> b[a].head != h
  }

  /** A collapse of an operation no other of its kind lists changes nothing. */
  lemma {:induction false} CollapseIdle(kind: Head, b: Body, p: nat, k: nat)
    requires Ordered(b) && p < |b| && b[p].head == kind && k <= |b|
    requires forall q :: 0 <= q < |b| && b[q].head == kind ==> p !in b[q].args
    ensures var w := Before(CollapseStep(kind, p), b, k);
      w.out == b[..k] && forall j :: 0 <= j < k ==> w.ren[j] == j
  {
    if k > 0 {
      var step, m := CollapseStep(kind, p), k - 1;
      CollapseIdle(kind, b, p, m);
      BeforeNext(step, b, m);
      CollapseVisits(kind, p, b, m);
      assert Visited(step, b, m).args == b[m].args;
    }
  }

  /** Without nesting the rest of the sweep changes nothing. */
  lemma {:induction false} SweepIdle(kind: Head, b: Body, i: nat)
    requires Ordered(b) && NoNest(kind, b, i) && i <= |b|
    ensures Sweep(kind, b, i).out == b
    decreases |b| - i
  {
    if i < |b| {
      if b[i].head == kind {
        CollapseIdle(kind, b, i, |b|);
        CollapseOk(kind, b, i);
        assert b[..|b|] == b;
        SweepIdle(kind, b, i + 1);
      } else {
        LoadSkip(kind, b, i);
        SweepIdle(kind, b, i + 1);
      }
    }
  }

  /** Operations of other kinds are only renumbered. */
  ghost predicate OthersKept(kind: Head, b: Body, w: Walked)
    requires Ordered(b)
  {
    && |w.ren| <= |b|
    && forall q :: 0 <= q < |w.out| && w.out[q].head != kind ==> KeptAs(b, w, q)
  }

  ghost predicate KeptAs(b: Body, w: Walked, q: nat)
    requires Ordered(b) && q < |w.out| && |w.ren| <= |b|
  {
    exists k :: 0 <= k < |w.ren| && w.ren[k] == q && Below(b[k].args, |w.ren|) && w.out[q] == Renamed(b[k], w.ren)
  }

  lemma {:induction false} KeptAsLater(b: Body, w: Walked, e: Emit, q: nat)
    requires Ordered(b) && |w.ren| < |b| && q < |w.out| && KeptAs(b, w, q)
    ensures KeptAs(b, Walked(w.out + e.ops, w.ren + [e.res]), q)
  {
    var w' := Walked(w.out + e.ops, w.ren + [e.res]);
    var k :| 0 <= k < |w.ren| && w.ren[k] == q && Below(b[k].args, |w.ren|) && w.out[q] == Renamed(b[k], w.ren);
    assert w'.ren[k] == q && w'.out[q] == Renamed(b[k], w'.ren);
  }

  lemma {:induction false} OthersKeptNext(kind: Head, p: nat, b: Body, w: Walked)
    requires Ordered(b) && |w.ren| < |b| && OthersKept(kind, b, w)
    ensures var e := CollapseVisit(kind, p, w.out, Renamed(b[|w.ren|], w.ren));
      OthersKept(kind, b, Walked(w.out + e.ops, w.ren + [e.res]))
  {
    var k := |w.ren|;
    var op := Renamed(b[k], w.ren);
    var e := CollapseVisit(kind, p, w.out, op);
    var w' := Walked(w.out + e.ops, w.ren + [e.res]);
    forall q | 0 <= q < |w'.out| && w'.out[q].head != kind ensures KeptAs(b, w', q) {
      if q < |w.out| {
        assert KeptAs(b, w, q);
        KeptAsLater(b, w, e, q);
      } else {
        assert e == Emit([op], |w.out|);
        assert w'.ren[k] == q && w'.out[q] == Renamed(b[k], w'.ren);
      }
    }
  }

  lemma {:induction false} CollapseOthers(kind: Head, b: Body, p: nat, k: nat)
    requires Ordered(b) && p < |b| && k <= |b|
    ensures OthersKept(kind, b, Before(CollapseStep(kind, p), b, k))
  {
    if k > 0 {
      var step, m := CollapseStep(kind, p), k - 1;
      CollapseOthers(kind, b, p, m);
      BeforeNext(step, b, m);
      CollapseVisits(kind, p, b, m);
      OthersKeptNext(kind, p, b, Before(step, b, m));
    }
  }

  /** No new nesting and no new use. */
  ghost predicate Keeps(kind: Head, h: Head, b: Body, out: Body)
  {
    && Ordered(b) && Ordered(out)
    && (h != kind && NoNest(h, b, 0) ==> NoNest(h, out, 0))
    && (Unused(h, b) ==> Unused(h, out))
  }

  /** Collapsing one kind nests no other kind and puts no unused opcode to use. */
  lemma {:induction false} CollapseNests(g: Signature, kind: Head, b: Body, p: nat, h: Head)
    requires WellTyped(g, b) && Ordered(b) && Arith(kind) && p < |b| && b[p].head == kind
    ensures Keeps(kind, h, b, Collapse(kind, b, p).out)
  {
    var w := Collapse(kind, b, p);
    CollapseTyped(g, kind, b, p);
    TypedOrdered(g, w.out);
    CollapseRenames(kind, b, p, |b|);
    CollapseOthers(kind, b, p, |b|);
    CollapseUsesImage(g, kind, b, p, |b|);
    if Unused(h, b) { UnusedImage(kind, b, p, w, h); }
    if h != kind && NoNest(h, b, 0) { NestImage(kind, b, p, w, h); }
  }

  lemma {:induction false} NestImage(kind: Head, b: Body, p: nat, w: Walked, h: Head)
    requires Ordered(b) && p < |b| && Ordered(w.out) && OthersKept(kind, b, w) && Renames(kind, p, b, w)
    requires h != kind && NoNest(h, b, 0)
    ensures NoNest(h, w.out, 0)
  {
    forall q, a | 0 <= q < |w.out| && w.out[q].head == h && a in w.out[q].args ensures w.out[a].head != h {
      assert KeptAs(b, w, q);
      var k :| 0 <= k < |w.ren| && w.ren[k] == q && Below(b[k].args, |w.ren|) && w.out[q] == Renamed(b[k], w.ren);
      var t :| 0 <= t < |w.out[q].args| && w.out[q].args[t] == a;
      assert b[k].args[t] in b[k].args;
      assert w.out[w.ren[b[k].args[t]]].head == b[b[k].args[t]].head;
    }
  }

  lemma {:induction false} UnusedImage(kind: Head, b: Body, p: nat, w: Walked, h: Head)
    requires Ordered(b) && p < |b| && Ordered(w.out) && UsesImage(b, w) && Renames(kind, p, b, w) && Unused(h, b)
    ensures Unused(h, w.out)
  {
    forall q, a | 0 <= q < |w.out| && a in w.out[q].args ensures w.out[a].head != h {
      var j :| 0 <= j < |w.ren| && w.ren[j] == a && Used(b, j);
      var r :| 0 <= r < |b| && j in b[r].args;
      assert b[j].head != h;
    }
  }

  lemma {:induction false} SweepNests(g: Signature, kind: Head, b: Body, i: nat, h: Head)
    requires WellTyped(g, b) && Ordered(b) && Arith(kind) && i <= |b|
    ensures Keeps(kind, h, b, Sweep(kind, b, i).out)
    decreases Nary.Load(kind, b, i)
  {
    if i < |b| {
      if b[i].head == kind {
        var c := Collapse(kind, b, i).out;
        CollapseOk(kind, b, i);
        CollapseTyped(g, kind, b, i);
        CollapseNests(g, kind, b, i, h);
        SweepNests(g, kind, c, i + 1, h);
        KeepsTrans(kind, h, b, c, Sweep(kind, c, i + 1).out);
      } else {
        LoadSkip(kind, b, i);
        SweepNests(g, kind, b, i + 1, h);
      }
    }
  }

  lemma {:induction false} KeepsTrans(kind: Head, h: Head, b: Body, c: Body, d: Body)
    requires Keeps(kind, h, b, c) && Keeps(kind, h, c, d)
    ensures Keeps(kind, h, b, d)
  {}
}
