/** What internal batching does to an operand list: the operands of the origins it collapses go, all others
    stay in their order, and each collapsed origin adds one operand at the end. */
module Survivors {
  import opened Ir
  import opened Internal

  /** The operand belongs to an origin that is collapsed. */
  predicate Goes(out: Body, args: seq<nat>, os: seq<nat>, a: nat)
    requires Below(args, |out|)
  {
    a in args && a < |out| && Origin(out, a) in os && Collapsible(out, args, Origin(out, a))
  }

  /** The operands that stay, in their order. */
  function Staying(out: Body, args: seq<nat>, os: seq<nat>, cur: seq<nat>): (r: seq<nat>)
    requires Below(args, |out|)
  {
    if cur == [] then [] else
      var m := |cur| - 1;
      var rest := Staying(out, args, os, cur[..m]);
      if Goes(out, args, os, cur[m]) then rest else rest + [cur[m]]
  }

  /** How many origins are collapsed. */
  function Collapses(out: Body, args: seq<nat>, os: seq<nat>): nat
    requires Below(args, |out|)
  {
    if os == [] then 0 else (if Collapsible(out, args, os[0]) then 1 else 0) + Collapses(out, args, os[1..])
  }

  lemma {:induction false} StayingCollapsed(out: Body, args: seq<nat>, os: seq<nat>, cur: seq<nat>)
    requires Below(args, |out|) && os != [] && Collapsible(out, args, os[0])
    ensures Staying(out, args, os, cur) == Staying(out, args, os[1..], Others(out, args, os[0], cur))
  {
    if cur != [] {
      var m := |cur| - 1;
      StayingCollapsed(out, args, os, cur[..m]);
      var rest := Others(out, args, os[0], cur[..m]);
      assert (rest + [cur[m]])[..|rest|] == rest;
      assert os == [os[0]] + os[1..];
    }
  }

  lemma {:induction false} StayingSkipped(out: Body, args: seq<nat>, os: seq<nat>, cur: seq<nat>)
    requires Below(args, |out|) && os != [] && !Collapsible(out, args, os[0])
    ensures Staying(out, args, os, cur) == Staying(out, args, os[1..], cur)
  {
    if cur != [] {
      StayingSkipped(out, args, os, cur[..|cur| - 1]);
      assert os == [os[0]] + os[1..];
    }
  }

  lemma {:induction false} StayingNew(out: Body, args: seq<nat>, os: seq<nat>, cur: seq<nat>, a: nat)
    requires Below(args, |out|) && a >= |out|
    ensures Staying(out, args, os, cur + [a]) == Staying(out, args, os, cur) + [a]
  {
    assert (cur + [a])[..|cur|] == cur;
  }

  lemma {:induction false} StayingNone(out: Body, args: seq<nat>, cur: seq<nat>)
    requires Below(args, |out|)
    ensures Staying(out, args, [], cur) == cur
  {
    if cur != [] {
      StayingNone(out, args, cur[..|cur| - 1]);
      assert cur == cur[..|cur| - 1] + [cur[|cur| - 1]];
    }
  }

  lemma {:induction false} SortLength(s: seq<int>)
    ensures |Sort(s)| == |s|
  {
    if s != [] {
      SortLength(s[..|s| - 1]);
      InsertLength(s[|s| - 1], Sort(s[..|s| - 1]));
    }
  }

  lemma {:induction false} InsertLength(x: int, s: seq<int>)
    ensures |InsertSorted(x, s)| == |s| + 1
  {
    if s != [] { InsertLength(x, s[1..]); }
  }

  /** A collapse builds at least one new operation, and its result is the last one. */
  lemma {:induction false} HalveNew(out: Body, prev: nat, i: nat)
    requires i > 0
    ensures var c := Halve(out, prev, i); |out| < |c.out| && c.last == |c.out| - 1
    decreases i
  {
    if i / 2 > 0 {
      HalveNew(out + [Op(Rotate(-(i as int)), [prev], Batched)] + [Op(Add, [prev, |out|], Batched)], |out| + 1, i / 2);
    }
  }

  predicate Rising(news: seq<nat>, from: nat)
  {
    (forall i :: 0 <= i < |news| ==> from <= news[i]) && forall i, j :: 0 <= i < j < |news| ==> news[i] < news[j]
  }

  lemma {:induction false} RisingMore(a: nat, more: seq<nat>, from: nat, next: nat)
    requires from <= a < next && Rising(more, next)
    ensures Rising([a] + more, from)
  {
    forall i | 0 <= i < |more| ensures a < more[i] { assert next <= more[i]; }
  }

  /** The first origin is collapsed: its result joins the operands that stay. */
  lemma {:induction false} FirstCollapsed(out0: Body, args0: seq<nat>, os: seq<nat>, out: Body, cur: seq<nat>) returns (c: Chain)
    requires Below(args0, |out0|) && |out0| <= |out| && os != [] && Collapsible(out0, args0, os[0])
    ensures |out| <= c.last && |c.out| == c.last + 1
    ensures var next := Others(out0, args0, os[0], cur) + [c.last];
      && CollapseAll(out0, args0, os, out, cur) == CollapseAll(out0, args0, os[1..], c.out, next)
      && Staying(out0, args0, os[1..], next) == Staying(out0, args0, os, cur) + [c.last]
  {
    SortLength(Uses(out0, args0, os[0]));
    var i := |Uses(out0, args0, os[0])| / 2;
    c := Halve(out, os[0], i);
    HalveNew(out, os[0], i);
    StayingNew(out0, args0, os[1..], Others(out0, args0, os[0], cur), c.last);
    StayingCollapsed(out0, args0, os, cur);
  }

  /** The operand list after the collapse of the origins os. */
  lemma {:induction false} CollapsedOperands(out0: Body, args0: seq<nat>, os: seq<nat>, out: Body, cur: seq<nat>)
    returns (news: seq<nat>)
    requires Below(args0, |out0|) && |out0| <= |out|
    ensures CollapseAll(out0, args0, os, out, cur).args == Staying(out0, args0, os, cur) + news
    ensures |news| == Collapses(out0, args0, os) && Rising(news, |out|)
    decreases |os|
  {
    if os == [] {
      news := [];
      StayingNone(out0, args0, cur);
    } else if Collapsible(out0, args0, os[0]) {
      var c := FirstCollapsed(out0, args0, os, out, cur);
      var more := CollapsedOperands(out0, args0, os[1..], c.out, Others(out0, args0, os[0], cur) + [c.last]);
      news := [c.last] + more;
      RisingMore(c.last, more, |out|, |c.out|);
    } else {
      news := CollapsedOperands(out0, args0, os[1..], out, cur);
      StayingSkipped(out0, args0, os, cur);
    }
  }

  /** Internal batching of one operation: operands of origins that are not collapsed, constants and plaintexts
      among them, stay exactly as they were, in their order; each collapsed origin is worth one new operand. */
  lemma {:induction false} OperandsSurvive(out: Body, op: Op) returns (news: seq<nat>)
    requires Below(op.args, |out|) && Arith(op.head) && op.ty == Batched
    ensures var os, e := Origins(out, op.args), InternalVisit(out, op);
      && e.ops != [] && e.ops[|e.ops| - 1].args == Staying(out, op.args, os, op.args) + news
      && |news| == Collapses(out, op.args, os) && Rising(news, |out|)
  {
    var os := Origins(out, op.args);
    news := CollapsedOperands(out, op.args, os, out, op.args);
    CollapseGrows(out, op.args, os, out, op.args);
  }

  lemma {:induction false} HalveGrows(out: Body, prev: nat, i: nat)
    ensures |out| <= |Halve(out, prev, i).out|
    decreases i
  {
    if i > 0 { HalveGrows(out + [Op(Rotate(-(i as int)), [prev], Batched)] + [Op(Add, [prev, |out|], Batched)], |out| + 1, i / 2); }
  }

  lemma {:induction false} CollapseGrows(out0: Body, args0: seq<nat>, os: seq<nat>, out: Body, cur: seq<nat>)
    requires Below(args0, |out0|)
    ensures |out| <= |CollapseAll(out0, args0, os, out, cur).out|
    decreases |os|
  {
    if os != [] {
      if Collapsible(out0, args0, os[0]) {
        var i := |Uses(out0, args0, os[0])| / 2;
        HalveGrows(out, os[0], i);
        CollapseGrows(out0, args0, os[1..], Halve(out, os[0], i).out, Others(out0, args0, os[0], cur) + [Halve(out, os[0], i).last]);
      } else {
        CollapseGrows(out0, args0, os[1..], out, cur);
      }
    }
  }

  /** An operand that stays is listed as often as before, one that goes not at all. */
  lemma {:induction false} StayingCounts(out: Body, args: seq<nat>, os: seq<nat>, cur: seq<nat>, a: nat)
    requires Below(args, |out|)
    ensures multiset(Staying(out, args, os, cur))[a] == if Goes(out, args, os, a) then 0 else multiset(cur)[a]
  {
    if cur != [] {
      var m := |cur| - 1;
      StayingCounts(out, args, os, cur[..m], a);
      assert cur == cur[..m] + [cur[m]];
    }
  }

  lemma {:induction false} UseListed(out: Body, args: seq<nat>, a: nat)
    requires Below(args, |out|) && a in args
    ensures Index0(out, a) in Uses(out, args, Origin(out, a))
  {
    var m := |args| - 1;
    if args[m] != a {
      assert args == args[..m] + [args[m]];
      UseListed(out, args[..m], a);
    }
  }

  /** A constant listed as an operand, and anything that is no batched secret, stands for no slot of its own:
      it stays, whatever else is listed beside it. */
  lemma {:induction false} ConstantStays(out: Body, args: seq<nat>, os: seq<nat>, a: nat)
    requires Below(args, |out|) && a in args
    requires out[a].ty != Batched || out[a].head.Const? || out[a].head.Splat?
    ensures !Collapsible(out, args, a) && !Goes(out, args, os, a)
  {
    UseListed(out, args, a);
    if ContiguousUses(Uses(out, args, a)) { ContiguousNonNegative(Uses(out, args, a)); }
  }
}
