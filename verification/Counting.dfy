/** Counting the operations of a function by opcode. */
module Counting {
  import opened Ir
  import opened Dce
  import opened Terms

  /** The number of operations whose opcode satisfies p. */
  function Tally(b: Body, p: Head -> bool): nat
  {
    if b == [] then 0 else Tally(b[..|b| - 1], p) + if p(b[|b| - 1].head) then 1 else 0
  }

  function TallyTerms(ts: seq<Term>, p: Head -> bool): nat
  {
    if ts == [] then 0 else TallyTerms(ts[..|ts| - 1], p) + if p(ts[|ts| - 1].head) then 1 else 0
  }

  lemma {:induction false} TallyRun(b: Body, ts: seq<Term>, p: Head -> bool)
    requires |ts| == |b| && forall k :: 0 <= k < |b| ==> ts[k].head == b[k].head
    ensures TallyTerms(ts, p) == Tally(b, p)
  {
    if b != [] { TallyRun(b[..|b| - 1], ts[..|b| - 1], p); }
  }

  lemma {:induction false} TallyConcat(ts: seq<Term>, us: seq<Term>, p: Head -> bool)
    ensures TallyTerms(ts + us, p) == TallyTerms(ts, p) + TallyTerms(us, p)
  {
    if us == [] {
      assert ts + us == ts;
    } else {
      var m := |us| - 1;
      TallyConcat(ts, us[..m], p);
      assert (ts + us)[..|ts + us| - 1] == ts + us[..m];
    }
  }

  lemma {:induction false} TallyOne(t: Term, p: Head -> bool)
    ensures TallyTerms([t], p) == if p(t.head) then 1 else 0
  {
    assert [t][..0] == [];
  }

  lemma {:induction false} TallyThree(s: Term, t: Term, u: Term, p: Head -> bool)
    ensures TallyTerms([s, t, u], p) == (if p(s.head) then 1 else 0) + (if p(t.head) then 1 else 0) + (if p(u.head) then 1 else 0)
  {
    assert [s] + [t] == [s, t] && [s, t] + [u] == [s, t, u];
    TallyConcat([s], [t], p);
    TallyConcat([s, t], [u], p);
    TallyOne(s, p);
    TallyOne(t, p);
    TallyOne(u, p);
  }

  lemma {:induction false} TallyWithout(us: seq<Term>, j: nat, p: Head -> bool)
    requires j < |us|
    ensures var rest := us[..j] + us[j + 1..];
      && TallyTerms(us, p) == TallyTerms(rest, p) + (if p(us[j].head) then 1 else 0)
      && multiset(rest) == multiset(us) - multiset{us[j]}
  {
    var l, r := us[..j], us[j + 1..];
    assert us == l + [us[j]] + r;
    TallyConcat(l, [us[j]], p);
    TallyConcat(l + [us[j]], r, p);
    TallyConcat(l, r, p);
    TallyOne(us[j], p);
  }

  /** The order does not matter. */
  lemma {:induction false} TallyBag(ts: seq<Term>, us: seq<Term>, p: Head -> bool)
    requires multiset(ts) == multiset(us)
    ensures TallyTerms(ts, p) == TallyTerms(us, p) && |ts| == |us|
  {
    assert |multiset(ts)| == |multiset(us)|;
    if ts != [] {
      var m := |ts| - 1;
      assert ts == ts[..m] + [ts[m]];
      assert multiset(ts) == multiset(ts[..m]) + multiset{ts[m]};
      assert ts[m] in multiset(us);
      var j :| 0 <= j < |us| && us[j] == ts[m];
      TallyWithout(us, j, p);
      TallyBag(ts[..m], us[..j] + us[j + 1..], p);
    }
  }

  ghost predicate NoRepeat(ts: seq<Term>) { forall i, j :: 0 <= i < j < |ts| ==> ts[i] != ts[j] }

  lemma {:induction false} NoRepeatBag(ts: seq<Term>, t: Term)
    requires NoRepeat(ts)
    ensures multiset(ts)[t] == if t in ts then 1 else 0
  {
    if ts != [] {
      var m := |ts| - 1;
      NoRepeatBag(ts[..m], t);
      assert ts == ts[..m] + [ts[m]];
    }
  }

  /** A list without repetition of exactly the subterms of r. */
  ghost predicate Subterms(ts: seq<Term>, r: Term)
  {
    NoRepeat(ts) && forall t :: t in ts <==> Within(t, r)
  }

  lemma {:induction false} ComputedSubterms(b: Body, t: Term)
    requires Ordered(b) && b != [] && AllLive(b)
    ensures t in Run(Unfold(), b) <==> Within(t, Result(Unfold(), b))
  {
    if Within(t, Result(Unfold(), b)) {
      var i := WithinFound(b, |b| - 1, t);
    }
    if t in Run(Unfold(), b) {
      var k :| 0 <= k < |b| && Run(Unfold(), b)[k] == t;
      assert Within(Run(Unfold(), b)[k], Result(Unfold(), b));
    }
  }

  /** A function with one operation for each subterm of its result, and no other, has as many operations
      of each opcode as the result has subterms. */
  lemma {:induction false} TallySubterms(b: Body, ts: seq<Term>, p: Head -> bool)
    requires Ordered(b) && EndsInReturn(b) && AllLive(b) && TermUnique(b) && Subterms(ts, Result(Unfold(), b))
    ensures |b| == |ts| && Tally(b, p) == TallyTerms(ts, p)
  {
    var us := Run(Unfold(), b);
    forall k | 0 <= k < |b| ensures us[k].head == b[k].head { TermAt(b, k); }
    TallyRun(b, us, p);
    forall t ensures multiset(us)[t] == multiset(ts)[t] {
      NoRepeatBag(us, t);
      NoRepeatBag(ts, t);
      ComputedSubterms(b, t);
    }
    assert multiset(us) == multiset(ts);
    TallyBag(us, ts, p);
  }
}
