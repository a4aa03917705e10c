/** What compiled programs return, in the arithmetic of the integers. */
module Compiled {
  import opened Lowering

  /** The function returns d, and so does the code it is compiled to. */
  ghost predicate Gives(o: Order, f: Func, args: seq<Data>, d: Data)
  {
    |args| == |f.params| && Call(f, args) == Some(d) && RunSsa(Lower(o, f), args) == Some(d)
  }

  lemma {:induction false} Returns(o: Order, f: Func, args: seq<Data>, d: Data)
    requires Enumerates(o) && Distinct(f.params) && |args| == |f.params| && Call(f, args) == Some(d)
    ensures Gives(o, f, args, d)
  {
    LoweringPreserves(o, f, args);
  }

  // ---------------------------------------------------------------- arithmetic

  lemma {:induction false} BoundTwo(x: string, y: string, a: Data, b: Data)
    requires x != y
    ensures Bound([x, y], [a, b]) == map[x := a, y := b] && Distinct([x, y])
  {
    assert [x, y][..1] == [x] && [a, b][..1] == [a] && [x][..0] == [] && [a][..0] == [];
    assert Bound([x], [a]) == map[x := a];
  }

  function OfTwo(op: BinOp, x: string, y: string): Func { Func([x, y], [], Binary(op, Variable(x), Variable(y))) }

  lemma {:induction false} TwoReturned(o: Order, op: BinOp, x: string, y: string, a: int, b: int, n: int)
    requires Enumerates(o) && x != y && Operate(op, Int(a), Int(b)) == Some(Int(n))
    ensures Gives(o, OfTwo(op, x, y), [Int(a), Int(b)], Int(n))
  {
    var st := map[x := Int(a), y := Int(b)];
    BoundTwo(x, y, Int(a), Int(b));
    assert Eval(Variable(x), st) == Some(Int(a)) && Eval(Variable(y), st) == Some(Int(b));
    Returns(o, OfTwo(op, x, y), [Int(a), Int(b)], Int(n));
  }

  /** The compiled operators are sum, difference, product and remainder of the first operand and the second. */
  lemma {:induction false} OperatorsCompiled(o: Order, x: string, y: string, a: int, b: int)
    requires Enumerates(o) && x != y
    ensures Gives(o, OfTwo(Plus, x, y), [Int(a), Int(b)], Int(a + b))
    ensures Gives(o, OfTwo(Minus, x, y), [Int(a), Int(b)], Int(a - b))
    ensures Gives(o, OfTwo(Times, x, y), [Int(a), Int(b)], Int(a * b))
    ensures a >= 0 && b > 0 ==> Gives(o, OfTwo(Mod, x, y), [Int(a), Int(b)], Int(a % b))
  {
    TwoReturned(o, Plus, x, y, a, b, a + b);
    TwoReturned(o, Minus, x, y, a, b, a - b);
    TwoReturned(o, Times, x, y, a, b, a * b);
    if a >= 0 && b > 0 { TwoReturned(o, Mod, x, y, a, b, a % b); }
  }

  /** A name that was never declared stands for 1. */
  lemma {:induction false} UndefinedIsOne(o: Order, x: string)
    ensures RunSsa(Lower(o, Func([], [], Variable(x))), []) == Some(Int(1))
  {
    var f, code := Lower(o, Func([], [], Variable(x))), [Let(0, Constant(Int(1)))];
    assert f.code == [] + code && [] + code == code && f.result == 0;
    LetRuns(0, Int(1), Bind(map[], [], []));
  }

  lemma {:induction false} LetRuns(dst: nat, d: Data, env: Env)
    ensures Exec([Let(dst, Constant(d))], env) == Some(env[dst := d])
  {
    var code := [Let(dst, Constant(d))];
    assert code[..0] == [] && Exec([], env) == Some(env);
  }

  /** Assigning to a name that was never declared makes it visible. */
  lemma {:induction false} AssignmentDeclares(o: Order, x: string, a: int)
    requires Enumerates(o)
    ensures RunSsa(Lower(o, Func([], [Assign(x, Literal(a))], Variable(x))), []) == Some(Int(a))
  {
    var f, st := Func([], [Assign(x, Literal(a))], Variable(x)), map[x := Int(a)];
    assert f.body[..0] == [] && ActualStmts([], map[]) == Some(map[]);
    assert ActualStmts(f.body, map[]) == Some(st);
    assert Eval(Variable(x), st) == Some(Int(a));
    LoweringActual(o, f, []);
  }

  /** A literal tensor is returned as it was written. */
  lemma {:induction false} TensorCompiled(o: Order, w: seq<int>)
    requires Enumerates(o)
    ensures Gives(o, Func([], [], LiteralTensor(w)), [], Vec(w))
  {
    Returns(o, Func([], [], LiteralTensor(w)), [], Vec(w));
  }

  function CounterLoop(x: string, s: string, lo: int, hi: int): Stmt
  {
    SimpleFor(x, lo, hi, [Assign(s, Binary(Plus, Variable(s), Variable(x)))])
  }

  lemma {:induction false} CounterRounds(x: string, s: string, lo: int, hi: int, a: int, b: int, k: int)
    requires x != s && k <= hi
    ensures ActualRounds(CounterLoop(x, s, lo, hi), k, map[x := Int(a), s := Int(b)]) == Some(map[x := Int(a), s := Int(b + (hi - k) * a)])
    decreases hi - k
  {
    var c, st: Store := CounterLoop(x, s, lo, hi), map[x := Int(a), s := Int(b)];
    if k < hi {
      var next: Store := map[x := Int(a), s := Int(b + a)];
      assert c.body[..0] == [] && ActualStmts([], st) == Some(st);
      assert Eval(Variable(s), st) == Some(Int(b)) && Eval(Variable(x), st) == Some(Int(a));
      assert Eval(c.body[0].value, st) == Some(Int(b + a));
      assert st[s := Int(b + a)] == next;
      assert ActualStmts(c.body, st) == ActualStmt(c.body[0], st) == Some(next);
      assert Restrict(next, st.Keys) == next;
      CounterRounds(x, s, lo, hi, a, b + a, k + 1);
      Peeled(hi - k, a);
    }
  }

  lemma {:induction false} Peeled(n: int, a: int)
    ensures n * a == a + (n - 1) * a
  {}

  /** A loop counter with the name of a visible variable never counts: every round sees the variable. */
  lemma {:induction false} CounterIgnored(o: Order, x: string, s: string, lo: int, hi: int, a: int, b: int)
    requires Enumerates(o) && x != s && lo <= hi
    ensures RunSsa(Lower(o, Func([x, s], [CounterLoop(x, s, lo, hi)], Variable(s))), [Int(a), Int(b)]) == Some(Int(b + (hi - lo) * a))
  {
    var f := Func([x, s], [CounterLoop(x, s, lo, hi)], Variable(s));
    var st: Store, end: Store := map[x := Int(a), s := Int(b)], map[x := Int(a), s := Int(b + (hi - lo) * a)];
    BoundTwo(x, s, Int(a), Int(b));
    CounterRounds(x, s, lo, hi, a, b, lo);
    assert f.body[..0] == [] && ActualStmts([], st) == Some(st);
    assert ActualStmts(f.body, st) == ActualStmt(f.body[0], st) == Some(end);
    assert Eval(f.result, end) == Some(end[s]);
    LoweringActual(o, f, [Int(a), Int(b)]);
  }

  // ---------------------------------------------------------------- expressions

  /** Expressions over integers without remainders. */
  predicate Polynomial(e: Expr, names: set<string>)
  {
    match e
    case Literal(_) => true
    case Variable(x) => x in names
    case Binary(op, l, r) => op != Mod && Polynomial(l, names) && Polynomial(r, names)
    case _ => false
  }

  function Value(e: Expr, ns: map<string, int>): int
    requires Polynomial(e, ns.Keys)
  {
    match e
    case Literal(n) => n
    case Variable(x) => ns[x]
    case Binary(op, l, r) =>
      var a, b := Value(l, ns), Value(r, ns);
      if op == Plus then a + b else if op == Minus then a - b else a * b
  }

  lemma {:induction false} PolynomialValue(e: Expr, ns: map<string, int>, st: Store)
    requires Polynomial(e, ns.Keys) && forall x :: x in ns ==> x in st && st[x] == Int(ns[x])
    ensures Eval(e, st) == Some(Int(Value(e, ns)))
  {
    if e.Binary? {
      PolynomialValue(e.left, ns, st);
      PolynomialValue(e.right, ns, st);
    }
  }

  function Arguments(ns: seq<int>): (ds: seq<Data>)
    ensures |ds| == |ns| && forall i :: 0 <= i < |ns| ==> ds[i] == Int(ns[i])
  {
    seq(|ns|, i requires 0 <= i < |ns| => Int(ns[i]))
  }

  function Named(params: seq<string>, ns: seq<int>): map<string, int>
    requires |params| == |ns|
  {
    if params == [] then map[] else
      var m := |params| - 1;
      Named(params[..m], ns[..m])[params[m] := ns[m]]
  }

  lemma {:induction false} NamedBound(params: seq<string>, ns: seq<int>)
    requires |params| == |ns|
    ensures var st := Bound(params, Arguments(ns)); forall x :: x in Named(params, ns) ==> x in st && st[x] == Int(Named(params, ns)[x])
  {
    if params != [] {
      var m := |params| - 1;
      NamedBound(params[..m], ns[..m]);
      assert Arguments(ns)[..m] == Arguments(ns[..m]);
    }
  }

  /** Every polynomial in integer parameters compiles to code that computes its value. */
  lemma {:induction false} PolynomialCompiled(o: Order, params: seq<string>, e: Expr, ns: seq<int>)
    requires Enumerates(o) && Distinct(params) && |params| == |ns| && Polynomial(e, Named(params, ns).Keys)
    ensures Gives(o, Func(params, [], e), Arguments(ns), Int(Value(e, Named(params, ns))))
  {
    NamedBound(params, ns);
    PolynomialValue(e, Named(params, ns), Bound(params, Arguments(ns)));
    Returns(o, Func(params, [], e), Arguments(ns), Int(Value(e, Named(params, ns))));
  }

  // ---------------------------------------------------------------- loops

  function Sum(s: seq<int>): int { if s == [] then 0 else Sum(s[..|s| - 1]) + s[|s| - 1] }

  lemma {:induction false} SumNext(s: seq<int>, k: nat)
    requires k < |s|
    ensures Sum(s[..k + 1]) == Sum(s[..k]) + s[k]
  {
    assert s[..k + 1][..k] == s[..k];
  }

  /** A loop whose k-th round takes store k to store k + 1. */
  ghost predicate Rounds(s: Stmt, stores: seq<Store>)
    requires s.SimpleFor?
  {
    && |stores| == (if s.hi > s.lo then s.hi - s.lo else 0) + 1
    && forall k :: 0 <= k < |stores| - 1 ==> Round(s, s.lo + k, stores[k], stores[k + 1])
  }

  ghost predicate Round(s: Stmt, k: int, st: Store, st': Store)
    requires s.SimpleFor?
  {
    var after := RunStmts(s.body, st[s.iv := Int(k)]);
    after.Some? && Restrict(after.value, st.Keys) == st'
  }

  lemma {:induction false} RoundsRun(s: Stmt, stores: seq<Store>, k: nat)
    requires s.SimpleFor? && Rounds(s, stores) && k < |stores|
    ensures RunRounds(s, s.lo + k, stores[k]) == Some(stores[|stores| - 1])
    decreases |stores| - k
  {
    if k < |stores| - 1 {
      assert Round(s, s.lo + k, stores[k], stores[k + 1]);
      RoundsRun(s, stores, k + 1);
    }
  }

  lemma {:induction false} LoopRun(s: Stmt, stores: seq<Store>)
    requires s.SimpleFor? && Rounds(s, stores) && s.iv !in stores[0]
    ensures RunStmts([s], stores[0]) == Some(stores[|stores| - 1])
  {
    RoundsRun(s, stores, 0);
    assert [s][..0] == [] && RunStmts([], stores[0]) == Some(stores[0]);
  }

  lemma {:induction false} OneStatement(s: Stmt, st: Store)
    ensures RunStmts([s], st) == RunStmt(s, st)
  {
    assert [s][..0] == [] && RunStmts([], st) == Some(st);
  }

  lemma {:induction false} CounterDropped(st: Store, i: string, n: Data, s: string, d: Data)
    requires i !in st && s in st
    ensures Restrict(st[i := n][s := d], st.Keys) == st[s := d]
  {}

  function DifferenceLoop(s: string, v: string, i: string, lo: int, hi: int): Func
  {
    Func([s, v], [SimpleFor(i, lo, hi, [Assign(s, Binary(Minus, Variable(s), IndexAccess(v, Variable(i))))])], Variable(s))
  }

  function DifferenceStore(s: string, v: string, a: int, w: seq<int>): Store { map[s := Int(a), v := Vec(w)] }

  lemma {:induction false} DifferenceRound(s: string, v: string, i: string, lo: nat, hi: nat, a: int, w: seq<int>, k: nat)
    requires s != v && i != s && i != v && lo <= hi <= |w| && k < hi - lo
    ensures Round(DifferenceLoop(s, v, i, lo, hi).body[0], lo + k,
                  DifferenceStore(s, v, a - Sum(w[lo..hi][..k]), w), DifferenceStore(s, v, a - Sum(w[lo..hi][..k + 1]), w))
  {
    var part := w[lo..hi];
    var st := DifferenceStore(s, v, a - Sum(part[..k]), w);
    var e := Binary(Minus, Variable(s), IndexAccess(v, Variable(i)));
    var inner := st[i := Int(lo + k)];
    SumNext(part, k);
    assert part[k] == w[lo + k];
    assert Eval(IndexAccess(v, Variable(i)), inner) == Some(Int(w[lo + k]));
    assert Eval(Variable(s), inner) == Some(st[s]);
    OneStatement(Assign(s, e), inner);
    CounterDropped(st, i, Int(lo + k), s, Int(a - Sum(part[..k + 1])));
  }

  lemma {:induction false} DifferenceRun(s: string, v: string, i: string, lo: nat, hi: nat, a: int, w: seq<int>)
    requires s != v && i != s && i != v && lo <= hi <= |w|
    ensures RunStmts(DifferenceLoop(s, v, i, lo, hi).body, DifferenceStore(s, v, a, w))
         == Some(DifferenceStore(s, v, a - Sum(w[lo..hi]), w))
  {
    var c, part, n := DifferenceLoop(s, v, i, lo, hi).body[0], w[lo..hi], hi - lo;
    var stores := seq(n + 1, k requires 0 <= k <= n => DifferenceStore(s, v, a - Sum(part[..k]), w));
    forall k | 0 <= k < n ensures Round(c, lo + k, stores[k], stores[k + 1]) {
      DifferenceRound(s, v, i, lo, hi, a, w, k);
    }
    assert part[..0] == [] && part[..n] == part;
    LoopRun(c, stores);
  }

  /** The loop s := s - v[i] from lo up to hi, without hi, returns what s was less the sum of these elements. */
  lemma {:induction false} DifferenceCompiled(o: Order, s: string, v: string, i: string, lo: nat, hi: nat, a: int, w: seq<int>)
    requires Enumerates(o) && s != v && i != s && i != v && lo <= hi <= |w|
    ensures Gives(o, DifferenceLoop(s, v, i, lo, hi), [Int(a), Vec(w)], Int(a - Sum(w[lo..hi])))
  {
    DifferenceRun(s, v, i, lo, hi, a, w);
    BoundTwo(s, v, Int(a), Vec(w));
    Returns(o, DifferenceLoop(s, v, i, lo, hi), [Int(a), Vec(w)], Int(a - Sum(w[lo..hi])));
  }

  function UpdateLoop(v: string, u: string, i: string, n: nat): Func
  {
    Func([v, u], [SimpleFor(i, 0, n, [AssignAt(v, Variable(i), Binary(Minus, IndexAccess(v, Variable(i)), IndexAccess(u, Variable(i))))])], Variable(v))
  }

  /** The loop v[i] := v[i] - u[i] returns the difference of the two, element by element. */
  lemma {:induction false} UpdateCompiled(o: Order, v: string, u: string, i: string, w: seq<int>, z: seq<int>)
    requires Enumerates(o) && v != u && i != v && i != u && |w| == |z|
    ensures Gives(o, UpdateLoop(v, u, i, |w|), [Vec(w), Vec(z)], Vec(seq(|w|, k requires 0 <= k < |w| => w[k] - z[k])))
  {
    var f, n := UpdateLoop(v, u, i, |w|), |w|;
    var stores := seq(n + 1, k requires 0 <= k <= n => map[v := Vec(Updated(w, z, k)), u := Vec(z)]);
    forall k | 0 <= k < n ensures Round(f.body[0], 0 + k, stores[k], stores[k + 1]) {
      UpdateRound(v, u, i, n, w, z, k);
    }
    BoundTwo(v, u, Vec(w), Vec(z));
    assert Updated(w, z, 0) == w && Updated(w, z, n) == seq(n, k requires 0 <= k < n => w[k] - z[k]);
    LoopRun(f.body[0], stores);
    Returns(o, f, [Vec(w), Vec(z)], Vec(Updated(w, z, n)));
  }

  /** The first k elements are done. */
  function Updated(w: seq<int>, z: seq<int>, k: nat): (r: seq<int>)
    requires |w| == |z|
    ensures |r| == |w| && forall j :: 0 <= j < |w| ==> r[j] == if j < k then w[j] - z[j] else w[j]
  {
    seq(|w|, j requires 0 <= j < |w| => if j < k then w[j] - z[j] else w[j])
  }

  lemma {:induction false} UpdateRound(v: string, u: string, i: string, n: nat, w: seq<int>, z: seq<int>, k: nat)
    requires v != u && i != v && i != u && k < n == |w| == |z|
    ensures Round(UpdateLoop(v, u, i, n).body[0], k, map[v := Vec(Updated(w, z, k)), u := Vec(z)], map[v := Vec(Updated(w, z, k + 1)), u := Vec(z)])
  {
    var st: Store := map[v := Vec(Updated(w, z, k)), u := Vec(z)];
    var inner := st[i := Int(k)];
    var at := Variable(i);
    assert Eval(at, inner) == Some(Int(k));
    assert Eval(IndexAccess(v, at), inner) == Some(Int(w[k])) && Eval(IndexAccess(u, at), inner) == Some(Int(z[k]));
    assert Updated(w, z, k)[k := w[k] - z[k]] == Updated(w, z, k + 1);
    OneStatement(AssignAt(v, at, Binary(Minus, IndexAccess(v, at), IndexAccess(u, at))), inner);
    CounterDropped(st, i, Int(k), v, Vec(Updated(w, z, k + 1)));
  }

  // ---------------------------------------------------------------- a loop in a loop, with a name of its own

  function InnerLoop(s: string, d: string, u: string, j: string, m: nat): Stmt
  {
    SimpleFor(j, 0, m, [Assign(s, Binary(Plus, Variable(s), Binary(Times, Variable(d), IndexAccess(u, Variable(j)))))])
  }

  function OuterLoop(s: string, d: string, v: string, u: string, i: string, j: string, n: nat, m: nat): Stmt
  {
    SimpleFor(i, 0, n, [Declare(d, IndexAccess(v, Variable(i))), InnerLoop(s, d, u, j, m)])
  }

  function NestedLoops(s: string, d: string, v: string, u: string, i: string, j: string, n: nat, m: nat): Func
  {
    Func([s, v, u], [OuterLoop(s, d, v, u, i, j, n, m)], Variable(s))
  }

  predicate Apart(s: string, d: string, v: string, u: string, i: string, j: string)
  {
    Distinct([s, d, v, u, i, j])
  }

  lemma {:induction false} ApartNames(s: string, d: string, v: string, u: string, i: string, j: string)
    requires Apart(s, d, v, u, i, j)
    ensures s != d && s != v && s != u && s != i && s != j && d != v && d != u && d != i && d != j
    ensures v != u && v != i && v != j && u != i && u != j && i != j
  {
    var ns := [s, d, v, u, i, j];
    assert ns[0] == s && ns[1] == d && ns[2] == v && ns[3] == u && ns[4] == i && ns[5] == j;
  }

  lemma {:induction false} InnerRun(s: string, d: string, u: string, j: string, a: int, x: int, z: seq<int>, st: Store)
    requires s != d && s != u && j !in st && s in st && d in st && u in st && st[s] == Int(a) && st[d] == Int(x) && st[u] == Vec(z)
    ensures RunStmt(InnerLoop(s, d, u, j, |z|), st) == Some(st[s := Int(a + x * Sum(z))])
  {
    var c, m := InnerLoop(s, d, u, j, |z|), |z|;
    var stores := seq(m + 1, k requires 0 <= k <= m => st[s := Int(a + x * Sum(z[..k]))]);
    forall k | 0 <= k < m ensures Round(c, k, stores[k], stores[k + 1]) {
      InnerRound(s, d, u, j, a, x, z, st, k);
    }
    assert z[..0] == [] && z[..m] == z && st[s := Int(a)] == st;
    LoopRun(c, stores);
    OneStatement(c, st);
  }

  lemma {:induction false} InnerRound(s: string, d: string, u: string, j: string, a: int, x: int, z: seq<int>, st: Store, k: nat)
    requires s != d && s != u && j !in st && s in st && d in st && u in st && st[d] == Int(x) && st[u] == Vec(z) && k < |z|
    ensures Round(InnerLoop(s, d, u, j, |z|), k, st[s := Int(a + x * Sum(z[..k]))], st[s := Int(a + x * Sum(z[..k + 1]))])
  {
    var now := st[s := Int(a + x * Sum(z[..k]))];
    var inner := now[j := Int(k)];
    var product := Binary(Times, Variable(d), IndexAccess(u, Variable(j)));
    SumNext(z, k);
    Distributes(x, Sum(z[..k]), z[k]);
    assert Eval(IndexAccess(u, Variable(j)), inner) == Some(Int(z[k])) && Eval(Variable(d), inner) == Some(Int(x));
    assert Eval(product, inner) == Some(Int(x * z[k])) && Eval(Variable(s), inner) == Some(now[s]);
    OneStatement(Assign(s, Binary(Plus, Variable(s), product)), inner);
    CounterDropped(now, j, Int(k), s, Int(a + x * Sum(z[..k + 1])));
    assert now[s := Int(a + x * Sum(z[..k + 1]))] == st[s := Int(a + x * Sum(z[..k + 1]))];
  }

  lemma {:induction false} Distributes(x: int, a: int, b: int)
    ensures x * (a + b) == x * a + x * b
  {}

  function OuterStore(s: string, v: string, u: string, a: int, w: seq<int>, z: seq<int>): Store
  {
    map[s := Int(a), v := Vec(w), u := Vec(z)]
  }

  lemma {:induction false} OuterRound(s: string, d: string, v: string, u: string, i: string, j: string, a: int, w: seq<int>, z: seq<int>, k: nat)
    requires Apart(s, d, v, u, i, j) && k < |w|
    ensures Round(OuterLoop(s, d, v, u, i, j, |w|, |z|), k, OuterStore(s, v, u, a, w, z), OuterStore(s, v, u, a + w[k] * Sum(z), w, z))
  {
    ApartNames(s, d, v, u, i, j);
    var st := OuterStore(s, v, u, a, w, z);
    var inner := st[i := Int(k)];
    var declared := inner[d := Int(w[k])];
    var first, second := Declare(d, IndexAccess(v, Variable(i))), InnerLoop(s, d, u, j, |z|);
    assert Eval(IndexAccess(v, Variable(i)), inner) == Some(Int(w[k]));
    OneStatement(first, inner);
    InnerRun(s, d, u, j, a, w[k], z, declared);
    assert [first, second][..1] == [first];
    assert RunStmts([first, second], inner) == Some(declared[s := Int(a + w[k] * Sum(z))]);
    LocalsDropped(st, i, Int(k), d, Int(w[k]), s, Int(a + w[k] * Sum(z)));
    assert st[s := Int(a + w[k] * Sum(z))] == OuterStore(s, v, u, a + w[k] * Sum(z), w, z);
  }

  lemma {:induction false} LocalsDropped(st: Store, i: string, n: Data, d: string, x: Data, s: string, y: Data)
    requires i !in st && d !in st && s in st
    ensures Restrict(st[i := n][d := x][s := y], st.Keys) == st[s := y]
  {}

  lemma {:induction false} BoundThree(x: string, y: string, z: string, a: Data, b: Data, c: Data)
    requires x != y && x != z && y != z
    ensures Bound([x, y, z], [a, b, c]) == map[x := a, y := b, z := c] && Distinct([x, y, z])
  {
    BoundTwo(x, y, a, b);
    assert [x, y, z][..2] == [x, y] && [a, b, c][..2] == [a, b];
  }

  function OuterStores(s: string, v: string, u: string, a: int, w: seq<int>, z: seq<int>): (stores: seq<Store>)
    ensures |stores| == |w| + 1 && forall k :: 0 <= k <= |w| ==> stores[k] == OuterStore(s, v, u, a + Sum(w[..k]) * Sum(z), w, z)
  {
    seq(|w| + 1, k requires 0 <= k <= |w| => OuterStore(s, v, u, a + Sum(w[..k]) * Sum(z), w, z))
  }

  lemma {:induction false} OuterNext(s: string, d: string, v: string, u: string, i: string, j: string, a: int, w: seq<int>, z: seq<int>, k: nat)
    requires Apart(s, d, v, u, i, j) && k < |w|
    ensures var stores := OuterStores(s, v, u, a, w, z); Round(OuterLoop(s, d, v, u, i, j, |w|, |z|), k, stores[k], stores[k + 1])
  {
    SumNext(w, k);
    Distributes(Sum(z), Sum(w[..k]), w[k]);
    OuterRound(s, d, v, u, i, j, a + Sum(w[..k]) * Sum(z), w, z, k);
  }

  lemma {:induction false} OuterRun(s: string, d: string, v: string, u: string, i: string, j: string, a: int, w: seq<int>, z: seq<int>)
    requires Apart(s, d, v, u, i, j)
    ensures RunStmts([OuterLoop(s, d, v, u, i, j, |w|, |z|)], OuterStore(s, v, u, a, w, z))
         == Some(OuterStore(s, v, u, a + Sum(w) * Sum(z), w, z))
  {
    var c, stores := OuterLoop(s, d, v, u, i, j, |w|, |z|), OuterStores(s, v, u, a, w, z);
    forall k | 0 <= k < |w| ensures Round(c, k, stores[k], stores[k + 1]) { OuterNext(s, d, v, u, i, j, a, w, z, k); }
    assert w[..0] == [] && w[..|w|] == w;
    ApartNames(s, d, v, u, i, j);
    LoopRun(c, stores);
  }

  lemma {:induction false} NestedReturns(o: Order, f: Func, s: string, v: string, u: string, a: int, w: seq<int>, z: seq<int>, n: int)
    requires Enumerates(o) && f.params == [s, v, u] && s != v && s != u && v != u && f.result == Variable(s)
    requires RunStmts(f.body, OuterStore(s, v, u, a, w, z)) == Some(OuterStore(s, v, u, n, w, z))
    ensures Gives(o, f, [Int(a), Vec(w), Vec(z)], Int(n))
  {
    BoundThree(s, v, u, Int(a), Vec(w), Vec(z));
    Returns(o, f, [Int(a), Vec(w), Vec(z)], Int(n));
  }

  /** A loop in a loop, with a name declared anew in every round: s := s + v[i] * u[j] over all i and j adds the
      product of the two sums. */
  lemma {:induction false} NestedCompiled(o: Order, s: string, d: string, v: string, u: string, i: string, j: string, a: int, w: seq<int>, z: seq<int>)
    requires Enumerates(o) && Apart(s, d, v, u, i, j)
    ensures Gives(o, NestedLoops(s, d, v, u, i, j, |w|, |z|), [Int(a), Vec(w), Vec(z)], Int(a + Sum(w) * Sum(z)))
  {
    ApartNames(s, d, v, u, i, j);
    OuterRun(s, d, v, u, i, j, a, w, z);
    NestedReturns(o, NestedLoops(s, d, v, u, i, j, |w|, |z|), s, v, u, a, w, z, a + Sum(w) * Sum(z));
  }
}
