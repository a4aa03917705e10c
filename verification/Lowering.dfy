/** From the syntax tree to SSA form: variables become values, loops carry every visible variable. */
module Lowering {

  datatype Option<+T> = None | Some(value: T)

  /** A number, or a tensor of numbers. */
  datatype Data = Int(n: int) | Vec(s: seq<int>)

  datatype BinOp = Plus | Minus | Times | Mod

  // ---------------------------------------------------------------- the source language

  datatype Expr =
    | Literal(n: int)
    | LiteralTensor(s: seq<int>)
    | Variable(name: string)
    | Binary(op: BinOp, left: Expr, right: Expr)
    | IndexAccess(target: string, index: Expr)

  datatype Stmt =
    | Declare(name: string, value: Expr)
    | Assign(name: string, value: Expr)
    | AssignAt(target: string, index: Expr, value: Expr)
    | SimpleFor(iv: string, lo: int, hi: int, body: seq<Stmt>)

  datatype Func = Func(params: seq<string>, body: seq<Stmt>, result: Expr)

  type Store = map<string, Data>

  /** The remainder is the unsigned one, which is only used here on operands that are not negative. */
  function Operate(op: BinOp, a: Data, b: Data): Option<Data>
  {
    match (a, b)
    case (Int(x), Int(y)) =>
      (match op
       case Plus => Some(Int(x + y))
       case Minus => Some(Int(x - y))
       case Times => Some(Int(x * y))
       case Mod => if x >= 0 && y > 0 then Some(Int(x % y)) else None)
    case _ => None
  }

  function Read(t: Data, i: Data): Option<Data>
  {
    match (t, i)
    case (Vec(s), Int(k)) => if 0 <= k < |s| then Some(Int(s[k])) else None
    case _ => None
  }

  function Write(v: Data, t: Data, i: Data): Option<Data>
  {
    match (v, t, i)
    case (Int(x), Vec(s), Int(k)) => if 0 <= k < |s| then Some(Vec(s[k := x])) else None
    case _ => None
  }

  function Eval(e: Expr, st: Store): Option<Data>
  {
    match e
    case Literal(n) => Some(Int(n))
    case LiteralTensor(s) => Some(Vec(s))
    case Variable(x) => if x in st then Some(st[x]) else None
    case Binary(op, l, r) =>
      var a, b := Eval(l, st), Eval(r, st);
      if a.Some? && b.Some? then Operate(op, a.value, b.value) else None
    case IndexAccess(x, i) =>
      var k := Eval(i, st);
      if x in st && k.Some? then Read(st[x], k.value) else None
  }

  function Restrict(st: Store, names: set<string>): Store { map x | x in st && x in names :: st[x] }

  /** Running statements; a name may be declared only where it is not visible yet, and declarations in
      a loop body last for one round. */
  function RunStmts(ss: seq<Stmt>, st: Store): Option<Store>
    decreases ss, 0, 0
  {
    if ss == [] then Some(st) else
      var before := RunStmts(ss[..|ss| - 1], st);
      if before.Some? then RunStmt(ss[|ss| - 1], before.value) else None
  }

  function RunStmt(s: Stmt, st: Store): Option<Store>
    decreases s, 1, 0
  {
    match s
    case Declare(x, e) =>
      var v := Eval(e, st);
      if v.Some? && x !in st then Some(st[x := v.value]) else None
    case Assign(x, e) =>
      var v := Eval(e, st);
      if v.Some? && x in st then Some(st[x := v.value]) else None
    case AssignAt(x, i, e) =>
      var v, k := Eval(e, st), Eval(i, st);
      if v.Some? && k.Some? && x in st then
        var t := Write(v.value, st[x], k.value);
        if t.Some? then Some(st[x := t.value]) else None
      else None
    case SimpleFor(iv, lo, hi, body) => if iv in st then None else RunRounds(s, lo, st)
  }

  function RunRounds(s: Stmt, k: int, st: Store): Option<Store>
    requires s.SimpleFor?
    decreases s, 0, s.hi - k
  {
    if k >= s.hi then Some(st) else
      var after := RunStmts(s.body, st[s.iv := Int(k)]);
      if after.Some? then RunRounds(s, k + 1, Restrict(after.value, st.Keys)) else None
  }

  function Bound(names: seq<string>, args: seq<Data>): Store
    requires |names| == |args|
  {
    if names == [] then map[] else
      var m := |names| - 1;
      Bound(names[..m], args[..m])[names[m] := args[m]]
  }

  /** What the function returns. */
  function Call(f: Func, args: seq<Data>): Option<Data>
    requires |args| == |f.params|
  {
    var st := RunStmts(f.body, Bound(f.params, args));
    if st.Some? then Eval(f.result, st.value) else None
  }

  // ---------------------------------------------------------------- programs that use a name twice

  /** A declaration of a visible name, or a loop counter that is a visible name, leaves the name as it was;
      an assignment makes a name visible. */
  function ActualStmts(ss: seq<Stmt>, st: Store): Option<Store>
    decreases ss, 0, 0
  {
    if ss == [] then Some(st) else
      var before := ActualStmts(ss[..|ss| - 1], st);
      if before.Some? then ActualStmt(ss[|ss| - 1], before.value) else None
  }

  function ActualStmt(s: Stmt, st: Store): Option<Store>
    decreases s, 1, 0
  {
    match s
    case Declare(x, e) =>
      var v := Eval(e, st);
      if v.Some? then Some(DeclaredStore(st, x, v.value)) else None
    case Assign(x, e) =>
      var v := Eval(e, st);
      if v.Some? then Some(st[x := v.value]) else None
    case AssignAt(x, i, e) =>
      var v, k := Eval(e, st), Eval(i, st);
      if v.Some? && k.Some? && x in st then
        var t := Write(v.value, st[x], k.value);
        if t.Some? then Some(st[x := t.value]) else None
      else None
    case SimpleFor(iv, lo, hi, body) => ActualRounds(s, lo, st)
  }

  function DeclaredStore(st: Store, x: string, v: Data): Store { if x in st then st else st[x := v] }

  function ActualRounds(s: Stmt, k: int, st: Store): Option<Store>
    requires s.SimpleFor?
    decreases s, 0, s.hi - k
  {
    if k >= s.hi then Some(st) else
      var after := ActualStmts(s.body, DeclaredStore(st, s.iv, Int(k)));
      if after.Some? then ActualRounds(s, k + 1, Restrict(after.value, st.Keys)) else None
  }

  function ActualCall(f: Func, args: seq<Data>): Option<Data>
    requires |args| == |f.params|
  {
    var st := ActualStmts(f.body, Bound(f.params, args));
    if st.Some? then Eval(f.result, st.value) else None
  }

  /** A program that declares no visible name again means the same either way. */
  lemma {:induction false} RunIsActual(ss: seq<Stmt>, st: Store)
    requires RunStmts(ss, st).Some?
    ensures ActualStmts(ss, st) == RunStmts(ss, st)
    decreases ss, 0, 0
  {
    if ss != [] {
      RunIsActual(ss[..|ss| - 1], st);
      OneIsActual(ss[|ss| - 1], RunStmts(ss[..|ss| - 1], st).value);
    }
  }

  lemma {:induction false} OneIsActual(s: Stmt, st: Store)
    requires RunStmt(s, st).Some?
    ensures ActualStmt(s, st) == RunStmt(s, st)
    decreases s, 1, 0
  {
    if s.SimpleFor? { RoundsAreActual(s, s.lo, st); }
  }

  lemma {:induction false} RoundsAreActual(s: Stmt, k: int, st: Store)
    requires s.SimpleFor? && s.iv !in st && RunRounds(s, k, st).Some?
    ensures ActualRounds(s, k, st) == RunRounds(s, k, st)
    decreases s, 0, s.hi - k
  {
    if k < s.hi {
      RunIsActual(s.body, st[s.iv := Int(k)]);
      RoundsAreActual(s, k + 1, Restrict(RunStmts(s.body, st[s.iv := Int(k)]).value, st.Keys));
    }
  }

  // ---------------------------------------------------------------- the target language

  datatype Rhs =
    | Constant(d: Data)
    | Arith(op: BinOp, a: nat, b: nat)
    | Extract(t: nat, i: nat)
    | Insert(v: nat, t: nat, i: nat)

  datatype Instr =
    | Let(dst: nat, rhs: Rhs)
    | For(lo: int, hi: int, inits: seq<nat>, iv: nat, iters: seq<nat>, body: seq<Instr>, outs: seq<nat>, results: seq<nat>)

  type Env = map<nat, Data>

  predicate Defined(env: Env, ids: seq<nat>) { forall i :: 0 <= i < |ids| ==> ids[i] in env }

  function Values(env: Env, ids: seq<nat>): (vs: seq<Data>)
    requires Defined(env, ids)
    ensures |vs| == |ids| && forall i :: 0 <= i < |ids| ==> vs[i] == env[ids[i]]
  {
    seq(|ids|, i requires 0 <= i < |ids| => env[ids[i]])
  }

  function Bind(env: Env, ids: seq<nat>, vs: seq<Data>): Env
    requires |ids| == |vs|
  {
    if ids == [] then env else
      var m := |ids| - 1;
      Bind(env, ids[..m], vs[..m])[ids[m] := vs[m]]
  }

  function Compute(r: Rhs, env: Env): Option<Data>
  {
    match r
    case Constant(d) => Some(d)
    case Arith(op, a, b) => if a in env && b in env then Operate(op, env[a], env[b]) else None
    case Extract(t, i) => if t in env && i in env then Read(env[t], env[i]) else None
    case Insert(v, t, i) => if v in env && t in env && i in env then Write(env[v], env[t], env[i]) else None
  }

  function Exec(code: seq<Instr>, env: Env): Option<Env>
    decreases code, 0, 0
  {
    if code == [] then Some(env) else
      var before := Exec(code[..|code| - 1], env);
      if before.Some? then ExecOne(code[|code| - 1], before.value) else None
  }

  function ExecOne(c: Instr, env: Env): Option<Env>
    decreases c, 1, 0
  {
    match c
    case Let(dst, r) =>
      var v := Compute(r, env);
      if v.Some? then Some(env[dst := v.value]) else None
    case For(lo, hi, inits, iv, iters, body, outs, results) =>
      if !Defined(env, inits) || |inits| != |iters| || |outs| != |iters| || |results| != |iters| then None else
        var vs := ExecRounds(c, lo, Values(env, inits), env);
        if vs.Some? && |vs.value| == |results| then Some(Bind(env, results, vs.value)) else None
  }

  /** Rounds k, k + 1, ... of a loop that carries the values vs. */
  function ExecRounds(c: Instr, k: int, vs: seq<Data>, env: Env): (r: Option<seq<Data>>)
    requires c.For? && |vs| == |c.iters| == |c.outs|
    decreases c, 0, c.hi - k
  {
    if k >= c.hi then Some(vs) else
      var after := Exec(c.body, Bind(env[c.iv := Int(k)], c.iters, vs));
      if after.Some? && Defined(after.value, c.outs) then ExecRounds(c, k + 1, Values(after.value, c.outs), env) else None
  }

  /** Parameters are values 0, 1, ... */
  datatype SsaFunc = SsaFunc(arity: nat, code: seq<Instr>, result: nat)

  function Ids(from: nat, count: nat): (r: seq<nat>)
    ensures |r| == count && forall i :: 0 <= i < count ==> r[i] == from + i
  {
    seq(count, i requires 0 <= i => from + i)
  }

  function RunSsa(f: SsaFunc, args: seq<Data>): Option<Data>
    requires |args| == f.arity
  {
    var env := Exec(f.code, Bind(map[], Ids(0, f.arity), args));
    if env.Some? && f.result in env.value then Some(env.value[f.result]) else None
  }

  // ---------------------------------------------------------------- lowering

  type Table = map<string, nat>

  /** The order in which the symbol table hands out its names; it may differ from time to time. */
  type Order = (nat, set<string>) -> seq<string>

  predicate Distinct(names: seq<string>) { forall i, j :: 0 <= i < j < |names| ==> names[i] != names[j] }

  ghost predicate Enumerates(o: Order)
  {
    forall k: nat, s: set<string> :: Distinct(o(k, s)) && forall x :: x in o(k, s) <==> x in s
  }

  datatype LoweredExpr = LoweredExpr(code: seq<Instr>, id: nat, next: nat)

  /** An undefined variable is reported and stands for 1. */
  function LowerVariable(tab: Table, next: nat, x: string): LoweredExpr
  {
    if x in tab then LoweredExpr([], tab[x], next)
    else LoweredExpr([Let(next, Constant(Int(1)))], next, next + 1)
  }

  /** The code of an expression, the value it leaves its result in, and the next free number. */
  function LowerExpr(tab: Table, next: nat, e: Expr): LoweredExpr
    decreases e
  {
    match e
    case Literal(n) => LoweredExpr([Let(next, Constant(Int(n)))], next, next + 1)
    case LiteralTensor(s) => LoweredExpr([Let(next, Constant(Vec(s)))], next, next + 1)
    case Variable(x) => LowerVariable(tab, next, x)
    case Binary(op, l, r) =>
      var a := LowerExpr(tab, next, l);
      var b := LowerExpr(tab, a.next, r);
      LoweredExpr(a.code + b.code + [Let(b.next, Arith(op, a.id, b.id))], b.next, b.next + 1)
    case IndexAccess(x, i) =>
      var t := LowerVariable(tab, next, x);
      var k := LowerExpr(tab, t.next, i);
      LoweredExpr(t.code + k.code + [Let(k.next, Extract(t.id, k.id))], k.next, k.next + 1)
  }

  datatype Lowered = Lowered(code: seq<Instr>, tab: Table, next: nat)

  function Rebind(tab: Table, names: seq<string>, ids: seq<nat>): Table
    requires |names| == |ids|
  {
    if names == [] then tab else
      var m := |names| - 1;
      Rebind(tab, names[..m], ids[..m])[names[m] := ids[m]]
  }

  /** Declaring a name that is visible already does nothing. */
  function DeclareIn(tab: Table, name: string, id: nat): Table { if name in tab then tab else tab[name := id] }

  function Lookups(tab: Table, names: seq<string>): (ids: seq<nat>)
    ensures |ids| == |names|
    ensures forall i :: 0 <= i < |names| && names[i] in tab ==> ids[i] == tab[names[i]]
  {
    seq(|names|, i requires 0 <= i < |names| => if names[i] in tab then tab[names[i]] else 0)
  }

  function LowerStmts(o: Order, tab: Table, next: nat, ss: seq<Stmt>): Lowered
    decreases ss, 0
  {
    if ss == [] then Lowered([], tab, next) else
      var a := LowerStmts(o, tab, next, ss[..|ss| - 1]);
      var b := LowerStmt(o, a.tab, a.next, ss[|ss| - 1]);
      Lowered(a.code + b.code, b.tab, b.next)
  }

  function LowerStmt(o: Order, tab: Table, next: nat, s: Stmt): Lowered
    decreases s, 1
  {
    match s
    case Declare(x, e) =>
      var v := LowerExpr(tab, next, e);
      Lowered(v.code, DeclareIn(tab, x, v.id), v.next)
    case Assign(x, e) =>
      var v := LowerExpr(tab, next, e);
      Lowered(v.code, tab[x := v.id], v.next)
    case AssignAt(x, i, e) =>
      var v := LowerExpr(tab, next, e);
      var k := LowerExpr(tab, v.next, i);
      var t := if x in tab then tab[x] else 0;
      Lowered(v.code + k.code + [Let(k.next, Insert(v.id, t, k.id))], tab[x := k.next], k.next + 1)
    case SimpleFor(iv, lo, hi, body) =>
      var names := o(next, tab.Keys);
      var n := |names|;
      var inner := LowerStmts(o, LoopTable(tab, names, iv, next), next + 1 + n, body);
      var results := Ids(inner.next, n);
      Lowered([For(lo, hi, Lookups(tab, names), next, Ids(next + 1, n), inner.code, Lookups(inner.tab, names), results)],
              Rebind(tab, names, results), inner.next + n)
  }

  /** The table inside a loop: every visible variable is the loop's own copy, and the induction variable. */
  function LoopTable(tab: Table, names: seq<string>, iv: string, next: nat): Table
  {
    DeclareIn(Rebind(tab, names, Ids(next + 1, |names|)), iv, next)
  }

  function ParamTable(params: seq<string>): Table
  {
    if params == [] then map[] else DeclareIn(ParamTable(params[..|params| - 1]), params[|params| - 1], |params| - 1)
  }

  function Lower(o: Order, f: Func): SsaFunc
  {
    var n := |f.params|;
    var b := LowerStmts(o, ParamTable(f.params), n, f.body);
    var r := LowerExpr(b.tab, b.next, f.result);
    SsaFunc(n, b.code + r.code, r.id)
  }

  // ---------------------------------------------------------------- lowering keeps the meaning

  /** Every visible variable's value is where the table says, and all numbers in use are below next. */
  ghost predicate Mirrors(tab: Table, st: Store, env: Env, next: nat)
  {
    && tab.Keys == st.Keys
    && (forall x :: x in st ==> tab[x] in env && env[tab[x]] == st[x])
    && (forall i :: i in env ==> i < next)
  }

  /** The environment only grows. */
  ghost predicate Grows(env: Env, env': Env, next': nat)
  {
    && (forall i :: i in env ==> i in env' && env'[i] == env[i])
    && (forall i :: i in env' ==> i < next')
  }

  lemma {:induction false} ExecAppend(a: seq<Instr>, b: seq<Instr>, env: Env)
    ensures Exec(a + b, env) == (if Exec(a, env).Some? then Exec(b, Exec(a, env).value) else None)
  {
    if b == [] {
      assert a + b == a;
    } else {
      var m := |b| - 1;
      ExecAppend(a, b[..m], env);
      assert (a + b)[..|a + b| - 1] == a + b[..m];
    }
  }

  lemma {:induction false} ExecLet(dst: nat, r: Rhs, env: Env)
    ensures Exec([Let(dst, r)], env) == (if Compute(r, env).Some? then Some(env[dst := Compute(r, env).value]) else None)
  {
    assert [Let(dst, r)][..0] == [];
  }

  lemma {:induction false} MirrorsGrown(tab: Table, st: Store, env: Env, next: nat, env': Env, next': nat)
    requires Mirrors(tab, st, env, next) && Grows(env, env', next')
    ensures Mirrors(tab, st, env', next')
  {}

  /** The code of an expression leaves its value in the place it names. */
  lemma {:induction false} LowerExprOk(tab: Table, next: nat, e: Expr, st: Store, env: Env) returns (env': Env)
    requires Mirrors(tab, st, env, next) && Eval(e, st).Some?
    ensures var r := LowerExpr(tab, next, e);
      && Exec(r.code, env) == Some(env') && Grows(env, env', r.next) && next <= r.next
      && r.id in env' && env'[r.id] == Eval(e, st).value
    decreases e, 1
  {
    var r := LowerExpr(tab, next, e);
    match e
    case Literal(n) =>
      ExecLet(next, Constant(Int(n)), env);
      env' := env[next := Int(n)];
    case LiteralTensor(s) =>
      ExecLet(next, Constant(Vec(s)), env);
      env' := env[next := Vec(s)];
    case Variable(x) =>
      env' := env;
    case Binary(_, _, _) => env' := LowerBinaryOk(tab, next, e, st, env);
    case IndexAccess(_, _) => env' := LowerIndexOk(tab, next, e, st, env);
  }

  lemma {:induction false} LowerBinaryOk(tab: Table, next: nat, e: Expr, st: Store, env: Env) returns (env': Env)
    requires e.Binary? && Mirrors(tab, st, env, next) && Eval(e, st).Some?
    ensures var r := LowerExpr(tab, next, e);
      && Exec(r.code, env) == Some(env') && Grows(env, env', r.next) && next <= r.next
      && r.id in env' && env'[r.id] == Eval(e, st).value
    decreases e, 0
  {
    var e1 := LowerExprOk(tab, next, e.left, st, env);
    var a := LowerExpr(tab, next, e.left);
    MirrorsGrown(tab, st, env, next, e1, a.next);
    var e2 := LowerExprOk(tab, a.next, e.right, st, e1);
    var b := LowerExpr(tab, a.next, e.right);
    env' := TwoThenLet(a.code, b.code, b.next, Arith(e.op, a.id, b.id), env, e1, e2);
  }

  lemma {:induction false} LowerIndexOk(tab: Table, next: nat, e: Expr, st: Store, env: Env) returns (env': Env)
    requires e.IndexAccess? && Mirrors(tab, st, env, next) && Eval(e, st).Some?
    ensures var r := LowerExpr(tab, next, e);
      && Exec(r.code, env) == Some(env') && Grows(env, env', r.next) && next <= r.next
      && r.id in env' && env'[r.id] == Eval(e, st).value
    decreases e, 0
  {
    var k := LowerExpr(tab, next, e.index);
    var e1 := LowerExprOk(tab, next, e.index, st, env);
    env' := TwoThenLet([], k.code, k.next, Extract(tab[e.target], k.id), env, env, e1);
  }

  lemma {:induction false} TwoThenLet(a: seq<Instr>, b: seq<Instr>, dst: nat, r: Rhs, env: Env, e1: Env, e2: Env) returns (env': Env)
    requires Exec(a, env) == Some(e1) && Exec(b, e1) == Some(e2) && Compute(r, e2).Some?
    requires Grows(env, e1, dst) && Grows(e1, e2, dst)
    ensures Exec(a + b + [Let(dst, r)], env) == Some(env') && env' == e2[dst := Compute(r, e2).value]
    ensures Grows(env, env', dst + 1)
  {
    ExecAppend(a, b, env);
    ExecAppend(a + b, [Let(dst, r)], env);
    ExecLet(dst, r, e2);
    env' := e2[dst := Compute(r, e2).value];
  }

  // ---------------------------------------------------------------- statements

  lemma {:induction false} BindIds(env: Env, from: nat, vs: seq<Data>)
    requires forall i :: i in env ==> i < from
    ensures var env' := Bind(env, Ids(from, |vs|), vs);
      && (forall i: nat :: i in env' <==> i in env || from <= i < from + |vs|)
      && (forall i :: i in env ==> env'[i] == env[i])
      && (forall i :: 0 <= i < |vs| ==> env'[from + i] == vs[i])
  {
    if vs != [] {
      var m := |vs| - 1;
      BindIds(env, from, vs[..m]);
      assert Ids(from, |vs|)[..m] == Ids(from, m);
    }
  }

  lemma {:induction false} RebindIds(tab: Table, names: seq<string>, ids: seq<nat>)
    requires |names| == |ids| && Distinct(names)
    ensures var tab' := Rebind(tab, names, ids);
      && (forall x :: x in tab' <==> x in tab || x in names)
      && (forall i :: 0 <= i < |names| ==> tab'[names[i]] == ids[i])
      && (forall x :: x in tab && x !in names ==> tab'[x] == tab[x])
  {
    if names != [] {
      var m := |names| - 1;
      RebindIds(tab, names[..m], ids[..m]);
      var before, tab' := Rebind(tab, names[..m], ids[..m]), Rebind(tab, names, ids);
      assert tab' == before[names[m] := ids[m]];
      LastName(names);
      forall i | 0 <= i < |names| ensures names[i] in tab' && tab'[names[i]] == ids[i] {
        if i < m { assert names[..m][i] == names[i]; }
      }
    }
  }

  lemma {:induction false} LastName(names: seq<string>)
    requires names != []
    ensures var m := |names| - 1; forall x :: x in names <==> x in names[..m] || x == names[m]
    ensures Distinct(names) ==> names[|names| - 1] !in names[..|names| - 1] && Distinct(names[..|names| - 1])
  {
    assert names == names[..|names| - 1] + [names[|names| - 1]];
  }

  /** The values of the names, in the order given. */
  ghost predicate Holds(st: Store, names: seq<string>, vs: seq<Data>)
  {
    && |vs| == |names| && (forall x :: x in st <==> x in names)
    && forall i :: 0 <= i < |names| ==> vs[i] == st[names[i]]
  }

  /** Renaming every variable to a fresh copy of its value. */
  lemma {:induction false} MirrorsCopies(tab: Table, names: seq<string>, from: nat, st: Store, env: Env, vs: seq<Data>)
    requires Distinct(names) && Holds(st, names, vs) && tab.Keys == st.Keys
    requires forall i :: i in env ==> i < from
    ensures Mirrors(Rebind(tab, names, Ids(from, |names|)), st, Bind(env, Ids(from, |names|), vs), from + |names|)
  {
    BindIds(env, from, vs);
    RebindIds(tab, names, Ids(from, |names|));
    CopiesMirror(Rebind(tab, names, Ids(from, |names|)), names, st, Bind(env, Ids(from, |names|), vs), from, vs);
    assert Rebind(tab, names, Ids(from, |names|)).Keys == st.Keys;
  }

  lemma {:induction false} CopiesMirror(tab: Table, names: seq<string>, st: Store, env: Env, from: nat, vs: seq<Data>)
    requires Holds(st, names, vs)
    requires forall i :: 0 <= i < |names| ==> names[i] in tab && tab[names[i]] == from + i
    requires forall i :: 0 <= i < |vs| ==> from + i in env && env[from + i] == vs[i]
    ensures forall x :: x in st ==> x in tab && tab[x] in env && env[tab[x]] == st[x]
  {
    forall x | x in st ensures x in tab && tab[x] in env && env[tab[x]] == st[x] {
      var i :| 0 <= i < |names| && names[i] == x;
    }
  }

  lemma {:induction false} LowerExprNext(tab: Table, next: nat, e: Expr)
    ensures next <= LowerExpr(tab, next, e).next
    decreases e
  {
    match e
    case Binary(op, l, r) =>
      LowerExprNext(tab, next, l);
      LowerExprNext(tab, LowerExpr(tab, next, l).next, r);
    case IndexAccess(x, i) => LowerExprNext(tab, LowerVariable(tab, next, x).next, i);
    case _ =>
  }

  lemma {:induction false} LowerStmtsNext(o: Order, tab: Table, next: nat, ss: seq<Stmt>)
    ensures next <= LowerStmts(o, tab, next, ss).next
    decreases ss, 0
  {
    if ss != [] {
      LowerStmtsNext(o, tab, next, ss[..|ss| - 1]);
      var a := LowerStmts(o, tab, next, ss[..|ss| - 1]);
      LowerStmtNext(o, a.tab, a.next, ss[|ss| - 1]);
    }
  }

  lemma {:induction false} LowerStmtNext(o: Order, tab: Table, next: nat, s: Stmt)
    ensures next <= LowerStmt(o, tab, next, s).next
    decreases s, 1
  {
    match s
    case Declare(x, e) => LowerExprNext(tab, next, e);
    case Assign(x, e) => LowerExprNext(tab, next, e);
    case AssignAt(x, i, e) =>
      LowerExprNext(tab, next, e);
      LowerExprNext(tab, LowerExpr(tab, next, e).next, i);
    case SimpleFor(iv, lo, hi, body) =>
      var names := o(next, tab.Keys);
      LowerStmtsNext(o, LoopTable(tab, names, iv, next), next + 1 + |names|, body);
  }

  /** Statements make names visible and hide none. */
  lemma {:induction false} StmtsKeys(ss: seq<Stmt>, st: Store)
    requires ActualStmts(ss, st).Some?
    ensures st.Keys <= ActualStmts(ss, st).value.Keys
    decreases ss, 0, 0
  {
    if ss != [] {
      StmtsKeys(ss[..|ss| - 1], st);
      StmtKeys(ss[|ss| - 1], ActualStmts(ss[..|ss| - 1], st).value);
    }
  }

  lemma {:induction false} StmtKeys(s: Stmt, st: Store)
    requires ActualStmt(s, st).Some?
    ensures st.Keys <= ActualStmt(s, st).value.Keys
    decreases s, 1, 0
  {
    if s.SimpleFor? { RoundsKeys(s, s.lo, st); }
  }

  lemma {:induction false} RoundsKeys(s: Stmt, k: int, st: Store)
    requires s.SimpleFor? && ActualRounds(s, k, st).Some?
    ensures ActualRounds(s, k, st).value.Keys == st.Keys
    decreases s, 0, s.hi - k
  {
    if k < s.hi {
      var after := ActualStmts(s.body, DeclaredStore(st, s.iv, Int(k))).value;
      StmtsKeys(s.body, DeclaredStore(st, s.iv, Int(k)));
      assert Restrict(after, st.Keys).Keys == st.Keys;
      RoundsKeys(s, k + 1, Restrict(after, st.Keys));
    }
  }

  lemma {:induction false} GrowsTrans(e0: Env, e1: Env, n1: nat, e2: Env, n2: nat)
    requires Grows(e0, e1, n1) && Grows(e1, e2, n2)
    ensures Grows(e0, e2, n2)
  {}

  /** Lowered statements take an environment that mirrors the store to one that mirrors the new store. */
  lemma {:induction false} LowerStmtsOk(o: Order, tab: Table, next: nat, ss: seq<Stmt>, st: Store, env: Env) returns (env': Env)
    requires Enumerates(o) && Mirrors(tab, st, env, next) && ActualStmts(ss, st).Some?
    ensures var r := LowerStmts(o, tab, next, ss);
      && Exec(r.code, env) == Some(env') && Grows(env, env', r.next)
      && Mirrors(r.tab, ActualStmts(ss, st).value, env', r.next)
    decreases ss, 0, 0
  {
    if ss == [] {
      env' := env;
    } else {
      var m := |ss| - 1;
      var a, st1 := LowerStmts(o, tab, next, ss[..m]), ActualStmts(ss[..m], st).value;
      var e1 := LowerStmtsOk(o, tab, next, ss[..m], st, env);
      env' := LowerStmtOk(o, a.tab, a.next, ss[m], st1, e1);
      var b := LowerStmt(o, a.tab, a.next, ss[m]);
      ExecAppend(a.code, b.code, env);
      GrowsTrans(env, e1, a.next, env', b.next);
    }
  }

  lemma {:induction false} LowerStmtOk(o: Order, tab: Table, next: nat, s: Stmt, st: Store, env: Env) returns (env': Env)
    requires Enumerates(o) && Mirrors(tab, st, env, next) && ActualStmt(s, st).Some?
    ensures var r := LowerStmt(o, tab, next, s);
      && Exec(r.code, env) == Some(env') && Grows(env, env', r.next)
      && Mirrors(r.tab, ActualStmt(s, st).value, env', r.next)
    decreases s, 3, 0
  {
    match s
    case Declare(x, e) => env' := LowerExprOk(tab, next, e, st, env);
    case Assign(x, e) => env' := LowerExprOk(tab, next, e, st, env);
    case AssignAt(x, i, e) => env' := AssignAtOk(o, tab, next, s, st, env);
    case SimpleFor(iv, lo, hi, body) => env' := ForOk(o, tab, next, s, st, env);
  }

  lemma {:induction false} AssignAtOk(o: Order, tab: Table, next: nat, s: Stmt, st: Store, env: Env) returns (env': Env)
    requires s.AssignAt? && Mirrors(tab, st, env, next) && ActualStmt(s, st).Some?
    ensures var r := LowerStmt(o, tab, next, s);
      && Exec(r.code, env) == Some(env') && Grows(env, env', r.next)
      && Mirrors(r.tab, ActualStmt(s, st).value, env', r.next)
  {
    var v := LowerExpr(tab, next, s.value);
    var k := LowerExpr(tab, v.next, s.index);
    var e1 := LowerExprOk(tab, next, s.value, st, env);
    MirrorsGrown(tab, st, env, next, e1, v.next);
    var e2 := LowerExprOk(tab, v.next, s.index, st, e1);
    MirrorsGrown(tab, st, e1, v.next, e2, k.next);
    env' := TwoThenLet(v.code, k.code, k.next, Insert(v.id, tab[s.target], k.id), env, e1, e2);
  }

  lemma {:induction false} InitialValues(tab: Table, st: Store, env: Env, next: nat, names: seq<string>)
    requires Mirrors(tab, st, env, next) && forall x :: x in names <==> x in tab
    ensures Defined(env, Lookups(tab, names)) && Holds(st, names, Values(env, Lookups(tab, names)))
  {
    forall i | 0 <= i < |names| ensures Lookups(tab, names)[i] in env && env[Lookups(tab, names)[i]] == st[names[i]] {
      assert names[i] in names;
      assert names[i] in tab.Keys;
    }
    forall x ensures x in st <==> x in names { assert x in st <==> x in tab.Keys; }
  }

  /** Executing a loop whose rounds come to an end. */
  lemma {:induction false} ExecFor(c: Instr, env: Env, vs: seq<Data>)
    requires c.For? && Defined(env, c.inits) && |c.inits| == |c.iters| == |c.outs| == |c.results| == |vs|
    requires ExecRounds(c, c.lo, Values(env, c.inits), env) == Some(vs)
    ensures Exec([c], env) == Some(Bind(env, c.results, vs))
  {
    assert [c][..0] == [];
    assert ExecOne(c, env) == Some(Bind(env, c.results, vs));
  }

  lemma {:induction false} ForShape(o: Order, tab: Table, next: nat, s: Stmt) returns (c: Instr, end: nat)
    requires s.SimpleFor?
    ensures var r, names := LowerStmt(o, tab, next, s), o(next, tab.Keys);
      && r.code == [c] && LoopFor(o, tab, next, s, names, c) && c.lo == s.lo
      && c.inits == Lookups(tab, names) && c.results == Ids(end, |names|)
      && next <= end && r.tab == Rebind(tab, names, Ids(end, |names|)) && r.next == end + |names|
  {
    var names := o(next, tab.Keys);
    LowerStmtsNext(o, LoopTable(tab, names, s.iv, next), next + 1 + |names|, s.body);
    c := LowerStmt(o, tab, next, s).code[0];
    end := LowerStmts(o, LoopTable(tab, names, s.iv, next), next + 1 + |names|, s.body).next;
  }

  lemma {:induction false} ForOk(o: Order, tab: Table, next: nat, s: Stmt, st: Store, env: Env) returns (env': Env)
    requires s.SimpleFor? && Enumerates(o) && Mirrors(tab, st, env, next) && ActualStmt(s, st).Some?
    ensures var r := LowerStmt(o, tab, next, s);
      && Exec(r.code, env) == Some(env') && Grows(env, env', r.next)
      && Mirrors(r.tab, ActualStmt(s, st).value, env', r.next)
    decreases s, 2, 0
  {
    var names := o(next, tab.Keys);
    var c, end := ForShape(o, tab, next, s);
    InitialValues(tab, st, env, next, names);
    var vs := RoundsOk(o, tab, next, s, s.lo, st, names, c, Values(env, c.inits), env);
    RoundsKeys(s, s.lo, st);
    ExecFor(c, env, vs);
    env' := Bind(env, Ids(end, |names|), vs);
    BindIds(env, end, vs);
    MirrorsCopies(tab, names, end, ActualRounds(s, s.lo, st).value, env, vs);
  }

  lemma {:induction false} MirrorsExtra(tab: Table, st: Store, env: Env, next: nat, x: string, id: nat)
    requires Mirrors(tab, st, env, next) && id in env
    ensures Mirrors(DeclareIn(tab, x, id), DeclaredStore(st, x, env[id]), env, next)
  {
    assert x in st <==> x in tab.Keys;
  }

  /** One round's environment mirrors the store at its start. */
  lemma {:induction false} RoundStart(tab: Table, names: seq<string>, iv: string, next: nat, st: Store, k: int, vs: seq<Data>, env: Env)
    requires Distinct(names) && Holds(st, names, vs) && tab.Keys == st.Keys
    requires forall i :: i in env ==> i < next
    ensures Mirrors(LoopTable(tab, names, iv, next), DeclaredStore(st, iv, Int(k)),
                    Bind(env[next := Int(k)], Ids(next + 1, |names|), vs), next + 1 + |names|)
  {
    var e0 := env[next := Int(k)];
    MirrorsCopies(tab, names, next + 1, st, e0, vs);
    CounterBound(env, next, k, vs);
    MirrorsExtra(Rebind(tab, names, Ids(next + 1, |names|)), st, Bind(e0, Ids(next + 1, |names|), vs), next + 1 + |names|, iv, next);
  }

  lemma {:induction false} CounterBound(env: Env, next: nat, k: int, vs: seq<Data>)
    requires forall i :: i in env ==> i < next
    ensures var env' := Bind(env[next := Int(k)], Ids(next + 1, |vs|), vs); next in env' && env'[next] == Int(k)
  {
    BindIds(env[next := Int(k)], next + 1, vs);
  }

  /** One round takes the carried values on to the next. */
  lemma {:induction false} RoundOk(o: Order, tab: Table, next: nat, s: Stmt, k: int, st: Store, names: seq<string>, vs: seq<Data>, env: Env)
    returns (vs': seq<Data>)
    requires s.SimpleFor? && Enumerates(o) && tab.Keys == st.Keys
    requires Distinct(names) && Holds(st, names, vs) && (forall i :: i in env ==> i < next)
    requires ActualStmts(s.body, DeclaredStore(st, s.iv, Int(k))).Some?
    ensures var inner := LowerStmts(o, LoopTable(tab, names, s.iv, next), next + 1 + |names|, s.body);
      var after := Exec(inner.code, Bind(env[next := Int(k)], Ids(next + 1, |names|), vs));
      && after.Some? && Defined(after.value, Lookups(inner.tab, names)) && vs' == Values(after.value, Lookups(inner.tab, names))
    ensures var end := Restrict(ActualStmts(s.body, DeclaredStore(st, s.iv, Int(k))).value, st.Keys);
      end.Keys == st.Keys && Holds(end, names, vs')
    decreases s, 0, 0
  {
    var inTab := LoopTable(tab, names, s.iv, next);
    RoundStart(tab, names, s.iv, next, st, k, vs, env);
    var after := LowerStmtsOk(o, inTab, next + 1 + |names|, s.body, DeclaredStore(st, s.iv, Int(k)),
                              Bind(env[next := Int(k)], Ids(next + 1, |names|), vs));
    StmtsKeys(s.body, DeclaredStore(st, s.iv, Int(k)));
    var inner := LowerStmts(o, inTab, next + 1 + |names|, s.body);
    RoundEnd(inner.tab, ActualStmts(s.body, DeclaredStore(st, s.iv, Int(k))).value, after, inner.next, names, st);
    vs' := Values(after, Lookups(inner.tab, names));
  }

  /** c is the loop instruction that s is lowered to. */
  ghost predicate LoopFor(o: Order, tab: Table, next: nat, s: Stmt, names: seq<string>, c: Instr)
    requires s.SimpleFor?
  {
    var inner := LowerStmts(o, LoopTable(tab, names, s.iv, next), next + 1 + |names|, s.body);
    c.For? && c.hi == s.hi && c.iv == next && c.iters == Ids(next + 1, |names|) && c.body == inner.code
    && c.outs == Lookups(inner.tab, names)
  }

  /** The loop carries the values of all visible variables from round to round. */
  lemma {:induction false} RoundsOk(o: Order, tab: Table, next: nat, s: Stmt, k: int, st: Store, names: seq<string>, c: Instr, vs: seq<Data>, env: Env)
    returns (vs': seq<Data>)
    requires s.SimpleFor? && Enumerates(o) && tab.Keys == st.Keys
    requires Distinct(names) && Holds(st, names, vs) && (forall i :: i in env ==> i < next)
    requires ActualRounds(s, k, st).Some? && LoopFor(o, tab, next, s, names, c)
    ensures |vs| == |c.iters| == |c.outs| && ExecRounds(c, k, vs, env) == Some(vs')
    ensures Holds(ActualRounds(s, k, st).value, names, vs')
    decreases s, 1, s.hi - k
  {
    if k >= s.hi {
      vs' := vs;
    } else {
      vs' := RoundOk(o, tab, next, s, k, st, names, vs, env);
      var end := Restrict(ActualStmts(s.body, DeclaredStore(st, s.iv, Int(k))).value, st.Keys);
      vs' := RoundsOk(o, tab, next, s, k + 1, end, names, c, vs', env);
    }
  }

  lemma {:induction false} RoundEnd(tab: Table, end: Store, env: Env, next: nat, names: seq<string>, st: Store)
    requires Mirrors(tab, end, env, next) && st.Keys <= end.Keys && forall x :: x in st <==> x in names
    ensures Defined(env, Lookups(tab, names)) && Holds(Restrict(end, st.Keys), names, Values(env, Lookups(tab, names)))
    ensures Restrict(end, st.Keys).Keys == st.Keys
  {
    forall i | 0 <= i < |names| ensures Lookups(tab, names)[i] in env && env[Lookups(tab, names)[i]] == end[names[i]] {
      assert names[i] in st.Keys;
      assert names[i] in tab.Keys;
    }
  }

  // ---------------------------------------------------------------- functions

  lemma {:induction false} ParamsOk(params: seq<string>, args: seq<Data>)
    requires Distinct(params) && |args| == |params|
    ensures Mirrors(ParamTable(params), Bound(params, args), Bind(map[], Ids(0, |params|), args), |params|)
    ensures forall x :: x in Bound(params, args) <==> x in params
  {
    if params != [] {
      var m := |params| - 1;
      ParamsOk(params[..m], args[..m]);
      LastName(params);
      BindIds(map[], 0, args[..m]);
      assert Ids(0, |params|)[..m] == Ids(0, m);
      ParamNext(ParamTable(params[..m]), Bound(params[..m], args[..m]), Bind(map[], Ids(0, m), args[..m]), m, params[m], args[m]);
    }
  }

  lemma {:induction false} ParamNext(tab: Table, st: Store, env: Env, next: nat, x: string, v: Data)
    requires Mirrors(tab, st, env, next) && x !in st
    ensures Mirrors(DeclareIn(tab, x, next), st[x := v], env[next := v], next + 1)
  {
    assert x !in tab.Keys;
  }

  /** Compilation is exact on what it takes programs to mean: whatever order the symbol table hands out its
      names in, for every function without branches, with arbitrarily nested loops, that runs without using
      an undefined name or reading outside a tensor. */
  lemma {:induction false} LoweringActual(o: Order, f: Func, args: seq<Data>)
    requires Enumerates(o) && Distinct(f.params) && |args| == |f.params| && ActualCall(f, args).Some?
    ensures RunSsa(Lower(o, f), args) == ActualCall(f, args)
  {
    var n := |f.params|;
    var st0, env0 := Bound(f.params, args), Bind(map[], Ids(0, n), args);
    ParamsOk(f.params, args);
    var e1 := LowerStmtsOk(o, ParamTable(f.params), n, f.body, st0, env0);
    var b := LowerStmts(o, ParamTable(f.params), n, f.body);
    var st1 := ActualStmts(f.body, st0).value;
    var e2 := LowerExprOk(b.tab, b.next, f.result, st1, e1);
    ExecAppend(b.code, LowerExpr(b.tab, b.next, f.result).code, env0);
  }

  /** So the compiled function returns what the source function returns, if no visible name is declared again. */
  lemma {:induction false} LoweringPreserves(o: Order, f: Func, args: seq<Data>)
    requires Enumerates(o) && Distinct(f.params) && |args| == |f.params| && Call(f, args).Some?
    ensures RunSsa(Lower(o, f), args) == Call(f, args)
  {
    RunIsActual(f.body, Bound(f.params, args));
    LoweringActual(o, f, args);
  }

  /** Wherever a declaration is reached, the name stands for the declared value afterwards exactly when it was
      not visible before or had that value already. */
  lemma {:induction false} DeclareExact(o: Order, tab: Table, next: nat, x: string, e: Expr, st: Store, env: Env)
    returns (env': Env)
    requires Enumerates(o) && Mirrors(tab, st, env, next) && Eval(e, st).Some?
    ensures var r := LowerStmt(o, tab, next, Declare(x, e));
      && Exec(r.code, env) == Some(env') && x in r.tab && r.tab[x] in env'
      && (env'[r.tab[x]] == Eval(e, st).value <==> x !in st || st[x] == Eval(e, st).value)
  {
    env' := LowerStmtOk(o, tab, next, Declare(x, e), st, env);
    var after := DeclaredStore(st, x, Eval(e, st).value);
    assert x in after;
  }

  /** A function that ends by declaring x and returning it returns the declared value exactly when x was not
      visible before the declaration or had that value already. */
  lemma {:induction false} DeclaredResult(o: Order, f: Func, x: string, e: Expr, args: seq<Data>)
    requires Enumerates(o) && Distinct(f.params) && |args| == |f.params|
    requires f.body != [] && f.body[|f.body| - 1] == Declare(x, e) && f.result == Variable(x)
    requires var st := ActualStmts(f.body[..|f.body| - 1], Bound(f.params, args)); st.Some? && Eval(e, st.value).Some?
    ensures var st := ActualStmts(f.body[..|f.body| - 1], Bound(f.params, args)).value;
      RunSsa(Lower(o, f), args) == Some(Eval(e, st).value) <==> x !in st || st[x] == Eval(e, st).value
  {
    var st := ActualStmts(f.body[..|f.body| - 1], Bound(f.params, args)).value;
    var after := DeclaredStore(st, x, Eval(e, st).value);
    assert ActualStmts(f.body, Bound(f.params, args)) == ActualStmt(Declare(x, e), st) == Some(after);
    assert Eval(Variable(x), after) == Some(after[x]);
    LoweringActual(o, f, args);
  }

  /** So a function that declares x twice and returns it gets the first value. */
  lemma {:induction false} RedeclarationIgnored(o: Order, x: string, a: int, b: int)
    requires Enumerates(o)
    ensures RunSsa(Lower(o, Func([], [Declare(x, Literal(a)), Declare(x, Literal(b))], Variable(x))), []) == Some(Int(a))
  {
    var d, d' := Declare(x, Literal(a)), Declare(x, Literal(b));
    var f := Func([], [d, d'], Variable(x));
    assert f.body[..1] == [d] && [d][..0] == [];
    assert ActualStmts([d], map[]) == Some(map[x := Int(a)]);
    assert ActualStmts([d, d'], map[]) == Some(map[x := Int(a)]);
    LoweringActual(o, f, []);
  }
}
