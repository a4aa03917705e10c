/** The lowering as it runs: a scoped symbol table, a growing list of instructions, and recursion over the
    syntax tree. Each method is tied to the function that specifies it. */
module Translator {
  import opened Lowering

  /** What a lookup sees: inner scopes hide outer ones. */
  function Visible(scopes: seq<Table>): Table
  {
    if scopes == [] then map[] else Visible(scopes[..|scopes| - 1]) + scopes[|scopes| - 1]
  }

  lemma {:induction false} VisibleTop(scopes: seq<Table>, top: Table)
    ensures Visible(scopes + [top]) == Visible(scopes) + top
  {
    assert (scopes + [top])[..|scopes|] == scopes;
  }

  /** Writes to the innermost scope. */
  function InTop(scopes: seq<Table>, name: string, id: nat): seq<Table>
    requires scopes != []
  {
    var top: Table := scopes[|scopes| - 1][name := id];
    scopes[..|scopes| - 1] + [top]
  }

  lemma {:induction false} InsertedTop(scopes: seq<Table>, name: string, id: nat)
    requires scopes != []
    ensures Visible(InTop(scopes, name, id)) == Visible(scopes)[name := id]
    ensures |InTop(scopes, name, id)| == |scopes| && InTop(scopes, name, id)[..|scopes| - 1] == scopes[..|scopes| - 1]
  {
    VisibleTop(scopes[..|scopes| - 1], scopes[|scopes| - 1][name := id]);
  }

  lemma {:induction false} RebindNext(tab: Table, names: seq<string>, from: nat, i: nat)
    requires i < |names|
    ensures Rebind(tab, names[..i + 1], Ids(from, i + 1)) == Rebind(tab, names[..i], Ids(from, i))[names[i] := from + i]
  {
    assert names[..i + 1][..i] == names[..i];
    assert Ids(from, i + 1)[..i] == Ids(from, i);
  }

  class Builder {
    var scopes: seq<Table>
    var code: seq<Instr>
    var next: nat
    const order: Order

    constructor (o: Order, params: seq<string>)
      ensures scopes == [ParamTable(params)] && code == [] && next == |params| && order == o
    {
      var tab: Table := map[];
      var i := 0;
      while i < |params|
        invariant 0 <= i <= |params| && tab == ParamTable(params[..i])
      {
        assert params[..i + 1][..i] == params[..i];
        if params[i] !in tab { tab := tab[params[i] := i]; }
        i := i + 1;
      }
      assert params[..|params|] == params;
      scopes, code, next, order := [tab], [], |params|, o;
    }

    /** Searches the scopes from the innermost outwards. */
    method Lookup(name: string) returns (found: bool, id: nat)
      ensures found == (name in Visible(scopes)) && (found ==> id == Visible(scopes)[name])
    {
      found, id := false, 0;
      var i := |scopes|;
      assert scopes[..i] == scopes;
      while i > 0
        invariant 0 <= i <= |scopes|
        invariant name in Visible(scopes) <==> name in Visible(scopes[..i])
        invariant name in Visible(scopes) ==> Visible(scopes)[name] == Visible(scopes[..i])[name]
      {
        assert scopes[..i][..i - 1] == scopes[..i - 1];
        if name in scopes[i - 1] {
          found, id := true, scopes[i - 1][name];
          return;
        }
        i := i - 1;
      }
    }

    method Insert(name: string, id: nat)
      requires scopes != []
      modifies this`scopes
      ensures |scopes| == |old(scopes)| && scopes[..|scopes| - 1] == old(scopes)[..|scopes| - 1]
      ensures Visible(scopes) == Visible(old(scopes))[name := id]
    {
      InsertedTop(scopes, name, id);
      scopes := InTop(scopes, name, id);
    }

    /** Fails, and changes nothing, if the name is visible already. */
    method DeclareName(name: string, id: nat) returns (ok: bool)
      requires scopes != []
      modifies this`scopes
      ensures ok == (name !in Visible(old(scopes)))
      ensures |scopes| == |old(scopes)| && scopes[..|scopes| - 1] == old(scopes)[..|scopes| - 1]
      ensures Visible(scopes) == DeclareIn(Visible(old(scopes)), name, id)
    {
      var found, _ := Lookup(name);
      ok := !found;
      if ok { Insert(name, id); }
    }

    method Emit(r: Rhs) returns (id: nat)
      modifies this`code, this`next
      ensures id == old(next) && next == old(next) + 1 && code == old(code) + [Let(id, r)]
    {
      id := next;
      code, next := code + [Let(id, r)], next + 1;
    }

    method Variable(name: string) returns (id: nat)
      modifies this`code, this`next
      ensures var r := LowerVariable(Visible(scopes), old(next), name);
        code == old(code) + r.code && id == r.id && next == r.next
    {
      var found: bool;
      found, id := Lookup(name);
      if !found { id := Emit(Constant(Int(1))); }
    }

    method Expression(e: Expr) returns (id: nat)
      modifies this`code, this`next
      ensures var r := LowerExpr(Visible(scopes), old(next), e);
        code == old(code) + r.code && id == r.id && next == r.next
      decreases e, 1
    {
      match e
      case Literal(n) => id := Emit(Constant(Int(n)));
      case LiteralTensor(s) => id := Emit(Constant(Vec(s)));
      case Variable(x) => id := Variable(x);
      case Binary(_, _, _) => id := Operation(e);
      case IndexAccess(_, _) => id := Element(e);
    }

    method Operation(e: Expr) returns (id: nat)
      requires e.Binary?
      modifies this`code, this`next
      ensures var r := LowerExpr(Visible(scopes), old(next), e);
        code == old(code) + r.code && id == r.id && next == r.next
      decreases e, 0
    {
      var a := Expression(e.left);
      var b := Expression(e.right);
      id := Emit(Arith(e.op, a, b));
    }

    method Element(e: Expr) returns (id: nat)
      requires e.IndexAccess?
      modifies this`code, this`next
      ensures var r := LowerExpr(Visible(scopes), old(next), e);
        code == old(code) + r.code && id == r.id && next == r.next
      decreases e, 0
    {
      var t := Variable(e.target);
      var k := Expression(e.index);
      id := Emit(Extract(t, k));
    }

    method Statements(ss: seq<Stmt>)
      requires scopes != []
      modifies this
      ensures |scopes| == |old(scopes)| && scopes[..|scopes| - 1] == old(scopes)[..|scopes| - 1]
      ensures var r := LowerStmts(order, Visible(old(scopes)), old(next), ss);
        code == old(code) + r.code && Visible(scopes) == r.tab && next == r.next
      decreases ss, 0
    {
      var i := 0;
      ghost var tab, start := Visible(scopes), next;
      while i < |ss|
        invariant 0 <= i <= |ss|
        invariant |scopes| == |old(scopes)| && scopes[..|scopes| - 1] == old(scopes)[..|scopes| - 1]
        invariant var r := LowerStmts(order, tab, start, ss[..i]);
          code == old(code) + r.code && Visible(scopes) == r.tab && next == r.next
      {
        assert ss[..i + 1][..i] == ss[..i];
        Statement(ss[i]);
        i := i + 1;
      }
      assert ss[..|ss|] == ss;
    }

    /** What every statement guarantees about the scopes around it. */
    method Statement(s: Stmt)
      requires scopes != []
      modifies this
      ensures |scopes| == |old(scopes)| && scopes[..|scopes| - 1] == old(scopes)[..|scopes| - 1]
      ensures var r := LowerStmt(order, Visible(old(scopes)), old(next), s);
        code == old(code) + r.code && Visible(scopes) == r.tab && next == r.next
      decreases s, 3
    {
      match s
      case Declare(x, e) =>
        var id := Expression(e);
        var _ := DeclareName(x, id);
      case Assign(x, e) =>
        var id := Expression(e);
        Insert(x, id);
      case AssignAt(x, i, e) => WriteElement(s);
      case SimpleFor(iv, lo, hi, body) => Loop(s);
    }

    method WriteElement(s: Stmt)
      requires scopes != [] && s.AssignAt?
      modifies this
      ensures |scopes| == |old(scopes)| && scopes[..|scopes| - 1] == old(scopes)[..|scopes| - 1]
      ensures var r := LowerStmt(order, Visible(old(scopes)), old(next), s);
        code == old(code) + r.code && Visible(scopes) == r.tab && next == r.next
    {
      var v := Expression(s.value);
      var k := Expression(s.index);
      StoreElement(s.target, v, k);
    }

    method StoreElement(x: string, v: nat, k: nat)
      requires scopes != []
      modifies this
      ensures |scopes| == |old(scopes)| && scopes[..|scopes| - 1] == old(scopes)[..|scopes| - 1]
      ensures var tab := Visible(old(scopes)); var id := old(next);
        && code == old(code) + [Let(id, Rhs.Insert(v, if x in tab then tab[x] else 0, k))]
        && Visible(scopes) == tab[x := id] && next == id + 1
    {
      var found, t := Lookup(x);
      var id := Emit(Rhs.Insert(v, if found then t else 0, k));
      Insert(x, id);
    }

    /** The values the names stand for now. */
    method Current(names: seq<string>) returns (ids: seq<nat>)
      ensures ids == Lookups(Visible(scopes), names)
    {
      ids := [];
      var i := 0;
      while i < |names|
        invariant 0 <= i <= |names| && ids == Lookups(Visible(scopes), names[..i])
      {
        var found, id := Lookup(names[i]);
        ids := ids + [if found then id else 0];
        i := i + 1;
      }
      assert names[..|names|] == names;
    }

    /** Lets the names stand for from, from + 1, ... */
    method InsertAll(names: seq<string>, from: nat)
      requires scopes != []
      modifies this`scopes
      ensures |scopes| == |old(scopes)| && scopes[..|scopes| - 1] == old(scopes)[..|scopes| - 1]
      ensures Visible(scopes) == Rebind(Visible(old(scopes)), names, Ids(from, |names|))
    {
      var i := 0;
      ghost var tab := Visible(scopes);
      while i < |names|
        invariant 0 <= i <= |names|
        invariant |scopes| == |old(scopes)| && scopes[..|scopes| - 1] == old(scopes)[..|scopes| - 1]
        invariant Visible(scopes) == Rebind(tab, names[..i], Ids(from, i))
      {
        RebindNext(tab, names, from, i);
        Insert(names[i], from + i);
        i := i + 1;
      }
      assert names[..|names|] == names;
    }

    /** Opens the scope of a loop: its copies of the names, and the induction variable. */
    method Enter(names: seq<string>, iv: string, first: nat)
      modifies this`scopes
      ensures |scopes| == |old(scopes)| + 1
      ensures Visible(scopes) == LoopTable(Visible(old(scopes)), names, iv, first)
    {
      VisibleTop(scopes, map[]);
      ghost var tab := Visible(scopes);
      scopes := scopes + [map[]];
      assert Visible(scopes) == tab;
      InsertAll(names, first + 1);
      var _ := DeclareName(iv, first);
    }

    /** Translates a loop body in a scope of its own, which is gone afterwards. */
    method Body(names: seq<string>, iv: string, ss: seq<Stmt>) returns (body: seq<Instr>, outs: seq<nat>)
      requires scopes != []
      modifies this
      ensures scopes == old(scopes) && code == old(code)
      ensures var inner := LowerStmts(order, LoopTable(Visible(scopes), names, iv, old(next)), old(next) + 1 + |names|, ss);
        body == inner.code && outs == Lookups(inner.tab, names) && next == inner.next
      decreases ss, 2
    {
      var outerScopes, outerCode := scopes, code;
      Enter(names, iv, next);
      next := next + 1 + |names|;
      body, outs := Inside(names, ss);
      scopes, code := outerScopes, outerCode;
    }

    /** The code of the statements alone, and what the names stand for after them. */
    method Inside(names: seq<string>, ss: seq<Stmt>) returns (body: seq<Instr>, outs: seq<nat>)
      requires scopes != []
      modifies this
      ensures var inner := LowerStmts(order, Visible(old(scopes)), old(next), ss);
        body == inner.code && outs == Lookups(inner.tab, names) && next == inner.next
      decreases ss, 1
    {
      code := [];
      Statements(ss);
      outs := Current(names);
      body := code;
    }

    /** A loop gets every visible variable as an argument and gives every one back. */
    method Loop(s: Stmt)
      requires scopes != [] && s.SimpleFor?
      modifies this
      ensures |scopes| == |old(scopes)| && scopes[..|scopes| - 1] == old(scopes)[..|scopes| - 1]
      ensures var r := LowerStmt(order, Visible(old(scopes)), old(next), s);
        code == old(code) + r.code && Visible(scopes) == r.tab && next == r.next
      decreases s, 2
    {
      var first := next;
      var names := order(next, Visible(scopes).Keys);
      var inits := Current(names);
      var body, outs := Body(names, s.iv, s.body);
      Close(s, first, names, inits, body, outs);
    }

    /** The loop itself; its results are what the names stand for behind it. */
    method Close(s: Stmt, first: nat, names: seq<string>, inits: seq<nat>, body: seq<Instr>, outs: seq<nat>)
      requires scopes != [] && s.SimpleFor?
      modifies this
      ensures |scopes| == |old(scopes)| && scopes[..|scopes| - 1] == old(scopes)[..|scopes| - 1]
      ensures var results := Ids(old(next), |names|);
        && code == old(code) + [For(s.lo, s.hi, inits, first, Ids(first + 1, |names|), body, outs, results)]
        && Visible(scopes) == Rebind(Visible(old(scopes)), names, results) && next == old(next) + |names|
    {
      InsertAll(names, next);
      code := code + [For(s.lo, s.hi, inits, first, Ids(first + 1, |names|), body, outs, Ids(next, |names|))];
      next := next + |names|;
    }
  }

  /** A whole function. */
  method Translate(o: Order, f: Func) returns (g: SsaFunc)
    ensures g == Lower(o, f)
  {
    var b := new Builder(o, f.params);
    assert Visible(b.scopes) == ParamTable(f.params) by { assert b.scopes[..0] == []; }
    b.Statements(f.body);
    var id := b.Expression(f.result);
    g := SsaFunc(|f.params|, b.code, id);
  }
}
