/** Which source programs have a meaning: where every declaration gives its variable a value, no call reads a
    variable without one. */
module Definedness {
  import opened Ir
  import opened SysY
  import opened Programs
  import opened Source

  predicate IsClean(r: CallResult) {
    r.clean
  }

  /** No call reads a variable without a value. */
  ghost predicate CleanCalls(env: Env) {
    forall f: nat, vs: seq<Ir.Value>, h: Heap {:trigger env.call(f, vs, h)} :: IsClean(env.call(f, vs, h))
  }

  lemma {:induction false} ExpDefined(env: Env, e: Exp, sc: set<nat>, vars: Vars, h: Heap)
    requires CleanCalls(env) && InScope(e, sc) && sc <= vars.Keys
    ensures !EvalExp(env, e, vars, h).ExpUndefined?
    decreases e
  {
    match e
    case Num(_) =>
    case Decimal(_) =>
    case Var(_) =>
    case Unary(_, x) => ExpDefined(env, x, sc, vars, h);
    case Binary(_, l, r) =>
      ExpDefined(env, l, sc, vars, h);
      var a := EvalExp(env, l, vars, h);
      if a.Value? { ExpDefined(env, r, sc, vars, a.heap); }
    case Invoke(f, args) =>
      ExpsDefined(env, args, sc, vars, h);
      var vs := EvalExps(env, args, vars, h);
      if vs.Values? { assert IsClean(env.call(f, vs.vals, vs.heap)); }
  }

  lemma {:induction false} ExpsDefined(env: Env, es: Exps, sc: set<nat>, vars: Vars, h: Heap)
    requires CleanCalls(env) && AllInScope(es, sc) && sc <= vars.Keys
    ensures !EvalExps(env, es, vars, h).ExpsUndefined?
    decreases es
  {
    if es.Exps? {
      ExpDefined(env, es.head, sc, vars, h);
      var a := EvalExp(env, es.head, vars, h);
      if a.Value? { ExpsDefined(env, es.tail, sc, vars, a.heap); }
    }
  }

  lemma LeafDefined(env: Env, e: Leaf, sc: set<nat>, vars: Vars, h: Heap)
    requires CleanCalls(env) && LeafInScope(e, sc) && sc <= vars.Keys
    ensures !TruthOf(LeafType(e), EvalLeaf(env, e, vars, h)).CondUndefined?
  {
    if e.Dynamic? { ExpDefined(env, e.exp, sc, vars, h); }
  }

  lemma {:induction false} LAndDefined(env: Env, a: LAnd, sc: set<nat>, vars: Vars, h: Heap)
    requires CleanCalls(env) && LAndInScope(a, sc) && sc <= vars.Keys
    ensures !EvalLAnd(env, a, vars, h).CondUndefined?
  {
    match a
    case LAndOne(e) => LeafDefined(env, e, sc, vars, h);
    case LAndMore(l, e) =>
      LAndDefined(env, l, sc, vars, h);
      var r := EvalLAnd(env, l, vars, h);
      if r.Truth? { LeafDefined(env, e, sc, vars, r.heap); }
  }

  lemma {:induction false} LOrDefined(env: Env, c: LOr, sc: set<nat>, vars: Vars, h: Heap)
    requires CleanCalls(env) && LOrInScope(c, sc) && sc <= vars.Keys
    ensures !EvalLOr(env, c, vars, h).CondUndefined?
  {
    match c
    case LOrOne(a) => LAndDefined(env, a, sc, vars, h);
    case LOrMore(l, a) =>
      LOrDefined(env, l, sc, vars, h);
      var r := EvalLOr(env, l, vars, h);
      if r.Truth? { LAndDefined(env, a, sc, vars, r.heap); }
  }

  /** The variables that had a value still have one, those declared have one, and none without is read. */
  ghost predicate Defined(r: SysY.Result, vars: Vars, decl: set<nat>) {
    !r.flow.Undefined? && vars.Keys <= r.vars.Keys && (r.flow.Normal? ==> decl <= r.vars.Keys)
  }

  lemma {:induction false} StmtDefined(env: Env, s: Stmt, sc: set<nat>, inLoop: bool, fuel: nat, vars: Vars, h: Heap)
    requires CleanCalls(env) && WellScoped(s, sc, inLoop) && Initialised(s) && sc <= vars.Keys
    ensures Defined(Interp(env, s, fuel, vars, h), vars, Declares(s))
    decreases fuel, s
  {
    hide CleanCalls;
    match s
    case Evaluate(e) => ExpDefined(env, e, sc, vars, h);
    case Declare(_, init) => ExpDefined(env, init.value, sc, vars, h);
    case Assign(_, e) => ExpDefined(env, e, sc, vars, h);
    case Block(items) => ItemsDefined(env, items, sc, inLoop, fuel, vars, h);
    case If(c, t, e) =>
      LOrDefined(env, c, sc, vars, h);
      var r := EvalLOr(env, c, vars, h);
      if r.Truth? {
        StmtDefined(env, t, sc, inLoop, fuel, vars, r.heap);
        if e.Some? { StmtDefined(env, e.value, sc, inLoop, fuel, vars, r.heap); }
      }
    case While(c, b) =>
      if fuel > 0 {
        LOrDefined(env, c, sc, vars, h);
        var r := EvalLOr(env, c, vars, h);
        if r.Truth? {
          StmtDefined(env, b, sc, true, fuel, vars, r.heap);
          var x := Interp(env, b, fuel, vars, r.heap);
          StmtDefined(env, s, sc, inLoop, fuel - 1, x.vars, x.heap);
        }
      }
    case Return(e) => if e.Some? { ExpDefined(env, e.value, sc, vars, h); }
    case Break =>
    case Continue =>
  }

  lemma {:induction false} ItemsDefined(env: Env, items: Items, sc: set<nat>, inLoop: bool, fuel: nat, vars: Vars,
      h: Heap)
    requires CleanCalls(env) && ItemsScoped(items, sc, inLoop) && ItemsInitialised(items) && sc <= vars.Keys
    ensures Defined(InterpItems(env, items, fuel, vars, h), vars, {})
    decreases fuel, items
  {
    hide CleanCalls;
    if items.Item? {
      StmtDefined(env, items.head, sc, inLoop, fuel, vars, h);
      var r := Interp(env, items.head, fuel, vars, h);
      if r.flow.Normal? {
        ItemsDefined(env, items.tail, sc + Declares(items.head), inLoop, fuel, r.vars, r.heap);
      }
    }
  }

  ghost predicate AllInitialised(S: Module) {
    forall f :: 0 <= f < |S| && !S[f].declared ==> Scoped(S[f]) && Initialised(S[f].body)
  }

  /** In such programs a call that does not return has failed or not come to an end; reading a variable without
      a value is never the reason. */
  lemma {:induction false} CallsAreClean(S: Module, w: World, k: nat, depth: nat, f: nat, args: seq<Ir.Value>, h: Heap)
    requires AllInitialised(S)
    ensures CallSource(S, w, k, depth, f, args, h).clean
    decreases k
  {
    if f < |S| && !S[f].declared && k > 0 {
      var env := Env(w, SourceCalls(S, w, k - 1, depth));
      forall g: nat, vs: seq<Ir.Value>, m: Heap
        ensures IsClean(env.call(g, vs, m))
      {
        CallsAreClean(S, w, k - 1, depth + 1, g, vs, m);
      }
      var n := |S[f].params|;
      assert SysY.Below(n) <= Params(args, n).Keys;
      hide Initialised, WellScoped, Interp, CallSource;
      StmtDefined(env, S[f].body, SysY.Below(n), false, k, Params(args, n), Surviving(h, depth));
    }
  }
}
