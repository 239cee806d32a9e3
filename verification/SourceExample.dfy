/** A function with every kind of statement that the front end and both passes take, and of which no access to
    a variable is left. */
module SourceExample {
  import opened SysY
  import opened Ir
  import opened Liveness
  import opened Programs
  import opened Source

  // int f(int n, int a[]) {
  //   int s = 0;
  //   float x = 0.5;
  //   while (n && s || g(a)) {
  //     if (s) { s = n; continue; } else s = g(a) + -n;
  //     if (x) break;
  //   }
  //   g(a);
  //   return s;
  // }
  const N: Exp := Var(0)
  const CALL: Exp := Invoke(1, Exps(Var(1), NoExps))
  const S: Exp := Var(2)
  const X: Exp := Var(3)

  const COND: LOr :=
    LOrMore(LOrOne(LAndMore(LAndOne(Dynamic(N, false)), Dynamic(S, false))), LAndOne(Dynamic(CALL, false)))
  const JUMPS: Stmt := SysY.Block(Item(Assign(2, N), Item(Continue, Done)))
  const SUM: Stmt := Assign(2, Binary(10, CALL, Unary(11, N)))
  const FIRST: Stmt := If(LOrOne(LAndOne(Dynamic(S, false))), JUMPS, Some(SUM))
  const SECOND: Stmt := If(LOrOne(LAndOne(Dynamic(X, true))), Break, None)
  const REPEAT: Stmt := While(COND, SysY.Block(Item(FIRST, Item(SECOND, Done))))
  const REST: Items := Item(REPEAT, Item(Evaluate(CALL), Item(SysY.Return(Some(S)), Done)))
  const BODY: Stmt := SysY.Block(Item(Declare(2, Some(Num(0))), Item(Declare(3, Some(Decimal(0.5))), REST)))
  const FUNCTION := Definition(false, false, [IntParam, PointerParam], IntResult, 4, BODY)

  /** What is asked of a statement in a scope and of what it declares. */
  ghost predicate Fine(s: Stmt, sc: set<nat>, inLoop: bool, decl: set<nat>) {
    && WellScoped(s, sc, inLoop) && NumberedOnce(s) && Declared(s) == decl && Keeps(s, {1})
    && Initialised(s) && AllReached(s) && Typed(s)
  }

  ghost predicate ItemsFine(items: Items, sc: set<nat>, inLoop: bool, decl: set<nat>) {
    && ItemsScoped(items, sc, inLoop) && ItemsNumbered(items) && ItemsDeclared(items) == decl && ItemsKeep(items, {1})
    && ItemsInitialised(items) && ItemsAllReached(items) && ItemsTyped(items)
  }

  lemma NoItemsFine(sc: set<nat>, inLoop: bool)
    ensures ItemsFine(Done, sc, inLoop, {})
  {
  }

  lemma ItemFine(s: Stmt, rest: Items, sc: set<nat>, inLoop: bool, d1: set<nat>, d2: set<nat>)
    requires Fine(s, sc, inLoop, d1) && ItemsFine(rest, sc + Declares(s), inLoop, d2) && d1 !! d2
    ensures ItemsFine(Item(s, rest), sc, inLoop, d1 + d2)
  {
  }

  lemma BlockFine(items: Items, sc: set<nat>, inLoop: bool, decl: set<nat>)
    requires ItemsFine(items, sc, inLoop, decl)
    ensures Fine(SysY.Block(items), sc, inLoop, decl)
  {
  }

  lemma IfFine(c: LOr, t: Stmt, e: Option<Stmt>, sc: set<nat>, inLoop: bool)
    requires LOrInScope(c, sc) && CondTyped(c) && Fine(t, sc, inLoop, {}) && (e.Some? ==> Fine(e.value, sc, inLoop, {}))
    requires e.None? || Liveness.Reaches(e.value)
    ensures Fine(If(c, t, e), sc, inLoop, {})
  {
    hide LOrInScope, CondTyped;
  }

  lemma WhileFine(c: LOr, b: Stmt, sc: set<nat>)
    requires LOrInScope(c, sc) && CondTyped(c) && Fine(b, sc, true, {})
    ensures Fine(While(c, b), sc, false, {})
  {
    hide LOrInScope, CondTyped;
  }

  lemma ConditionsFine(sc: set<nat>)
    requires sc == {0, 1, 2, 3}
    ensures LOrInScope(COND, sc) && CondTyped(COND)
    ensures LOrInScope(FIRST.cond, sc) && CondTyped(FIRST.cond) && LOrInScope(SECOND.cond, sc) && CondTyped(SECOND.cond)
  {
    assert InScope(CALL, sc);
    assert LAndInScope(COND.left.land, sc) && LAndInScope(COND.land, sc);
    assert LAndTyped(COND.left.land) && LOrTyped(COND.left);
  }

  lemma SumFine(sc: set<nat>)
    requires sc == {0, 1, 2, 3}
    ensures Fine(SUM, sc, true, {})
  {
    assert InScope(Var(1), sc) && AllInScope(NoExps, sc);
    assert AllInScope(Exps(Var(1), NoExps), sc);
    assert InScope(CALL, sc) && InScope(Unary(11, N), sc);
  }

  lemma FirstFine(sc: set<nat>)
    requires sc == {0, 1, 2, 3}
    ensures Fine(FIRST, sc, true, {})
  {
    hide LOrInScope, CondTyped;
    ConditionsFine(sc);
    NoItemsFine(sc, true);
    assert Fine(Continue, sc, true, {}) && Fine(Assign(2, N), sc, true, {}) && sc + {} == sc;
    ItemFine(Continue, Done, sc, true, {}, {});
    ItemFine(Assign(2, N), Item(Continue, Done), sc, true, {}, {});
    BlockFine(JUMPS.items, sc, true, {});
    SumFine(sc);
    IfFine(FIRST.cond, JUMPS, Some(SUM), sc, true);
  }

  lemma LoopFine(sc: set<nat>)
    requires sc == {0, 1, 2, 3}
    ensures Fine(REPEAT, sc, false, {})
  {
    hide LOrInScope, CondTyped;
    ConditionsFine(sc);
    FirstFine(sc);
    NoItemsFine(sc, true);
    assert Fine(Break, sc, true, {}) && sc + {} == sc;
    IfFine(SECOND.cond, Break, None, sc, true);
    hide Fine;
    ItemFine(SECOND, Done, sc, true, {}, {});
    ItemFine(FIRST, Item(SECOND, Done), sc, true, {}, {});
    BlockFine(Item(FIRST, Item(SECOND, Done)), sc, true, {});
    WhileFine(COND, REPEAT.body, sc);
  }

  lemma RestFine(sc: set<nat>)
    requires sc == {0, 1, 2, 3}
    ensures ItemsFine(REST, sc, false, {})
  {
    LoopFine(sc);
    NoItemsFine(sc, false);
    var return0: Stmt := SysY.Return(Some(S));
    assert Fine(return0, sc, false, {}) && Fine(Evaluate(CALL), sc, false, {}) && sc + {} == sc;
    hide Fine;
    ItemFine(return0, Done, sc, false, {}, {});
    ItemFine(Evaluate(CALL), Item(return0, Done), sc, false, {}, {});
    ItemFine(REPEAT, Item(Evaluate(CALL), Item(return0, Done)), sc, false, {}, {});
  }

  lemma DeclareFine(x: nat, e: Exp, sc: set<nat>)
    requires InScope(e, sc) && x != 1
    ensures Fine(Declare(x, Some(e)), sc, false, {x}) && Declares(Declare(x, Some(e))) == {x}
  {
  }

  lemma BodyFine()
    ensures Fine(BODY, {0, 1}, false, {2, 3})
  {
    hide Fine, ItemsFine, Declares;
    var second, first := Declare(3, Some(Decimal(0.5))), Declare(2, Some(Num(0)));
    RestFine({0, 1, 2, 3});
    DeclareFine(3, Decimal(0.5), {0, 1, 2});
    DeclareFine(2, Num(0), {0, 1});
    assert {0, 1, 2} + {3} == {0, 1, 2, 3} && {0, 1} + {2} == {0, 1, 2} && {3} + {} == {3} && {2} + {3} == {2, 3};
    ItemFine(second, REST, {0, 1, 2}, false, {3}, {});
    ItemFine(first, Item(second, REST), {0, 1}, false, {2}, {3});
    BlockFine(BODY.items, {0, 1}, false, {2, 3});
  }

  lemma ParametersFine()
    ensures SysY.Below(2) == {0, 1} && Arrays([IntParam, PointerParam]) == {1}
  {
    assert SysY.Below(1) == {0};
  }

  /** All that `Compiler.Compile` asks of a definition or decides its success by. */
  lemma FunctionIsTaken()
    ensures Scoped(FUNCTION) && Initialised(BODY) && AllReached(BODY) && Typed(BODY) && NoDeadEdge(BODY)
  {
    hide WellScoped, NumberedOnce, Declared, Keeps, Initialised, AllReached, Typed, NoDeadEdge, SysY.Below, Arrays;
    BodyFine();
    ParametersFine();
    AllReachedIsLive(BODY);
  }
}
