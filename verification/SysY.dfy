/** The statements of SysY and their meaning. Variables are numbered, one number for each declaration;
    what operators and functions do is left open. */
module SysY {
  import opened Ir

  datatype Exp =
    | Num(n: int)
    | Decimal(d: real)
    | Var(x: nat)
    | Unary(code: nat, arg: Exp)
    | Binary(code: nat, left: Exp, right: Exp)
    | Invoke(f: nat, args: Exps)

  datatype Exps = NoExps | Exps(head: Exp, tail: Exps)

  /** A leaf of a condition: an expression evaluated at run time, or a comparison that was folded to
      a constant of type i1. */
  datatype Leaf = Dynamic(exp: Exp, float: bool) | Folded(b: bool)

  datatype LAnd = LAndOne(exp: Leaf) | LAndMore(left: LAnd, exp: Leaf)

  datatype LOr = LOrOne(land: LAnd) | LOrMore(left: LOr, land: LAnd)

  datatype Stmt =
    | Evaluate(exp: Exp)
    | Declare(x: nat, init: Option<Exp>)
    | Assign(x: nat, exp: Exp)
    | Block(items: Items)
    | If(cond: LOr, thenStmt: Stmt, elseStmt: Option<Stmt>)
    | While(cond: LOr, body: Stmt)
    | Return(result: Option<Exp>)
    | Break
    | Continue

  datatype Items = Done | Item(head: Stmt, tail: Items)

  // ----- Scopes -----

  predicate InScope(e: Exp, sc: set<nat>) {
    match e
    case Num(_) => true
    case Decimal(_) => true
    case Var(x) => x in sc
    case Unary(_, e) => InScope(e, sc)
    case Binary(_, l, r) => InScope(l, sc) && InScope(r, sc)
    case Invoke(_, args) => AllInScope(args, sc)
  }

  predicate AllInScope(es: Exps, sc: set<nat>) {
    match es
    case NoExps => true
    case Exps(e, rest) => InScope(e, sc) && AllInScope(rest, sc)
  }

  predicate LeafInScope(e: Leaf, sc: set<nat>) {
    e.Dynamic? ==> InScope(e.exp, sc)
  }

  predicate LAndInScope(a: LAnd, sc: set<nat>) {
    LeafInScope(a.exp, sc) && (a.LAndMore? ==> LAndInScope(a.left, sc))
  }

  predicate LOrInScope(c: LOr, sc: set<nat>) {
    LAndInScope(c.land, sc) && (c.LOrMore? ==> LOrInScope(c.left, sc))
  }

  /** What the statement adds to the scope of those behind it. */
  function Declares(s: Stmt): set<nat> {
    if s.Declare? then {s.x} else {}
  }

  /** Variables are used in the scope of their declaration; break and continue occur inside loops only. */
  predicate WellScoped(s: Stmt, sc: set<nat>, inLoop: bool) {
    match s
    case Evaluate(e) => InScope(e, sc)
    case Declare(x, init) => init.Some? ==> InScope(init.value, sc)
    case Assign(x, e) => x in sc && InScope(e, sc)
    case Block(items) => ItemsScoped(items, sc, inLoop)
    case If(c, t, e) =>
      LOrInScope(c, sc) && WellScoped(t, sc, inLoop) && (e.Some? ==> WellScoped(e.value, sc, inLoop))
    case While(c, b) => LOrInScope(c, sc) && WellScoped(b, sc, true)
    case Return(e) => e.Some? ==> InScope(e.value, sc)
    case Break => inLoop
    case Continue => inLoop
  }

  predicate ItemsScoped(items: Items, sc: set<nat>, inLoop: bool) {
    match items
    case Done => true
    case Item(s, rest) => WellScoped(s, sc, inLoop) && ItemsScoped(rest, sc + Declares(s), inLoop)
  }

  /** The variables that the statement declares. */
  function Declared(s: Stmt): set<nat> {
    match s
    case Declare(x, _) => {x}
    case Block(items) => ItemsDeclared(items)
    case If(_, t, e) => Declared(t) + (if e.Some? then Declared(e.value) else {})
    case While(_, b) => Declared(b)
    case _ => {}
  }

  function ItemsDeclared(items: Items): set<nat> {
    match items
    case Done => {}
    case Item(s, rest) => Declared(s) + ItemsDeclared(rest)
  }

  /** No number is given to two declarations. */
  predicate NumberedOnce(s: Stmt) {
    match s
    case Block(items) => ItemsNumbered(items)
    case If(_, t, e) => NumberedOnce(t) && (e.Some? ==> NumberedOnce(e.value) && Declared(t) !! Declared(e.value))
    case While(_, b) => NumberedOnce(b)
    case _ => true
  }

  predicate ItemsNumbered(items: Items) {
    match items
    case Done => true
    case Item(s, rest) => NumberedOnce(s) && ItemsNumbered(rest) && Declared(s) !! ItemsDeclared(rest)
  }

  /** Every declaration gives its variable a value. */
  predicate Initialised(s: Stmt) {
    match s
    case Declare(_, init) => init.Some?
    case Block(items) => ItemsInitialised(items)
    case If(_, t, e) => Initialised(t) && (e.Some? ==> Initialised(e.value))
    case While(_, b) => Initialised(b)
    case _ => true
  }

  predicate ItemsInitialised(items: Items) {
    match items
    case Done => true
    case Item(s, rest) => Initialised(s) && ItemsInitialised(rest)
  }

  /** None of the variables is assigned to or declared. */
  predicate Keeps(s: Stmt, xs: set<nat>) {
    match s
    case Declare(x, _) => x !in xs
    case Assign(x, _) => x !in xs
    case Block(items) => ItemsKeep(items, xs)
    case If(_, t, e) => Keeps(t, xs) && (e.Some? ==> Keeps(e.value, xs))
    case While(_, b) => Keeps(b, xs)
    case _ => true
  }

  predicate ItemsKeep(items: Items, xs: set<nat>) {
    match items
    case Done => true
    case Item(s, rest) => Keeps(s, xs) && ItemsKeep(rest, xs)
  }

  /** The parameters of a function with n of them. */
  function Below(n: nat): (r: set<nat>)
    ensures forall x: nat :: x in r <==> x < n
  {
    if n == 0 then {} else Below(n - 1) + {n - 1}
  }

  // ----- Expressions -----

  /** What operators and functions do. */
  datatype Env = Env(world: World, call: (nat, seq<Ir.Value>, Heap) -> CallResult)

  function EnvOf(fr: Frame): Env {
    Env(fr.world, fr.call)
  }

  /** The values of the variables that have one. */
  type Vars = map<nat, Ir.Value>

  /** A variable without a value must not be read; nor must a function do so that is called. */
  datatype ExpResult = Value(val: Ir.Value, heap: Heap) | ExpFailed(heap: Heap) | ExpUndefined

  datatype ExpsResult = Values(vals: seq<Ir.Value>, heap: Heap) | ExpsFailed(heap: Heap) | ExpsUndefined

  /** Operands and arguments are evaluated from left to right. */
  function EvalExp(env: Env, e: Exp, vars: Vars, h: Heap): ExpResult {
    match e
    case Num(n) => Value(Int(n), h)
    case Decimal(x) => Value(FloatVal(x), h)
    case Var(x) => if x in vars then Value(vars[x], h) else ExpUndefined
    case Unary(code, e) =>
      (match EvalExp(env, e, vars, h)
       case Value(a, h1) => OpResult(env, code, [a], h1)
       case x => x)
    case Binary(code, l, r) =>
      (match EvalExp(env, l, vars, h)
       case Value(a, h1) =>
         (match EvalExp(env, r, vars, h1)
          case Value(b, h2) => OpResult(env, code, [a, b], h2)
          case x => x)
       case x => x)
    case Invoke(f, args) =>
      (match EvalExps(env, args, vars, h)
       case Values(vs, h1) => CallResultOf(env.call(f, vs, h1), h1)
       case ExpsFailed(h1) => ExpFailed(h1)
       case ExpsUndefined => ExpUndefined)
  }

  function OpResult(env: Env, code: nat, vs: seq<Ir.Value>, h: Heap): ExpResult {
    match env.world.op(code, vs)
    case None => ExpFailed(h)
    case Some(v) => Value(v, h)
  }

  function CallResultOf(r: CallResult, h: Heap): ExpResult {
    match r
    case Returned(v, h', clean) => if clean then Value(v, h') else ExpUndefined
    case Failed(clean) => if clean then ExpFailed(h) else ExpUndefined
  }

  function EvalExps(env: Env, es: Exps, vars: Vars, h: Heap): ExpsResult {
    match es
    case NoExps => Values([], h)
    case Exps(e, rest) =>
      match EvalExp(env, e, vars, h)
      case ExpFailed(h1) => ExpsFailed(h1)
      case ExpUndefined => ExpsUndefined
      case Value(v, h1) =>
        match EvalExps(env, rest, vars, h1)
        case Values(vs, h2) => Values([v] + vs, h2)
        case x => x
  }

  // ----- Conditions -----

  datatype CondResult = Truth(b: bool, heap: Heap) | CondFailed(heap: Heap) | CondUndefined

  function EvalLeaf(env: Env, e: Leaf, vars: Vars, h: Heap): ExpResult {
    match e
    case Folded(b) => Value(BitVal(b), h)
    case Dynamic(exp, _) => EvalExp(env, exp, vars, h)
  }

  /** A value is true if it is not the zero of its type; a value of another type has no truth. */
  function TruthOf(ty: Type, r: ExpResult): CondResult {
    match r
    case Value(v, h) =>
      if ty.I32? && v.Int? then Truth(v.n != 0, h)
      else if ty.Float? && v.FloatVal? then Truth(v.x != 0.0, h)
      else if ty.I1? && v.BitVal? then Truth(v.b, h)
      else CondFailed(h)
    case ExpFailed(h) => CondFailed(h)
    case ExpUndefined => CondUndefined
  }

  /** An int is true if it is not 0, a float if it is not 0.0, and a folded comparison is what it was
      folded to. */
  lemma LeafTruth(env: Env, exp: Exp, vars: Vars, h: Heap, n: int, x: real, b: bool, h': Heap)
    ensures EvalExp(env, exp, vars, h) == Value(Int(n), h') ==>
              TruthOf(LeafType(Dynamic(exp, false)), EvalLeaf(env, Dynamic(exp, false), vars, h)) == Truth(n != 0, h')
    ensures EvalExp(env, exp, vars, h) == Value(FloatVal(x), h') ==>
              TruthOf(LeafType(Dynamic(exp, true)), EvalLeaf(env, Dynamic(exp, true), vars, h)) == Truth(x != 0.0, h')
    ensures TruthOf(LeafType(Folded(b)), EvalLeaf(env, Folded(b), vars, h)) == Truth(b, h)
  {
  }

  /** Left to right; the right operand is evaluated only if the left one is true. */
  function EvalLAnd(env: Env, a: LAnd, vars: Vars, h: Heap): CondResult {
    match a
    case LAndOne(e) => TruthOf(LeafType(e), EvalLeaf(env, e, vars, h))
    case LAndMore(l, e) =>
      match EvalLAnd(env, l, vars, h)
      case Truth(true, h') => TruthOf(LeafType(e), EvalLeaf(env, e, vars, h'))
      case r => r
  }

  function EvalLOr(env: Env, c: LOr, vars: Vars, h: Heap): CondResult {
    match c
    case LOrOne(a) => EvalLAnd(env, a, vars, h)
    case LOrMore(l, a) =>
      match EvalLOr(env, l, vars, h)
      case Truth(false, h') => EvalLAnd(env, a, vars, h')
      case r => r
  }

  // ----- Statements -----

  /** How a statement ends. */
  datatype Flow = Normal | Broke | Continued | Gone(val: Ir.Value) | Trapped | Undefined | NoFuel

  datatype Result = Result(flow: Flow, vars: Vars, heap: Heap)

  /** What becomes of an expression's value, or of the statement if there is none. */
  function SetVar(r: ExpResult, x: nat, vars: Vars, h: Heap): Result {
    match r
    case Value(v, h') => Result(Normal, vars[x := v], h')
    case ExpFailed(h') => Result(Trapped, vars, h')
    case ExpUndefined => Result(Undefined, vars, h)
  }

  /** `fuel` bounds the number of iterations of each loop. */
  function Interp(env: Env, s: Stmt, fuel: nat, vars: Vars, h: Heap): Result
    decreases fuel, s
  {
    match s
    case Evaluate(e) =>
      (match EvalExp(env, e, vars, h)
       case Value(_, h') => Result(Normal, vars, h')
       case ExpFailed(h') => Result(Trapped, vars, h')
       case ExpUndefined => Result(Undefined, vars, h))
    case Declare(x, None) => Result(Normal, vars - {x}, h)
    case Declare(x, Some(e)) => SetVar(EvalExp(env, e, vars, h), x, vars, h)
    case Assign(x, e) => SetVar(EvalExp(env, e, vars, h), x, vars, h)
    case Block(items) => InterpItems(env, items, fuel, vars, h)
    case If(c, t, e) =>
      (match EvalLOr(env, c, vars, h)
       case CondFailed(h') => Result(Trapped, vars, h')
       case CondUndefined => Result(Undefined, vars, h)
       case Truth(true, h') => Interp(env, t, fuel, vars, h')
       case Truth(false, h') => if e.Some? then Interp(env, e.value, fuel, vars, h') else Result(Normal, vars, h'))
    case While(c, b) =>
      if fuel == 0 then Result(NoFuel, vars, h)
      else
        (match EvalLOr(env, c, vars, h)
         case CondFailed(h') => Result(Trapped, vars, h')
         case CondUndefined => Result(Undefined, vars, h)
         case Truth(false, h') => Result(Normal, vars, h')
         case Truth(true, h') =>
           var r := Interp(env, b, fuel, vars, h');
           if r.flow.Normal? || r.flow.Continued? then Interp(env, s, fuel - 1, r.vars, r.heap)
           else if r.flow.Broke? then Result(Normal, r.vars, r.heap)
           else r)
    case Return(None) => Result(Gone(Undef), vars, h)
    case Return(Some(e)) =>
      (match EvalExp(env, e, vars, h)
       case Value(v, h') => Result(Gone(v), vars, h')
       case ExpFailed(h') => Result(Trapped, vars, h')
       case ExpUndefined => Result(Undefined, vars, h))
    case Break => Result(Broke, vars, h)
    case Continue => Result(Continued, vars, h)
  }

  function InterpItems(env: Env, items: Items, fuel: nat, vars: Vars, h: Heap): Result
    decreases fuel, items
  {
    match items
    case Done => Result(Normal, vars, h)
    case Item(s, rest) =>
      var r := Interp(env, s, fuel, vars, h);
      if r.flow.Normal? then InterpItems(env, rest, fuel, r.vars, r.heap) else r
  }

  // ----- Functions -----

  /** The variables of the parameters have the values of the arguments. */
  function Params(args: seq<Ir.Value>, n: nat): Vars {
    map i: nat | i < n :: if i < |args| then args[i] else Undef
  }

  /** The body of a function with n parameters. */
  function InterpBody(env: Env, args: seq<Ir.Value>, n: nat, body: Stmt, fuel: nat, h: Heap): Result {
    Interp(env, body, fuel, Params(args, n), h)
  }

  /** The value that a return added at the end of a function returns. */
  function Default(last: Terminator): Ir.Value {
    match last
    case Ret(Imm(n)) => Int(n)
    case Ret(FloatImm(x)) => FloatVal(x)
    case _ => Undef
  }

  // ----- Types of conditions -----

  datatype Type = I1 | I32 | Float

  function LeafType(e: Leaf): Type {
    match e
    case Dynamic(_, f) => if f then Float else I32
    case Folded(_) => I1
  }

  /** The type of the value a condition leaves: a constant of type i1 is extended to i32 only where
      it stands alone. */
  function LAndType(a: LAnd): Type {
    match a
    case LAndOne(e) => if LeafType(e).I1? then I32 else LeafType(e)
    case LAndMore(_, e) => LeafType(e)
  }

  function LOrType(c: LOr): Type {
    match c
    case LOrOne(a) => if LAndType(a).I1? then I32 else LAndType(a)
    case LOrMore(_, a) => LAndType(a)
  }

  /** No operand of type i1 is compared with an i32 zero. */
  predicate LAndTyped(a: LAnd) {
    match a
    case LAndOne(_) => true
    case LAndMore(l, _) => LAndTyped(l) && !LAndType(l).I1?
  }

  predicate LOrTyped(c: LOr) {
    match c
    case LOrOne(a) => LAndTyped(a)
    case LOrMore(l, a) => LOrTyped(l) && !LOrType(l).I1? && LAndTyped(a)
  }

  predicate CondTyped(c: LOr) {
    LOrTyped(c) && !LOrType(c).I1?
  }

  /** Every condition that the builder comes to is well typed. */
  predicate Typed(s: Stmt) {
    match s
    case Block(items) => ItemsTyped(items)
    case If(c, t, e) => CondTyped(c) && Typed(t) && (e.Some? ==> Typed(e.value))
    case While(c, b) => CondTyped(c) && Typed(b)
    case _ => true
  }

  /** The statement ends in a jump, so the builder skips what follows it in the block. */
  predicate Closes(s: Stmt) {
    match s
    case Block(items) => ItemsClose(items)
    case Return(_) => true
    case Break => true
    case Continue => true
    case _ => false
  }

  predicate ItemsClose(items: Items) {
    match items
    case Done => false
    case Item(s, rest) => Closes(s) || ItemsClose(rest)
  }

  predicate ItemsTyped(items: Items) {
    match items
    case Done => true
    case Item(s, rest) => Typed(s) && (Closes(s) || ItemsTyped(rest))
  }
}
