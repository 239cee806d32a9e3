/** The lowered graph does what the statement means: same effects in the same order, same result. */
module LoweringMeaning {
  import opened ControlFlow
  import opened Ir
  import opened SysY
  import opened Lowering

  // ----- Running a graph from any point -----

  datatype Ending = Delivers(val: Ir.Value, heap: Heap, clean: bool) | Traps(heap: Heap) | Running

  /** At most `fuel` blocks, counting the one the run starts in. */
  function RunAt(fr: Frame, g: Cfg, fuel: nat, p: Point, st: State): Ending
    decreases fuel
  {
    if fuel == 0 || p.b >= |g| || p.i > |g[p.b].body| || g[p.b].term.None? then Running
    else
      match ExecBody(fr, g[p.b].body[p.i..], st)
      case Trap(s) => Traps(s.heap)
      case Ok(s) =>
        match Ir.Branch(fr, s.env, g[p.b].term.value)
        case NoBranch => Traps(s.heap)
        case Return(v) => Delivers(v, s.heap, s.clean)
        case Goto(c) => RunAt(fr, g, fuel - 1, At(c, 0), s)
  }

  /** From p the run gets to q through k branches. */
  ghost predicate Steps(fr: Frame, g: Cfg, p: Point, st: State, k: nat, q: Point, st': State) {
    forall fuel: nat {:trigger RunAt(fr, g, fuel, p, st)} ::
      RunAt(fr, g, fuel, p, st) == if fuel < k then Running else RunAt(fr, g, fuel - k, q, st')
  }

  /** From p the run ends. */
  ghost predicate EndsIn(fr: Frame, g: Cfg, p: Point, st: State, k: nat, e: Ending) {
    forall fuel: nat {:trigger RunAt(fr, g, fuel, p, st)} :: fuel > k ==> RunAt(fr, g, fuel, p, st) == e
  }

  datatype Where = Reaches(q: Point) | Over(e: Ending)

  ghost predicate Lands(fr: Frame, g: Cfg, p: Point, st: State, k: nat, w: Where, st': State) {
    match w
    case Reaches(q) => Steps(fr, g, p, st, k, q, st')
    case Over(e) => EndsIn(fr, g, p, st, k, e)
  }

  lemma LandsThen(fr: Frame, g: Cfg, p: Point, st: State, k: nat, q: Point, st1: State, j: nat, w: Where, st2: State)
    requires Steps(fr, g, p, st, k, q, st1) && Lands(fr, g, q, st1, j, w, st2)
    ensures Lands(fr, g, p, st, k + j, w, st2)
  {
    match w
    case Reaches(r) =>
      forall fuel: nat
        ensures RunAt(fr, g, fuel, p, st) == if fuel < k + j then Running else RunAt(fr, g, fuel - (k + j), r, st2)
      {
        if fuel >= k { assert RunAt(fr, g, fuel, p, st) == RunAt(fr, g, fuel - k, q, st1); }
      }
    case Over(e) =>
      forall fuel: nat | fuel > k + j
        ensures RunAt(fr, g, fuel, p, st) == e
      {
        assert RunAt(fr, g, fuel, p, st) == RunAt(fr, g, fuel - k, q, st1);
      }
  }

  lemma Stay(fr: Frame, g: Cfg, p: Point, st: State)
    ensures Steps(fr, g, p, st, 0, p, st)
  {
  }

  lemma InstrStep(fr: Frame, g: Cfg, p: Point, ins: Instr, st: State)
    requires Complete(g) && Has(g, p, ins)
    ensures var r := Exec(fr, ins, st);
            if r.Ok? then Steps(fr, g, p, st, 0, After(p), r.st) else EndsIn(fr, g, p, st, 0, Traps(r.st.heap))
  {
    var body := g[p.b].body;
    assert body[p.i..][0] == ins && body[p.i..][1..] == body[p.i + 1..];
  }

  lemma TermStep(fr: Frame, g: Cfg, p: Point, t: Terminator, st: State)
    requires Complete(g) && Ends(g, p, t)
    ensures match Ir.Branch(fr, st.env, t)
            case NoBranch => EndsIn(fr, g, p, st, 0, Traps(st.heap))
            case Return(v) => EndsIn(fr, g, p, st, 0, Delivers(v, st.heap, st.clean))
            case Goto(c) => Steps(fr, g, p, st, 1, At(c, 0), st)
  {
    assert g[p.b].body[p.i..] == [];
  }

  // ----- Expressions -----

  /** What the instructions that the lowering adds compute: each comparison is one of values of its own
      type, and only a bit can be extended. */
  ghost predicate OpsOk(w: World) {
    && (forall a: Ir.Value, b: Ir.Value {:trigger w.op(ICMP_NE, [a, b])} ::
      w.op(ICMP_NE, [a, b]) == if a.Int? && b.Int? then Some(BitVal(a.n != b.n)) else None)
    && (forall a: Ir.Value, b: Ir.Value {:trigger w.op(FCMP_NE, [a, b])} ::
      w.op(FCMP_NE, [a, b]) == if a.FloatVal? && b.FloatVal? then Some(BitVal(a.x != b.x)) else None)
    && (forall a: Ir.Value {:trigger w.op(ZEXT, [a])} ::
      w.op(ZEXT, [a]) == if a.BitVal? then Some(Int(if a.b then 1 else 0)) else None)
  }

  /** There are such operations. */
  lemma OpsExist() returns (w: World)
    ensures OpsOk(w)
  {
    w := World(ExampleOp, vs => 0, (f, vs, h) => (Undef, h));
  }

  function ExampleOp(code: nat, vs: seq<Ir.Value>): Option<Ir.Value> {
    if code == ICMP_NE && |vs| == 2 && vs[0].Int? && vs[1].Int? then Some(BitVal(vs[0].n != vs[1].n))
    else if code == FCMP_NE && |vs| == 2 && vs[0].FloatVal? && vs[1].FloatVal? then Some(BitVal(vs[0].x != vs[1].x))
    else if code == ZEXT && |vs| == 1 && vs[0].BitVal? then Some(Int(if vs[0].b then 1 else 0))
    else None
  }

  ghost predicate DefinedAt(g: Cfg, b: Block, i: nat, d: Name) {
    b < |g| && i < |g[b].body| && !g[b].body[i].Store? && g[b].body[i].dst == d
  }

  /** No name has two definitions. */
  ghost predicate NamedOnce(g: Cfg) {
    forall b, i, b', i', d :: DefinedAt(g, b, i, d) && DefinedAt(g, b', i', d) ==> b == b' && i == i'
  }

  /** Loads and stores access variables only. */
  ghost predicate AccessesSlots(g: Cfg, allocas: set<Name>) {
    forall p: Point, ins {:trigger Has(g, p, ins)} ::
      Has(g, p, ins) && (ins.Load? || ins.Store?) ==> IsSlot(allocas, ins.ptr)
  }

  ghost predicate Pre(fr: Frame, g: Cfg) {
    Complete(g) && OpsOk(fr.world) && NamedOnce(g) && AccessesSlots(g, fr.allocas)
  }

  /** The slots have the values of the variables. */
  ghost predicate Holds(vars: Vars, st: State) {
    st.clean && forall x {:trigger vars[x]} :: x in vars ==> Slot(x) in st.slots && st.slots[Slot(x)] == vars[x]
  }

  /** Only memory and the environment have changed. */
  predicate Same(st: State, st': State, h: Heap) {
    st'.heap == h && st'.slots == st.slots && st'.clean == st.clean
  }

  /** Of the environment, only what is defined between the two points has changed. */
  ghost predicate Untouched(g: Cfg, p: Point, end: Point, st: State, st': State) {
    forall d {:trigger d in st'.env} {:trigger d in st.env} ::
      (forall i: nat :: p.i <= i < end.i ==> !DefinedAt(g, p.b, i, d)) ==>
        (d in st'.env <==> d in st.env) && (d in st.env ==> st'.env[d] == st.env[d])
  }

  /** The operand is a number, or a result defined between the two points. */
  ghost predicate Owned(g: Cfg, p: Point, end: Point, val: Operand) {
    !val.Arg? && !val.Global? && (val.Ref? ==> exists i: nat :: p.i <= i < end.i && DefinedAt(g, p.b, i, val.name))
  }

  /** The value of an operand survives the code behind it. */
  lemma ValueStays(fr: Frame, g: Cfg, p: Point, q: Point, end: Point, val: Operand, st: State, st': State)
    requires NamedOnce(g) && Owned(g, p, q, val) && Untouched(g, q, end, st, st') && q.b == p.b
    ensures Eval(fr, st'.env, val) == Eval(fr, st.env, val)
  {
    if val.Ref? {
      var i: nat :| p.i <= i < q.i && DefinedAt(g, p.b, i, val.name);
      assert forall j: nat :: q.i <= j < end.i ==> !DefinedAt(g, p.b, j, val.name);
      assert val.name in st'.env <==> val.name in st.env;
    }
  }

  lemma UntouchedThen(g: Cfg, p: Point, q: Point, end: Point, st: State, st1: State, st2: State)
    requires Untouched(g, p, q, st, st1) && Untouched(g, q, end, st1, st2) && q.b == p.b && p.i <= q.i <= end.i
    ensures Untouched(g, p, end, st, st2)
  {
    forall d | forall i: nat :: p.i <= i < end.i ==> !DefinedAt(g, p.b, i, d)
      ensures (d in st2.env <==> d in st.env) && (d in st.env ==> st2.env[d] == st.env[d])
    {
      assert d in st1.env <==> d in st.env;
    }
  }

  lemma OwnedLater(g: Cfg, p: Point, q: Point, end: Point, val: Operand)
    requires Owned(g, q, end, val) && q.b == p.b && p.i <= q.i
    ensures Owned(g, p, end, val)
  {
  }

  lemma DefineUntouched(g: Cfg, p: Point, d: Name, v: Ir.Value, st: State, st': State)
    requires DefinedAt(g, p.b, p.i, d) && st'.env == st.env[d := v]
    ensures Untouched(g, p, After(p), st, st') && Owned(g, p, After(p), Ref(d))
  {
  }

  /** How the evaluation of an expression ends. */
  ghost predicate ExpDone(fr: Frame, g: Cfg, p: Point, st: State, r: ExpResult, val: Operand, end: Point, st': State) {
    match r
    case Value(v, h) =>
      && Steps(fr, g, p, st, 0, end, st') && Same(st, st', h) && Eval(fr, st'.env, val) == v
      && Untouched(g, p, end, st, st') && Owned(g, p, end, val) && end.b == p.b && p.i <= end.i
    case ExpFailed(h) => EndsIn(fr, g, p, st, 0, Traps(h))
    case ExpUndefined => true
  }

  ghost predicate ExpsDone(fr: Frame, g: Cfg, p: Point, st: State, r: ExpsResult, vals: seq<Operand>, end: Point,
      st': State) {
    match r
    case Values(vs, h) =>
      && Steps(fr, g, p, st, 0, end, st') && Same(st, st', h) && EvalAll(fr, st'.env, vals) == vs
      && Untouched(g, p, end, st, st') && end.b == p.b && p.i <= end.i
    case ExpsFailed(h) => EndsIn(fr, g, p, st, 0, Traps(h))
    case ExpsUndefined => true
  }

  /** One instruction with a result. */
  lemma DefineStep(fr: Frame, g: Cfg, p: Point, ins: Instr, st: State) returns (st': State)
    requires Pre(fr, g) && Has(g, p, ins) && !ins.Store?
    ensures match Exec(fr, ins, st)
            case Ok(s) =>
              && st' == s && Steps(fr, g, p, st, 0, After(p), s)
              && Untouched(g, p, After(p), st, s) && Owned(g, p, After(p), Ref(ins.dst))
            case Trap(s) => EndsIn(fr, g, p, st, 0, Traps(s.heap))
  {
    hide Steps, EndsIn, Untouched, Owned, OpsOk, NamedOnce, AccessesSlots;
    InstrStep(fr, g, p, ins, st);
    st' := Exec(fr, ins, st).st;
    assert DefinedAt(g, p.b, p.i, ins.dst);
    if Exec(fr, ins, st).Ok? {
      DefineUntouched(g, p, ins.dst, st'.env[ins.dst], st, st');
    }
  }

  lemma {:induction false} ExpSim(fr: Frame, g: Cfg, e: Exp, p: Point, val: Operand, end: Point, vars: Vars, st: State)
      returns (st': State)
    requires Pre(fr, g) && ExpAt(g, e, p, val, end) && Holds(vars, st)
    ensures ExpDone(fr, g, p, st, EvalExp(EnvOf(fr), e, vars, st.heap), val, end, st')
    decreases e
  {
    hide Steps, EndsIn, Has, Untouched, Owned, Pre, Exec;
    st' := st;
    match e
    case Num(_) => NumSim(fr, g, p, val, end, st);
    case Decimal(_) => NumSim(fr, g, p, val, end, st);
    case Var(x) => st' := VarSim(fr, g, x, p, val, vars, st);
    case Unary(_, _) => st' := UnarySim(fr, g, e, p, val, end, vars, st);
    case Binary(_, _, _) => st' := BinarySim(fr, g, e, p, val, end, vars, st);
    case Invoke(f, args) =>
      var vals, q :| ExpsAt(g, args, p, vals, q) && Has(g, q, Call(val.name, f, vals)) && end == After(q);
      st' := ExpsSim(fr, g, args, p, vals, q, vars, st);
      match EvalExps(EnvOf(fr), args, vars, st.heap)
      case Values(vs, h) => st' := CallSim(fr, g, f, vals, p, q, val, st, st', h);
      case _ =>
  }

  lemma NumSim(fr: Frame, g: Cfg, p: Point, val: Operand, end: Point, st: State)
    requires (val.Imm? || val.BitImm? || val.FloatImm?) && end == p
    ensures ExpDone(fr, g, p, st, Value(Eval(fr, st.env, val), st.heap), val, end, st)
  {
    Stay(fr, g, p, st);
    hide Steps;
  }

  lemma VarSim(fr: Frame, g: Cfg, x: nat, p: Point, val: Operand, vars: Vars, st: State) returns (st': State)
    requires Pre(fr, g) && val.Ref? && Has(g, p, Load(val.name, Ref(Slot(x)))) && Holds(vars, st)
    ensures ExpDone(fr, g, p, st, EvalExp(EnvOf(fr), Var(x), vars, st.heap), val, After(p), st')
  {
    hide Steps, EndsIn, Has, Untouched, Owned, OpsOk, NamedOnce;
    var ins := Load(val.name, Ref(Slot(x)));
    st' := DefineStep(fr, g, p, ins, st);
    if x in vars { assert st.slots[Slot(x)] == vars[x]; }
  }

  lemma {:induction false} UnarySim(fr: Frame, g: Cfg, e: Exp, p: Point, val: Operand, end: Point, vars: Vars,
      st: State) returns (st': State)
    requires Pre(fr, g) && e.Unary? && ExpAt(g, e, p, val, end) && Holds(vars, st)
    ensures ExpDone(fr, g, p, st, EvalExp(EnvOf(fr), e, vars, st.heap), val, end, st')
    decreases e, 0
  {
    hide Steps, EndsIn, Has, Untouched, Owned, Pre, Exec;
    var a, q :| ExpAt(g, e.arg, p, a, q) && Has(g, q, Op(val.name, e.code, [a])) && end == After(q);
    st' := ExpSim(fr, g, e.arg, p, a, q, vars, st);
    if EvalExp(EnvOf(fr), e.arg, vars, st.heap).Value? {
      st' := OneOpSim(fr, g, e.code, a, p, q, val, st, st');
    }
  }

  /** The operand is there: the operation itself. */
  lemma OneOpSim(fr: Frame, g: Cfg, code: nat, a: Operand, p: Point, q: Point, val: Operand, st: State, st1: State)
      returns (st': State)
    requires Pre(fr, g) && val.Ref? && Has(g, q, Op(val.name, code, [a]))
    requires ExpDone(fr, g, p, st, Value(Eval(fr, st1.env, a), st1.heap), a, q, st1)
    ensures ExpDone(fr, g, p, st, OpResult(EnvOf(fr), code, [Eval(fr, st1.env, a)], st1.heap), val, After(q), st')
  {
    hide Steps, EndsIn, Has, Untouched, Owned, OpsOk, AccessesSlots, NamedOnce;
    var ins := Op(val.name, code, [a]);
    assert EvalAll(fr, st1.env, [a]) == [Eval(fr, st1.env, a)];
    st' := DefineStep(fr, g, q, ins, st1);
    Finishes(fr, g, p, q, val, st, st1, Exec(fr, ins, st1));
  }

  lemma {:induction false} BinarySim(fr: Frame, g: Cfg, e: Exp, p: Point, val: Operand, end: Point, vars: Vars,
      st: State) returns (st': State)
    requires Pre(fr, g) && e.Binary? && ExpAt(g, e, p, val, end) && Holds(vars, st)
    ensures ExpDone(fr, g, p, st, EvalExp(EnvOf(fr), e, vars, st.heap), val, end, st')
    decreases e, 0
  {
    hide Steps, EndsIn, Has, Untouched, Owned, Pre, Exec;
    var l, r := e.left, e.right;
    var a, q, b, q' :| ExpAt(g, l, p, a, q) && ExpAt(g, r, q, b, q') && Has(g, q', Op(val.name, e.code, [a, b]))
                       && end == After(q');
    st' := ExpSim(fr, g, l, p, a, q, vars, st);
    match EvalExp(EnvOf(fr), l, vars, st.heap)
    case ExpFailed(h) =>
    case ExpUndefined =>
    case Value(v, h) =>
      var st1 := st';
      st' := ExpSim(fr, g, r, q, b, q', vars, st1);
      match EvalExp(EnvOf(fr), r, vars, h)
      case ExpUndefined =>
      case ExpFailed(h2) => LandsThen(fr, g, p, st, 0, q, st1, 0, Over(Traps(h2)), st1);
      case Value(w, h2) => st' := OpSim(fr, g, e.code, a, b, p, q, q', val, st, st1, st');
  }

  /** Both operands are there: the operation itself. */
  lemma OpSim(fr: Frame, g: Cfg, code: nat, a: Operand, b: Operand, p: Point, q: Point, q': Point, val: Operand,
      st: State, st1: State, st2: State) returns (st': State)
    requires Pre(fr, g) && val.Ref? && Has(g, q', Op(val.name, code, [a, b]))
    requires ExpDone(fr, g, p, st, Value(Eval(fr, st1.env, a), st1.heap), a, q, st1)
    requires ExpDone(fr, g, q, st1, Value(Eval(fr, st2.env, b), st2.heap), b, q', st2)
    ensures var r := OpResult(EnvOf(fr), code, [Eval(fr, st1.env, a), Eval(fr, st2.env, b)], st2.heap);
            ExpDone(fr, g, p, st, r, val, After(q'), st')
  {
    hide Steps, EndsIn, Has, Untouched, Owned, OpsOk, AccessesSlots, NamedOnce;
    ValueStays(fr, g, p, q, q', a, st1, st2);
    UntouchedThen(g, p, q, q', st, st1, st2);
    LandsThen(fr, g, p, st, 0, q, st1, 0, Reaches(q'), st2);
    var ins := Op(val.name, code, [a, b]);
    assert EvalAll(fr, st2.env, [a, b]) == [Eval(fr, st1.env, a), Eval(fr, st2.env, b)];
    st' := DefineStep(fr, g, q', ins, st2);
    Finishes(fr, g, p, q', val, st, st2, Exec(fr, ins, st2));
  }

  /** One more instruction, behind what has been done since p. */
  lemma Finishes(fr: Frame, g: Cfg, p: Point, q: Point, val: Operand, st: State, st1: State, r: Step)
    requires val.Ref? && Steps(fr, g, p, st, 0, q, st1) && Untouched(g, p, q, st, st1) && q.b == p.b && p.i <= q.i
    requires match r
             case Ok(s) => Steps(fr, g, q, st1, 0, After(q), s) && Untouched(g, q, After(q), st1, s)
                           && Owned(g, q, After(q), val)
             case Trap(s) => EndsIn(fr, g, q, st1, 0, Traps(s.heap))
    ensures match r
            case Ok(s) => Steps(fr, g, p, st, 0, After(q), s) && Untouched(g, p, After(q), st, s)
                          && Owned(g, p, After(q), val)
            case Trap(s) => EndsIn(fr, g, p, st, 0, Traps(s.heap))
  {
    hide Steps, EndsIn, Untouched, Owned;
    match r
    case Ok(s) =>
      LandsThen(fr, g, p, st, 0, q, st1, 0, Reaches(After(q)), s);
      UntouchedThen(g, p, q, After(q), st, st1, s);
      OwnedLater(g, p, q, After(q), val);
    case Trap(s) => LandsThen(fr, g, p, st, 0, q, st1, 0, Over(Traps(s.heap)), st1);
  }

  /** All arguments are there: the call itself. */
  lemma CallSim(fr: Frame, g: Cfg, f: nat, vals: seq<Operand>, p: Point, q: Point, val: Operand, st: State, st1: State,
      h: Heap) returns (st': State)
    requires Pre(fr, g) && val.Ref? && Has(g, q, Call(val.name, f, vals)) && st.clean
    requires ExpsDone(fr, g, p, st, Values(EvalAll(fr, st1.env, vals), h), vals, q, st1)
    ensures ExpDone(fr, g, p, st, CallResultOf(fr.call(f, EvalAll(fr, st1.env, vals), h), h), val, After(q), st')
  {
    hide Steps, EndsIn, Has, Untouched, Owned, OpsOk, AccessesSlots, NamedOnce;
    var ins := Call(val.name, f, vals);
    st' := DefineStep(fr, g, q, ins, st1);
    Finishes(fr, g, p, q, val, st, st1, Exec(fr, ins, st1));
  }

  lemma {:induction false} ExpsSim(fr: Frame, g: Cfg, es: Exps, p: Point, vals: seq<Operand>, end: Point, vars: Vars,
      st: State) returns (st': State)
    requires Pre(fr, g) && ExpsAt(g, es, p, vals, end) && Holds(vars, st)
    ensures ExpsDone(fr, g, p, st, EvalExps(EnvOf(fr), es, vars, st.heap), vals, end, st')
    decreases es
  {
    hide Steps, EndsIn, Has, Untouched, Owned, Pre, Exec;
    match es
    case NoExps =>
      st' := st;
      NoneSim(fr, g, p, st);
    case Exps(e, rest) =>
      var q :| ExpAt(g, e, p, vals[0], q) && ExpsAt(g, rest, q, vals[1..], end);
      st' := ExpSim(fr, g, e, p, vals[0], q, vars, st);
      match EvalExp(EnvOf(fr), e, vars, st.heap)
      case ExpFailed(h) =>
      case ExpUndefined =>
      case Value(v, h) =>
        var st1 := st';
        st' := ExpsSim(fr, g, rest, q, vals[1..], end, vars, st1);
        match EvalExps(EnvOf(fr), rest, vars, h)
        case ExpsUndefined =>
        case ExpsFailed(h2) => LandsThen(fr, g, p, st, 0, q, st1, 0, Over(Traps(h2)), st1);
        case Values(vs, h2) => MoreSim(fr, g, p, q, end, vals, st, st1, st');
  }

  lemma NoneSim(fr: Frame, g: Cfg, p: Point, st: State)
    ensures ExpsDone(fr, g, p, st, Values([], st.heap), [], p, st)
  {
    Stay(fr, g, p, st);
    hide Steps;
  }

  lemma MoreSim(fr: Frame, g: Cfg, p: Point, q: Point, end: Point, vals: seq<Operand>, st: State, st1: State,
      st2: State)
    requires Pre(fr, g) && vals != []
    requires ExpDone(fr, g, p, st, Value(Eval(fr, st1.env, vals[0]), st1.heap), vals[0], q, st1)
    requires ExpsDone(fr, g, q, st1, Values(EvalAll(fr, st2.env, vals[1..]), st2.heap), vals[1..], end, st2)
    ensures ExpsDone(fr, g, p, st, Values([Eval(fr, st1.env, vals[0])] + EvalAll(fr, st2.env, vals[1..]), st2.heap),
            vals,
                     end, st2)
  {
    hide Steps, EndsIn, Untouched, Owned, OpsOk, AccessesSlots, NamedOnce;
    ValueStays(fr, g, p, q, end, vals[0], st1, st2);
    UntouchedThen(g, p, q, end, st, st1, st2);
    LandsThen(fr, g, p, st, 0, q, st1, 0, Reaches(end), st2);
    assert EvalAll(fr, st2.env, vals) == [Eval(fr, st2.env, vals[0])] + EvalAll(fr, st2.env, vals[1..]);
  }

  lemma LeafSim(fr: Frame, g: Cfg, e: Leaf, p: Point, val: Operand, end: Point, vars: Vars, st: State)
      returns (st': State)
    requires Pre(fr, g) && LeafAt(g, e, p, val, end) && Holds(vars, st)
    ensures ExpDone(fr, g, p, st, EvalLeaf(EnvOf(fr), e, vars, st.heap), val, end, st')
  {
    match e
    case Folded(b) =>
      st' := st;
      NumSim(fr, g, p, val, end, st);
    case Dynamic(exp, _) =>
      st' := ExpSim(fr, g, exp, p, val, end, vars, st);
  }

  // ----- Tests -----

  /** Comparison with zero: the bit of a value of the type; anything else traps. */
  lemma CompareStep(fr: Frame, g: Cfg, ty: Type, v: Operand, test: Name, p: Point, st: State) returns (st': State)
    requires Pre(fr, g) && Has(g, p, Op(test, NotEqual(ty), [v, Zero(ty)])) && !ty.I1?
    ensures match TruthOf(ty, Value(Eval(fr, st.env, v), st.heap))
            case Truth(b, h) => Steps(fr, g, p, st, 0, After(p), st') && Same(st, st', h)
                                && Eval(fr, st'.env, Ref(test)) == BitVal(b)
            case CondFailed(h) => EndsIn(fr, g, p, st, 0, Traps(h))
            case CondUndefined => false
  {
    hide Steps, EndsIn, Has, NamedOnce, AccessesSlots;
    var ins := Op(test, NotEqual(ty), [v, Zero(ty)]);
    assert EvalAll(fr, st.env, [v, Zero(ty)]) == [Eval(fr, st.env, v), if ty.Float? then FloatVal(0.0) else Int(0)];
    InstrStep(fr, g, p, ins, st);
    st' := Exec(fr, ins, st).st;
  }

  lemma NamesDiffer(fr: Frame, g: Cfg, p: Point, d: Name, d': Name, code: nat, args: seq<Operand>, code': nat,
      args': seq<Operand>)
    requires Pre(fr, g) && Has(g, p, Op(d, code, args)) && Has(g, After(p), Op(d', code', args'))
    ensures d != d'
  {
    hide OpsOk, AccessesSlots;
    assert DefinedAt(g, p.b, p.i, d) && DefinedAt(g, p.b, p.i + 1, d');
  }

  lemma ExtendStep(fr: Frame, g: Cfg, v: Operand, d: Name, b: bool, p: Point, st: State) returns (st': State)
    requires Pre(fr, g) && Has(g, p, Op(d, ZEXT, [v])) && Eval(fr, st.env, v) == BitVal(b)
    ensures Steps(fr, g, p, st, 0, After(p), st') && Same(st, st', st.heap)
    ensures st'.env == st.env[d := Int(if b then 1 else 0)]
  {
    hide Steps, EndsIn, Has, NamedOnce, AccessesSlots;
    assert EvalAll(fr, st.env, [v]) == [BitVal(b)];
    InstrStep(fr, g, p, Op(d, ZEXT, [v]), st);
    st' := Exec(fr, Op(d, ZEXT, [v]), st).st;
  }

  function Target(b: bool, t: Block, f: Block): Point {
    At(if b then t else f, 0)
  }

  lemma BranchStep(fr: Frame, g: Cfg, test: Name, t: Block, f: Block, p: Point, b: bool, st: State)
    requires Pre(fr, g) && Ends(g, p, CondBr(Ref(test), t, f)) && Eval(fr, st.env, Ref(test)) == BitVal(b)
    ensures Steps(fr, g, p, st, 1, Target(b, t, f), st)
  {
    hide Steps, EndsIn, Ends, NamedOnce, AccessesSlots, OpsOk;
    TermStep(fr, g, p, CondBr(Ref(test), t, f), st);
  }

  /** Where a test of v leads. */
  ghost predicate TestDone(fr: Frame, g: Cfg, p: Point, st: State, r: CondResult, t: Block, f: Block, k: nat,
      st': State) {
    match r
    case Truth(b, h) => Steps(fr, g, p, st, k, Target(b, t, f), st') && Same(st, st', h)
    case CondFailed(h) => EndsIn(fr, g, p, st, k, Traps(h))
    case CondUndefined => true
  }

  lemma TestSim(fr: Frame, g: Cfg, ty: Type, v: Operand, test: Name, zext: Name, t: Block, f: Block, p: Point,
      st: State) returns (k: nat, st': State)
    requires Pre(fr, g) && TestAt(g, ty, v, test, zext, t, f, p)
    ensures TestDone(fr, g, p, st, TruthOf(ty, Value(Eval(fr, st.env, v), st.heap)), t, f, k, st')
  {
    hide Steps, EndsIn, Has, Ends, Pre;
    k := 0;
    st' := CompareStep(fr, g, ty, v, test, p, st);
    match TruthOf(ty, Value(Eval(fr, st.env, v), st.heap))
    case CondFailed(h) =>
    case CondUndefined =>
    case Truth(b, h) =>
      var st1 := st';
      NamesDiffer(fr, g, p, test, zext, NotEqual(ty), [v, Zero(ty)], ZEXT, [Ref(test)]);
      var st2 := ExtendStep(fr, g, Ref(test), zext, b, After(p), st1);
      assert Eval(fr, st2.env, Ref(test)) == BitVal(b);
      BranchStep(fr, g, test, t, f, After(After(p)), b, st2);
      LandsThen(fr, g, After(p), st1, 0, After(After(p)), st2, 1, Reaches(Target(b, t, f)), st2);
      LandsThen(fr, g, p, st, 0, After(p), st1, 1, Reaches(Target(b, t, f)), st2);
      k, st' := 1, st2;
  }

  lemma BranchSim(fr: Frame, g: Cfg, ty: Type, v: Operand, test: Name, t: Block, f: Block, p: Point, st: State)
      returns (k: nat, st': State)
    requires Pre(fr, g) && BranchAt(g, ty, v, test, t, f, p)
    ensures TestDone(fr, g, p, st, TruthOf(ty, Value(Eval(fr, st.env, v), st.heap)), t, f, k, st')
  {
    hide Steps, EndsIn, Has, Ends, Pre;
    k := 0;
    st' := CompareStep(fr, g, ty, v, test, p, st);
    match TruthOf(ty, Value(Eval(fr, st.env, v), st.heap))
    case CondFailed(h) =>
    case CondUndefined =>
    case Truth(b, h) =>
      var st1 := st';
      BranchStep(fr, g, test, t, f, After(p), b, st1);
      LandsThen(fr, g, p, st, 0, After(p), st1, 1, Reaches(Target(b, t, f)), st1);
      k, st' := 1, st1;
  }

  // ----- Conditions -----

  /** How the evaluation of a part of a condition stops: it has jumped to a target, it has arrived at
      the end of its code with a value, it has trapped, or it has no meaning. */
  datatype Stop = Jumped | Arrived | Dead | Lost

  ghost predicate Stops(fr: Frame, g: Cfg, p: Point, st: State, r: CondResult, ty: Type, val: Operand, end: Point,
      t: Block, f: Block, stop: Stop, k: nat, st': State) {
    match stop
    case Jumped => r.Truth? && Steps(fr, g, p, st, k, Target(r.b, t, f), st') && Same(st, st', r.heap)
    case Arrived =>
      && Steps(fr, g, p, st, k, end, st') && Same(st, st', st'.heap)
      && r == TruthOf(ty, Value(Eval(fr, st'.env, val), st'.heap))
    case Dead => r.CondFailed? && EndsIn(fr, g, p, st, k, Traps(r.heap))
    case Lost => r.CondUndefined?
  }

  /** The same from an earlier point. */
  lemma StopsThen(fr: Frame, g: Cfg, p: Point, st: State, k: nat, q: Point, st1: State, r: CondResult, ty: Type,
      val: Operand, end: Point, t: Block, f: Block, stop: Stop, j: nat, st2: State)
    requires Steps(fr, g, p, st, k, q, st1) && Stops(fr, g, q, st1, r, ty, val, end, t, f, stop, j, st2)
    requires Same(st, st1, st1.heap)
    ensures Stops(fr, g, p, st, r, ty, val, end, t, f, stop, k + j, st2)
  {
    hide Steps, EndsIn;
    match stop
    case Jumped => LandsThen(fr, g, p, st, k, q, st1, j, Reaches(Target(r.b, t, f)), st2);
    case Arrived => LandsThen(fr, g, p, st, k, q, st1, j, Reaches(end), st2);
    case Dead => LandsThen(fr, g, p, st, k, q, st1, j, Over(Traps(r.heap)), st2);
    case Lost =>
  }

  lemma LeafStops(fr: Frame, g: Cfg, e: Leaf, p: Point, val: Operand, end: Point, t: Block, f: Block, vars: Vars,
      st: State) returns (stop: Stop, st': State)
    requires Pre(fr, g) && LeafAt(g, e, p, val, end) && Holds(vars, st)
    ensures var r := TruthOf(LeafType(e), EvalLeaf(EnvOf(fr), e, vars, st.heap));
            Stops(fr, g, p, st, r, LeafType(e), val, end, t, f, stop, 0, st')
    ensures !stop.Jumped?
  {
    hide Steps, EndsIn, LeafAt, Pre, Untouched, Owned;
    st' := LeafSim(fr, g, e, p, val, end, vars, st);
    match EvalLeaf(EnvOf(fr), e, vars, st.heap)
    case Value(_, _) => stop := Arrived;
    case ExpFailed(_) => stop := Dead;
    case ExpUndefined => stop := Lost;
  }

  /** A value of type i1 is a constant, and its extension, of type i32, has the same truth. */
  lemma ExtendStops(fr: Frame, g: Cfg, ty: Type, v: Operand, p: Point, val: Operand, end: Point, st: State)
      returns (st': State)
    requires Pre(fr, g) && ExtendedAt(g, ty, v, p, val, end) && (ty.I1? ==> v.BitImm?)
    ensures Steps(fr, g, p, st, 0, end, st') && Same(st, st', st.heap)
    ensures TruthOf(if ty.I1? then I32 else ty, Value(Eval(fr, st'.env, val), st.heap))
            == TruthOf(ty, Value(Eval(fr, st.env, v), st.heap))
  {
    hide Steps, EndsIn, Has, Pre;
    if ty.I1? {
      st' := ExtendStep(fr, g, v, val.name, v.b, p, st);
    } else {
      Stay(fr, g, p, st);
      st' := st;
    }
  }

  lemma {:induction false} AndSim(fr: Frame, g: Cfg, a: LAnd, c: AndCode, p: Point, t: Block, f: Block, vars: Vars,
      st: State)
    returns (stop: Stop, k: nat, st': State)
    requires Pre(fr, g) && AndAt(g, a, c, p, f) && Holds(vars, st)
    ensures Stops(fr, g, p, st, EvalLAnd(EnvOf(fr), a, vars, st.heap), LAndType(a), c.val, c.end, t, f, stop, k, st')
    ensures stop.Jumped? ==> !EvalLAnd(EnvOf(fr), a, vars, st.heap).b
    decreases a
  {
    hide Steps, EndsIn, LeafAt, ExtendedAt, TestAt, Pre, Holds;
    match a
    case LAndOne(e) =>
      stop, st' := LeafStops(fr, g, e, p, c.leafVal, c.leafEnd, t, f, vars, st);
      k := 0;
      if stop.Arrived? {
        var st1 := st';
        FoldedImm(g, e, p, c.leafVal, c.leafEnd);
        st' := ExtendStops(fr, g, LeafType(e), c.leafVal, c.leafEnd, c.val, c.end, st1);
        LandsThen(fr, g, p, st, 0, c.leafEnd, st1, 0, Reaches(c.end), st');
      }
    case LAndMore(l, e) =>
      stop, k, st' := AndSim(fr, g, l, c.left, p, t, f, vars, st);
      if stop.Arrived? {
        stop, k, st' := AndRight(fr, g, l, e, c, p, t, f, vars, st, k, st');
      }
  }

  lemma FoldedImm(g: Cfg, e: Leaf, p: Point, val: Operand, end: Point)
    requires LeafAt(g, e, p, val, end)
    ensures LeafType(e).I1? ==> val.BitImm?
  {
  }

  lemma HoldsStill(vars: Vars, st: State, st': State)
    requires Holds(vars, st) && Same(st, st', st'.heap)
    ensures Holds(vars, st')
  {
  }

  lemma AndRight(fr: Frame, g: Cfg, l: LAnd, e: Leaf, c: AndCode, p: Point, t: Block, f: Block, vars: Vars, st: State,
      k1: nat, st1: State)
    returns (stop: Stop, k: nat, st': State)
    requires Pre(fr, g) && AndAt(g, LAndMore(l, e), c, p, f) && Holds(vars, st)
    requires Stops(fr, g, p, st, EvalLAnd(EnvOf(fr), l, vars, st.heap), LAndType(l), c.left.val, c.left.end, t, f,
             Arrived, k1, st1)
    ensures var r := EvalLAnd(EnvOf(fr), LAndMore(l, e), vars, st.heap);
            Stops(fr, g, p, st, r, LeafType(e), c.val, c.end, t, f, stop, k, st')
    ensures stop.Jumped? ==> !EvalLAnd(EnvOf(fr), LAndMore(l, e), vars, st.heap).b
  {
    hide Steps, EndsIn, LeafAt, TestAt, Pre, Holds;
    var r1 := EvalLAnd(EnvOf(fr), l, vars, st.heap);
    var j, st2 := TestSim(fr, g, LAndType(l), c.left.val, c.test, c.zext, c.trueBB, f, c.left.end, st1);
    k, st' := k1 + j, st2;
    match r1
    case CondUndefined => stop := Lost;
    case CondFailed(h) =>
      stop := Dead;
      LandsThen(fr, g, p, st, k1, c.left.end, st1, j, Over(Traps(h)), st2);
    case Truth(b, h) =>
      LandsThen(fr, g, p, st, k1, c.left.end, st1, j, Reaches(Target(b, c.trueBB, f)), st2);
      stop := Jumped;
      if b {
        HoldsStill(vars, st, st2);
        stop, st' := LeafStops(fr, g, e, At(c.trueBB, 0), c.val, c.end, t, f, vars, st2);
        StopsThen(fr, g, p, st, k, At(c.trueBB, 0), st2, TruthOf(LeafType(e), EvalLeaf(EnvOf(fr), e, vars, h)),
          LeafType(e), c.val, c.end, t, f, stop, 0, st');
      }
  }

  lemma AndImm(g: Cfg, a: LAnd, c: AndCode, p: Point, f: Block)
    requires AndAt(g, a, c, p, f) && LAndType(a).I1?
    ensures c.val.BitImm?
  {
  }

  lemma {:induction false} OrSim(fr: Frame, g: Cfg, o: LOr, c: OrCode, p: Point, t: Block, f: Block, vars: Vars,
      st: State)
    returns (stop: Stop, k: nat, st': State)
    requires Pre(fr, g) && OrAt(g, o, c, p, t, f) && Holds(vars, st)
    ensures Stops(fr, g, p, st, EvalLOr(EnvOf(fr), o, vars, st.heap), LOrType(o), c.val, c.end, t, f, stop, k, st')
    decreases o
  {
    hide Steps, EndsIn, ExtendedAt, TestAt, Pre, AndAt, Holds;
    match o
    case LOrOne(a) =>
      stop, k, st' := AndSim(fr, g, a, c.land, p, t, f, vars, st);
      if stop.Arrived? {
        var st1 := st';
        if LAndType(a).I1? { AndImm(g, a, c.land, p, f); }
        st' := ExtendStops(fr, g, LAndType(a), c.land.val, c.land.end, c.val, c.end, st1);
        LandsThen(fr, g, p, st, k, c.land.end, st1, 0, Reaches(c.end), st');
      }
    case LOrMore(l, a) =>
      stop, k, st' := OrSim(fr, g, l, c.left, p, t, c.falseBB, vars, st);
      if !stop.Dead? && !stop.Lost? {
        stop, k, st' := OrRight(fr, g, l, a, c, p, t, f, vars, st, stop, k, st');
      }
  }

  lemma OrRight(fr: Frame, g: Cfg, l: LOr, a: LAnd, c: OrCode, p: Point, t: Block, f: Block, vars: Vars, st: State,
      stop1: Stop, k1: nat, st1: State)
    returns (stop: Stop, k: nat, st': State)
    requires Pre(fr, g) && OrAt(g, LOrMore(l, a), c, p, t, f) && (stop1.Jumped? || stop1.Arrived?) && Holds(vars, st)
    requires Stops(fr, g, p, st, EvalLOr(EnvOf(fr), l, vars, st.heap), LOrType(l), c.left.val, c.left.end, t, c.falseBB,
             stop1, k1, st1)
    ensures var r := EvalLOr(EnvOf(fr), LOrMore(l, a), vars, st.heap);
            Stops(fr, g, p, st, r, LAndType(a), c.val, c.end, t, f, stop, k, st')
  {
    hide Steps, EndsIn, TestAt, Pre, AndAt, Holds;
    var r1 := EvalLOr(EnvOf(fr), l, vars, st.heap);
    k, st' := k1, st1;
    if stop1.Arrived? {
      var j, st2 := TestSim(fr, g, LOrType(l), c.left.val, c.test, c.zext, t, c.falseBB, c.left.end, st1);
      k, st' := k1 + j, st2;
      if r1.CondFailed? {
        LandsThen(fr, g, p, st, k1, c.left.end, st1, j, Over(Traps(r1.heap)), st2);
        stop := Dead;
        return;
      }
      LandsThen(fr, g, p, st, k1, c.left.end, st1, j, Reaches(Target(r1.b, t, c.falseBB)), st2);
    }
    stop := Jumped;
    if !r1.b {
      var st2, k2 := st', k;
      var j;
      HoldsStill(vars, st, st2);
      stop, j, st' := AndSim(fr, g, a, c.right, At(c.falseBB, 0), t, f, vars, st2);
      StopsThen(fr, g, p, st, k2, At(c.falseBB, 0), st2, EvalLAnd(EnvOf(fr), a, vars, r1.heap), LAndType(a), c.val,
        c.end, t, f, stop, j, st');
      k := k2 + j;
    }
  }

  /** A condition with its final branch: control reaches the true or the false target according to
      the truth of the condition, having evaluated what the source evaluates, in the same order. */
  lemma CondSim(fr: Frame, g: Cfg, o: LOr, c: OrCode, test: Name, p: Point, t: Block, f: Block, vars: Vars, st: State)
      returns (k: nat, st': State)
    requires Pre(fr, g) && OrAt(g, o, c, p, t, f) && BranchAt(g, LOrType(o), c.val, test, t, f, c.end)
    requires Holds(vars, st)
    ensures TestDone(fr, g, p, st, EvalLOr(EnvOf(fr), o, vars, st.heap), t, f, k, st')
  {
    hide Steps, EndsIn, Pre, OrAt, BranchAt, Holds;
    var stop;
    stop, k, st' := OrSim(fr, g, o, c, p, t, f, vars, st);
    var r := EvalLOr(EnvOf(fr), o, vars, st.heap);
    if stop.Arrived? {
      var k1, st1 := k, st';
      var j;
      j, st' := BranchSim(fr, g, LOrType(o), c.val, test, t, f, c.end, st1);
      k := k1 + j;
      match r
      case CondUndefined =>
      case CondFailed(h) => LandsThen(fr, g, p, st, k1, c.end, st1, j, Over(Traps(h)), st');
      case Truth(b, h) => LandsThen(fr, g, p, st, k1, c.end, st1, j, Reaches(Target(b, t, f)), st');
    }
  }

  // ----- Statements -----

  /** What the run of the code of a statement does, given how the statement ends with fuel n. A loop
      that has used up its fuel keeps the run going for at least as many blocks. */
  ghost predicate Meets(fr: Frame, g: Cfg, p: Point, st: State, n: nat, r: Result, exit: Exit, jumps: Option<Jumps>,
      k: nat, st': State) {
    match r.flow
    case Normal => exit.Falls? && Steps(fr, g, p, st, k, exit.p, st') && LeavesAs(r, st')
    case Broke => jumps.Some? && Steps(fr, g, p, st, k, At(jumps.value.afterBB, 0), st') && LeavesAs(r, st')
    case Continued => jumps.Some? && k > 0 && Steps(fr, g, p, st, k, At(jumps.value.testBB, 0), st') && LeavesAs(r, st')
    case Gone(v) => EndsIn(fr, g, p, st, k, Delivers(v, r.heap, true))
    case Trapped => EndsIn(fr, g, p, st, k, Traps(r.heap))
    case Undefined => true
    case NoFuel => KeepsRunning(fr, g, p, st, n)
  }

  /** Memory and variables are as after the statement. */
  ghost predicate LeavesAs(r: Result, st: State) {
    st.heap == r.heap && Holds(r.vars, st)
  }

  ghost predicate KeepsRunning(fr: Frame, g: Cfg, p: Point, st: State, n: nat) {
    forall m: nat {:trigger RunAt(fr, g, m, p, st)} :: m <= n ==> RunAt(fr, g, m, p, st) == Running
  }

  lemma KeepsThen(fr: Frame, g: Cfg, p: Point, st: State, k: nat, q: Point, st1: State, n: nat, n1: nat)
    requires Steps(fr, g, p, st, k, q, st1) && KeepsRunning(fr, g, q, st1, n1) && n <= n1 + k
    ensures KeepsRunning(fr, g, p, st, n)
  {
    forall m: nat | m <= n
      ensures RunAt(fr, g, m, p, st) == Running
    {
      if m >= k { assert RunAt(fr, g, m, p, st) == RunAt(fr, g, m - k, q, st1); }
    }
  }

  lemma MeetsThen(fr: Frame, g: Cfg, p: Point, st: State, k: nat, q: Point, st1: State, n: nat, n1: nat, r: Result,
      exit: Exit, jumps: Option<Jumps>, j: nat, st2: State)
    requires Steps(fr, g, p, st, k, q, st1) && Meets(fr, g, q, st1, n1, r, exit, jumps, j, st2) && n <= n1 + k
    ensures Meets(fr, g, p, st, n, r, exit, jumps, k + j, st2)
  {
    hide Steps, EndsIn, KeepsRunning, LeavesAs;
    match r.flow
    case Normal => LandsThen(fr, g, p, st, k, q, st1, j, Reaches(exit.p), st2);
    case Broke => LandsThen(fr, g, p, st, k, q, st1, j, Reaches(At(jumps.value.afterBB, 0)), st2);
    case Continued => LandsThen(fr, g, p, st, k, q, st1, j, Reaches(At(jumps.value.testBB, 0)), st2);
    case Gone(v) => LandsThen(fr, g, p, st, k, q, st1, j, Over(Delivers(v, r.heap, true)), st2);
    case Trapped => LandsThen(fr, g, p, st, k, q, st1, j, Over(Traps(r.heap)), st2);
    case Undefined =>
    case NoFuel => KeepsThen(fr, g, p, st, k, q, st1, n, n1);
  }

  /** Going on from the end of a branch to the block behind it. */
  lemma GoesOn(fr: Frame, g: Cfg, c: Code, p: Point, next: Block, st: State, n: nat, r: Result, jumps: Option<Jumps>,
      k: nat, st': State)
    requires Complete(g) && GoesTo(g, c, p, next) && Meets(fr, g, p, st, n, r, EndOf(c, p), jumps, k, st')
    ensures if r.flow.Normal? then Steps(fr, g, p, st, k + 1, At(next, 0), st') && LeavesAs(r, st')
            else Meets(fr, g, p, st, n, r, Falls(At(next, 0)), jumps, k, st')
  {
    hide Steps, EndsIn, KeepsRunning;
    if r.flow.Normal? {
      var q := EndOf(c, p).p;
      TermStep(fr, g, q, Br(next), st');
      LandsThen(fr, g, p, st, k, q, st', 1, Reaches(At(next, 0)), st');
    }
  }

  /** The value of an expression goes to a variable. */
  lemma StoreSim(fr: Frame, g: Cfg, e: Exp, x: nat, p: Point, end: Point, vars: Vars, st: State, jumps: Option<Jumps>,
      n: nat) returns (st': State)
    requires Pre(fr, g) && StoresAt(g, e, x, p, end) && Holds(vars, st)
    ensures Meets(fr, g, p, st, n, SetVar(EvalExp(EnvOf(fr), e, vars, st.heap), x, vars, st.heap), Falls(end), jumps,
            0, st')
  {
    hide Steps, EndsIn, Has, OpsOk, NamedOnce, Untouched, Owned;
    var v, q :| ExpAt(g, e, p, v, q) && Has(g, q, Store(Ref(Slot(x)), v)) && end == After(q);
    st' := ExpSim(fr, g, e, p, v, q, vars, st);
    match EvalExp(EnvOf(fr), e, vars, st.heap)
    case ExpFailed(_) =>
    case ExpUndefined =>
    case Value(w, h) =>
      var st1 := st';
      var ins := Store(Ref(Slot(x)), v);
      InstrStep(fr, g, q, ins, st1);
      st' := st1.(slots := st1.slots[Slot(x) := w]);
      assert Exec(fr, ins, st1) == Ok(st');
      LandsThen(fr, g, p, st, 0, q, st1, 0, Reaches(end), st');
      HoldsStill(vars, st, st1);
      StoreHolds(vars, x, w, st1);
  }

  lemma StoreHolds(vars: Vars, x: nat, v: Ir.Value, st: State)
    requires Holds(vars, st)
    ensures Holds(vars[x := v], st.(slots := st.slots[Slot(x) := v]))
  {
  }

  /** A declaration creates the alloca; the variable has no value. */
  lemma AllocaSim(fr: Frame, g: Cfg, x: nat, p: Point, vars: Vars, st: State) returns (st': State)
    requires Pre(fr, g) && Has(g, p, Alloca(Slot(x))) && Holds(vars, st)
    ensures Steps(fr, g, p, st, 0, After(p), st') && st'.heap == st.heap && Holds(vars, st') && Holds(vars - {x}, st')
  {
    hide Steps, EndsIn, Has, OpsOk, NamedOnce, AccessesSlots;
    InstrStep(fr, g, p, Alloca(Slot(x)), st);
    st' := Exec(fr, Alloca(Slot(x)), st).st;
  }

  lemma AtomSim(fr: Frame, g: Cfg, s: Stmt, c: Code, p: Point, jumps: Option<Jumps>, n: nat, vars: Vars, st: State)
      returns (k: nat, st': State)
    requires Pre(fr, g) && StmtAt(g, s, c, p, jumps) && IsAtom(s) && Holds(vars, st)
    ensures Meets(fr, g, p, st, n, Interp(EnvOf(fr), s, n, vars, st.heap), EndOf(c, p), jumps, k, st')
  {
    hide Steps, EndsIn, Has, Ends, ExpAt, StoresAt, Untouched, Owned, Holds, OpsOk, NamedOnce, AccessesSlots;
    k, st' := 0, st;
    match s
    case Evaluate(e) =>
      var v :| ExpAt(g, e, p, v, c.end.p);
      st' := ExpSim(fr, g, e, p, v, c.end.p, vars, st);
      if EvalExp(EnvOf(fr), e, vars, st.heap).Value? { HoldsStill(vars, st, st'); }
    case Declare(x, init) =>
      st' := AllocaSim(fr, g, x, p, vars, st);
      if init.Some? {
        var st1 := st';
        st' := StoreSim(fr, g, init.value, x, After(p), c.end.p, vars, st1, jumps, n);
        MeetsThen(fr, g, p, st, 0, After(p), st1, n, n, Interp(EnvOf(fr), s, n, vars, st.heap), EndOf(c, p), jumps, 0,
          st');
      }
    case Assign(x, e) => st' := StoreSim(fr, g, e, x, p, c.end.p, vars, st, jumps, n);
    case Return(None) => TermStep(fr, g, p, RetVoid, st);
      HoldsClean(vars, st);
    case Return(Some(e)) => st' := ReturnSim(fr, g, s, c, p, jumps, n, vars, st);
    case Break =>
      TermStep(fr, g, p, Br(jumps.value.afterBB), st);
      k := 1;
    case Continue =>
      TermStep(fr, g, p, Br(jumps.value.testBB), st);
      k := 1;
    case _ =>
  }

  lemma HoldsClean(vars: Vars, st: State)
    requires Holds(vars, st)
    ensures st.clean
  {
  }

  lemma ReturnSim(fr: Frame, g: Cfg, s: Stmt, c: Code, p: Point, jumps: Option<Jumps>, n: nat, vars: Vars, st: State)
      returns (st': State)
    requires Pre(fr, g) && StmtAt(g, s, c, p, jumps) && s.Return? && s.result.Some? && Holds(vars, st)
    ensures Meets(fr, g, p, st, n, Interp(EnvOf(fr), s, n, vars, st.heap), EndOf(c, p), jumps, 0, st')
  {
    hide Steps, EndsIn, Has, Ends, ExpAt, Untouched, Owned, OpsOk, NamedOnce, AccessesSlots;
    var e := s.result.value;
    var v, q :| ExpAt(g, e, p, v, q) && Ends(g, q, Ret(v));
    st' := ExpSim(fr, g, e, p, v, q, vars, st);
    if EvalExp(EnvOf(fr), e, vars, st.heap).Value? {
      TermStep(fr, g, q, Ret(v), st');
      LandsThen(fr, g, p, st, 0, q, st', 0, Over(Delivers(Eval(fr, st'.env, v), st'.heap, st'.clean)), st');
    }
  }

  /** Lowering preserves meaning: from where its code starts, every statement does what the source
      says, and control ends up where the source's flow goes. */
  lemma {:induction false} StmtSim(fr: Frame, g: Cfg, s: Stmt, c: Code, p: Point, jumps: Option<Jumps>, n: nat,
      vars: Vars, st: State) returns (k: nat, st': State)
    requires Pre(fr, g) && StmtAt(g, s, c, p, jumps) && Holds(vars, st)
    ensures Meets(fr, g, p, st, n, Interp(EnvOf(fr), s, n, vars, st.heap), EndOf(c, p), jumps, k, st')
    decreases n, s, 2
  {
    hide Steps, EndsIn, KeepsRunning, Has, Ends, OrAt, BranchAt, GoesTo, Complete, OpsOk, NamedOnce, AccessesSlots,
         Holds, ExpAt, StoresAt;
    match s
    case Block(items) => k, st' := ItemsSim(fr, g, items, c, p, jumps, n, vars, st);
    case If(_, _, _) => k, st' := IfSim(fr, g, s, c, p, jumps, n, vars, st);
    case While(_, _) =>
      TermStep(fr, g, p, Br(c.testBB), st);
      var j;
      j, st' := LoopSim(fr, g, s, c, p, jumps, n, vars, st);
      MeetsThen(fr, g, p, st, 1, At(c.testBB, 0), st, n, n, Interp(EnvOf(fr), s, n, vars, st.heap), EndOf(c, p), jumps,
        j, st');
      k := 1 + j;
    case _ => k, st' := AtomSim(fr, g, s, c, p, jumps, n, vars, st);
  }

  lemma {:induction false} ItemsSim(fr: Frame, g: Cfg, items: Items, c: Code, p: Point, jumps: Option<Jumps>, n: nat,
      vars: Vars, st: State) returns (k: nat, st': State)
    requires Pre(fr, g) && ItemsAt(g, items, c, p, jumps) && Holds(vars, st)
    ensures Meets(fr, g, p, st, n, InterpItems(EnvOf(fr), items, n, vars, st.heap), EndOf(c, p), jumps, k, st')
    decreases n, items, 1
  {
    hide Steps, EndsIn, KeepsRunning, Pre, StmtAt, Holds;
    match items
    case Done =>
      Stay(fr, g, p, st);
      k, st' := 0, st;
    case Item(s, rest) =>
      k, st' := StmtSim(fr, g, s, c.first, p, jumps, n, vars, st);
      var r := Interp(EnvOf(fr), s, n, vars, st.heap);
      if r.flow.Normal? {
        var q, k1, st1 := EndOf(c.first, p).p, k, st';
        var j;
        j, st' := ItemsSim(fr, g, rest, c.rest, q, jumps, n, r.vars, st1);
        MeetsThen(fr, g, p, st, k1, q, st1, n, n, InterpItems(EnvOf(fr), rest, n, r.vars, r.heap), EndOf(c.rest, q),
          jumps, j,
                  st');
        k := k1 + j;
      }
  }

  lemma {:induction false} IfSim(fr: Frame, g: Cfg, s: Stmt, c: Code, p: Point, jumps: Option<Jumps>, n: nat,
      vars: Vars, st: State) returns (k: nat, st': State)
    requires Pre(fr, g) && s.If? && StmtAt(g, s, c, p, jumps) && Holds(vars, st)
    ensures Meets(fr, g, p, st, n, Interp(EnvOf(fr), s, n, vars, st.heap), EndOf(c, p), jumps, k, st')
    decreases n, s, 0
  {
    hide Steps, EndsIn, KeepsRunning, Has, Ends, OrAt, BranchAt, GoesTo, Complete, OpsOk, NamedOnce, AccessesSlots,
         Holds;
    k, st' := CondSim(fr, g, s.cond, c.cond, c.test, p, c.trueBB, c.falseBB, vars, st);
    var r := EvalLOr(EnvOf(fr), s.cond, vars, st.heap);
    if r.Truth? {
      var k1, st1 := k, st';
      HoldsStill(vars, st, st1);
      var q := Target(r.b, c.trueBB, c.falseBB);
      var branch := if r.b then c.thenCode else c.elseCode;
      var res := Interp(EnvOf(fr), s, n, vars, st.heap);
      var j;
      if r.b {
        j, st' := StmtSim(fr, g, s.thenStmt, branch, q, jumps, n, vars, st1);
      } else if s.elseStmt.Some? {
        j, st' := StmtSim(fr, g, s.elseStmt.value, branch, q, jumps, n, vars, st1);
      } else {
        Stay(fr, g, q, st1);
        j, st' := 0, st1;
      }
      assert Meets(fr, g, q, st1, n, res, EndOf(branch, q), jumps, j, st');
      GoesOn(fr, g, branch, q, c.mergeBB, st1, n, res, jumps, j, st');
      if res.flow.Normal? { j := j + 1; }
      MeetsThen(fr, g, p, st, k1, q, st1, n, n, res, EndOf(c, p), jumps, j, st');
      k := k1 + j;
    }
  }

  /** From the head of a loop. */
  lemma {:induction false} LoopSim(fr: Frame, g: Cfg, s: Stmt, c: Code, p: Point, jumps: Option<Jumps>, n: nat,
      vars: Vars, st: State) returns (k: nat, st': State)
    requires Pre(fr, g) && s.While? && StmtAt(g, s, c, p, jumps) && Holds(vars, st)
    ensures Meets(fr, g, At(c.testBB, 0), st, n, Interp(EnvOf(fr), s, n, vars, st.heap), EndOf(c, p), jumps, k, st')
    decreases n, s, 1
  {
    hide Steps, EndsIn, Has, Ends, OrAt, BranchAt, GoesTo, Complete, OpsOk, NamedOnce, AccessesSlots, Holds;
    k, st' := 0, st;
    if n > 0 {
      hide KeepsRunning;
      var head, res := At(c.testBB, 0), Interp(EnvOf(fr), s, n, vars, st.heap);
      k, st' := CondSim(fr, g, s.cond, c.cond, c.test, head, c.condBB, c.afterBB, vars, st);
      var r := EvalLOr(EnvOf(fr), s.cond, vars, st.heap);
      if r.Truth? { HoldsStill(vars, st, st'); }
      if r.Truth? && r.b {
        var k1, st1, q := k, st', At(c.condBB, 0);
        var j;
        j, st' := BodySim(fr, g, s, c, p, n, vars, st1);
        var rb := Interp(EnvOf(fr), s.body, n, vars, st1.heap);
        if rb.flow.Normal? || rb.flow.Continued? {
          var j1, st2 := j, st';
          var i;
          i, st' := LoopSim(fr, g, s, c, p, jumps, n - 1, rb.vars, st2);
          MeetsThen(fr, g, q, st1, j1, head, st2, n, n - 1, res, EndOf(c, p), jumps, i, st');
          j := j1 + i;
        }
        MeetsThen(fr, g, head, st, k1, q, st1, n, n, res, EndOf(c, p), jumps, j, st');
        k := k1 + j;
      }
    }
  }

  /** The body of a loop: back to the head, behind the loop, or out of the function. */
  lemma {:induction false} BodySim(fr: Frame, g: Cfg, s: Stmt, c: Code, p: Point, n: nat, vars: Vars, st: State)
      returns (k: nat, st': State)
    requires Pre(fr, g) && s.While? && c.Loop? && n > 0 && Holds(vars, st)
    requires StmtAt(g, s.body, c.body, At(c.condBB, 0), Some(Jumps(c.testBB, c.afterBB)))
    requires GoesTo(g, c.body, At(c.condBB, 0), c.testBB)
    ensures var r := Interp(EnvOf(fr), s.body, n, vars, st.heap);
            if r.flow.Normal? || r.flow.Continued? then
              k > 0 && Steps(fr, g, At(c.condBB, 0), st, k, At(c.testBB, 0), st') && LeavesAs(r, st')
            else if r.flow.Broke? then
              Steps(fr, g, At(c.condBB, 0), st, k, At(c.afterBB, 0), st') && LeavesAs(r, st')
            else forall exit, jumps :: Meets(fr, g, At(c.condBB, 0), st, n, r, exit, jumps, k, st')
    decreases n, s, 0
  {
    hide Steps, EndsIn, KeepsRunning, Has, Ends, GoesTo, Complete, OpsOk, NamedOnce, AccessesSlots, Holds;
    var q, inner := At(c.condBB, 0), Some(Jumps(c.testBB, c.afterBB));
    k, st' := StmtSim(fr, g, s.body, c.body, q, inner, n, vars, st);
    var r := Interp(EnvOf(fr), s.body, n, vars, st.heap);
    GoesOn(fr, g, c.body, q, c.testBB, st, n, r, inner, k, st');
    if r.flow.Normal? { k := k + 1; }
  }

  // ----- Functions -----

  lemma {:induction false} RunMore(fr: Frame, g: Cfg, fuel: nat, more: nat, p: Point, st: State)
    requires fuel <= more && RunAt(fr, g, fuel, p, st) != Running
    ensures RunAt(fr, g, more, p, st) == RunAt(fr, g, fuel, p, st)
    decreases fuel
  {
    var r := ExecBody(fr, g[p.b].body[p.i..], st);
    if r.Ok? {
      var n := Ir.Branch(fr, r.st.env, g[p.b].term.value);
      if n.Goto? { RunMore(fr, g, fuel - 1, more - 1, At(n.b, 0), r.st); }
    }
  }

  /** An ending and the outcome of a run of the finished function say the same. */
  predicate SameEnding(e: Ending, o: Outcome) {
    match e
    case Delivers(v, h, c) => o.Finished? && o.val == v && o.heap == h && o.clean == c
    case Traps(h) => o.Stuck? && o.heap == h
    case Running => o.OutOfFuel?
  }

  lemma {:induction false} RunIsRunAt(fr: Frame, g: Cfg, fuel: nat, b: Block, pred: Option<Block>, st: State,
      path: seq<Block>)
    requires Complete(g)
    ensures SameEnding(RunAt(fr, g, fuel, At(b, 0), st), Run(fr, Finish(g), fuel, b, pred, st, path))
    decreases fuel
  {
    if fuel > 0 && b < |g| {
      assert g[b].body[0..] == g[b].body && st.(env := EnterBlock(fr, [], pred, st.env)) == st;
      var r := ExecBody(fr, g[b].body, st);
      if r.Ok? {
        var n := Ir.Branch(fr, r.st.env, g[b].term.value);
        if n.Goto? { RunIsRunAt(fr, g, fuel - 1, n.b, Some(b), r.st, path + [b]); }
      }
    }
  }

  /** How the run of a whole function ends. */
  function EndingOf(r: Result, last: Terminator): Ending {
    match r.flow
    case Normal => Delivers(Default(last), r.heap, true)
    case Gone(v) => Delivers(v, r.heap, true)
    case Trapped => Traps(r.heap)
    case _ => Running
  }

  /** Alloca and store of one parameter. */
  lemma ParamSim(fr: Frame, g: Cfg, i: nat, n: nat, st: State) returns (st': State)
    requires Pre(fr, g) && ParamsAt(g, n) && i < n && Holds(Params(fr.args, i), st)
    ensures Steps(fr, g, Start(i), st, 0, Start(i + 1), st') && st'.heap == st.heap
    ensures Holds(Params(fr.args, i + 1), st')
  {
    hide Steps, EndsIn, OpsOk, NamedOnce;
    var p := Start(i);
    assert Has(g, p, Alloca(Slot(i))) && Has(g, After(p), Store(Ref(Slot(i)), Arg(i)));
    hide Has;
    var st1 := AllocaSim(fr, g, i, p, Params(fr.args, i), st);
    var ins := Store(Ref(Slot(i)), Arg(i));
    InstrStep(fr, g, After(p), ins, st1);
    var v := Eval(fr, st1.env, Arg(i));
    st' := st1.(slots := st1.slots[Slot(i) := v]);
    LandsThen(fr, g, p, st, 0, After(p), st1, 0, Reaches(After(After(p))), st');
    StoreHolds(Params(fr.args, i), i, v, st1);
    assert Params(fr.args, i + 1) == Params(fr.args, i)[i := v];
  }

  lemma {:induction false} ParamsSim(fr: Frame, g: Cfg, i: nat, n: nat, st: State) returns (st': State)
    requires Pre(fr, g) && ParamsAt(g, n) && i <= n && Holds(Params(fr.args, i), st)
    ensures Steps(fr, g, Start(i), st, 0, Start(n), st') && st'.heap == st.heap && Holds(Params(fr.args, n), st')
    decreases n - i
  {
    hide Steps, Pre, ParamsAt, Holds, Params, Start;
    if i == n {
      Stay(fr, g, Start(i), st);
      st' := st;
    } else {
      var st1 := ParamSim(fr, g, i, n, st);
      st' := ParamsSim(fr, g, i + 1, n, st1);
      LandsThen(fr, g, Start(i), st, 0, Start(i + 1), st1, 0, Reaches(Start(n)), st');
    }
  }

  function Begin(h: Heap): State {
    State(map[], map[], h, true)
  }

  lemma BodyEnds(fr: Frame, g: Cfg, np: nat, body: Stmt, c: Code, last: Terminator, n: nat, h: Heap) returns (k: nat)
    requires Pre(fr, g) && FunctionAt(g, np, body, c, last) && IsDefault(last)
    ensures var r := InterpBody(EnvOf(fr), fr.args, np, body, n, h);
            if r.flow.NoFuel? then KeepsRunning(fr, g, At(ENTRY, 0), Begin(h), n)
            else r.flow.Undefined? || (EndingOf(r, last) != Running
                                       && EndsIn(fr, g, At(ENTRY, 0), Begin(h), k, EndingOf(r, last)))
  {
    hide Steps, EndsIn, KeepsRunning, Pre, StmtAt, Ends, Interp, ParamsAt, Holds, Params;
    var st, st1, st' := Begin(h), Begin(h), Begin(h);
    NothingHolds(h, fr.args);
    st1 := ParamsSim(fr, g, 0, np, st);
    k, st' := StmtSim(fr, g, body, c, Start(np), None, n, Params(fr.args, np), st1);
    var r := InterpBody(EnvOf(fr), fr.args, np, body, n, h);
    MeetsThen(fr, g, At(ENTRY, 0), st, 0, Start(np), st1, n, n, r, EndOf(c, Start(np)), None, k, st');
    if r.flow.Normal? {
      var q := EndOf(c, Start(np)).p;
      PreComplete(fr, g);
      TermStep(fr, g, q, last, st');
      HoldsClean(r.vars, st');
      LandsThen(fr, g, At(ENTRY, 0), st, k, q, st', 0, Over(Delivers(Default(last), r.heap, true)), st');
    }
  }

  lemma NothingHolds(h: Heap, args: seq<Ir.Value>)
    ensures Holds(Params(args, 0), Begin(h)) && Start(0) == At(ENTRY, 0)
  {
  }

  lemma PreComplete(fr: Frame, g: Cfg)
    requires Pre(fr, g)
    ensures Complete(g)
  {
  }

  /** Lowering preserves meaning. Whenever the interpreter with some fuel and the run of the lowered
      function with some fuel have both come to an end, they agree on the value, the memory and
      whether there was a trap; and each comes to an end if the other one does. Nothing is said of programs
      that read a variable before it has a value. */
  lemma LoweringPreservesMeaning(fr: Frame, g: Cfg, np: nat, body: Stmt, c: Code, last: Terminator, h: Heap, n: nat,
      fuel: nat)
    requires Pre(fr, g) && FunctionAt(g, np, body, c, last) && IsDefault(last)
    ensures var r, o := InterpBody(EnvOf(fr), fr.args, np, body, n, h),
            Run(fr, Finish(g), fuel, ENTRY, None, Begin(h), []);
            && (!r.flow.NoFuel? && !r.flow.Undefined? && !o.OutOfFuel? ==> SameEnding(EndingOf(r, last), o))
            && (!r.flow.NoFuel? && !r.flow.Undefined? ==>
                 exists k :: !Run(fr, Finish(g), k, ENTRY, None, Begin(h), []).OutOfFuel?)
            && (!o.OutOfFuel? ==> !InterpBody(EnvOf(fr), fr.args, np, body, fuel, h).flow.NoFuel?)
  {
    hide StmtAt, FunctionAt, Interp, Run, OpsOk, InterpBody, NamedOnce, AccessesSlots, Ends, ExecBody;
    var st := Begin(h);
    PreComplete(fr, g);
    var k := BodyEnds(fr, g, np, body, c, last, n, h);
    var j := BodyEnds(fr, g, np, body, c, last, fuel, h);
    RunIsRunAt(fr, g, fuel, ENTRY, None, st, []);
    var r := InterpBody(EnvOf(fr), fr.args, np, body, n, h);
    if !r.flow.NoFuel? && !r.flow.Undefined? {
      RunIsRunAt(fr, g, k + 1, ENTRY, None, st, []);
      assert RunAt(fr, g, k + 1, At(ENTRY, 0), st) == EndingOf(r, last);
      if RunAt(fr, g, fuel, At(ENTRY, 0), st) != Running {
        var m := if fuel <= k then k + 1 else fuel;
        RunMore(fr, g, fuel, m, At(ENTRY, 0), st);
        assert RunAt(fr, g, m, At(ENTRY, 0), st) == EndingOf(r, last);
      }
    }
  }
}
