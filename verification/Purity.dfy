/** What purity means: a call of a pure function leaves memory and the history of external calls
    alone, and its result depends on nothing but its arguments. */
module Purity {
  import opened ControlFlow
  import opened Ir
  import opened Programs
  import opened PromotionMeaning
  import opened FuncInfo

  const EMPTY: Heap := Heap(map[], [])

  // ----- What is asked of the functions -----

  /** Addresses are globals, arguments, allocas, getelementptr results or loaded pointers. */
  predicate AddressForm(defs: Definitions, o: Operand) {
    match o
    case Ref(d) => d in defs && defs[d].Plain? && (defs[d].ins.Alloca? || defs[d].ins.Gep? || defs[d].ins.Load?)
    case _ => true
  }

  ghost predicate InstrOk(defs: Definitions, ins: Instr) {
    && (!ins.Store? ==> ins.dst in defs && defs[ins.dst] == Plain(ins))
    && (ins.Load? || ins.Store? ==> AddressForm(defs, ins.ptr))
    && (ins.Gep? ==> AddressForm(defs, ins.base))
  }

  /** The table knows every definition of the function, and addresses have the form above. */
  ghost predicate FunctionForm(fn: Function, defs: Definitions) {
    && TableOk(fn.blocks, defs)
    && (forall b, i {:trigger fn.blocks[b].body[i]} :: 0 <= b < |fn.blocks| && 0 <= i < |fn.blocks[b].body| ==>
          InstrOk(defs, fn.blocks[b].body[i]))
  }

  ghost predicate ProgramForm(P: Program, defs: seq<Definitions>, ranks: seq<map<Name, nat>>) {
    TablesOk(P, defs, ranks) && forall f {:trigger FunctionForm(P[f], defs[f])} :: 0 <= f < |P| ==>
      FunctionForm(P[f], defs[f])
  }

  // ----- Adding surroundings to a run -----

  /** A memory around the local one. */
  function Around(local: Heap, h: Heap): Heap {
    Heap(h.mem + local.mem, h.log)
  }

  function With(s: State, h: Heap): State {
    s.(heap := Around(s.heap, h))
  }

  function WithStep(r: Step, h: Heap): Step {
    match r
    case Ok(s) => Ok(With(s, h))
    case Trap(s) => Trap(With(s, h))
  }

  function WithOutcome(o: Outcome, h: Heap): Outcome {
    match o
    case Finished(v, l, p, c) => Finished(v, Around(l, h), p, c)
    case Stuck(l, p, c) => Stuck(Around(l, h), p, c)
    case OutOfFuel(l, p, c) => OutOfFuel(Around(l, h), p, c)
  }

  /** The result a call with memory `h` has if `r` is the result with an empty memory. */
  function CallWith(r: CallResult, h: Heap): CallResult {
    match r
    case Returned(v, _, c) => Returned(v, h, c)
    case Failed(c) => Failed(c)
  }

  /** Only objects of this activation. */
  ghost predicate Local(h: Heap, depth: nat) {
    h.log == [] && forall c :: c in h.mem ==> c.0.LocalObj? && c.0.depth == depth
  }

  /** Only objects that existed before this activation. */
  ghost predicate Outside(h: Heap, depth: nat) {
    forall c :: c in h.mem && c.0.LocalObj? ==> c.0.depth < depth
  }

  /** Names with a local address point to objects of this activation, if to anything. */
  ghost predicate EnvLocal(fn: Function, defs: Definitions, rank: map<Name, nat>, depth: nat, env: map<Name, Value>)
    requires Ranked(fn, defs, rank)
  {
    forall d {:trigger env[d]} ::
      d in env && AddressForm(defs, Ref(d)) && LocalAddress(fn, defs, rank, Ref(d)) && env[d].Ptr? ==>
      env[d].obj.LocalObj? && env[d].obj.depth == depth
  }

  ghost predicate PureCallee(fr: Frame, g: nat) {
    forall args, h {:trigger fr.call(g, args, h)} :: Outside(h, fr.depth + 1) ==>
      fr.call(g, args, h) == CallWith(fr.call(g, args, EMPTY), h)
  }

  ghost predicate QuietInstr(fn: Function, defs: Definitions, rank: map<Name, nat>, fr: Frame, ins: Instr)
    requires Ranked(fn, defs, rank)
  {
    && InstrOk(defs, ins) && !SideEffect(fn, defs, rank, ins)
    && (ins.Call? ==> PureCallee(fr, ins.callee))
  }

  lemma LocalPointer(fn: Function, defs: Definitions, rank: map<Name, nat>, fr: Frame, env: map<Name, Value>,
      p: Operand)
    requires Ranked(fn, defs, rank) && AddressForm(defs, p) && LocalAddress(fn, defs, rank, p)
    requires EnvLocal(fn, defs, rank, fr.depth, env)
    ensures var a := Eval(fr, env, p); a.Ptr? ==> a.obj.LocalObj? && a.obj.depth == fr.depth
  {
    if p.Ref? && p.name in env {
      var a := env[p.name];
    }
  }

  lemma DefineLocal(fn: Function, defs: Definitions, rank: map<Name, nat>, fr: Frame, env: map<Name, Value>,
      ins: Instr, v: Value)
    requires Ranked(fn, defs, rank) && EnvLocal(fn, defs, rank, fr.depth, env) && InstrOk(defs, ins) && !ins.Store?
    requires ins.Alloca? ==> v == Ptr(LocalObj(fr.depth, ins.dst), 0)
    requires ins.Gep? ==> v.Ptr? ==> Eval(fr, env, ins.base).Ptr? && v.obj == Eval(fr, env, ins.base).obj
    ensures EnvLocal(fn, defs, rank, fr.depth, env[ins.dst := v])
  {
    if LocalAddress(fn, defs, rank, Ref(ins.dst)) && ins.Gep? {
      LocalPointer(fn, defs, rank, fr, env, ins.base);
    }
  }

  lemma AroundStore(local: Heap, h: Heap, c: Cell, v: Value)
    ensures Around(local.(mem := local.mem[c := v]), h) == Around(local, h).(mem := Around(local, h).mem[c := v])
  {
  }

  /** An instruction of a pure function does the same thing in any surroundings. */
  lemma QuietExec(fn: Function, defs: Definitions, rank: map<Name, nat>, fr: Frame, ins: Instr, s: State, h: Heap)
    requires Ranked(fn, defs, rank) && QuietInstr(fn, defs, rank, fr, ins)
    requires Local(s.heap, fr.depth) && Outside(h, fr.depth) && EnvLocal(fn, defs, rank, fr.depth, s.env)
    ensures Exec(fr, ins, With(s, h)) == WithStep(Exec(fr, ins, s), h)
    ensures var r := Exec(fr, ins, s).st; Local(r.heap, fr.depth) && EnvLocal(fn, defs, rank, fr.depth, r.env)
  {
    match ins
    case Alloca(a) =>
      DefineLocal(fn, defs, rank, fr, s.env, ins, Ptr(LocalObj(fr.depth, a), 0));
    case Load(d, p) => QuietLoad(fn, defs, rank, fr, ins, s, h);
    case Store(p, v) => QuietStore(fn, defs, rank, fr, ins, s, h);
    case Gep(d, b, idxs) =>
      DefineLocal(fn, defs, rank, fr, s.env, ins, Exec(fr, ins, s).st.env[d]);
    case Op(d, code, args) =>
      var r := fr.world.op(code, EvalAll(fr, s.env, args));
      if r.Some? { DefineLocal(fn, defs, rank, fr, s.env, ins, r.value); }
    case Call(d, g, args) => QuietCall(fn, defs, rank, fr, ins, s, h);
  }

  lemma QuietLoad(fn: Function, defs: Definitions, rank: map<Name, nat>, fr: Frame, ins: Instr, s: State, h: Heap)
    requires Ranked(fn, defs, rank) && QuietInstr(fn, defs, rank, fr, ins) && ins.Load?
    requires Local(s.heap, fr.depth) && Outside(h, fr.depth) && EnvLocal(fn, defs, rank, fr.depth, s.env)
    ensures Exec(fr, ins, With(s, h)) == WithStep(Exec(fr, ins, s), h)
    ensures var r := Exec(fr, ins, s).st; Local(r.heap, fr.depth) && EnvLocal(fn, defs, rank, fr.depth, r.env)
  {
    LocalPointer(fn, defs, rank, fr, s.env, ins.ptr);
    hide Ranked, FirstAddr, LocalAddress, EnvLocal, AddressForm;
    var r := Exec(fr, ins, s);
    if r.Ok? {
      DefineLocal(fn, defs, rank, fr, s.env, ins, r.st.env[ins.dst]);
    }
    if !IsSlot(fr.allocas, ins.ptr) {
      var a := Eval(fr, s.env, ins.ptr);
      if a.Ptr? { AroundLoad(s.heap, h, fr.depth, (a.obj, a.off)); }
    }
  }

  lemma AroundLoad(local: Heap, h: Heap, depth: nat, c: Cell)
    requires Outside(h, depth) && c.0.LocalObj? && c.0.depth == depth
    ensures c in Around(local, h).mem <==> c in local.mem
    ensures c in local.mem ==> Around(local, h).mem[c] == local.mem[c]
  {
  }

  lemma QuietStore(fn: Function, defs: Definitions, rank: map<Name, nat>, fr: Frame, ins: Instr, s: State, h: Heap)
    requires Ranked(fn, defs, rank) && QuietInstr(fn, defs, rank, fr, ins) && ins.Store?
    requires Local(s.heap, fr.depth) && Outside(h, fr.depth) && EnvLocal(fn, defs, rank, fr.depth, s.env)
    ensures Exec(fr, ins, With(s, h)) == WithStep(Exec(fr, ins, s), h)
    ensures var r := Exec(fr, ins, s).st; Local(r.heap, fr.depth) && EnvLocal(fn, defs, rank, fr.depth, r.env)
  {
    LocalPointer(fn, defs, rank, fr, s.env, ins.ptr);
    var a := Eval(fr, s.env, ins.ptr);
    if a.Ptr? {
      AroundStore(s.heap, h, (a.obj, a.off), Eval(fr, s.env, ins.val));
    }
  }

  lemma QuietCall(fn: Function, defs: Definitions, rank: map<Name, nat>, fr: Frame, ins: Instr, s: State, h: Heap)
    requires Ranked(fn, defs, rank) && QuietInstr(fn, defs, rank, fr, ins) && ins.Call?
    requires Local(s.heap, fr.depth) && Outside(h, fr.depth) && EnvLocal(fn, defs, rank, fr.depth, s.env)
    ensures Exec(fr, ins, With(s, h)) == WithStep(Exec(fr, ins, s), h)
    ensures var r := Exec(fr, ins, s).st; Local(r.heap, fr.depth) && EnvLocal(fn, defs, rank, fr.depth, r.env)
  {
    var args := EvalAll(fr, s.env, ins.args);
    assert Outside(Around(s.heap, h), fr.depth + 1) && Outside(s.heap, fr.depth + 1);
    assert fr.call(ins.callee, args, s.heap) == CallWith(fr.call(ins.callee, args, EMPTY), s.heap);
    assert fr.call(ins.callee, args, Around(s.heap, h))
      == CallWith(fr.call(ins.callee, args, EMPTY), Around(s.heap, h));
    var r := fr.call(ins.callee, args, s.heap);
    if r.Returned? {
      DefineLocal(fn, defs, rank, fr, s.env, ins, r.val);
    }
  }

  ghost predicate QuietBody(fn: Function, defs: Definitions, rank: map<Name, nat>, fr: Frame, body: seq<Instr>)
    requires Ranked(fn, defs, rank)
  {
    forall i :: 0 <= i < |body| ==> QuietInstr(fn, defs, rank, fr, body[i])
  }

  lemma {:induction false} QuietExecBody(fn: Function, defs: Definitions, rank: map<Name, nat>, fr: Frame,
      body: seq<Instr>, s: State, h: Heap)
    requires Ranked(fn, defs, rank) && QuietBody(fn, defs, rank, fr, body)
    requires Local(s.heap, fr.depth) && Outside(h, fr.depth) && EnvLocal(fn, defs, rank, fr.depth, s.env)
    ensures ExecBody(fr, body, With(s, h)) == WithStep(ExecBody(fr, body, s), h)
    ensures var r := ExecBody(fr, body, s).st; Local(r.heap, fr.depth) && EnvLocal(fn, defs, rank, fr.depth, r.env)
  {
    if body != [] {
      hide QuietInstr, Exec, Local, Outside, EnvLocal;
      QuietExec(fn, defs, rank, fr, body[0], s, h);
      var r := Exec(fr, body[0], s);
      if r.Ok? {
        QuietExecBody(fn, defs, rank, fr, body[1..], r.st, h);
      }
    }
  }

  lemma {:induction false} EnterLocal(fn: Function, defs: Definitions, rank: map<Name, nat>, fr: Frame, phis: seq<Phi>,
      pred: Option<Block>, env: map<Name, Value>)
    requires Ranked(fn, defs, rank) && EnvLocal(fn, defs, rank, fr.depth, env)
    requires forall k :: 0 <= k < |phis| ==> phis[k].dst in defs && defs[phis[k].dst].Join?
    ensures EnvLocal(fn, defs, rank, fr.depth, EnterBlock(fr, phis, pred, env))
  {
    if phis != [] {
      EnterLocal(fn, defs, rank, fr, phis[..|phis| - 1], pred, env);
    }
  }

  ghost predicate QuietFunction(fn: Function, defs: Definitions, rank: map<Name, nat>, fr: Frame)
    requires Ranked(fn, defs, rank)
  {
    && FunctionForm(fn, defs)
    && forall b {:trigger fn.blocks[b]} :: 0 <= b < |fn.blocks| ==> QuietBody(fn, defs, rank, fr, fn.blocks[b].body)
  }

  lemma {:induction false} QuietRun(fn: Function, defs: Definitions, rank: map<Name, nat>, fr: Frame, fuel: nat,
      b: Block, pred: Option<Block>, s: State, h: Heap, path: seq<Block>)
    requires Ranked(fn, defs, rank) && QuietFunction(fn, defs, rank, fr)
    requires Local(s.heap, fr.depth) && Outside(h, fr.depth) && EnvLocal(fn, defs, rank, fr.depth, s.env)
    ensures var o := Run(fr, fn.blocks, fuel, b, pred, s, path);
            Run(fr, fn.blocks, fuel, b, pred, With(s, h), path) == WithOutcome(o, h) && Local(o.heap, fr.depth)
    decreases fuel
  {
    if fuel > 0 && b < |fn.blocks| {
      hide Local, Outside, QuietBody, EnvLocal, Branch, ExecBody, EnterBlock, TableOk, Ranked, InstrOk;
      var phis := fn.blocks[b].phis;
      EnterLocal(fn, defs, rank, fr, phis, pred, s.env);
      var s1 := s.(env := EnterBlock(fr, phis, pred, s.env));
      assert With(s, h).(env := EnterBlock(fr, phis, pred, s.env)) == With(s1, h);
      QuietExecBody(fn, defs, rank, fr, fn.blocks[b].body, s1, h);
      var r := ExecBody(fr, fn.blocks[b].body, s1);
      RunRest(fr, fn.blocks, fuel, b, pred, s, path);
      RunRest(fr, fn.blocks, fuel, b, pred, With(s, h), path);
      hide Run, QuietFunction, Rest, Around;
      if r.Ok? {
        var n := Branch(fr, r.st.env, fn.blocks[b].term);
        if n.Goto? {
          QuietRun(fn, defs, rank, fr, fuel - 1, n.b, Some(b), r.st, h, path + [b]);
        }
      }
      RestWith(fr, fn.blocks, fuel, b, r, h, path);
    }
  }

  /** A run after the body of its first block. */
  function Rest(fr: Frame, blocks: seq<BasicBlock>, fuel: nat, b: Block, r: Step, path: seq<Block>): Outcome
    requires fuel > 0 && b < |blocks|
  {
    match r
    case Trap(st) => Stuck(st.heap, path + [b], st.clean)
    case Ok(st) =>
      match Branch(fr, st.env, blocks[b].term)
      case NoBranch => Stuck(st.heap, path + [b], st.clean)
      case Return(v) => Finished(v, st.heap, path + [b], st.clean)
      case Goto(c) => Run(fr, blocks, fuel - 1, c, Some(b), st, path + [b])
  }

  lemma RestWith(fr: Frame, blocks: seq<BasicBlock>, fuel: nat, b: Block, r: Step, h: Heap, path: seq<Block>)
    requires fuel > 0 && b < |blocks| && Local(r.st.heap, fr.depth)
    requires r.Ok? && Branch(fr, r.st.env, blocks[b].term).Goto? ==>
               var c := Branch(fr, r.st.env, blocks[b].term).b;
               var o := Run(fr, blocks, fuel - 1, c, Some(b), r.st, path + [b]);
               Run(fr, blocks, fuel - 1, c, Some(b), With(r.st, h), path + [b]) == WithOutcome(o, h)
                 && Local(o.heap, fr.depth)
    ensures var o := Rest(fr, blocks, fuel, b, r, path);
            Rest(fr, blocks, fuel, b, WithStep(r, h), path) == WithOutcome(o, h) && Local(o.heap, fr.depth)
  {
    hide Run, Local, Branch;
  }

  lemma RunRest(fr: Frame, blocks: seq<BasicBlock>, fuel: nat, b: Block, pred: Option<Block>, s: State,
      path: seq<Block>)
    requires fuel > 0 && b < |blocks|
    ensures var r := ExecBody(fr, blocks[b].body, s.(env := EnterBlock(fr, blocks[b].phis, pred, s.env)));
            Run(fr, blocks, fuel, b, pred, s, path) == Rest(fr, blocks, fuel, b, r, path)
  {
  }

  // ----- Calls of pure functions -----

  lemma SurvivingAround(local: Heap, h: Heap, depth: nat)
    requires Local(local, depth)
    ensures Outside(Surviving(h, depth), depth)
    ensures Surviving(Around(local, Surviving(h, depth)), depth) == Surviving(h, depth)
    ensures Surviving(local, depth) == EMPTY
  {
  }

  lemma QuietFrame(P: Program, defs: seq<Definitions>, ranks: seq<map<Name, nat>>, w: World, k: nat, depth: nat,
      f: nat, args: seq<Value>)
    requires ProgramForm(P, defs, ranks) && f < |P| && !ReachesImpure(P, defs, ranks, f)
    requires forall g: nat :: !ReachesImpure(P, defs, ranks, g) ==> PureCallee(FrameOf(P, w, k, depth, f, args), g)
    ensures assert Ranked(P[f], defs[f], ranks[f]);
            QuietFunction(P[f], defs[f], ranks[f], FrameOf(P, w, k, depth, f, args))
    ensures !P[f].declared
  {
    if TriviallyImpure(P, defs, ranks, f) {
      ImpureItself(P, defs, ranks, f);
    }
    assert FunctionForm(P[f], defs[f]) && Ranked(P[f], defs[f], ranks[f]);
    var fr := FrameOf(P, w, k, depth, f, args);
    hide PureCallee, FrameOf, CallFn, ReachesImpure;
    forall b, i | 0 <= b < |P[f].blocks| && 0 <= i < |P[f].blocks[b].body|
      ensures QuietInstr(P[f], defs[f], ranks[f], fr, P[f].blocks[b].body[i])
    {
      assert !EffectAt(P, defs, ranks, f, b, i);
      var ins := P[f].blocks[b].body[i];
      assert InstrOk(defs[f], ins);
      if ins.Call? {
        assert CallsAt(P, f, ins.callee, b, i);
        if ReachesImpure(P, defs, ranks, ins.callee) {
          CallStep(P, defs, ranks, f, ins.callee);
        }
      }
    }
  }

  /** Purity is sound: whatever the memory and the history of external calls, a call of a pure
      function returns what it returns on an empty memory, and leaves the memory as it was. */
  lemma {:induction false} PureCallsAreFunctions(P: Program, defs: seq<Definitions>, ranks: seq<map<Name, nat>>,
      w: World, k: nat, depth: nat, f: nat, args: seq<Value>, h: Heap)
    requires ProgramForm(P, defs, ranks) && !ReachesImpure(P, defs, ranks, f)
    ensures CallFn(P, w, k, depth, f, args, h) == CallWith(CallFn(P, w, k, depth, f, args, EMPTY), Surviving(h, depth))
    decreases k
  {
    if f < |P| && k > 0 {
      forall g: nat | !ReachesImpure(P, defs, ranks, g)
        ensures PureCallee(FrameOf(P, w, k - 1, depth, f, args), g)
      {
        var fr := FrameOf(P, w, k - 1, depth, f, args);
        forall a: seq<Value>, m: Heap | Outside(m, fr.depth + 1)
          ensures fr.call(g, a, m) == CallWith(fr.call(g, a, EMPTY), m)
        {
          PureCallsAreFunctions(P, defs, ranks, w, k - 1, depth + 1, g, a, m);
          OutsideSurvives(m, depth + 1);
        }
      }
      QuietFrame(P, defs, ranks, w, k - 1, depth, f, args);
      PureRun(P, defs, ranks, w, k, depth, f, args, h);
    } else if f < |P| {
      if TriviallyImpure(P, defs, ranks, f) {
        ImpureItself(P, defs, ranks, f);
      }
    }
  }

  lemma OutsideSurvives(h: Heap, depth: nat)
    requires Outside(h, depth)
    ensures Surviving(h, depth) == h
  {
  }

  lemma PureRun(P: Program, defs: seq<Definitions>, ranks: seq<map<Name, nat>>, w: World, k: nat,
                depth: nat, f: nat, args: seq<Value>, h: Heap)
    requires ProgramForm(P, defs, ranks) && f < |P| && k > 0 && !P[f].declared && Ranked(P[f], defs[f], ranks[f])
    requires QuietFunction(P[f], defs[f], ranks[f], FrameOf(P, w, k - 1, depth, f, args))
    ensures CallFn(P, w, k, depth, f, args, h) == CallWith(CallFn(P, w, k, depth, f, args, EMPTY), Surviving(h, depth))
  {
    hide Ranked, QuietFunction, FrameOf, Run;
    var fr := FrameOf(P, w, k - 1, depth, f, args);
    assert fr.depth == depth by { FrameDepth(P, w, k - 1, depth, f, args); }
    var h0 := Surviving(h, depth);
    assert With(Start(EMPTY), h0) == Start(h0) by { assert h0.mem + map[] == h0.mem; }
    assert Surviving(EMPTY, depth) == EMPTY;
    var o := Run(fr, P[f].blocks, k, ENTRY, None, Start(EMPTY), []);
    SurvivingAround(EMPTY, h, depth);
    QuietRun(P[f], defs[f], ranks[f], fr, k, ENTRY, None, Start(EMPTY), h0, []);
    SurvivingAround(o.heap, h, depth);
  }

  lemma FrameDepth(P: Program, w: World, k: nat, depth: nat, f: nat, args: seq<Value>)
    requires f < |P|
    ensures FrameOf(P, w, k, depth, f, args).depth == depth
  {
  }
}
