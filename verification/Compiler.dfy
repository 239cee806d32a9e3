/** Source program to optimised program: what a call returns is the same. */
module Compiler {
  import opened ControlFlow
  import opened DominatorTree
  import opened Ir
  import opened SysY
  import opened LoweringMeaning
  import opened Liveness
  import opened Programs
  import opened Source
  import opened FrontEnd
  import opened Pipeline
  import Mem2RegRun
  import PromotionMeaning

  // ----- Calls of source functions and of lowered functions -----

  /** From K on the call returns v and leaves h'. */
  ghost predicate Settles(P: Program, w: World, K: nat, depth: nat, f: nat, args: seq<Ir.Value>, h: Heap,
      v: Ir.Value, h': Heap) {
    forall k: nat {:trigger CallFn(P, w, k, depth, f, args, h)} :: k >= K ==>
      CallFn(P, w, k, depth, f, args, h) == Returned(v, h', true)
  }

  ghost predicate LoweredTo(d: Definition, fn: Function) {
    && fn.declared == d.declared
    && (!d.declared ==> FrontEnd.SameMeaning(d, fn) && forall b :: 0 <= b < |fn.blocks| ==> fn.blocks[b].phis == [])
  }

  ghost predicate ProgramLowered(S: Module, P: Program) {
    |P| == |S| && forall f {:trigger P[f]} :: 0 <= f < |S| ==> LoweredTo(S[f], P[f])
  }

  /** An activation of a lowered function whose calls do what source calls do. */
  function Mixed(S: Module, fn: Function, w: World, k: nat, depth: nat, args: seq<Ir.Value>): Frame {
    Frame(w, depth, args, fn.slots, SourceCalls(S, w, k, depth))
  }

  predicate Returns(r: Result) {
    r.flow.Normal? || r.flow.Gone?
  }

  lemma SameOperands(fr: Frame, fr': Frame, env: map<Name, Ir.Value>, os: seq<Operand>)
    requires fr.args == fr'.args
    ensures EvalAll(fr, env, os) == EvalAll(fr', env, os)
  {
  }

  /** A step that does not trap is the same with lowered functions in place of source functions, for
      all large enough k. */
  lemma {:induction false} InstrSettles(S: Module, P: Program, w: World, k: nat, depth: nat, f: nat,
      args: seq<Ir.Value>, ins: Instr, st: State) returns (K: nat)
    requires ProgramLowered(S, P) && OpsOk(w) && f < |P| && Exec(Mixed(S, P[f], w, k, depth, args), ins, st).Ok?
    ensures forall k' {:trigger FrameOf(P, w, k', depth, f, args)} :: k' >= K ==>
            Exec(FrameOf(P, w, k', depth, f, args), ins, st) == Exec(Mixed(S, P[f], w, k, depth, args), ins, st)
    decreases k, 1
  {
    hide ProgramLowered, OpsOk, CallFn, CallSource;
    K := 0;
    var fr := Mixed(S, P[f], w, k, depth, args);
    if ins.Call? {
      K := CallSettles(S, P, w, k, depth + 1, ins.callee, EvalAll(fr, st.env, ins.args), st.heap);
    }
    forall k' {:trigger FrameOf(P, w, k', depth, f, args)} | k' >= K
      ensures Exec(FrameOf(P, w, k', depth, f, args), ins, st) == Exec(fr, ins, st)
    {
      var fr' := FrameOf(P, w, k', depth, f, args);
      if ins.Op? || ins.Call? { SameOperands(fr, fr', st.env, ins.args); }
      if ins.Gep? { SameOperands(fr, fr', st.env, ins.idxs); }
      if ins.Call? {
        var vs := EvalAll(fr, st.env, ins.args);
        assert fr.call(ins.callee, vs, st.heap) == CallSource(S, w, k, depth + 1, ins.callee, vs, st.heap);
        assert fr'.call(ins.callee, vs, st.heap) == CallFn(P, w, k', depth + 1, ins.callee, vs, st.heap);
      }
    }
  }

  lemma {:induction false} BodySettles(S: Module, P: Program, w: World, k: nat, depth: nat, f: nat,
      args: seq<Ir.Value>, body: seq<Instr>, st: State) returns (K: nat)
    requires ProgramLowered(S, P) && OpsOk(w) && f < |P| && ExecBody(Mixed(S, P[f], w, k, depth, args), body, st).Ok?
    ensures forall k' {:trigger FrameOf(P, w, k', depth, f, args)} :: k' >= K ==>
            ExecBody(FrameOf(P, w, k', depth, f, args), body, st)
            == ExecBody(Mixed(S, P[f], w, k, depth, args), body, st)
    decreases k, 2, |body|
  {
    hide ProgramLowered, OpsOk, Exec, FrameOf, Mixed;
    K := 0;
    if body != [] {
      var K1 := InstrSettles(S, P, w, k, depth, f, args, body[0], st);
      var st' := Exec(Mixed(S, P[f], w, k, depth, args), body[0], st).st;
      var K2 := BodySettles(S, P, w, k, depth, f, args, body[1..], st');
      K := if K1 > K2 then K1 else K2;
    }
  }

  lemma {:induction false} RunSettles(S: Module, P: Program, w: World, k: nat, depth: nat, f: nat,
      args: seq<Ir.Value>, fuel: nat, b: Block, pred: Option<Block>, st: State, path: seq<Block>) returns (K: nat)
    requires ProgramLowered(S, P) && OpsOk(w) && f < |P|
    requires forall c :: 0 <= c < |P[f].blocks| ==> P[f].blocks[c].phis == []
    requires Run(Mixed(S, P[f], w, k, depth, args), P[f].blocks, fuel, b, pred, st, path).Finished?
    ensures forall k', n: nat {:trigger Run(FrameOf(P, w, k', depth, f, args), P[f].blocks, n, b, pred, st, path)} ::
              k' >= K && n >= fuel ==>
              Run(FrameOf(P, w, k', depth, f, args), P[f].blocks, n, b, pred, st, path)
              == Run(Mixed(S, P[f], w, k, depth, args), P[f].blocks, fuel, b, pred, st, path)
    decreases k, 3, fuel
  {
    hide ProgramLowered, OpsOk, ExecBody;
    var fr, bb := Mixed(S, P[f], w, k, depth, args), P[f].blocks[b];
    assert st.(env := EnterBlock(fr, bb.phis, pred, st.env)) == st;
    var K1 := BodySettles(S, P, w, k, depth, f, args, bb.body, st);
    var st' := ExecBody(fr, bb.body, st).st;
    K := K1;
    var next := Ir.Branch(fr, st'.env, bb.term);
    if next.Goto? {
      var K2 := RunSettles(S, P, w, k, depth, f, args, fuel - 1, next.b, Some(b), st', path + [b]);
      K := if K1 > K2 then K1 else K2;
    }
    forall k', n: nat | k' >= K && n >= fuel
      ensures Run(FrameOf(P, w, k', depth, f, args), P[f].blocks, n, b, pred, st, path)
              == Run(fr, P[f].blocks, fuel, b, pred, st, path)
    {
      var fr' := FrameOf(P, w, k', depth, f, args);
      assert st.(env := EnterBlock(fr', bb.phis, pred, st.env)) == st;
      assert ExecBody(fr', bb.body, st) == ExecBody(fr, bb.body, st);
      assert Ir.Branch(fr', st'.env, bb.term) == next;
    }
  }

  /** The run of a lowered function, when the interpreter's calls return. */
  lemma MixedRun(S: Module, fn: Function, d: Definition, w: World, k: nat, n: nat, depth: nat, args: seq<Ir.Value>,
      h: Heap) returns (fuel: nat)
    requires LoweredTo(d, fn) && !d.declared && OpsOk(w)
    requires Returns(InterpBody(Env(w, SourceCalls(S, w, k, depth)), args, |d.params|, d.body, n, h))
    ensures var r := InterpBody(Env(w, SourceCalls(S, w, k, depth)), args, |d.params|, d.body, n, h);
            SameEnding(EndingOf(r, DefaultReturn(d.result)),
                       Run(Mixed(S, fn, w, k, depth, args), fn.blocks, fuel, ENTRY, None, Begin(h), []))
  {
    hide OpsOk, Run, InterpBody;
    var fr := Mixed(S, fn, w, k, depth, args);
    assert EnvOf(fr) == Env(w, SourceCalls(S, w, k, depth));
    assert RunsAgree(fr, d, fn.blocks, h, n, 0);
    fuel :| !Run(fr, fn.blocks, fuel, ENTRY, None, Begin(h), []).OutOfFuel?;
    assert RunsAgree(fr, d, fn.blocks, h, n, fuel);
  }

  /** What a source call returns, the call of the lowered function returns. */
  lemma {:induction false} CallSettles(S: Module, P: Program, w: World, k: nat, depth: nat, f: nat,
      args: seq<Ir.Value>, h: Heap) returns (K: nat)
    requires ProgramLowered(S, P) && OpsOk(w)
    ensures var r := CallSource(S, w, k, depth, f, args, h);
            r.Returned? ==> Settles(P, w, K, depth, f, args, h, r.val, r.heap)
    decreases k, 0
  {
    hide OpsOk, FrontEnd.SameMeaning, InterpBody, Run;
    K := 0;
    if CallSource(S, w, k, depth, f, args, h).Returned? {
      assert LoweredTo(S[f], P[f]);
      if !S[f].declared { K := BodyCallSettles(S, P, w, k, depth, f, args, h); }
    }
  }

  lemma {:induction false} BodyCallSettles(S: Module, P: Program, w: World, k: nat, depth: nat, f: nat,
      args: seq<Ir.Value>, h: Heap) returns (K: nat)
    requires ProgramLowered(S, P) && OpsOk(w) && k > 0 && f < |S| == |P| && !S[f].declared && LoweredTo(S[f], P[f])
    requires CallSource(S, w, k, depth, f, args, h).Returned?
    ensures var r := CallSource(S, w, k, depth, f, args, h); Settles(P, w, K, depth, f, args, h, r.val, r.heap)
    decreases k - 1, 4
  {
    hide OpsOk, FrontEnd.SameMeaning, InterpBody, Run, ProgramLowered;
    var h0 := Surviving(h, depth);
    var n := MixedRun(S, P[f], S[f], w, k - 1, k, depth, args, h0);
    var K1 := RunSettles(S, P, w, k - 1, depth, f, args, n, ENTRY, None, Begin(h0), []);
    K := (if K1 > n then K1 else n) + 1;
    var r := CallSource(S, w, k, depth, f, args, h);
    forall k': nat {:trigger CallFn(P, w, k', depth, f, args, h)} | k' >= K
      ensures CallFn(P, w, k', depth, f, args, h) == Returned(r.val, r.heap, true)
    {
      assert Begin(h0) == PromotionMeaning.Start(h0);
      assert Run(FrameOf(P, w, k' - 1, depth, f, args), P[f].blocks, k', ENTRY, None, Begin(h0), []).Finished?;
    }
  }

  // ----- A whole program -----

  /** Every load of the lowered function may find a stored value, if there is one at all. */
  ghost predicate StoredWhenLowered(d: Definition) {
    forall g, fn {:trigger Lowered(d, g, fn)} :: Lowered(d, g, fn) ==> Mem2RegRun.LoadsStored(g, fn.blocks, fn.slots)
  }

  /** It is enough that every declaration gives its variable a value. */
  lemma InitialisedIsStored(d: Definition)
    requires Initialised(d.body)
    ensures StoredWhenLowered(d)
  {
    hide Built, WholeFunction, Initialised, Mem2RegRun.LoadsStored;
    forall g, fn | Lowered(d, g, fn)
      ensures Mem2RegRun.LoadsStored(g, fn.blocks, fn.slots)
    {
      var cfg, c, t, names :| LoweredFrom(d, g, fn, cfg, c, t, names);
      StrictIsStored(cfg, g.succs, g.preds, t, names);
    }
  }

  ghost predicate WellFormed(d: Definition) {
    !d.declared ==> Scoped(d) && StoredWhenLowered(d)
  }

  /** A function of the lowered program, ready for the passes. */
  ghost predicate FunctionReady(d: Definition, fn: Function, inp: Input) {
    && LoweredTo(d, fn) && InputTyped(fn, inp)
    && (!d.declared ==> InputOk(fn, inp) && (JoinsReachable(inp.g) <==> NoDeadEdge(d.body)))
    && (!d.declared && Initialised(d.body) && AllReached(d.body) ==> AllStored(fn, inp))
  }

  method LowerProgram(S: Module) returns (ok: bool, P: Program, inputs: seq<Input>)
    requires forall f :: 0 <= f < |S| ==> WellFormed(S[f])
    ensures ok <==> forall f :: 0 <= f < |S| && !S[f].declared ==> Typed(S[f].body)
    ensures ok ==> |P| == |inputs| == |S|
    ensures ok ==> forall f {:trigger P[f]} :: 0 <= f < |S| ==> FunctionReady(S[f], P[f], inputs[f])
  {
    hide FunctionReady, Typed, WellFormed;
    ok, P, inputs := true, [], [];
    for f := 0 to |S|
      invariant ok && |P| == |inputs| == f
      invariant forall i :: 0 <= i < f && !S[i].declared ==> Typed(S[i].body)
      invariant forall i {:trigger P[i]} :: 0 <= i < f ==> FunctionReady(S[i], P[i], inputs[i])
    {
      var fn, inp;
      ok, fn, inp := LowerDefinition(S[f]);
      if !ok {
        return;
      }
      P, inputs := P + [fn], inputs + [inp];
    }
  }

  method LowerDefinition(d: Definition) returns (ok: bool, fn: Function, inp: Input)
    requires WellFormed(d)
    ensures ok <==> d.declared || Typed(d.body)
    ensures ok ==> FunctionReady(d, fn, inp)
  {
    hide Scoped, FrontEnd.SameMeaning, Mem2RegRun.FunctionOk, Mem2RegRun.LoadsStored, JoinsReachable, NoDeadEdge, Typed,
         InputTyped, Lowered, Initialised, AllReached, AllStored;
    ok, fn, inp := true, Function(true, d.main, d.params, [], {}, {}), Input(Graph([], []), {}, map[]);
    if d.declared {
      DeclaredReady(d, fn, inp);
    } else {
      ok, fn, inp := LowerFunction(d);
      if ok {
        PhisAbsent(fn, inp);
        if Initialised(d.body) && AllReached(d.body) { LoweredIsStored(d, inp, fn); }
      }
    }
  }

  lemma DeclaredReady(d: Definition, fn: Function, inp: Input)
    requires d.declared && fn == Function(true, d.main, d.params, [], {}, {})
    ensures FunctionReady(d, fn, inp)
  {
  }

  lemma PhisAbsent(fn: Function, inp: Input)
    requires Mem2RegRun.FunctionOk(inp.g, inp.geps, fn.blocks, inp.loc, fn.slots)
    ensures forall b :: 0 <= b < |fn.blocks| ==> fn.blocks[b].phis == []
  {
  }

  /** The same at the outermost depth, whatever is said of variables. */
  ghost predicate DeliversFrom(P: Program, w: World, K: nat, f: nat, args: seq<Ir.Value>, h: Heap, v: Ir.Value,
      h': Heap) {
    forall k: nat {:trigger CallFn(P, w, k, 0, f, args, h)} :: k >= K ==>
      var r := CallFn(P, w, k, 0, f, args, h); r.Returned? && r.val == v && r.heap == h'
  }

  /** Whatever a call of a source function returns, the call of the optimised function returns too, and
      memory and history are the same afterwards. */
  ghost predicate Compiled(S: Module, P: Program) {
    forall w, k, f, args, h {:trigger CallSource(S, w, k, 0, f, args, h)} ::
      OpsOk(w) && CallSource(S, w, k, 0, f, args, h).Returned? ==>
        var r := CallSource(S, w, k, 0, f, args, h); exists K :: DeliversFrom(P, w, K, f, args, h, r.val, r.heap)
  }

  ghost predicate VariablesGone(d: Definition, fn: Function) {
    !d.declared && Initialised(d.body) && AllReached(d.body) ==> ScalarsErased(fn.slots, fn.blocks)
  }

  /** The front end and both passes. They get through exactly if no condition compares an i1 with an i32
      and no unreachable code leads back to reachable code. Of a function whose declarations all give values,
      and which has no if whose branches both jump away, no load, store or alloca of a variable is left. */
  method Compile(S: Module) returns (ok: bool, P: Program)
    requires forall f :: 0 <= f < |S| ==> WellFormed(S[f])
    ensures ok <==> forall f :: 0 <= f < |S| && !S[f].declared ==> Typed(S[f].body) && NoDeadEdge(S[f].body)
    ensures ok ==> Compiled(S, P)
    ensures ok ==> |P| == |S| && forall f {:trigger P[f]} :: 0 <= f < |S| ==> VariablesGone(S[f], P[f])
  {
    hide WellFormed, Typed, NoDeadEdge, FunctionReady, JoinsReachable, InputOk, InputTyped, LoweredTo, OpsOk, Cleaned,
         CallFn, CallSource;
    var P0, inputs;
    ok, P0, inputs := LowerProgram(S);
    P := P0;
    if !ok {
      return;
    }
    AllReady(S, P0, inputs);
    ok, P := Optimize(P0, inputs);
    if ok {
      BothCompile(S, P0, P);
      forall f {:trigger P[f]} | 0 <= f < |S|
        ensures VariablesGone(S[f], P[f])
      {
        AllGone(S[f], P0[f], inputs[f], P[f]);
      }
    }
  }

  lemma AllReady(S: Module, P: Program, inputs: seq<Input>)
    requires |P| == |inputs| == |S| && forall f {:trigger P[f]} :: 0 <= f < |S| ==> FunctionReady(S[f], P[f], inputs[f])
    ensures ProgramLowered(S, P) && InputsOk(P, inputs) && InputsTyped(P, inputs)
    ensures (forall f :: 0 <= f < |P| && !P[f].declared ==> JoinsReachable(inputs[f].g))
            <==> forall f :: 0 <= f < |S| && !S[f].declared ==> NoDeadEdge(S[f].body)
  {
    hide InputOk, InputTyped, FrontEnd.SameMeaning, JoinsReachable, NoDeadEdge;
    forall f {:trigger P[f]} | 0 <= f < |S|
      ensures LoweredTo(S[f], P[f]) && P[f].declared == S[f].declared && InputTyped(P[f], inputs[f])
      ensures !S[f].declared ==> InputOk(P[f], inputs[f]) && (JoinsReachable(inputs[f].g) <==> NoDeadEdge(S[f].body))
    {
      assert FunctionReady(S[f], P[f], inputs[f]);
    }
    forall f | 0 <= f < |S| && !S[f].declared
      ensures JoinsReachable(inputs[f].g) <==> NoDeadEdge(S[f].body)
    {
      assert P[f].declared == S[f].declared;
    }
  }

  lemma AllGone(d: Definition, fn: Function, inp: Input, fn': Function)
    requires FunctionReady(d, fn, inp) && fn' == fn.(blocks := fn'.blocks) && (!fn.declared ==> Cleaned(fn, inp, fn'))
    ensures VariablesGone(d, fn')
  {
    hide InputOk, InputTyped, FrontEnd.SameMeaning, JoinsReachable, NoDeadEdge, Initialised, AllReached, AllStored,
         ScalarsErased, NoDangling;
  }

  lemma BothCompile(S: Module, P0: Program, P: Program)
    requires ProgramLowered(S, P0) && Optimised(P0, P)
    ensures Compiled(S, P)
  {
    hide ProgramLowered, OpsOk, CallFn, CallSource;
    forall w, k, f, args, h | OpsOk(w) && CallSource(S, w, k, 0, f, args, h).Returned?
      ensures var r := CallSource(S, w, k, 0, f, args, h); exists K :: DeliversFrom(P, w, K, f, args, h, r.val, r.heap)
    {
      var r := CallSource(S, w, k, 0, f, args, h);
      var K := CallSettles(S, P0, w, k, 0, f, args, h);
      assert DeliversFrom(P, w, K, f, args, h, r.val, r.heap) by {
        forall m: nat {:trigger CallFn(P, w, m, 0, f, args, h)} | m >= K
          ensures var x := CallFn(P, w, m, 0, f, args, h); x.Returned? && x.val == r.val && x.heap == r.heap
        {
          assert CallFn(P0, w, m, 0, f, args, h) == Returned(r.val, r.heap, true);
          assert OptimisedCall(CallFn(P0, w, m, 0, f, args, h), CallFn(P, w, m, 0, f, args, h));
        }
      }
    }
  }
}
