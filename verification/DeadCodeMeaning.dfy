/** Dead code elimination preserves every run that finishes. */
module DeadCodeMeaning {
  import opened ControlFlow
  import opened Ir
  import opened Programs
  import opened PromotionMeaning
  import opened Purity
  import opened DeadCode

  // ----- Relating the two runs -----

  /** The name is defined by a marked instruction, or not by the function at all. */
  predicate KeptName(defs: Definitions, m: set<Instruction>, d: Name) {
    d in defs ==> defs[d] in m
  }

  ghost predicate EnvAgree(defs: Definitions, m: set<Instruction>, env: map<Name, Value>, env': map<Name, Value>) {
    forall d {:trigger KeptName(defs, m, d)} :: KeptName(defs, m, d) ==>
      (d in env <==> d in env') && (d in env ==> env[d] == env'[d])
  }

  /** The states agree on marked names, variables and memory. */
  ghost predicate DeadSim(defs: Definitions, m: set<Instruction>, s: State, s': State) {
    EnvAgree(defs, m, s.env, s'.env) && s.slots == s'.slots && s.heap == s'.heap
  }

  /** Calls that return in the one frame return the same in the other. */
  ghost predicate FramesRefine(fr: Frame, fr': Frame) {
    && fr' == fr.(call := fr'.call)
    && forall g, args, h {:trigger fr.call(g, args, h)} {:trigger fr'.call(g, args, h)} ::
      Refines(fr.call(g, args, h), fr'.call(g, args, h))
  }

  predicate Refines(r: CallResult, r': CallResult) {
    r.Returned? ==> r'.Returned? && r'.val == r.val && r'.heap == r.heap
  }

  /** Calls leave no objects of activations that have ended. */
  ghost predicate CallsTidy(fr: Frame) {
    forall g, args, h {:trigger fr.call(g, args, h)} ::
      fr.call(g, args, h).Returned? ==> Outside(fr.call(g, args, h).heap, fr.depth + 1)
  }

  ghost predicate PureFrame(isPure: FuncInfo.Marks, fr: Frame) {
    forall g {:trigger g in isPure} :: g in isPure && isPure[g] ==> PureCallee(fr, g)
  }

  lemma EvalAgree(defs: Definitions, m: set<Instruction>, fr: Frame, fr': Frame, env: map<Name, Value>,
      env': map<Name, Value>, o: Operand)
    requires EnvAgree(defs, m, env, env') && OperandDone(defs, m, o) && fr'.args == fr.args
    ensures Eval(fr, env, o) == Eval(fr', env', o)
  {
    if o.Ref? { assert KeptName(defs, m, o.name); }
  }

  lemma EvalAllAgree(defs: Definitions, m: set<Instruction>, fr: Frame, fr': Frame, env: map<Name, Value>,
      env': map<Name, Value>, os: seq<Operand>)
    requires EnvAgree(defs, m, env, env') && (forall o :: o in os ==> OperandDone(defs, m, o)) && fr'.args == fr.args
    ensures EvalAll(fr, env, os) == EvalAll(fr', env', os)
  {
    forall i | 0 <= i < |os|
      ensures EvalAll(fr, env, os)[i] == EvalAll(fr', env', os)[i]
    {
      EvalAgree(defs, m, fr, fr', env, env', os[i]);
    }
  }

  lemma SetAgree(defs: Definitions, m: set<Instruction>, s: State, s': State, d: Name, v: Value)
    requires DeadSim(defs, m, s, s')
    ensures DeadSim(defs, m, Set(s, d, v), Set(s', d, v))
  {
    EnvBoth(defs, m, s.env, s'.env, d, v);
  }

  // ----- One instruction -----

  ghost predicate ExecPre(defs: Definitions, m: set<Instruction>, fr: Frame, fr': Frame, ins: Instr, s: State,
      s': State) {
    && DeadSim(defs, m, s, s') && FramesRefine(fr, fr') && Exec(fr, ins, s).Ok?
    && forall o :: o in Operands(ins) ==> OperandDone(defs, m, o)
  }

  /** A marked instruction does the same in both runs. */
  lemma KeptExec(defs: Definitions, m: set<Instruction>, fr: Frame, fr': Frame, ins: Instr, s: State, s': State)
    requires ExecPre(defs, m, fr, fr', ins, s, s')
    ensures var r, r' := Exec(fr, ins, s), Exec(fr', ins, s'); r'.Ok? && DeadSim(defs, m, r.st, r'.st)
  {
    match ins
    case Alloca(a) => SetAgree(defs, m, s, s', a, Ptr(LocalObj(fr.depth, a), 0));
    case Load(d, p) => KeptLoad(defs, m, fr, fr', ins, s, s');
    case Store(p, v) => KeptStore(defs, m, fr, fr', ins, s, s');
    case Gep(d, b, idxs) =>
      assert forall o :: o in idxs ==> o in Operands(ins);
      EvalAgree(defs, m, fr, fr', s.env, s'.env, b);
      EvalAllAgree(defs, m, fr, fr', s.env, s'.env, idxs);
      SetAgree(defs, m, s, s', d, Exec(fr, ins, s).st.env[d]);
    case Op(d, code, args) =>
      EvalAllAgree(defs, m, fr, fr', s.env, s'.env, args);
      SetAgree(defs, m, s, s', d, Exec(fr, ins, s).st.env[d]);
    case Call(d, g, args) => KeptCall(defs, m, fr, fr', ins, s, s');
  }

  lemma KeptLoad(defs: Definitions, m: set<Instruction>, fr: Frame, fr': Frame, ins: Instr, s: State, s': State)
    requires ExecPre(defs, m, fr, fr', ins, s, s') && ins.Load?
    ensures var r, r' := Exec(fr, ins, s), Exec(fr', ins, s'); r'.Ok? && DeadSim(defs, m, r.st, r'.st)
  {
    hide EnvAgree;
    assert ins.ptr in Operands(ins);
    EvalAgree(defs, m, fr, fr', s.env, s'.env, ins.ptr);
    SetAgree(defs, m, s, s', ins.dst, Exec(fr, ins, s).st.env[ins.dst]);
  }

  lemma KeptStore(defs: Definitions, m: set<Instruction>, fr: Frame, fr': Frame, ins: Instr, s: State, s': State)
    requires ExecPre(defs, m, fr, fr', ins, s, s') && ins.Store?
    ensures var r, r' := Exec(fr, ins, s), Exec(fr', ins, s'); r'.Ok? && DeadSim(defs, m, r.st, r'.st)
  {
    hide EnvAgree;
    assert ins.ptr in Operands(ins) && ins.val in Operands(ins);
    EvalAgree(defs, m, fr, fr', s.env, s'.env, ins.ptr);
    EvalAgree(defs, m, fr, fr', s.env, s'.env, ins.val);
  }

  lemma KeptCall(defs: Definitions, m: set<Instruction>, fr: Frame, fr': Frame, ins: Instr, s: State, s': State)
    requires ExecPre(defs, m, fr, fr', ins, s, s') && ins.Call?
    ensures var r, r' := Exec(fr, ins, s), Exec(fr', ins, s'); r'.Ok? && DeadSim(defs, m, r.st, r'.st)
  {
    hide EnvAgree;
    EvalAllAgree(defs, m, fr, fr', s.env, s'.env, ins.args);
    var args := EvalAll(fr, s.env, ins.args);
    assert Refines(fr.call(ins.callee, args, s.heap), fr'.call(ins.callee, args, s.heap));
    SetAgree(defs, m, s, s', ins.dst, Exec(fr, ins, s).st.env[ins.dst]);
  }

  /** A deleted instruction changed nothing that the rest of the run looks at. */
  lemma DeletedExec(defs: Definitions, isPure: FuncInfo.Marks, m: set<Instruction>, fr: Frame, ins: Instr, s: State,
      s': State)
    requires DeadSim(defs, m, s, s') && PureFrame(isPure, fr) && Outside(s.heap, fr.depth + 1)
    requires !Critical(isPure, Plain(ins)) && Plain(ins) !in m && ins.dst in defs && defs[ins.dst] == Plain(ins)
    requires Exec(fr, ins, s).Ok?
    ensures DeadSim(defs, m, Exec(fr, ins, s).st, s')
  {
    if ins.Call? {
      var args := EvalAll(fr, s.env, ins.args);
      assert PureCallee(fr, ins.callee);
      assert fr.call(ins.callee, args, s.heap) == CallWith(fr.call(ins.callee, args, EMPTY), s.heap);
    }
    var t := Exec(fr, ins, s).st;
    assert t.slots == s.slots && t.heap == s.heap && t.env == s.env[ins.dst := t.env[ins.dst]];
    EnvOnly(defs, m, s.env, s'.env, ins.dst, t.env[ins.dst]);
  }

  lemma ExecTidy(fr: Frame, ins: Instr, s: State)
    requires CallsTidy(fr) && Outside(s.heap, fr.depth + 1) && Exec(fr, ins, s).Ok?
    ensures Outside(Exec(fr, ins, s).st.heap, fr.depth + 1)
  {
    if ins.Call? {
      var r := fr.call(ins.callee, EvalAll(fr, s.env, ins.args), s.heap);
    }
  }

  // ----- Blocks and runs -----

  /** What the proof knows about a block and the marks. */
  ghost predicate BlockPre(defs: Definitions, isPure: FuncInfo.Marks, m: set<Instruction>, body: seq<Instr>) {
    forall i {:trigger body[i]} :: 0 <= i < |body| ==> InstrPre(defs, isPure, m, body[i])
  }

  ghost predicate InstrPre(defs: Definitions, isPure: FuncInfo.Marks, m: set<Instruction>, ins: Instr) {
    && (!ins.Store? ==> ins.dst in defs && defs[ins.dst] == Plain(ins))
    && (Critical(isPure, Plain(ins)) ==> Plain(ins) in m)
    && (Plain(ins) in m ==> forall o :: o in Operands(ins) ==> OperandDone(defs, m, o))
  }

  ghost predicate FramesPre(isPure: FuncInfo.Marks, fr: Frame, fr': Frame) {
    FramesRefine(fr, fr') && PureFrame(isPure, fr) && CallsTidy(fr)
  }

  lemma {:induction false} BodyRefines(defs: Definitions, isPure: FuncInfo.Marks, m: set<Instruction>, fr: Frame,
      fr': Frame, body: seq<Instr>, s: State, s': State)
    requires BlockPre(defs, isPure, m, body) && FramesPre(isPure, fr, fr') && DeadSim(defs, m, s, s')
    requires Outside(s.heap, fr.depth + 1) && ExecBody(fr, body, s).Ok?
    ensures var r, r' := ExecBody(fr, body, s), ExecBody(fr', KeepBody(body, m), s');
            r'.Ok? && DeadSim(defs, m, r.st, r'.st) && Outside(r.st.heap, fr.depth + 1)
  {
    if body != [] {
      hide DeadSim, FramesRefine, PureFrame, CallsTidy, Outside, Exec, Critical;
      var ins, rest := body[0], KeepBody(body[1..], m);
      assert InstrPre(defs, isPure, m, ins);
      ExecTidy(fr, ins, s);
      var r := Exec(fr, ins, s);
      if Plain(ins) in m {
        KeptExec(defs, m, fr, fr', ins, s, s');
        assert ([ins] + rest)[1..] == rest;
        BodyRefines(defs, isPure, m, fr, fr', body[1..], r.st, Exec(fr', ins, s').st);
      } else {
        assert !ins.Store? by { StoreIsCritical(isPure, ins); }
        DeletedExec(defs, isPure, m, fr, ins, s, s');
        assert [] + rest == rest;
        BodyRefines(defs, isPure, m, fr, fr', body[1..], r.st, s');
      }
    }
  }

  lemma StoreIsCritical(isPure: FuncInfo.Marks, ins: Instr)
    ensures ins.Store? ==> Critical(isPure, Plain(ins))
  {
  }

  ghost predicate PhiPre(defs: Definitions, m: set<Instruction>, phi: Phi) {
    && phi.dst in defs && defs[phi.dst] == Join(phi)
    && (Join(phi) in m ==> forall i :: 0 <= i < |phi.pairs| ==> OperandDone(defs, m, phi.pairs[i].0))
  }

  lemma {:induction false} IncomingIsPair(pairs: seq<(Operand, Block)>, p: Block)
    ensures Incoming(pairs, p).Some? ==> exists i :: 0 <= i < |pairs| && pairs[i].0 == Incoming(pairs, p).value
  {
    if pairs != [] && pairs[0].1 != p {
      IncomingIsPair(pairs[1..], p);
      if Incoming(pairs, p).Some? {
        var i :| 0 <= i < |pairs[1..]| && pairs[1..][i].0 == Incoming(pairs, p).value;
        assert pairs[i + 1].0 == Incoming(pairs, p).value;
      }
    }
  }

  lemma PhiValueAgree(defs: Definitions, m: set<Instruction>, fr: Frame, fr': Frame, env: map<Name, Value>,
      env': map<Name, Value>, phi: Phi, pred: Option<Block>)
    requires EnvAgree(defs, m, env, env') && PhiPre(defs, m, phi) && Join(phi) in m && fr'.args == fr.args
    ensures PhiValue(fr, env, phi.pairs, pred) == PhiValue(fr', env', phi.pairs, pred)
  {
    if pred.Some? {
      IncomingIsPair(phi.pairs, pred.value);
      if Incoming(phi.pairs, pred.value).Some? {
        EvalAgree(defs, m, fr, fr', env, env', Incoming(phi.pairs, pred.value).value);
      }
    }
  }

  lemma {:induction false} EnterAgree(defs: Definitions, m: set<Instruction>, fr: Frame, fr': Frame, phis: seq<Phi>,
      pred: Option<Block>, env: map<Name, Value>, env': map<Name, Value>)
    requires EnvAgree(defs, m, env, env') && fr'.args == fr.args
    requires forall k :: 0 <= k < |phis| ==> PhiPre(defs, m, phis[k])
    ensures EnvAgree(defs, m, EnterBlock(fr, phis, pred, env), EnterBlock(fr', KeepPhis(phis, m), pred, env'))
  {
    if phis != [] {
      hide EnvAgree, OperandDone, Eval, PhiValue;
      var front, last := phis[..|phis| - 1], phis[|phis| - 1];
      EnterAgree(defs, m, fr, fr', front, pred, env, env');
      assert PhiPre(defs, m, last);
      var kept, v := KeepPhis(front, m), PhiValue(fr, env, last.pairs, pred);
      var e, e' := EnterBlock(fr, front, pred, env), EnterBlock(fr', kept, pred, env');
      assert EnterBlock(fr, phis, pred, env) == e[last.dst := v];
      if Join(last) in m {
        PhiValueAgree(defs, m, fr, fr', env, env', last, pred);
        assert (kept + [last])[..|kept|] == kept;
        EnvBoth(defs, m, e, e', last.dst, v);
      } else {
        assert kept + [] == kept;
        EnvOnly(defs, m, e, e', last.dst, v);
      }
    }
  }

  lemma EnvBoth(defs: Definitions, m: set<Instruction>, env: map<Name, Value>, env': map<Name, Value>, d: Name,
      v: Value)
    requires EnvAgree(defs, m, env, env')
    ensures EnvAgree(defs, m, env[d := v], env'[d := v])
  {
    forall e | KeptName(defs, m, e)
      ensures var t, t' := env[d := v], env'[d := v]; (e in t <==> e in t') && (e in t ==> t[e] == t'[e])
    {
    }
  }

  lemma EnvOnly(defs: Definitions, m: set<Instruction>, env: map<Name, Value>, env': map<Name, Value>, d: Name,
      v: Value)
    requires EnvAgree(defs, m, env, env') && !KeptName(defs, m, d)
    ensures EnvAgree(defs, m, env[d := v], env')
  {
    forall e | KeptName(defs, m, e)
      ensures var t := env[d := v]; (e in t <==> e in env') && (e in t ==> t[e] == env'[e])
    {
      assert e != d;
    }
  }

  /** What the proof knows about the function and the marks. */
  ghost predicate MarksPre(blocks: seq<BasicBlock>, defs: Definitions, isPure: FuncInfo.Marks, m: set<Instruction>) {
    forall b {:trigger blocks[b]} :: 0 <= b < |blocks| ==> MarksPreBlock(blocks[b], defs, isPure, m)
  }

  ghost predicate MarksPreBlock(bb: BasicBlock, defs: Definitions, isPure: FuncInfo.Marks, m: set<Instruction>) {
    && BlockPre(defs, isPure, m, bb.body)
    && (forall k :: 0 <= k < |bb.phis| ==> PhiPre(defs, m, bb.phis[k]))
    && (forall o :: o in TermOperands(bb.term) ==> OperandDone(defs, m, o))
  }

  lemma NeededGivesPre(blocks: seq<BasicBlock>, defs: Definitions, isPure: FuncInfo.Marks, m: set<Instruction>)
    requires Closed(blocks, defs, isPure, m) && TableOk(blocks, defs)
    ensures MarksPre(blocks, defs, isPure, m)
  {
    forall b | 0 <= b < |blocks|
      ensures MarksPreBlock(blocks[b], defs, isPure, m)
    {
      var bb := blocks[b];
      forall i | 0 <= i < |bb.body|
        ensures InstrPre(defs, isPure, m, bb.body[i])
      {
        var it := Plain(bb.body[i]);
        assert InBlock(blocks[b], it);
        assert CriticalIn(blocks, isPure, it) <==> Critical(isPure, it);
        if it in m { MarkedOperands(defs, m, it); }
      }
      forall k | 0 <= k < |bb.phis|
        ensures PhiPre(defs, m, bb.phis[k])
      {
        var it := Join(bb.phis[k]);
        if it in m {
          MarkedOperands(defs, m, it);
          forall i | 0 <= i < |bb.phis[k].pairs|
            ensures OperandDone(defs, m, bb.phis[k].pairs[i].0)
          {
            assert AllOperands(it)[i] == bb.phis[k].pairs[i].0;
          }
        }
      }
      assert InBlock(blocks[b], End(bb.term));
      assert CriticalIn(blocks, isPure, End(bb.term));
      MarkedOperands(defs, m, End(bb.term));
    }
  }

  lemma MarkedOperands(defs: Definitions, m: set<Instruction>, it: Instruction)
    requires it in m && forall x :: x in m ==> OperandsIn(defs, m, x)
    ensures forall o :: o in AllOperands(it) ==> OperandDone(defs, m, o)
  {
    assert OperandsIn(defs, m, it);
  }

  lemma BranchAgree(defs: Definitions, m: set<Instruction>, fr: Frame, fr': Frame, env: map<Name, Value>,
      env': map<Name, Value>, t: Terminator)
    requires EnvAgree(defs, m, env, env') && (forall o :: o in TermOperands(t) ==> OperandDone(defs, m, o))
    requires fr'.args == fr.args
    ensures Branch(fr, env, t) == Branch(fr', env', t)
  {
    match t
    case CondBr(c, a, b) => EvalAgree(defs, m, fr, fr', env, env', c);
    case Ret(v) => EvalAgree(defs, m, fr, fr', env, env', v);
    case _ =>
  }

  ghost predicate SameFinish(o: Outcome, o': Outcome) {
    o.Finished? ==> o'.Finished? && o'.val == o.val && o'.heap == o.heap && o'.path == o.path
  }

  /** One block: joins, body and branch. */
  lemma BlockRefines(defs: Definitions, isPure: FuncInfo.Marks, m: set<Instruction>, fr: Frame, fr': Frame,
                     bb: BasicBlock, pred: Option<Block>, s: State, s': State)
    requires MarksPreBlock(bb, defs, isPure, m) && FramesPre(isPure, fr, fr') && DeadSim(defs, m, s, s')
    requires Outside(s.heap, fr.depth + 1)
    requires ExecBody(fr, bb.body, s.(env := EnterBlock(fr, bb.phis, pred, s.env))).Ok?
    ensures var r := ExecBody(fr, bb.body, s.(env := EnterBlock(fr, bb.phis, pred, s.env)));
            var r' := ExecBody(fr', KeepBody(bb.body, m),
              s'.(env := EnterBlock(fr', KeepPhis(bb.phis, m), pred, s'.env)));
            && r'.Ok? && DeadSim(defs, m, r.st, r'.st) && Outside(r.st.heap, fr.depth + 1)
            && Branch(fr, r.st.env, bb.term) == Branch(fr', r'.st.env, bb.term)
  {
    hide Outside, CallsTidy, PureFrame, EnvAgree, BlockPre, PhiPre, Branch, ExecBody, EnterBlock;
    EnterAgree(defs, m, fr, fr', bb.phis, pred, s.env, s'.env);
    var s1 := s.(env := EnterBlock(fr, bb.phis, pred, s.env));
    var s1' := s'.(env := EnterBlock(fr', KeepPhis(bb.phis, m), pred, s'.env));
    BodyRefines(defs, isPure, m, fr, fr', bb.body, s1, s1');
    var r, r' := ExecBody(fr, bb.body, s1), ExecBody(fr', KeepBody(bb.body, m), s1');
    BranchAgree(defs, m, fr, fr', r.st.env, r'.st.env, bb.term);
  }

  /** Every run that finishes takes the same path to the same memory and the same value. */
  lemma {:induction false} RunRefines(blocks: seq<BasicBlock>, defs: Definitions, isPure: FuncInfo.Marks,
      m: set<Instruction>, fr: Frame, fr': Frame, fuel: nat, b: Block, pred: Option<Block>, s: State, s': State,
      path: seq<Block>)
    requires MarksPre(blocks, defs, isPure, m) && FramesPre(isPure, fr, fr') && DeadSim(defs, m, s, s')
    requires Outside(s.heap, fr.depth + 1)
    ensures SameFinish(Run(fr, blocks, fuel, b, pred, s, path), Run(fr', Sweep(blocks, m), fuel, b, pred, s', path))
    decreases fuel
  {
    if Run(fr, blocks, fuel, b, pred, s, path).Finished? {
      hide Outside, FramesPre, EnvAgree, MarksPreBlock, KeepBody, KeepPhis, Branch, ExecBody, EnterBlock;
      var bb := blocks[b];
      assert MarksPreBlock(bb, defs, isPure, m) && Sweep(blocks, m)[b] == SweepBlock(bb, m);
      BlockRefines(defs, isPure, m, fr, fr', bb, pred, s, s');
      var r := ExecBody(fr, bb.body, s.(env := EnterBlock(fr, bb.phis, pred, s.env)));
      var r' := ExecBody(fr', KeepBody(bb.body, m), s'.(env := EnterBlock(fr', KeepPhis(bb.phis, m), pred, s'.env)));
      var n := Branch(fr, r.st.env, bb.term);
      if n.Goto? {
        RunRefines(blocks, defs, isPure, m, fr, fr', fuel - 1, n.b, Some(b), r.st, r'.st, path + [b]);
      }
    }
  }

  // ----- Whole programs -----

  /** P' is P with every function swept once. */
  ghost predicate SweptProgram(P: Program, P': Program, defs: seq<Definitions>, isPure: FuncInfo.Marks) {
    && |P| == |P'| == |defs|
    && forall f {:trigger P'[f]} :: 0 <= f < |P| ==>
         P'[f] == P[f].(blocks := P'[f].blocks) && SweptFrom(P[f].blocks, P'[f].blocks, defs[f], isPure)
  }

  ghost predicate PurityExact(P: Program, defs: seq<Definitions>, ranks: seq<map<Name, nat>>, isPure: FuncInfo.Marks)
    requires FuncInfo.TablesOk(P, defs, ranks)
  {
    && (forall f: nat :: f in isPure <==> f < |P|)
    && (forall f: nat :: f in isPure ==> (isPure[f] <==> !FuncInfo.ReachesImpure(P, defs, ranks, f)))
  }

  lemma CallTidy(P: Program, w: World, k: nat, depth: nat, f: nat, args: seq<Value>, h: Heap)
    ensures CallFn(P, w, k, depth, f, args, h).Returned? ==> Outside(CallFn(P, w, k, depth, f, args, h).heap, depth)
  {
  }

  lemma FramePure(P: Program, defs: seq<Definitions>, ranks: seq<map<Name, nat>>, isPure: FuncInfo.Marks, w: World,
      k: nat, depth: nat, f: nat, args: seq<Value>)
    requires ProgramForm(P, defs, ranks) && PurityExact(P, defs, ranks, isPure) && f < |P|
    ensures PureFrame(isPure, FrameOf(P, w, k, depth, f, args)) && CallsTidy(FrameOf(P, w, k, depth, f, args))
  {
    var fr := FrameOf(P, w, k, depth, f, args);
    forall g | g in isPure && isPure[g]
      ensures PureCallee(fr, g)
    {
      forall a: seq<Value>, m: Heap | Outside(m, fr.depth + 1)
        ensures fr.call(g, a, m) == CallWith(fr.call(g, a, EMPTY), m)
      {
        PureCallsAreFunctions(P, defs, ranks, w, k, depth + 1, g, a, m);
        OutsideSurvives(m, depth + 1);
      }
    }
    forall g: nat, a: seq<Value>, m: Heap
      ensures fr.call(g, a, m).Returned? ==> Outside(fr.call(g, a, m).heap, fr.depth + 1)
    {
      CallTidy(P, w, k, depth + 1, g, a, m);
    }
  }

  /** Dead code elimination preserves every call that returns: same value, same memory, same
      history of external calls. */
  lemma {:induction false} DeadCodePreservesCalls(P: Program, P': Program, defs: seq<Definitions>,
      ranks: seq<map<Name, nat>>, isPure: FuncInfo.Marks, w: World, k: nat, depth: nat, f: nat, args: seq<Value>,
      h: Heap)
    requires ProgramForm(P, defs, ranks) && PurityExact(P, defs, ranks, isPure) && SweptProgram(P, P', defs, isPure)
    ensures Refines(CallFn(P, w, k, depth, f, args, h), CallFn(P', w, k, depth, f, args, h))
    decreases k
  {
    if f < |P| && !P[f].declared && k > 0 {
      var fr, fr' := FrameOf(P, w, k - 1, depth, f, args), FrameOf(P', w, k - 1, depth, f, args);
      forall g: nat, a: seq<Value>, m: Heap
        ensures Refines(fr.call(g, a, m), fr'.call(g, a, m))
      {
        DeadCodePreservesCalls(P, P', defs, ranks, isPure, w, k - 1, depth + 1, g, a, m);
      }
      FramePure(P, defs, ranks, isPure, w, k - 1, depth, f, args);
      FunctionRefines(P, P', defs, ranks, isPure, fr, fr', f, k, Surviving(h, depth));
    }
  }

  lemma FunctionRefines(P: Program, P': Program, defs: seq<Definitions>, ranks: seq<map<Name, nat>>,
      isPure: FuncInfo.Marks, fr: Frame, fr': Frame, f: nat, fuel: nat, h: Heap)
    requires ProgramForm(P, defs, ranks) && SweptProgram(P, P', defs, isPure) && f < |P|
    requires FramesPre(isPure, fr, fr') && Outside(h, fr.depth + 1)
    ensures SameFinish(Run(fr, P[f].blocks, fuel, ENTRY, None, Start(h), []),
            Run(fr', P'[f].blocks, fuel, ENTRY, None, Start(h), []))
  {
    assert FunctionForm(P[f], defs[f]) && P'[f].blocks == P'[f].blocks
      && SweptFrom(P[f].blocks, P'[f].blocks, defs[f], isPure);
    var m :| Needed(P[f].blocks, defs[f], isPure, m) && P'[f].blocks == Sweep(P[f].blocks, m);
    NeededGivesPre(P[f].blocks, defs[f], isPure, m);
    assert DeadSim(defs[f], m, Start(h), Start(h));
    RunRefines(P[f].blocks, defs[f], isPure, m, fr, fr', fuel, ENTRY, None, Start(h), Start(h), []);
  }
}
