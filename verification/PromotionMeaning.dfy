/** Promotion preserves meaning: the rewritten function runs in lockstep with the original one. */
module PromotionMeaning {
  import opened ControlFlow
  import opened DominatorTree
  import opened Ir
  import opened Promotion

  // ----- Rewriting -----

  function MapAll(f: Operand -> Operand, os: seq<Operand>): (r: seq<Operand>)
    ensures |r| == |os| && forall i :: 0 <= i < |os| ==> r[i] == f(os[i])
  {
    seq(|os|, i requires 0 <= i < |os| => f(os[i]))
  }

  function MapInstr(f: Operand -> Operand, ins: Instr): Instr {
    match ins
    case Alloca(d) => Alloca(d)
    case Load(d, p) => Load(d, f(p))
    case Store(p, v) => Store(f(p), f(v))
    case Gep(d, b, idxs) => Gep(d, f(b), MapAll(f, idxs))
    case Op(d, c, args) => Op(d, c, MapAll(f, args))
    case Call(d, c, args) => Call(d, c, MapAll(f, args))
  }

  function MapTerm(f: Operand -> Operand, t: Terminator): Terminator {
    match t
    case Br(b) => Br(b)
    case CondBr(c, a, b) => CondBr(f(c), a, b)
    case Ret(v) => Ret(f(v))
    case RetVoid => RetVoid
  }

  function MapBody(f: Operand -> Operand, body: seq<Instr>): (r: seq<Instr>)
    ensures |r| == |body| && forall i :: 0 <= i < |body| ==> r[i] == MapInstr(f, body[i])
  {
    seq(|body|, i requires 0 <= i < |body| => MapInstr(f, body[i]))
  }

  /** A store to a promoted variable; Mem2Reg deletes these. */
  predicate IsSlotStore(allocas: set<Name>, ins: Instr) {
    ins.Store? && IsSlot(allocas, ins.ptr)
  }

  function DropStores(allocas: set<Name>, body: seq<Instr>): seq<Instr> {
    if body == [] then []
    else (if IsSlotStore(allocas, body[0]) then [] else [body[0]]) + DropStores(allocas, body[1..])
  }

  // ----- Relating the two runs -----

  ghost predicate IsResolver(cx: Context, f: Operand -> Operand)
    requires SourceOk(cx)
  {
    forall o :: f(o) == Resolve(cx, o)
  }

  /** The states before instruction i of block b: every available name has the value of what
      replaces it, every variable that holds a value has the value of what reaches here. */
  ghost predicate Sim(cx: Context, fr: Frame, b: Block, i: nat, s: State, s': State)
    requires SourceOk(cx) && b in cx.t && i <= |Body(cx, b)|
  {
    && s.heap == s'.heap
    && (forall d {:trigger Available(cx, b, i, d)} :: Available(cx, b, i, d) ==> SameName(cx, fr, s.env, s'.env, d))
    && (forall x {:trigger SlotHolds(cx, fr, b, i, s, s', x)} :: x in s.slots ==> SlotHolds(cx, fr, b, i, s, s', x))
  }

  ghost predicate SameName(cx: Context, fr: Frame, env: map<Name, Value>, env': map<Name, Value>, d: Name)
    requires SourceOk(cx)
  {
    Eval(fr, env, Ref(d)) == Eval(fr, env', Resolve(cx, Ref(d)))
  }

  ghost predicate SlotHolds(cx: Context, fr: Frame, b: Block, i: nat, s: State, s': State, x: Name)
    requires SourceOk(cx) && b in cx.t && i <= |Body(cx, b)| && x in s.slots
  {
    && ReachAt(cx, b, i, x).Some?
    && s.slots[x] == Eval(fr, s'.env, Resolve(cx, ReachAt(cx, b, i, x).value))
  }

  /** What a call does to the two runs: nothing different, as long as no unstored variable is read. */
  ghost predicate Agree(r: CallResult, r': CallResult) {
    r.clean ==>
      match r
      case Returned(v, h, _) => r'.Returned? && r'.val == v && r'.heap == h
      case Failed(_) => r'.Failed?
  }

  ghost predicate FramesAgree(fr: Frame, fr': Frame) {
    && fr' == fr.(call := fr'.call)
    && forall f, args, h :: Agree(fr.call(f, args, h), fr'.call(f, args, h))
  }

  lemma EvalSame(fr: Frame, fr': Frame, env: map<Name, Value>, o: Operand)
    requires FramesAgree(fr, fr')
    ensures Eval(fr, env, o) == Eval(fr', env, o)
  {
  }

  /** Operands of instruction i have the same value in both runs. */
  lemma OperandSame(cx: Context, fr: Frame, b: Block, i: nat, s: State, s': State, o: Operand)
    requires SourceOk(cx) && b in cx.t && i <= |Body(cx, b)| && Sim(cx, fr, b, i, s, s')
    requires SourceOperandOk(cx, b, i, o)
    ensures Eval(fr, s.env, o) == Eval(fr, s'.env, Resolve(cx, o))
  {
    if o.Ref? {
      assert SameName(cx, fr, s.env, s'.env, o.name);
    }
  }

  lemma OperandsSame(cx: Context, fr: Frame, fr': Frame, f: Operand -> Operand, b: Block, i: nat, s: State, s': State,
      os: seq<Operand>)
    requires SourceOk(cx) && b in cx.t && i <= |Body(cx, b)| && Sim(cx, fr, b, i, s, s')
    requires IsResolver(cx, f) && FramesAgree(fr, fr')
    requires forall o :: o in os ==> SourceOperandOk(cx, b, i, o)
    ensures EvalAll(fr, s.env, os) == EvalAll(fr', s'.env, MapAll(f, os))
  {
    forall k | 0 <= k < |os|
      ensures EvalAll(fr, s.env, os)[k] == EvalAll(fr', s'.env, MapAll(f, os))[k]
    {
      OperandSame(cx, fr, b, i, s, s', os[k]);
      EvalSame(fr, fr', s'.env, Resolve(cx, os[k]));
    }
  }

  /** A name defined at (b, i) is not what anything available before resolves to. */
  lemma FreshDefinition(cx: Context, b: Block, i: nat, d: Name, o: Operand)
    requires SourceOk(cx) && b in cx.t && i < |Body(cx, b)| && Defines(Body(cx, b)[i], d)
    requires Usable(cx, b, i, o)
    ensures Resolve(cx, o) != Ref(d) && d.Tmp? && d in cx.loc && cx.loc[d] == Loc(b, i)
  {
    ResolveUsable(cx, b, i, o);
    assert Located(cx, b, i);
  }

  /** Writing the name defined at (b, i) disturbs nothing that the relation speaks of at (b, i). */
  lemma WriteKeeps(cx: Context, fr: Frame, b: Block, i: nat, s: State, s': State, d: Name, v: Value, v': Value)
    requires SourceOk(cx) && b in cx.t && i < |Body(cx, b)| && Sim(cx, fr, b, i, s, s')
    requires Defines(Body(cx, b)[i], d)
    ensures Sim(cx, fr, b, i, Set(s, d, v), Set(s', d, v'))
  {
    var s1, s1' := Set(s, d, v), Set(s', d, v');
    forall e | Available(cx, b, i, e)
      ensures SameName(cx, fr, s1.env, s1'.env, e)
    {
      AvailableUsable(cx, b, i, e);
      FreshDefinition(cx, b, i, d, Ref(e));
      assert SameName(cx, fr, s.env, s'.env, e);
    }
    forall x | x in s1.slots
      ensures SlotHolds(cx, fr, b, i, s1, s1', x)
    {
      assert SlotHolds(cx, fr, b, i, s, s', x);
      ReachUsable(cx, b, i, x);
      FreshDefinition(cx, b, i, d, ReachAt(cx, b, i, x).value);
    }
  }

  lemma AvailableUsable(cx: Context, b: Block, i: nat, e: Name)
    requires SourceOk(cx) && b in cx.t && i <= |Body(cx, b)| && Available(cx, b, i, e)
    ensures e.Tmp? && Usable(cx, b, i, Ref(e))
    ensures i < |Body(cx, b)| ==> !Defines(Body(cx, b)[i], e)
  {
    if i < |Body(cx, b)| { assert Located(cx, b, i); }
  }

  /** Passing an instruction that does not store to a variable. */
  lemma Advance(cx: Context, fr: Frame, b: Block, i: nat, s: State, s': State)
    requires SourceOk(cx) && b in cx.t && i < |Body(cx, b)| && Sim(cx, fr, b, i, s, s')
    requires !IsSlotStore(cx.allocas, Body(cx, b)[i])
    requires forall x :: x in s.slots ==> x in cx.allocas
    requires !Body(cx, b)[i].Store? ==> SameName(cx, fr, s.env, s'.env, Body(cx, b)[i].dst)
    ensures Sim(cx, fr, b, i + 1, s, s')
  {
    forall e | Available(cx, b, i + 1, e)
      ensures SameName(cx, fr, s.env, s'.env, e)
    {
      NextAvailable(cx, b, i, e);
    }
    forall x | x in s.slots
      ensures SlotHolds(cx, fr, b, i + 1, s, s', x)
    {
      assert SlotHolds(cx, fr, b, i, s, s', x);
      assert LastStore(Body(cx, b), i + 1, x) == LastStore(Body(cx, b), i, x);
    }
  }

  lemma NextAvailable(cx: Context, b: Block, i: nat, e: Name)
    requires SourceOk(cx) && b in cx.t && i < |Body(cx, b)|
    ensures Available(cx, b, i + 1, e) <==> Available(cx, b, i, e) || Defines(Body(cx, b)[i], e)
  {
    assert Located(cx, b, i);
  }

  // ----- One instruction -----

  /** Variables are accessed through allocas only. */
  ghost predicate SlotsOk(cx: Context, s: State) {
    forall x :: x in s.slots ==> x in cx.allocas
  }

  lemma AllocaStays(cx: Context, a: Name)
    requires SourceOk(cx) && a in cx.allocas
    ensures Resolve(cx, Ref(a)) == Ref(a)
  {
  }

  lemma UsesAt(cx: Context, b: Block, i: nat, o: Operand)
    requires SourceOk(cx) && b in cx.t && i < |Body(cx, b)| && o in Operands(Body(cx, b)[i])
    ensures SourceOperandOk(cx, b, i, o)
  {
    assert InstrUsesOk(cx, b, i);
  }

  lemma UsesAllAt(cx: Context, b: Block, i: nat, os: seq<Operand>)
    requires SourceOk(cx) && b in cx.t && i < |Body(cx, b)|
    requires forall o :: o in os ==> o in Operands(Body(cx, b)[i])
    ensures forall o :: o in os ==> SourceOperandOk(cx, b, i, o)
  {
    forall o | o in os
      ensures SourceOperandOk(cx, b, i, o)
    {
      UsesAt(cx, b, i, o);
    }
  }

  /** Both runs write the same value to a name that promotion keeps. */
  lemma DefineSame(cx: Context, fr: Frame, b: Block, i: nat, s: State, s': State, d: Name, v: Value)
    requires SourceOk(cx) && b in cx.t && i < |Body(cx, b)| && Sim(cx, fr, b, i, s, s') && SlotsOk(cx, s)
    requires Defines(Body(cx, b)[i], d) && !IsSlotStore(cx.allocas, Body(cx, b)[i])
    requires Resolve(cx, Ref(d)) == Ref(d)
    ensures Sim(cx, fr, b, i + 1, Set(s, d, v), Set(s', d, v))
  {
    WriteKeeps(cx, fr, b, i, s, s', d, v, v);
    Advance(cx, fr, b, i, Set(s, d, v), Set(s', d, v));
  }

  /** A definition that is not a load of a variable is kept. */
  lemma KeptName(cx: Context, b: Block, i: nat, d: Name)
    requires SourceOk(cx) && b in cx.t && i < |Body(cx, b)| && Defines(Body(cx, b)[i], d)
    requires Body(cx, b)[i].Load? ==> !IsSlot(cx.allocas, Body(cx, b)[i].ptr)
    ensures Resolve(cx, Ref(d)) == Ref(d)
  {
    assert Located(cx, b, i);
  }

  /** A load of a variable that holds a value: the original reads it, the result has it already. */
  lemma LoadSim(cx: Context, fr: Frame, b: Block, i: nat, s: State, s': State, d: Name, x: Name, v': Value)
    requires SourceOk(cx) && b in cx.t && i < |Body(cx, b)| && Sim(cx, fr, b, i, s, s') && SlotsOk(cx, s)
    requires Body(cx, b)[i] == Load(d, Ref(x)) && x in cx.allocas && x in s.slots
    ensures Sim(cx, fr, b, i + 1, Set(s, d, s.slots[x]), Set(s', d, v'))
  {
    var v := s.slots[x];
    WriteKeeps(cx, fr, b, i, s, s', d, v, v');
    assert Located(cx, b, i);
    assert SlotHolds(cx, fr, b, i, s, s', x);
    ReachUsable(cx, b, i, x);
    var o := ReachAt(cx, b, i, x).value;
    FreshDefinition(cx, b, i, d, o);
    assert IsLoad(cx, d) && ReachLoad(cx, d) == Some(o);
    assert Resolve(cx, Ref(d)) == Resolve(cx, o);
    Advance(cx, fr, b, i, Set(s, d, v), Set(s', d, v'));
  }

  /** A store to a variable: the original writes it, the result does nothing. */
  lemma StoreSim(cx: Context, fr: Frame, b: Block, i: nat, s: State, s': State, x: Name, v: Operand)
    requires SourceOk(cx) && b in cx.t && i < |Body(cx, b)| && Sim(cx, fr, b, i, s, s') && SlotsOk(cx, s)
    requires Body(cx, b)[i] == Store(Ref(x), v)
    ensures Sim(cx, fr, b, i + 1, s.(slots := s.slots[x := Eval(fr, s.env, v)]), s')
  {
    var s1 := s.(slots := s.slots[x := Eval(fr, s.env, v)]);
    forall e | Available(cx, b, i + 1, e)
      ensures SameName(cx, fr, s1.env, s'.env, e)
    {
      NextAvailable(cx, b, i, e);
      assert SameName(cx, fr, s.env, s'.env, e);
    }
    UsesAt(cx, b, i, v);
    OperandSame(cx, fr, b, i, s, s', v);
    forall y | y in s1.slots
      ensures SlotHolds(cx, fr, b, i + 1, s1, s', y)
    {
      if y != x {
        assert SlotHolds(cx, fr, b, i, s, s', y);
        assert LastStore(Body(cx, b), i + 1, y) == LastStore(Body(cx, b), i, y);
      } else {
        assert LastStore(Body(cx, b), i + 1, x) == Some(v);
      }
    }
  }

  /** The relation does not look at the memory beyond its equality. */
  lemma HeapSim(cx: Context, fr: Frame, b: Block, i: nat, s: State, s': State, h: Heap, c: bool, c': bool)
    requires SourceOk(cx) && b in cx.t && i <= |Body(cx, b)| && Sim(cx, fr, b, i, s, s')
    ensures Sim(cx, fr, b, i, s.(heap := h, clean := c), s'.(heap := h, clean := c'))
  {
    var s1, s1' := s.(heap := h, clean := c), s'.(heap := h, clean := c');
    forall x | x in s1.slots
      ensures SlotHolds(cx, fr, b, i, s1, s1', x)
    {
      assert SlotHolds(cx, fr, b, i, s, s', x);
    }
    forall e | Available(cx, b, i, e)
      ensures SameName(cx, fr, s1.env, s1'.env, e)
    {
      assert SameName(cx, fr, s.env, s'.env, e);
    }
  }

  /** What promotion makes of the step at (b, i). */
  ghost predicate StepSim(cx: Context, fr: Frame, b: Block, i: nat, s': State, r: Step, r': Step)
    requires SourceOk(cx) && b in cx.t && i < |Body(cx, b)|
  {
    if IsSlotStore(cx.allocas, Body(cx, b)[i]) then r.Ok? && Sim(cx, fr, b, i + 1, r.st, s')
    else if r.Ok? then r'.Ok? && Sim(cx, fr, b, i + 1, r.st, r'.st)
    else r'.Trap? && r'.st.heap == r.st.heap
  }

  ghost predicate InstrSimPre(cx: Context, fr: Frame, fr': Frame, f: Operand -> Operand, b: Block, i: nat, s: State,
      s': State) {
    && SourceOk(cx) && b in cx.t && i < |Body(cx, b)|
    && Sim(cx, fr, b, i, s, s') && SlotsOk(cx, s)
    && IsResolver(cx, f) && FramesAgree(fr, fr') && fr.allocas == cx.allocas
  }

  lemma SlotAccessSim(cx: Context, fr: Frame, fr': Frame, f: Operand -> Operand, b: Block, i: nat, s: State, s': State)
    requires InstrSimPre(cx, fr, fr', f, b, i, s, s')
    requires var ins := Body(cx, b)[i];
             ins.Alloca? || ((ins.Load? || ins.Store?) && IsSlot(cx.allocas, ins.ptr))
    requires Exec(fr, Body(cx, b)[i], s).st.clean
    ensures StepSim(cx, fr, b, i, s', Exec(fr, Body(cx, b)[i], s), Exec(fr', MapInstr(f, Body(cx, b)[i]), s'))
  {
    var ins := Body(cx, b)[i];
    match ins
    case Alloca(a) =>
      KeptName(cx, b, i, a);
      DefineSame(cx, fr, b, i, s, s', a, Ptr(LocalObj(fr.depth, a), 0));
    case Load(d, p) =>
      AllocaStays(cx, p.name);
      assert f(p) == p;
      assert p.name in s.slots;
      var r' := Exec(fr', MapInstr(f, ins), s');
      LoadSim(cx, fr, b, i, s, s', d, p.name, r'.st.env[d]);
      HeapSim(cx, fr, b, i + 1, Set(s, d, s.slots[p.name]), Set(s', d, r'.st.env[d]), s.heap, s.clean, r'.st.clean);
    case Store(p, v) =>
      StoreSim(cx, fr, b, i, s, s', p.name, v);
  }

  lemma MemoryPointer(cx: Context, fr: Frame, fr': Frame, f: Operand -> Operand, b: Block, i: nat, s: State, s': State)
    requires InstrSimPre(cx, fr, fr', f, b, i, s, s')
    requires Accesses(cx, b, i) && !IsSlot(cx.allocas, Body(cx, b)[i].ptr)
    ensures var p := Body(cx, b)[i].ptr;
            f(p) == p && Eval(fr, s.env, p) == Eval(fr', s'.env, p)
  {
    var p := Body(cx, b)[i].ptr;
    assert PointerOk(cx, p);
    UsesAt(cx, b, i, p);
    OperandSame(cx, fr, b, i, s, s', p);
  }

  lemma MemoryLoadSim(cx: Context, fr: Frame, fr': Frame, f: Operand -> Operand, b: Block, i: nat, s: State, s': State)
    requires InstrSimPre(cx, fr, fr', f, b, i, s, s')
    requires Body(cx, b)[i].Load? && !IsSlot(cx.allocas, Body(cx, b)[i].ptr)
    ensures StepSim(cx, fr, b, i, s', Exec(fr, Body(cx, b)[i], s), Exec(fr', MapInstr(f, Body(cx, b)[i]), s'))
  {
    var ins := Body(cx, b)[i];
    MemoryPointer(cx, fr, fr', f, b, i, s, s');
    KeptName(cx, b, i, ins.dst);
    var r := Exec(fr, ins, s);
    if r.Ok? {
      DefineSame(cx, fr, b, i, s, s', ins.dst, r.st.env[ins.dst]);
    }
  }

  lemma MemoryStoreSim(cx: Context, fr: Frame, fr': Frame, f: Operand -> Operand, b: Block, i: nat, s: State, s': State)
    requires InstrSimPre(cx, fr, fr', f, b, i, s, s')
    requires Body(cx, b)[i].Store? && !IsSlot(cx.allocas, Body(cx, b)[i].ptr)
    ensures StepSim(cx, fr, b, i, s', Exec(fr, Body(cx, b)[i], s), Exec(fr', MapInstr(f, Body(cx, b)[i]), s'))
  {
    var ins := Body(cx, b)[i];
    MemoryPointer(cx, fr, fr', f, b, i, s, s');
    UsesAt(cx, b, i, ins.val);
    OperandSame(cx, fr, b, i, s, s', ins.val);
    EvalSame(fr, fr', s'.env, Resolve(cx, ins.val));
    var r := Exec(fr, ins, s);
    if r.Ok? {
      Advance(cx, fr, b, i, s, s');
      HeapSim(cx, fr, b, i + 1, s, s', r.st.heap, s.clean, s'.clean);
    }
  }

  lemma GepSim(cx: Context, fr: Frame, fr': Frame, f: Operand -> Operand, b: Block, i: nat, s: State, s': State)
    requires InstrSimPre(cx, fr, fr', f, b, i, s, s') && Body(cx, b)[i].Gep?
    ensures StepSim(cx, fr, b, i, s', Exec(fr, Body(cx, b)[i], s), Exec(fr', MapInstr(f, Body(cx, b)[i]), s'))
  {
    var ins := Body(cx, b)[i];
    UsesAt(cx, b, i, ins.base);
    UsesAllAt(cx, b, i, ins.idxs);
    OperandSame(cx, fr, b, i, s, s', ins.base);
    EvalSame(fr, fr', s'.env, Resolve(cx, ins.base));
    OperandsSame(cx, fr, fr', f, b, i, s, s', ins.idxs);
    KeptName(cx, b, i, ins.dst);
    var v := Exec(fr, ins, s).st.env[ins.dst];
    DefineSame(cx, fr, b, i, s, s', ins.dst, v);
    assert Exec(fr', MapInstr(f, ins), s') == Ok(Set(s', ins.dst, v));
  }

  lemma OpSim(cx: Context, fr: Frame, fr': Frame, f: Operand -> Operand, b: Block, i: nat, s: State, s': State)
    requires InstrSimPre(cx, fr, fr', f, b, i, s, s') && Body(cx, b)[i].Op?
    ensures StepSim(cx, fr, b, i, s', Exec(fr, Body(cx, b)[i], s), Exec(fr', MapInstr(f, Body(cx, b)[i]), s'))
  {
    var ins := Body(cx, b)[i];
    UsesAllAt(cx, b, i, ins.args);
    OperandsSame(cx, fr, fr', f, b, i, s, s', ins.args);
    KeptName(cx, b, i, ins.dst);
    var r := Exec(fr, ins, s);
    if r.Ok? {
      DefineSame(cx, fr, b, i, s, s', ins.dst, r.st.env[ins.dst]);
    }
  }

  lemma CallSim(cx: Context, fr: Frame, fr': Frame, f: Operand -> Operand, b: Block, i: nat, s: State, s': State)
    requires InstrSimPre(cx, fr, fr', f, b, i, s, s') && Body(cx, b)[i].Call?
    requires Exec(fr, Body(cx, b)[i], s).st.clean
    ensures StepSim(cx, fr, b, i, s', Exec(fr, Body(cx, b)[i], s), Exec(fr', MapInstr(f, Body(cx, b)[i]), s'))
  {
    var ins := Body(cx, b)[i];
    UsesAllAt(cx, b, i, ins.args);
    OperandsSame(cx, fr, fr', f, b, i, s, s', ins.args);
    KeptName(cx, b, i, ins.dst);
    var r := Exec(fr, ins, s);
    var r' := Exec(fr', MapInstr(f, ins), s');
    assert Agree(fr.call(ins.callee, EvalAll(fr, s.env, ins.args), s.heap),
      fr'.call(ins.callee, EvalAll(fr, s.env, ins.args), s.heap));
    if r.Ok? {
      DefineSame(cx, fr, b, i, s, s', ins.dst, r.st.env[ins.dst]);
      HeapSim(cx, fr, b, i + 1, Set(s, ins.dst, r.st.env[ins.dst]), Set(s', ins.dst, r.st.env[ins.dst]),
              r.st.heap, r.st.clean, r'.st.clean);
    }
  }

  lemma ExecKeeps(cx: Context, fr: Frame, ins: Instr, s: State)
    requires SlotsOk(cx, s) && fr.allocas == cx.allocas
    ensures SlotsOk(cx, Exec(fr, ins, s).st)
    ensures Exec(fr, ins, s).st.clean ==> s.clean
  {
  }

  /** One instruction, whatever it is. */
  lemma InstrSim(cx: Context, fr: Frame, fr': Frame, f: Operand -> Operand, b: Block, i: nat, s: State, s': State)
    requires i < |Body(cx, b)| && InstrSimPre(cx, fr, fr', f, b, i, s, s')
    requires Exec(fr, Body(cx, b)[i], s).st.clean
    ensures StepSim(cx, fr, b, i, s', Exec(fr, Body(cx, b)[i], s), Exec(fr', MapInstr(f, Body(cx, b)[i]), s'))
  {
    hide StepSim, InstrSimPre;
    var ins := Body(cx, b)[i];
    match ins
    case Alloca(_) => SlotAccessSim(cx, fr, fr', f, b, i, s, s');
    case Load(_, p) =>
      if IsSlot(cx.allocas, p) { SlotAccessSim(cx, fr, fr', f, b, i, s, s'); }
      else { MemoryLoadSim(cx, fr, fr', f, b, i, s, s'); }
    case Store(p, _) =>
      if IsSlot(cx.allocas, p) { SlotAccessSim(cx, fr, fr', f, b, i, s, s'); }
      else { MemoryStoreSim(cx, fr, fr', f, b, i, s, s'); }
    case Gep(_, _, _) => GepSim(cx, fr, fr', f, b, i, s, s');
    case Op(_, _, _) => OpSim(cx, fr, fr', f, b, i, s, s');
    case Call(_, _, _) => CallSim(cx, fr, fr', f, b, i, s, s');
  }

  // ----- A block body -----

  lemma SameStores(cx: Context, f: Operand -> Operand, b: Block, i: nat)
    requires SourceOk(cx) && IsResolver(cx, f) && i < |Body(cx, b)|
    ensures IsSlotStore(cx.allocas, MapInstr(f, Body(cx, b)[i])) <==> IsSlotStore(cx.allocas, Body(cx, b)[i])
  {
    var ins := Body(cx, b)[i];
    if ins.Store? {
      assert Accesses(cx, b, i);
    }
  }

  lemma {:induction false} BodyKeeps(cx: Context, fr: Frame, body: seq<Instr>, s: State)
    requires SlotsOk(cx, s) && fr.allocas == cx.allocas
    ensures SlotsOk(cx, ExecBody(fr, body, s).st)
    ensures ExecBody(fr, body, s).st.clean ==> s.clean
  {
    if body != [] {
      ExecKeeps(cx, fr, body[0], s);
      var r := Exec(fr, body[0], s);
      if r.Ok? { BodyKeeps(cx, fr, body[1..], r.st); }
    }
  }

  function Promoted(allocas: set<Name>, f: Operand -> Operand, body: seq<Instr>): seq<Instr> {
    DropStores(allocas, MapBody(f, body))
  }

  lemma PromotedEmpty(allocas: set<Name>, f: Operand -> Operand)
    ensures Promoted(allocas, f, []) == []
  {
  }

  lemma PromotedStep(allocas: set<Name>, f: Operand -> Operand, body: seq<Instr>, i: nat)
    requires i < |body|
    ensures Promoted(allocas, f, body[i..]) ==
            (if IsSlotStore(allocas, MapInstr(f, body[i])) then [] else [MapInstr(f, body[i])])
              + Promoted(allocas, f, body[i + 1..])
  {
    assert MapBody(f, body[i..])[1..] == MapBody(f, body[i + 1..]);
  }

  ghost predicate BodySimPost(cx: Context, fr: Frame, b: Block, r: Step, r': Step)
    requires SourceOk(cx) && b in cx.t
  {
    if r.Ok? then r'.Ok? && Sim(cx, fr, b, |Body(cx, b)|, r.st, r'.st)
    else r'.Trap? && r'.st.heap == r.st.heap
  }

  lemma {:induction false} BodySim(cx: Context, fr: Frame, fr': Frame, f: Operand -> Operand, b: Block, i: nat,
      s: State, s': State)
    requires SourceOk(cx) && b in cx.t && i <= |Body(cx, b)| && fr.allocas == cx.allocas
    requires Sim(cx, fr, b, i, s, s') && SlotsOk(cx, s) && IsResolver(cx, f) && FramesAgree(fr, fr')
    requires ExecBody(fr, Body(cx, b)[i..], s).st.clean
    ensures BodySimPost(cx, fr, b, ExecBody(fr, Body(cx, b)[i..], s),
                        ExecBody(fr', Promoted(cx.allocas, f, Body(cx, b)[i..]), s'))
    decreases |Body(cx, b)| - i
  {
    hide Sim, SlotsOk, SourceOk, IsResolver, FramesAgree, Exec, MapInstr, DropStores, MapBody, IsSlotStore;
    var body := Body(cx, b);
    if i == |body| {
      assert body[i..] == [];
      PromotedEmpty(cx.allocas, f);
    } else {
      assert body[i..][0] == body[i] && body[i..][1..] == body[i + 1..];
      var r := Exec(fr, body[i], s);
      ExecKeeps(cx, fr, body[i], s);
      if r.Ok? { BodyKeeps(cx, fr, body[i + 1..], r.st); }
      StepFacts(cx, fr, fr', f, b, i, s, s');
      PromotedStep(cx.allocas, f, body, i);
      SameStores(cx, f, b, i);
      var rest := Promoted(cx.allocas, f, body[i + 1..]);
      var ins' := MapInstr(f, body[i]);
      if IsSlotStore(cx.allocas, body[i]) {
        assert [] + rest == rest;
        BodySim(cx, fr, fr', f, b, i + 1, r.st, s');
      } else {
        assert ([ins'] + rest)[1..] == rest;
        if r.Ok? {
          BodySim(cx, fr, fr', f, b, i + 1, r.st, Exec(fr', ins', s').st);
        }
      }
    }
  }

  /** InstrSim in the form the induction over a body uses. */
  lemma StepFacts(cx: Context, fr: Frame, fr': Frame, f: Operand -> Operand, b: Block, i: nat, s: State, s': State)
    requires SourceOk(cx) && b in cx.t && i < |Body(cx, b)| && fr.allocas == cx.allocas
    requires Sim(cx, fr, b, i, s, s') && SlotsOk(cx, s) && IsResolver(cx, f) && FramesAgree(fr, fr')
    requires Exec(fr, Body(cx, b)[i], s).st.clean
    ensures var ins := Body(cx, b)[i];
            var r, r' := Exec(fr, ins, s), Exec(fr', MapInstr(f, ins), s');
            if IsSlotStore(cx.allocas, ins) then r.Ok? && Sim(cx, fr, b, i + 1, r.st, s')
            else if r.Ok? then r'.Ok? && Sim(cx, fr, b, i + 1, r.st, r'.st)
            else r'.Trap? && r'.st.heap == r.st.heap
  {
    InstrSim(cx, fr, fr', f, b, i, s, s');
  }

  // ----- Edges and phis -----

  /** What a phi for x must receive from its predecessor p. */
  ghost function OutOperand(cx: Context, p: Block, x: Name): Option<Operand>
    requires SourceOk(cx) && p in cx.t
  {
    var o := ReachOut(cx, p, x);
    if o.Some? then Some(Resolve(cx, o.value)) else None
  }

  ghost predicate PhiOk(cx: Context, b: Block, phi: Phi)
    requires SourceOk(cx)
  {
    && phi.dst.PhiName? && phi.dst.block == b && HasPhi(cx, b, phi.dst.slot)
    && (forall p :: p in cx.t && Edge(cx.g, p, b) ==> Incoming(phi.pairs, p) == OutOperand(cx, p, phi.dst.slot))
    && forall j :: 0 <= j < |phi.pairs| ==> PairFrom(cx, b, phi.dst.slot, phi.pairs[j])
  }

  /** The pair says what flows in along one edge. */
  ghost predicate PairFrom(cx: Context, b: Block, x: Name, pair: (Operand, Block))
    requires SourceOk(cx)
  {
    pair.1 in cx.t && Edge(cx.g, pair.1, b) && OutOperand(cx, pair.1, x) == Some(pair.0)
  }

  ghost predicate Distinct(phis: seq<Phi>) {
    forall j, k :: 0 <= j < k < |phis| ==> phis[j].dst != phis[k].dst
  }

  ghost predicate HasPhiNamed(phis: seq<Phi>, d: Name) {
    exists k :: 0 <= k < |phis| && phis[k].dst == d
  }

  /** Block b has exactly one phi per variable it was given one for, with the right operands. */
  ghost predicate PhisOk(cx: Context, b: Block, phis: seq<Phi>)
    requires SourceOk(cx)
  {
    && Distinct(phis)
    && (forall k :: 0 <= k < |phis| ==> PhiOk(cx, b, phis[k]))
    && (forall x :: HasPhi(cx, b, x) ==> HasPhiNamed(phis, PhiName(b, x)))
  }

  lemma {:induction false} EnterKeeps(fr: Frame, phis: seq<Phi>, pred: Option<Block>, env: map<Name, Value>, d: Name)
    requires forall k :: 0 <= k < |phis| ==> phis[k].dst != d
    ensures var env' := EnterBlock(fr, phis, pred, env);
            (d in env' <==> d in env) && (d in env ==> env'[d] == env[d])
  {
    if phis != [] {
      EnterKeeps(fr, phis[..|phis| - 1], pred, env, d);
    }
  }

  lemma {:induction false} EnterSets(fr: Frame, phis: seq<Phi>, pred: Option<Block>, env: map<Name, Value>, k: nat)
    requires k < |phis| && Distinct(phis)
    ensures var env' := EnterBlock(fr, phis, pred, env);
            phis[k].dst in env' && env'[phis[k].dst] == PhiValue(fr, env, phis[k].pairs, pred)
  {
    if k < |phis| - 1 {
      var front := phis[..|phis| - 1];
      assert Distinct(front) && front[k] == phis[k];
      EnterSets(fr, front, pred, env, k);
    }
  }

  /** Nothing usable at the end of the immediate dominator is written by the phis of b. */
  lemma PhisKeepUsable(cx: Context, fr: Frame, b: Block, phis: seq<Phi>, pred: Option<Block>, env: map<Name, Value>,
      o: Operand)
    requires SourceOk(cx) && b in cx.t && b != ENTRY && PhisOk(cx, b, phis)
    requires cx.t[b] in cx.t && Usable(cx, cx.t[b], |Body(cx, cx.t[b])|, o)
    ensures Eval(fr, EnterBlock(fr, phis, pred, env), o) == Eval(fr, env, o)
  {
    if o.Ref? {
      forall k | 0 <= k < |phis|
        ensures phis[k].dst != o.name
      {
        assert PhiOk(cx, b, phis[k]);
        if phis[k].dst == o.name {
          ChainRises(cx.id, cx.t, b, cx.t[b]);
        }
      }
      EnterKeeps(fr, phis, pred, env, o.name);
    }
  }

  /** A name available at the start of b, and any value b inherits, comes from the immediate
      dominator, which every predecessor of b has behind it. */
  lemma AvailableAcross(cx: Context, p: Block, b: Block, d: Name)
    requires GraphOk(cx) && SourceOk(cx) && p in cx.t && b in cx.t && b != ENTRY && Edge(cx.g, p, b)
    requires Available(cx, b, 0, d)
    ensures cx.t[b] in cx.t && Usable(cx, cx.t[b], |Body(cx, cx.t[b])|, Ref(d))
    ensures Available(cx, p, |Body(cx, p)|, d)
  {
    var c := cx.loc[d].b;
    var top := cx.t[b];
    StrictMeansParentChain(cx.g, cx.id, cx.t, top, b);
    DominatesPredecessor(cx.g, top, p, b);
    assert OnChain(cx.id, cx.t, c, top) && OnChain(cx.id, cx.t, top, p);
    ChainTransitive(cx.id, cx.t, c, top, p);
    DefinitionInBody(cx, d);
  }

  lemma DefinitionInBody(cx: Context, d: Name)
    requires SourceOk(cx) && d in cx.loc
    ensures d.Tmp? && cx.loc[d].i < |Body(cx, cx.loc[d].b)|
  {
    assert IsDefinition(cx, d, cx.loc[d]);
  }

  lemma NameAcross(cx: Context, fr: Frame, fr': Frame, p: Block, b: Block, s: State, s': State, phis: seq<Phi>, d: Name)
    requires GraphOk(cx) && SourceOk(cx) && p in cx.t && b in cx.t && b != ENTRY && Edge(cx.g, p, b)
    requires Sim(cx, fr, p, |Body(cx, p)|, s, s') && PhisOk(cx, b, phis) && FramesAgree(fr, fr')
    requires Available(cx, b, 0, d)
    ensures SameName(cx, fr, s.env, EnterBlock(fr', phis, Some(p), s'.env), d)
  {
    AvailableAcross(cx, p, b, d);
    assert SameName(cx, fr, s.env, s'.env, d);
    var top := cx.t[b];
    ResolveUsable(cx, top, |Body(cx, top)|, Ref(d));
    PhisKeepUsable(cx, fr', b, phis, Some(p), s'.env, Resolve(cx, Ref(d)));
    EvalSame(fr, fr', s'.env, Resolve(cx, Ref(d)));
    EvalSame(fr, fr', EnterBlock(fr', phis, Some(p), s'.env), Resolve(cx, Ref(d)));
  }

  lemma SlotAcross(cx: Context, fr: Frame, fr': Frame, p: Block, b: Block, s: State, s': State, phis: seq<Phi>, x: Name)
    requires GraphOk(cx) && SourceOk(cx) && PhisClosed(cx) && p in cx.t && b in cx.t && b != ENTRY && Edge(cx.g, p, b)
    requires Sim(cx, fr, p, |Body(cx, p)|, s, s') && PhisOk(cx, b, phis) && FramesAgree(fr, fr') && x in s.slots
    requires x in cx.allocas
    ensures SlotHolds(cx, fr, b, 0, s, s'.(env := EnterBlock(fr', phis, Some(p), s'.env)), x)
  {
    hide PhisOk, FramesAgree, PhisClosed, UsesOk, LocOk;
    assert SlotHolds(cx, fr, p, |Body(cx, p)|, s, s', x);
    EdgeLemma(cx, p, b, x);
    if HasPhi(cx, b, x) {
      PhiAcross(cx, fr, fr', p, b, s, s', phis, x);
    } else {
      InheritAcross(cx, fr, fr', p, b, s, s', phis, x);
    }
  }

  /** Without a phi, b inherits from its immediate dominator what also flows out of p. */
  lemma InheritAcross(cx: Context, fr: Frame, fr': Frame, p: Block, b: Block, s: State, s': State, phis: seq<Phi>,
      x: Name)
    requires SourceOk(cx) && p in cx.t && b in cx.t && b != ENTRY && !HasPhi(cx, b, x)
    requires x in s.slots && SlotsHoldAtEnd(cx, fr, p, s, s', x) && PhisOk(cx, b, phis) && FramesAgree(fr, fr')
    requires ReachOut(cx, cx.t[b], x) == ReachOut(cx, p, x)
    ensures SlotHolds(cx, fr, b, 0, s, s'.(env := EnterBlock(fr', phis, Some(p), s'.env)), x)
  {
    hide PhisOk;
    var top := cx.t[b];
    var o := ReachOut(cx, p, x).value;
    assert ReachAt(cx, b, 0, x) == ReachIn(cx, b, x) == ReachOut(cx, top, x);
    ReachUsable(cx, top, |Body(cx, top)|, x);
    ResolveUsable(cx, top, |Body(cx, top)|, o);
    PhisKeepUsable(cx, fr', b, phis, Some(p), s'.env, Resolve(cx, o));
    EvalSame(fr, fr', s'.env, Resolve(cx, o));
    EvalSame(fr, fr', EnterBlock(fr', phis, Some(p), s'.env), Resolve(cx, o));
  }

  lemma PhiAcross(cx: Context, fr: Frame, fr': Frame, p: Block, b: Block, s: State, s': State, phis: seq<Phi>, x: Name)
    requires SourceOk(cx) && p in cx.t && b in cx.t && Edge(cx.g, p, b) && HasPhi(cx, b, x)
    requires x in s.slots && SlotsHoldAtEnd(cx, fr, p, s, s', x) && PhisOk(cx, b, phis) && FramesAgree(fr, fr')
    ensures SlotHolds(cx, fr, b, 0, s, s'.(env := EnterBlock(fr', phis, Some(p), s'.env)), x)
  {
    hide PhisOk;
    PhiReceives(cx, fr', p, b, phis, s'.env, x);
    assert ReachAt(cx, b, 0, x) == ReachIn(cx, b, x) == Some(Ref(PhiName(b, x)));
    EvalSame(fr, fr', s'.env, Resolve(cx, ReachOut(cx, p, x).value));
  }

  /** One phi of the block is for x, and o is its operand on the edge from p. */
  ghost predicate TakesFrom(phis: seq<Phi>, d: Name, p: Block, o: Option<Operand>) {
    exists k :: 0 <= k < |phis| && phis[k].dst == d && Incoming(phis[k].pairs, p) == o
  }

  /** An edge into b is accounted for, with or without a phi: the phi for x has as its operand for the edge
      what reaches the end of p, after replacement of loads, and none if nothing does; without a phi the
      same operand reaches the end of p and the start of b. */
  lemma EdgeAccounted(cx: Context, p: Block, b: Block, phis: seq<Phi>, x: Name)
    requires GraphOk(cx) && SourceOk(cx) && PhisClosed(cx) && p in cx.t && b != ENTRY && Edge(cx.g, p, b)
    requires x in cx.allocas && PhisOk(cx, b, phis)
    ensures b in cx.t
    ensures HasPhi(cx, b, x) ==> TakesFrom(phis, PhiName(b, x), p, OutOperand(cx, p, x))
    ensures HasPhi(cx, b, x) ==> ReachIn(cx, b, x) == Some(Ref(PhiName(b, x)))
    ensures !HasPhi(cx, b, x) ==> !HasPhiNamed(phis, PhiName(b, x)) && ReachIn(cx, b, x) == ReachOut(cx, p, x)
  {
    hide PhisClosed, UsesOk, LocOk;
    EdgeLemma(cx, p, b, x);
    if HasPhi(cx, b, x) {
      var k :| 0 <= k < |phis| && phis[k].dst == PhiName(b, x);
      assert PhiOk(cx, b, phis[k]);
    } else {
      forall k: nat | k < |phis| ensures phis[k].dst != PhiName(b, x) {
        assert PhiOk(cx, b, phis[k]);
      }
    }
  }

  /** On the edge from p the phi for x takes the value of what reaches the end of p. */
  lemma PhiReceives(cx: Context, fr: Frame, p: Block, b: Block, phis: seq<Phi>, env: map<Name, Value>, x: Name)
    requires SourceOk(cx) && p in cx.t && Edge(cx.g, p, b) && HasPhi(cx, b, x) && PhisOk(cx, b, phis)
    requires ReachOut(cx, p, x).Some?
    ensures var env' := EnterBlock(fr, phis, Some(p), env);
            PhiName(b, x) in env' && env'[PhiName(b, x)] == Eval(fr, env, Resolve(cx, ReachOut(cx, p, x).value))
  {
    assert HasPhiNamed(phis, PhiName(b, x));
    var k :| 0 <= k < |phis| && phis[k].dst == PhiName(b, x);
    assert PhiOk(cx, b, phis[k]);
    EnterSets(fr, phis, Some(p), env, k);
  }

  ghost predicate SlotsHoldAtEnd(cx: Context, fr: Frame, p: Block, s: State, s': State, x: Name)
    requires SourceOk(cx) && p in cx.t && x in s.slots
  {
    SlotHolds(cx, fr, p, |Body(cx, p)|, s, s', x)
  }

  /** Control crosses an edge: the phis of the target give the relation at its start. */
  lemma EdgeSim(cx: Context, fr: Frame, fr': Frame, p: Block, b: Block, s: State, s': State, phis: seq<Phi>)
    requires GraphOk(cx) && SourceOk(cx) && PhisClosed(cx) && p in cx.t && b in cx.t && b != ENTRY && Edge(cx.g, p, b)
    requires Sim(cx, fr, p, |Body(cx, p)|, s, s') && PhisOk(cx, b, phis) && FramesAgree(fr, fr') && SlotsOk(cx, s)
    ensures Sim(cx, fr, b, 0, s, s'.(env := EnterBlock(fr', phis, Some(p), s'.env)))
  {
    var s1' := s'.(env := EnterBlock(fr', phis, Some(p), s'.env));
    forall d | Available(cx, b, 0, d)
      ensures SameName(cx, fr, s.env, s1'.env, d)
    {
      NameAcross(cx, fr, fr', p, b, s, s', phis, d);
    }
    forall x | x in s.slots
      ensures SlotHolds(cx, fr, b, 0, s, s1', x)
    {
      SlotAcross(cx, fr, fr', p, b, s, s', phis, x);
    }
  }

  // ----- Whole runs -----

  /** What Mem2Reg leaves in the reachable blocks. */
  ghost predicate Result(cx: Context, f: Operand -> Operand, out: seq<BasicBlock>)
    requires SourceOk(cx)
  {
    && |out| == |cx.blocks|
    && forall b {:trigger BlockResult(cx, f, out, b)} :: b in cx.t ==> BlockResult(cx, f, out, b)
  }

  ghost predicate BlockResult(cx: Context, f: Operand -> Operand, out: seq<BasicBlock>, b: Block)
    requires SourceOk(cx) && b in cx.t && |out| == |cx.blocks|
  {
    && out[b].body == Promoted(cx.allocas, f, cx.blocks[b].body)
    && out[b].term == MapTerm(f, cx.blocks[b].term)
    && PhisOk(cx, b, out[b].phis)
  }

  /** What Mem2Reg leaves in the other blocks: uses of loads are replaced there too, stores stay. */
  ghost predicate UnreachedResult(cx: Context, f: Operand -> Operand, out: seq<BasicBlock>)
    requires SourceOk(cx)
  {
    && |out| == |cx.blocks|
    && forall b: Block {:trigger UnreachedBlock(cx, f, out, b)} :: b < |out| && b !in cx.t ==>
      UnreachedBlock(cx, f, out, b)
  }

  ghost predicate UnreachedBlock(cx: Context, f: Operand -> Operand, out: seq<BasicBlock>, b: Block)
    requires SourceOk(cx) && b < |out| == |cx.blocks|
  {
    && out[b].body == MapBody(f, cx.blocks[b].body)
    && out[b].term == MapTerm(f, cx.blocks[b].term)
    && PhisOk(cx, b, out[b].phis)
  }

  /** The runs agree on the path taken, the memory, the external calls and the value returned,
      unless the original run has read a variable that nothing was stored to. */
  ghost predicate OutcomesAgree(o: Outcome, o': Outcome) {
    o.clean ==>
      match o
      case Finished(v, h, p, _) => o'.Finished? && o'.val == v && o'.heap == h && o'.path == p
      case Stuck(h, p, _) => o'.Stuck? && o'.heap == h && o'.path == p
      case OutOfFuel(h, p, _) => o'.OutOfFuel? && o'.heap == h && o'.path == p
  }

  lemma {:induction false} RunClean(cx: Context, fr: Frame, fuel: nat, b: Block, pred: Option<Block>, s: State,
      path: seq<Block>)
    requires SlotsOk(cx, s) && fr.allocas == cx.allocas
    ensures Run(fr, cx.blocks, fuel, b, pred, s, path).clean ==> s.clean
    decreases fuel
  {
    if fuel > 0 && b < |cx.blocks| {
      var s1 := s.(env := EnterBlock(fr, cx.blocks[b].phis, pred, s.env));
      BodyKeeps(cx, fr, cx.blocks[b].body, s1);
      var r := ExecBody(fr, cx.blocks[b].body, s1);
      if r.Ok? {
        var n := Branch(fr, r.st.env, cx.blocks[b].term);
        if n.Goto? { RunClean(cx, fr, fuel - 1, n.b, Some(b), r.st, path + [b]); }
      }
    }
  }

  lemma BranchSim(cx: Context, fr: Frame, fr': Frame, f: Operand -> Operand, b: Block, s: State, s': State)
    requires SourceOk(cx) && b in cx.t && IsResolver(cx, f) && FramesAgree(fr, fr')
    requires Sim(cx, fr, b, |Body(cx, b)|, s, s')
    ensures Branch(fr, s.env, cx.blocks[b].term) == Branch(fr', s'.env, MapTerm(f, cx.blocks[b].term))
  {
    var t := cx.blocks[b].term;
    assert TermUsesOk(cx, b);
    if t.CondBr? || t.Ret? {
      var o := if t.CondBr? then t.cond else t.val;
      assert o in TermOperands(t);
      OperandSame(cx, fr, b, |Body(cx, b)|, s, s', o);
      EvalSame(fr, fr', s'.env, Resolve(cx, o));
    }
  }

  lemma BranchEdge(cx: Context, fr: Frame, env: map<Name, Value>, b: Block)
    requires GraphOk(cx) && b in cx.t && Branch(fr, env, cx.blocks[b].term).Goto?
    ensures var c := Branch(fr, env, cx.blocks[b].term).b;
            Edge(cx.g, b, c) && c in cx.t && c < |cx.blocks|
  {
    var c := Branch(fr, env, cx.blocks[b].term).b;
    assert c in Targets(cx.blocks[b].term);
    ReachableStep(cx.g, b, c);
  }

  lemma NoSourcePhis(cx: Context, fr: Frame, b: Block, pred: Option<Block>, s: State)
    requires SourceOk(cx) && b in cx.t
    ensures b < |cx.blocks| && s.(env := EnterBlock(fr, cx.blocks[b].phis, pred, s.env)) == s
  {
  }

  lemma InFunction(cx: Context, b: Block)
    requires SourceOk(cx) && b in cx.t
    ensures b < |cx.blocks| && Body(cx, b) == cx.blocks[b].body
  {
  }

  lemma SimHeap(cx: Context, fr: Frame, b: Block, i: nat, s: State, s': State)
    requires SourceOk(cx) && b in cx.t && i <= |Body(cx, b)| && Sim(cx, fr, b, i, s, s')
    ensures s.heap == s'.heap
  {
  }

  ghost predicate RunPre(cx: Context, f: Operand -> Operand, fr: Frame, fr': Frame, out: seq<BasicBlock>) {
    && GraphOk(cx) && SourceOk(cx) && PhisClosed(cx)
    && (forall p :: p in cx.t ==> !Edge(cx.g, p, ENTRY))
    && IsResolver(cx, f) && FramesAgree(fr, fr') && fr.allocas == cx.allocas
    && Result(cx, f, out)
  }

  lemma {:induction false} RunSim(cx: Context, f: Operand -> Operand, fr: Frame, fr': Frame, out: seq<BasicBlock>,
                                  fuel: nat, b: Block, pred: Option<Block>, s: State, s': State, path: seq<Block>)
    requires RunPre(cx, f, fr, fr', out) && b in cx.t && SlotsOk(cx, s)
    requires Sim(cx, fr, b, 0, s, s'.(env := EnterBlock(fr', out[b].phis, pred, s'.env)))
    ensures OutcomesAgree(Run(fr, cx.blocks, fuel, b, pred, s, path), Run(fr', out, fuel, b, pred, s', path))
    decreases fuel
  {
    hide GraphOk, SourceOk, PhisClosed, FramesAgree, IsResolver, Sim, SlotsOk, PhisOk, ExecBody, EnterBlock, Branch,
         MapTerm, Promoted;
    var o := Run(fr, cx.blocks, fuel, b, pred, s, path);
    InFunction(cx, b);
    SimHeap(cx, fr, b, 0, s, s'.(env := EnterBlock(fr', out[b].phis, pred, s'.env)));
    if fuel > 0 && o.clean {
      var s1' := s'.(env := EnterBlock(fr', out[b].phis, pred, s'.env));
      var body := cx.blocks[b].body;
      NoSourcePhis(cx, fr, b, pred, s);
      var r, r' := ExecBody(fr, body, s), ExecBody(fr', out[b].body, s1');
      assert r.st.clean by {
        if r.Ok? && Branch(fr, r.st.env, cx.blocks[b].term).Goto? {
          BodyKeeps(cx, fr, body, s);
          RunClean(cx, fr, fuel - 1, Branch(fr, r.st.env, cx.blocks[b].term).b, Some(b), r.st, path + [b]);
        }
      }
      assert BlockResult(cx, f, out, b);
      assert body[0..] == body;
      BodySim(cx, fr, fr', f, b, 0, s, s1');
      if r.Ok? {
        BranchSim(cx, fr, fr', f, b, r.st, r'.st);
        SimHeap(cx, fr, b, |body|, r.st, r'.st);
        var n := Branch(fr, r.st.env, cx.blocks[b].term);
        if n.Goto? {
          BranchEdge(cx, fr, r.st.env, b);
          BodyKeeps(cx, fr, body, s);
          assert BlockResult(cx, f, out, n.b);
          EdgeSim(cx, fr, fr', b, n.b, r.st, r'.st, out[n.b].phis);
          RunSim(cx, f, fr, fr', out, fuel - 1, n.b, Some(b), r.st, r'.st, path + [b]);
        }
      }
    }
  }

  function Start(h: Heap): State {
    State(map[], map[], h, true)
  }

  /** Promotion preserves meaning: for every amount of fuel, memory, arguments and behaviour of
      calls, the result of Mem2Reg runs like the original function. */
  lemma PromotionPreservesRuns(cx: Context, f: Operand -> Operand, fr: Frame, fr': Frame, out: seq<BasicBlock>,
      fuel: nat, h: Heap)
    requires RunPre(cx, f, fr, fr', out)
    ensures OutcomesAgree(Run(fr, cx.blocks, fuel, ENTRY, None, Start(h), []),
            Run(fr', out, fuel, ENTRY, None, Start(h), []))
  {
    var s := Start(h);
    var s' := s.(env := EnterBlock(fr', out[ENTRY].phis, None, s.env));
    assert forall d :: !Available(cx, ENTRY, 0, d);
    RunSim(cx, f, fr, fr', out, fuel, ENTRY, None, s, s, []);
  }
}
