/** The intermediate representation the passes work on. An instruction is known by the name of its
    result, which is how its users refer to it. */
module Ir {
  import opened ControlFlow

  datatype Option<T> = None | Some(value: T)

  /** `PhiName(b, x)` names the phi that Mem2Reg creates in block `b` for the slot `x`. */
  datatype Name = Tmp(n: nat) | PhiName(block: Block, slot: Name)

  /** Constants of the types i32, i1 and float, arguments, globals, and results of instructions. */
  datatype Operand =
    | Imm(n: int)
    | BitImm(b: bool)
    | FloatImm(x: real)
    | Arg(i: nat)
    | Global(g: nat)
    | Ref(name: Name)

  datatype Instr =
    | Alloca(dst: Name)
    | Load(dst: Name, ptr: Operand)
    | Store(ptr: Operand, val: Operand)
    | Gep(dst: Name, base: Operand, idxs: seq<Operand>)
    | Op(dst: Name, code: nat, args: seq<Operand>)
    | Call(dst: Name, callee: nat, args: seq<Operand>)

  datatype Phi = Phi(dst: Name, pairs: seq<(Operand, Block)>)

  datatype Terminator =
    | Br(target: Block)
    | CondBr(cond: Operand, ifTrue: Block, ifFalse: Block)
    | Ret(val: Operand)
    | RetVoid

  /** Phis stand at the front of a block and the terminator at its end. */
  datatype BasicBlock = BasicBlock(phis: seq<Phi>, body: seq<Instr>, term: Terminator)

  function Targets(t: Terminator): seq<Block> {
    match t
    case Br(b) => [b]
    case CondBr(_, a, b) => [a, b]
    case Ret(_) => []
    case RetVoid => []
  }

  predicate Defines(ins: Instr, d: Name) {
    !ins.Store? && ins.dst == d
  }

  /** The operands of an instruction, the callee of a call aside. */
  function Operands(ins: Instr): seq<Operand> {
    match ins
    case Alloca(_) => []
    case Load(_, p) => [p]
    case Store(p, v) => [v, p]
    case Gep(_, b, idxs) => [b] + idxs
    case Op(_, _, args) => args
    case Call(_, _, args) => args
  }

  function TermOperands(t: Terminator): seq<Operand> {
    match t
    case Br(_) => []
    case CondBr(c, _, _) => [c]
    case Ret(v) => [v]
    case RetVoid => []
  }

  /** Any instruction of a block. */
  datatype Instruction = Plain(ins: Instr) | Join(phi: Phi) | End(term: Terminator)

  function PairOperands(pairs: seq<(Operand, Block)>): (r: seq<Operand>)
    ensures |r| == |pairs| && forall i :: 0 <= i < |pairs| ==> r[i] == pairs[i].0
  {
    seq(|pairs|, i requires 0 <= i < |pairs| => pairs[i].0)
  }

  function AllOperands(it: Instruction): seq<Operand> {
    match it
    case Plain(ins) => Operands(ins)
    case Join(phi) => PairOperands(phi.pairs)
    case End(t) => TermOperands(t)
  }

  /** The instruction an operand points to, by the name of its result. */
  type Definitions = map<Name, Instruction>

  ghost predicate InBlock(bb: BasicBlock, it: Instruction) {
    match it
    case Plain(ins) => ins in bb.body
    case Join(phi) => phi in bb.phis
    case End(t) => t == bb.term
  }

  ghost predicate InBlocks(blocks: seq<BasicBlock>, it: Instruction) {
    exists b :: 0 <= b < |blocks| && InBlock(blocks[b], it)
  }

  /** The table holds every definition of the function, so no name is defined twice. */
  ghost predicate TableOk(blocks: seq<BasicBlock>, defs: Definitions) {
    && (forall b, i {:trigger blocks[b].body[i]} ::
      0 <= b < |blocks| && 0 <= i < |blocks[b].body| && !blocks[b].body[i].Store? ==>
          blocks[b].body[i].dst in defs && defs[blocks[b].body[i].dst] == Plain(blocks[b].body[i]))
    && (forall b, k {:trigger blocks[b].phis[k]} :: 0 <= b < |blocks| && 0 <= k < |blocks[b].phis| ==>
          blocks[b].phis[k].dst in defs && defs[blocks[b].phis[k].dst] == Join(blocks[b].phis[k]))
  }

  // ----- Meaning -----

  /** Memory objects: globals, and the arrays a function at some call depth has allocated. */
  datatype Obj = GlobalObj(g: nat) | LocalObj(depth: nat, name: Name)

  /** Values of the types i32, i1, float and pointer. */
  datatype Value = Undef | Int(n: int) | BitVal(b: bool) | FloatVal(x: real) | Ptr(obj: Obj, off: int)

  type Cell = (Obj, int)

  /** Memory, and the history of calls to declared (external) functions. */
  datatype Heap = Heap(mem: map<Cell, Value>, log: seq<(nat, seq<Value>)>)

  datatype CallResult =
    | Returned(val: Value, heap: Heap, clean: bool)
    | Failed(clean: bool)

  /** The parts of the language whose meaning does not matter here: arithmetic (None is a trap),
      index computation, and what declared functions do. */
  datatype World = World(
    op: (nat, seq<Value>) -> Option<Value>,
    offset: seq<Value> -> int,
    external: (nat, seq<Value>, Heap) -> (Value, Heap))

  /** One activation: its call depth, its arguments, the allocas of its function, and what calls do. */
  datatype Frame = Frame(
    world: World,
    depth: nat,
    args: seq<Value>,
    allocas: set<Name>,
    call: (nat, seq<Value>, Heap) -> CallResult)

  /** `slots` holds the variables accessed directly through their alloca; a variable that has not
      been stored to is absent. `clean` turns false when such a variable is read. */
  datatype State = State(env: map<Name, Value>, slots: map<Name, Value>, heap: Heap, clean: bool)

  datatype Step = Ok(st: State) | Trap(st: State)

  function Eval(fr: Frame, env: map<Name, Value>, o: Operand): Value {
    match o
    case Imm(n) => Int(n)
    case BitImm(b) => BitVal(b)
    case FloatImm(x) => FloatVal(x)
    case Arg(i) => if i < |fr.args| then fr.args[i] else Undef
    case Global(g) => Ptr(GlobalObj(g), 0)
    case Ref(d) => if d in env then env[d] else Undef
  }

  function EvalAll(fr: Frame, env: map<Name, Value>, os: seq<Operand>): (r: seq<Value>)
    ensures |r| == |os|
  {
    seq(|os|, i requires 0 <= i < |os| => Eval(fr, env, os[i]))
  }

  /** Direct access to a scalar variable. */
  predicate IsSlot(allocas: set<Name>, ptr: Operand) {
    ptr.Ref? && ptr.name in allocas
  }

  /** Objects of activations that have returned are gone; an access to one traps. */
  predicate Accessible(fr: Frame, a: Value) {
    a.Ptr? && (a.obj.LocalObj? ==> a.obj.depth <= fr.depth)
  }

  function Set(st: State, d: Name, v: Value): State {
    st.(env := st.env[d := v])
  }

  function Exec(fr: Frame, ins: Instr, st: State): Step {
    match ins
    case Alloca(a) =>
      // An alloca owns one place in the frame, whose contents survive when it is executed again.
      Ok(Set(st, a, Ptr(LocalObj(fr.depth, a), 0)))
    case Load(d, p) =>
      if IsSlot(fr.allocas, p) then
        if p.name in st.slots then Ok(Set(st, d, st.slots[p.name]))
        else Ok(Set(st, d, Undef).(clean := false))
      else
        var a := Eval(fr, st.env, p);
        if !Accessible(fr, a) then Trap(st)
        else if (a.obj, a.off) in st.heap.mem then Ok(Set(st, d, st.heap.mem[(a.obj, a.off)]))
        else Ok(Set(st, d, Undef))
    case Store(p, v) =>
      var x := Eval(fr, st.env, v);
      if IsSlot(fr.allocas, p) then Ok(st.(slots := st.slots[p.name := x]))
      else
        var a := Eval(fr, st.env, p);
        if !Accessible(fr, a) then Trap(st)
        else Ok(st.(heap := st.heap.(mem := st.heap.mem[(a.obj, a.off) := x])))
    case Gep(d, b, idxs) =>
      var a := Eval(fr, st.env, b);
      if a.Ptr? then Ok(Set(st, d, Ptr(a.obj, a.off + fr.world.offset(EvalAll(fr, st.env, idxs)))))
      else Ok(Set(st, d, Undef))
    case Op(d, code, args) =>
      match fr.world.op(code, EvalAll(fr, st.env, args)) {
        case None => Trap(st)
        case Some(v) => Ok(Set(st, d, v))
      }
    case Call(d, f, args) =>
      match fr.call(f, EvalAll(fr, st.env, args), st.heap) {
        case Returned(v, h, c) => Ok(State(st.env[d := v], st.slots, h, st.clean && c))
        case Failed(c) => Trap(st.(clean := st.clean && c))
      }
  }

  function ExecBody(fr: Frame, body: seq<Instr>, st: State): Step {
    if body == [] then Ok(st)
    else
      match Exec(fr, body[0], st)
      case Ok(st') => ExecBody(fr, body[1..], st')
      case Trap(st') => Trap(st')
  }

  /** The operand a phi has for the edge from `pred`; a missing one is printed as undef. */
  function Incoming(pairs: seq<(Operand, Block)>, pred: Block): Option<Operand> {
    if pairs == [] then None
    else if pairs[0].1 == pred then Some(pairs[0].0)
    else Incoming(pairs[1..], pred)
  }

  function PhiValue(fr: Frame, env: map<Name, Value>, pairs: seq<(Operand, Block)>, pred: Option<Block>): Value {
    if pred.None? then Undef
    else match Incoming(pairs, pred.value)
      case None => Undef
      case Some(o) => Eval(fr, env, o)
  }

  /** All phis of a block read the environment before any of them writes it. */
  function EnterBlock(fr: Frame, phis: seq<Phi>, pred: Option<Block>, env0: map<Name, Value>): map<Name, Value> {
    if phis == [] then env0
    else
      var last := phis[|phis| - 1];
      EnterBlock(fr, phis[..|phis| - 1], pred, env0)[last.dst := PhiValue(fr, env0, last.pairs, pred)]
  }

  datatype Outcome =
    | Finished(val: Value, heap: Heap, path: seq<Block>, clean: bool)
    | Stuck(heap: Heap, path: seq<Block>, clean: bool)
    | OutOfFuel(heap: Heap, path: seq<Block>, clean: bool)

  /** Where control goes after a block. */
  datatype Next = Goto(b: Block) | Return(val: Value) | NoBranch

  function Branch(fr: Frame, env: map<Name, Value>, t: Terminator): Next {
    match t
    case Br(b) => Goto(b)
    case CondBr(c, a, b) =>
      (match Eval(fr, env, c)
       case BitVal(x) => if x then Goto(a) else Goto(b)
       case _ => NoBranch)
    case Ret(v) => Return(Eval(fr, env, v))
    case RetVoid => Return(Undef)
  }

  /** A run of at most `fuel` blocks; `path` lists the blocks entered so far. */
  function Run(fr: Frame, blocks: seq<BasicBlock>, fuel: nat, b: Block, pred: Option<Block>, st: State,
      path: seq<Block>): Outcome {
    if fuel == 0 || b >= |blocks| then OutOfFuel(st.heap, path, st.clean)
    else
      var st1 := st.(env := EnterBlock(fr, blocks[b].phis, pred, st.env));
      match ExecBody(fr, blocks[b].body, st1)
      case Trap(st2) => Stuck(st2.heap, path + [b], st2.clean)
      case Ok(st2) =>
        match Branch(fr, st2.env, blocks[b].term)
        case NoBranch => Stuck(st2.heap, path + [b], st2.clean)
        case Return(v) => Finished(v, st2.heap, path + [b], st2.clean)
        case Goto(c) => Run(fr, blocks, fuel - 1, c, Some(b), st2, path + [b])
  }
}
