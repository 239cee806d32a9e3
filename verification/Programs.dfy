/** Whole programs: functions calling each other, with local objects that die on return. */
module Programs {
  import opened ControlFlow
  import opened Ir
  import opened PromotionMeaning

  datatype ParamType = IntParam | FloatParam | PointerParam

  /** `slots` are the allocas accessed directly by loads and stores, `pointers` the names of pointer type. */
  datatype Function = Function(
    declared: bool,
    main: bool,
    params: seq<ParamType>,
    blocks: seq<BasicBlock>,
    slots: set<Name>,
    pointers: set<Name>)

  type Program = seq<Function>

  function Below(mem: map<Cell, Value>, n: nat): map<Cell, Value> {
    map c | c in mem && (c.0.LocalObj? ==> c.0.depth < n) :: mem[c]
  }

  /** The memory without the objects of activations at call depth n and deeper. */
  function Surviving(h: Heap, n: nat): Heap {
    h.(mem := Below(h.mem, n))
  }

  /** A call of function f at some call depth. `k` bounds the depth of calls below it and the
      length of its run. */
  function CallFn(P: Program, w: World, k: nat, depth: nat, f: nat, args: seq<Value>, h: Heap): CallResult
    decreases k, 0
  {
    var h0 := Surviving(h, depth);
    if f >= |P| then Failed(true)
    else if P[f].declared then
      var r := w.external(f, args, h0);
      Returned(r.0, Surviving(r.1, depth), true)
    else if k == 0 then Failed(true)
    else
      match Run(FrameOf(P, w, k - 1, depth, f, args), P[f].blocks, k, ENTRY, None, Start(h0), [])
      case Finished(v, h1, _, c) => Returned(v, Surviving(h1, depth), c)
      case Stuck(_, _, c) => Failed(c)
      case OutOfFuel(_, _, c) => Failed(c)
  }

  function FrameOf(P: Program, w: World, k: nat, depth: nat, f: nat, args: seq<Value>): Frame
    requires f < |P|
    decreases k, 1
  {
    Frame(w, depth, args, P[f].slots, (g: nat, a, h) => CallFn(P, w, k, depth + 1, g, a, h))
  }

  // ----- Calls between functions -----

  ghost predicate CallsAt(P: Program, g: nat, f: nat, b: nat, i: nat) {
    && g < |P| && b < |P[g].blocks| && i < |P[g].blocks[b].body|
    && P[g].blocks[b].body[i].Call? && P[g].blocks[b].body[i].callee == f
  }

  /** Some instruction of g calls f. */
  ghost predicate Calls(P: Program, g: nat, f: nat) {
    exists b, i :: CallsAt(P, g, f, b, i)
  }

  /** Each function on the path calls the next. */
  ghost predicate CallPath(P: Program, p: seq<nat>, f: nat, g: nat) {
    && p != [] && p[0] == f && p[|p| - 1] == g
    && forall i :: 0 <= i < |p| - 1 ==> CallsNext(P, p, i)
  }

  ghost predicate CallsNext(P: Program, p: seq<nat>, i: nat)
    requires i < |p| - 1
  {
    Calls(P, p[i], p[i + 1])
  }
}
