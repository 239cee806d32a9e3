/** Source programs: functions with parameters and a body, and what a call of one returns. */
module Source {
  import opened Ir
  import opened SysY
  import opened Programs

  datatype ResultType = VoidResult | IntResult | FloatResult

  /** `vars` is more than any number of a variable; the parameters have the first numbers. */
  datatype Definition = Definition(
    declared: bool,
    main: bool,
    params: seq<ParamType>,
    result: ResultType,
    vars: nat,
    body: Stmt)

  /** The return that is added if control falls off the end of the body. */
  function DefaultReturn(result: ResultType): (t: Terminator)
    ensures t == RetVoid || (t.Ret? && (t.val.Imm? || t.val.FloatImm?))
  {
    match result
    case VoidResult => RetVoid
    case IntResult => Ret(Imm(0))
    case FloatResult => Ret(FloatImm(0.0))
  }

  /** The variables of array parameters. */
  function Arrays(params: seq<ParamType>): (r: set<nat>)
    ensures forall i: nat :: i in r <==> i < |params| && params[i].PointerParam?
  {
    if params == [] then {}
    else
      var n := |params| - 1;
      Arrays(params[..n]) + (if params[n].PointerParam? then {n} else {})
  }

  /** Variables are used in their scope, each number has one declaration, and array parameters are only
      handed on. */
  predicate Scoped(d: Definition) {
    && |d.params| <= d.vars && WellScoped(d.body, SysY.Below(|d.params|), false) && NumberedOnce(d.body)
    && (forall x :: x in Declared(d.body) ==> |d.params| <= x < d.vars) && Keeps(d.body, Arrays(d.params))
  }

  type Module = seq<Definition>

  /** The value of a call in which control falls off the end of the body. */
  function FallsOff(result: ResultType): Ir.Value {
    match result
    case VoidResult => Undef
    case IntResult => Int(0)
    case FloatResult => FloatVal(0.0)
  }

  /** A call of function f at some call depth. `k` bounds the depth of calls below it and the number of
      iterations of each of its loops. A call that reads a variable without a value has no meaning. */
  function CallSource(S: Module, w: World, k: nat, depth: nat, f: nat, args: seq<Ir.Value>, h: Heap)
      : (c: CallResult)
    ensures c.Returned? ==> c.clean
    decreases k, 0
  {
    var h0 := Surviving(h, depth);
    if f >= |S| then Failed(true)
    else if S[f].declared then
      var r := w.external(f, args, h0);
      Returned(r.0, Surviving(r.1, depth), true)
    else if k == 0 then Failed(true)
    else
      var r := InterpBody(Env(w, SourceCalls(S, w, k - 1, depth)), args, |S[f].params|, S[f].body, k, h0);
      match r.flow
      case Normal => Returned(FallsOff(S[f].result), Surviving(r.heap, depth), true)
      case Gone(v) => Returned(v, Surviving(r.heap, depth), true)
      case Undefined => Failed(false)
      case _ => Failed(true)
  }

  /** What calls do in a function that is called at this depth. */
  function SourceCalls(S: Module, w: World, k: nat, depth: nat): (nat, seq<Ir.Value>, Heap) -> CallResult
    decreases k, 1
  {
    (g: nat, a, h) => CallSource(S, w, k, depth + 1, g, a, h)
  }

  /** `int main() { }` returns 0. */
  lemma EmptyMain(w: World, k: nat, h: Heap)
    requires k > 0
    ensures var S := [Definition(false, true, [], IntResult, 0, SysY.Block(Done))];
            CallSource(S, w, k, 0, 0, [], h) == Returned(Int(0), Surviving(h, 0), true)
  {
    var S := [Definition(false, true, [], IntResult, 0, SysY.Block(Done))];
    SurvivingTwice(h, 0);
    var env := Env(w, SourceCalls(S, w, k - 1, 0));
    var vars, h0 := Params([], 0), Surviving(h, 0);
    assert InterpItems(env, Done, k, vars, h0) == SysY.Result.Result(Normal, vars, h0);
    assert InterpBody(env, [], 0, SysY.Block(Done), k, h0) == SysY.Result.Result(Normal, vars, h0);
  }

  lemma SurvivingTwice(h: Heap, n: nat)
    ensures Surviving(Surviving(h, n), n) == Surviving(h, n)
  {
  }
}
