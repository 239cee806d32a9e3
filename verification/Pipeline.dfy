/** Mem2Reg and then dead code elimination on a whole program. */
module Pipeline {
  import opened ControlFlow
  import opened DominatorTree
  import opened Ir
  import opened Programs
  import opened Promotion
  import opened PromotionMeaning
  import opened Mem2RegRun
  import opened Purity
  import opened DeadCode
  import UseLists
  import opened DeadCodeMeaning
  import opened Composition
  import opened PromotedForm
  import opened PhiPlacement
  import opened StorePaths
  import opened UseChains

  // ----- Promotion of a program -----

  /** What Mem2Reg is given for each function. */
  datatype Input = Input(g: Graph, geps: set<Name>, loc: map<Name, Loc>)

  ghost predicate InputOk(fn: Function, inp: Input) {
    FunctionOk(inp.g, inp.geps, fn.blocks, inp.loc, fn.slots) && LoadsStored(inp.g, fn.blocks, fn.slots)
  }

  ghost predicate InputsOk(P: Program, inputs: seq<Input>) {
    |inputs| == |P| && forall f {:trigger P[f]} :: 0 <= f < |P| && !P[f].declared ==> InputOk(P[f], inputs[f])
  }

  /** The setting in which the blocks became `out`. */
  ghost predicate PromotedIn(fn: Function, inp: Input, cx: Context, f: Operand -> Operand, fr: Frontiers,
      out: seq<BasicBlock>) {
    && cx.g == inp.g && cx.blocks == fn.blocks && cx.loc == inp.loc && cx.allocas == fn.slots
    && SourceOk(cx) && GraphOk(cx) && PhisLeast(cx, fr) && IsResolver(cx, f) && Result(cx, f, out)
    && UnreachedResult(cx, f, out)
  }

  ghost predicate FunctionPromoted(fn: Function, inp: Input, fn': Function) {
    && fn' == fn.(blocks := fn'.blocks)
    && if fn.declared then fn' == fn
       else SameMeaning(fn.slots, fn.blocks, fn'.blocks) && exists cx, f, fr ::
         PromotedIn(fn, inp, cx, f, fr, fn'.blocks)
  }

  ghost predicate PromotedProgram(P: Program, inputs: seq<Input>, P': Program) {
    |P'| == |inputs| == |P| && forall f {:trigger P'[f]} :: 0 <= f < |P| ==> FunctionPromoted(P[f], inputs[f], P'[f])
  }

  /** The pass over all functions; `ok` is false if the dominator analysis of some function throws. */
  method PromoteProgram(P: Program, inputs: seq<Input>) returns (ok: bool, P': Program)
    requires InputsOk(P, inputs)
    ensures ok <==> forall f :: 0 <= f < |P| && !P[f].declared ==> JoinsReachable(inputs[f].g)
    ensures ok ==> PromotedProgram(P, inputs, P')
  {
    hide FunctionOk, LoadsStored, SameMeaning, JoinsReachable, SourceOk, GraphOk, IsResolver, Result, UnreachedResult,
         PhisLeast;
    ok, P' := true, [];
    for f := 0 to |P|
      invariant |P'| == f && ok
      invariant forall i :: 0 <= i < f && !P[i].declared ==> JoinsReachable(inputs[i].g)
      invariant forall i {:trigger P'[i]} :: 0 <= i < f ==> FunctionPromoted(P[i], inputs[i], P'[i])
    {
      var fn := P[f];
      if !fn.declared {
        assert InputOk(fn, inputs[f]);
        ghost var cx, subst;
        var blocks;
        ok, blocks, cx, subst := PromoteFunction(inputs[f].g, inputs[f].geps, fn.blocks, inputs[f].loc, fn.slots);
        if !ok {
          return;
        }
        fn := fn.(blocks := blocks);
        ghost var fr :| PhisLeast(cx, fr);
        assert PromotedIn(P[f], inputs[f], cx, subst, fr, blocks);
      }
      assert FunctionPromoted(P[f], inputs[f], fn);
      P' := P' + [fn];
    }
  }

  /** Mem2Reg preserves calls, unless the original reads a variable that nothing was stored to. */
  lemma {:induction false} PromotionPreservesCalls(P: Program, inputs: seq<Input>, P': Program, w: World, k: nat,
      depth: nat, f: nat, args: seq<Value>, h: Heap)
    requires PromotedProgram(P, inputs, P')
    ensures Agree(CallFn(P, w, k, depth, f, args, h), CallFn(P', w, k, depth, f, args, h))
    decreases k
  {
    hide FunctionPromoted, Run;
    if f < |P| {
      assert FunctionPromoted(P[f], inputs[f], P'[f]);
      PromotedMeans(P[f], inputs[f], P'[f]);
      if !P[f].declared && k > 0 {
        var fr, fr' := FrameOf(P, w, k - 1, depth, f, args), FrameOf(P', w, k - 1, depth, f, args);
        forall g: nat, a: seq<Value>, m: Heap
          ensures Agree(fr.call(g, a, m), fr'.call(g, a, m))
        {
          PromotionPreservesCalls(P, inputs, P', w, k - 1, depth + 1, g, a, m);
        }
        assert RunsAgree(fr, fr', P[f].blocks, P'[f].blocks, k, Surviving(h, depth));
      }
    }
  }

  lemma PromotedMeans(fn: Function, inp: Input, fn': Function)
    requires FunctionPromoted(fn, inp, fn')
    ensures fn' == fn.(blocks := fn'.blocks) && if fn.declared then fn' == fn
            else SameMeaning(fn.slots, fn.blocks, fn'.blocks)
  {
  }

  // ----- Dead code elimination of a program -----

  function BlocksOf(P: Program): (r: seq<seq<BasicBlock>>)
    ensures |r| == |P| && forall f :: 0 <= f < |P| ==> r[f] == P[f].blocks
  {
    seq(|P|, f requires 0 <= f < |P| => P[f].blocks)
  }

  function WithBlocks(P: Program, funcs: seq<seq<BasicBlock>>): (r: Program)
    requires |funcs| == |P|
    ensures |r| == |P| && forall f :: 0 <= f < |P| ==> r[f] == P[f].(blocks := funcs[f])
  {
    seq(|P|, f requires 0 <= f < |P| => P[f].(blocks := funcs[f]))
  }

  /** `DeadCode::run`: purity first, then rounds of mark and sweep. */
  method EliminateDeadCode(P: Program, defs: seq<Definitions>, uses: seq<seq<nat>>, ghost ranks: seq<map<Name, nat>>)
    returns (P': Program, isPure: FuncInfo.Marks, lists: seq<UseLists.Lists>)
    requires ProgramForm(P, defs, ranks) && FuncInfo.UsesOk(P, uses)
    ensures PurityExact(P, defs, ranks, isPure)
    ensures SweptProgram(P, P', defs, isPure)
    ensures forall w, k, depth, f, args, h {:trigger CallFn(P', w, k, depth, f, args, h)} ::
              Refines(CallFn(P, w, k, depth, f, args, h), CallFn(P', w, k, depth, f, args, h))
    ensures OnlyNeeded(P, defs, ranks, P')
    ensures AllAgree(BlocksOf(P'), lists)
  {
    var info := new FuncInfo.Analysis(P, defs, uses, ranks);
    info.Run();
    isPure := info.isPure;
    var pass := new DeadCode.Pass(BlocksOf(P), defs, isPure, ListsOf(BlocksOf(P), defs));
    ListsAgree(BlocksOf(P), defs);
    pass.Run();
    P' := WithBlocks(P, pass.funcs);
    lists := pass.uses;
    assert BlocksOf(P') == pass.funcs;
    SweptProgramFrom(P, P', pass.funcs, defs, isPure);
    SweptIsNeeded(P, defs, ranks, isPure, P');
    forall w, k, depth, f, args, h
      ensures Refines(CallFn(P, w, k, depth, f, args, h), CallFn(P', w, k, depth, f, args, h))
    {
      DeadCodePreservesCalls(P, P', defs, ranks, isPure, w, k, depth, f, args, h);
    }
  }

  /** The use lists of all functions. */
  function ListsOf(funcs: seq<seq<BasicBlock>>, defs: seq<Definitions>): seq<UseLists.Lists>
    requires |defs| == |funcs|
  {
    seq(|funcs|, f requires 0 <= f < |funcs| => map d | d in defs[f] :: UseLists.UsesOf(InOrder(funcs[f]), d))
  }

  function InOrder(blocks: seq<BasicBlock>): seq<Instruction> {
    if blocks == [] then [] else Listed(blocks[0]) + InOrder(blocks[1..])
  }

  lemma {:induction false} InOrderIn(blocks: seq<BasicBlock>, it: Instruction)
    ensures it in InOrder(blocks) <==> InBlocks(blocks, it)
  {
    if blocks != [] {
      ListedIn(blocks[0], it);
      InOrderIn(blocks[1..], it);
      assert blocks == [blocks[0]] + blocks[1..];
      if InBlocks(blocks[1..], it) {
        var b :| 0 <= b < |blocks[1..]| && InBlock(blocks[1..][b], it);
        assert InBlock(blocks[b + 1], it);
      }
    }
  }

  lemma ListsAgree(funcs: seq<seq<BasicBlock>>, defs: seq<Definitions>)
    requires |defs| == |funcs|
    ensures AllAgree(funcs, ListsOf(funcs, defs))
  {
    forall f, d, it, i: nat | 0 <= f < |funcs| && d in defs[f]
      ensures (it, i) in ListsOf(funcs, defs)[f][d] <==> InBlocks(funcs[f], it) && UseLists.UsedAt(it, i, d)
    {
      UseLists.UsesOfIn(InOrder(funcs[f]), d, (it, i));
      InOrderIn(funcs[f], it);
    }
  }

  lemma SweptProgramFrom(P: Program, P': Program, funcs: seq<seq<BasicBlock>>, defs: seq<Definitions>,
      isPure: FuncInfo.Marks)
    requires |funcs| == |P| == |defs| && P' == WithBlocks(P, funcs) && AllSwept(BlocksOf(P), funcs, defs, isPure, |P|)
    ensures SweptProgram(P, P', defs, isPure)
  {
    forall f | 0 <= f < |P|
      ensures P'[f] == P[f].(blocks := P'[f].blocks) && SweptFrom(P[f].blocks, P'[f].blocks, defs[f], isPure)
    {
      assert SweptFrom(BlocksOf(P)[f], funcs[f], defs[f], isPure);
    }
  }

  // ----- Both passes -----

  /** Addresses are typed as the builder types them, and unreachable blocks are sensible. */
  ghost predicate InputTyped(fn: Function, inp: Input) {
    if fn.declared then fn.blocks == [] else FunctionTyped(fn) && UnreachedOk(fn, inp.g, inp.loc)
  }

  ghost predicate InputsTyped(P: Program, inputs: seq<Input>) {
    |inputs| == |P| && forall f {:trigger P[f]} :: 0 <= f < |P| ==> InputTyped(P[f], inputs[f])
  }

  ghost predicate TableFor(fn: Function, defs: Definitions, rank: map<Name, nat>) {
    && TableExact(fn.blocks, defs) && FunctionForm(fn, defs) && FuncInfo.Ranked(fn, defs, rank)
  }

  lemma InputPromotes(fn: Function, inp: Input, out: seq<BasicBlock>, cx: Context, f: Operand -> Operand, fr: Frontiers)
    requires PromotedIn(fn, inp, cx, f, fr, out) && InputTyped(fn, inp) && !fn.declared && InputOk(fn, inp)
    ensures Promotes(fn, cx, f, out, fr)
  {
    hide FunctionOk, LoadsStored, SourceOk, GraphOk, IsResolver, Result, UnreachedResult, PhisLeast, FunctionTyped,
         UnreachedOk;
    InputFacts(inp.g, inp.geps, fn.blocks, inp.loc, fn.slots);
  }

  /** A promoted function has a table of its definitions, and dead code elimination may work with it. */
  lemma PromotedTables(fn: Function, inp: Input, fn': Function) returns (defs: Definitions, rank: map<Name, nat>)
    requires FunctionPromoted(fn, inp, fn') && InputTyped(fn, inp) && (!fn.declared ==> InputOk(fn, inp))
    ensures TableFor(fn', defs, rank)
  {
    hide InputOk, SameMeaning, SourceOk, GraphOk, IsResolver, Result, UnreachedResult, PhisLeast, FunctionTyped,
         UnreachedOk, TableOk, FuncInfo.Ranked, FunctionForm, PromotedTable, Promotes;
    if fn.declared {
      defs, rank := map[], map[];
      NoTable(fn');
    } else {
      var cx, f, fr :| PromotedIn(fn, inp, cx, f, fr, fn'.blocks);
      InputPromotes(fn, inp, fn'.blocks, cx, f, fr);
      PromotionKeepsSsa(cx, f, fn'.blocks);
      defs := PromotedTable(cx, f, fn'.blocks);
      GraphHasTree(cx);
      rank := Ranks(cx, defs);
      FormPreserved(fn, cx, f, fn'.blocks, fr, defs);
    }
  }

  lemma NoTable(fn: Function)
    requires fn.blocks == []
    ensures TableFor(fn, map[], map[])
  {
  }

  /** The first n tables. */
  lemma {:induction false} AllTables(P: Program, inputs: seq<Input>, P': Program, n: nat)
    returns (defs: seq<Definitions>, ranks: seq<map<Name, nat>>)
    requires n <= |P| && PromotedProgram(P, inputs, P') && InputsOk(P, inputs) && InputsTyped(P, inputs)
    ensures |defs| == |ranks| == n && forall f {:trigger P'[f]} :: 0 <= f < n ==> TableFor(P'[f], defs[f], ranks[f])
  {
    hide FunctionPromoted, InputTyped, InputOk, TableFor;
    if n == 0 {
      defs, ranks := [], [];
    } else {
      defs, ranks := AllTables(P, inputs, P', n - 1);
      assert FunctionPromoted(P[n - 1], inputs[n - 1], P'[n - 1]);
      var d, r := PromotedTables(P[n - 1], inputs[n - 1], P'[n - 1]);
      defs, ranks := defs + [d], ranks + [r];
    }
  }

  lemma FormOfTables(P: Program, defs: seq<Definitions>, ranks: seq<map<Name, nat>>)
    requires |defs| == |ranks| == |P| && forall f {:trigger P[f]} :: 0 <= f < |P| ==> TableFor(P[f], defs[f], ranks[f])
    ensures ProgramForm(P, defs, ranks)
    ensures forall f :: 0 <= f < |P| ==> TableOk(P[f].blocks, defs[f]) && TableExact(P[f].blocks, defs[f])
  {
    hide FuncInfo.Ranked, TableExact, TableOk;
    forall f | 0 <= f < |P|
      ensures FuncInfo.Ranked(P[f], defs[f], ranks[f]) && FunctionForm(P[f], defs[f])
      ensures TableOk(P[f].blocks, defs[f]) && TableExact(P[f].blocks, defs[f])
    {
      assert TableFor(P[f], defs[f], ranks[f]);
    }
  }

  /** The optimised program returns what the original one returns, if that reads no variable that
      nothing was stored to. */
  ghost predicate Optimised(P: Program, P': Program) {
    forall w, k, f, args, h {:trigger CallFn(P', w, k, 0, f, args, h)} ::
      OptimisedCall(CallFn(P, w, k, 0, f, args, h), CallFn(P', w, k, 0, f, args, h))
  }

  ghost predicate OptimisedCall(r: CallResult, r': CallResult) {
    r.Returned? && r.clean ==> r'.Returned? && r'.val == r.val && r'.heap == r.heap
  }

  // ----- What is left in a function -----

  ghost predicate DefinedIn(blocks: seq<BasicBlock>, d: Name) {
    exists it :: InBlocks(blocks, it) && Names(it, d)
  }

  ghost predicate OperandsInside(blocks: seq<BasicBlock>, it: Instruction) {
    forall o :: o in AllOperands(it) && o.Ref? ==> DefinedIn(blocks, o.name)
  }

  /** Operands are results of instructions of the function. */
  ghost predicate NoDangling(blocks: seq<BasicBlock>) {
    forall it {:trigger InBlocks(blocks, it)} :: InBlocks(blocks, it) ==> OperandsInside(blocks, it)
  }

  /** Every block is reachable, and every load of a variable has a store to it on some path to it. */
  ghost predicate AllStored(fn: Function, inp: Input) {
    && (forall b: Block :: b < |fn.blocks| ==> Reachable(inp.g, b))
    && forall b: Block, i: nat {:trigger SlotLoad(inp.g, fn.blocks, fn.slots, b, i)} ::
      SlotLoad(inp.g, fn.blocks, fn.slots, b, i) ==>
         StoreBefore(inp.g, fn.blocks, b, i, fn.blocks[b].body[i].ptr.name)
  }

  ghost predicate ScalarsErased(slots: set<Name>, blocks: seq<BasicBlock>) {
    forall it {:trigger InBlocks(blocks, it)} :: InBlocks(blocks, it) ==> !ScalarAccess(slots, it)
  }

  /** No operand is left without its definition, and no access to a promoted variable. */
  ghost predicate Cleaned(fn: Function, inp: Input, fn': Function) {
    NoDangling(fn'.blocks) && (AllStored(fn, inp) ==> ScalarsErased(fn.slots, fn'.blocks))
  }

  lemma SweptDangling(fn: Function, cx: Context, f: Operand -> Operand, out: seq<BasicBlock>, fr: Frontiers,
      defs: Definitions, isPure: FuncInfo.Marks, m: set<Instruction>)
    requires Promotes(fn, cx, f, out, fr) && TableOk(out, defs) && TableExact(out, defs) && Needed(out, defs, isPure, m)
    ensures NoDangling(Sweep(out, m))
  {
    hide Promotes, TableOk, Needed;
    forall it, o | InBlocks(Sweep(out, m), it) && o in AllOperands(it) && o.Ref?
      ensures DefinedIn(Sweep(out, m), o.name)
    {
      SweptInside(out, defs, isPure, m, it);
      OperandsDefined(fn, cx, f, out, fr, defs, it, o);
      NoDanglingOperand(out, defs, isPure, m, it, o);
      assert Names(defs[o.name], o.name);
    }
  }

  lemma SweptInside(out: seq<BasicBlock>, defs: Definitions, isPure: FuncInfo.Marks, m: set<Instruction>,
      it: Instruction)
    requires Needed(out, defs, isPure, m) && InBlocks(Sweep(out, m), it)
    ensures InBlocks(out, it)
  {
    SweepKeeps(out, defs, isPure, m, it);
  }

  /** In source terms the variables are used as addresses only. */
  lemma InputInUse(fn: Function, inp: Input, cx: Context)
    requires FunctionOk(inp.g, inp.geps, fn.blocks, inp.loc, fn.slots) && cx.blocks == fn.blocks
    requires cx.allocas == fn.slots && cx.g == inp.g
    requires GraphOk(cx) && forall b: Block :: b < |fn.blocks| ==> Reachable(inp.g, b)
    ensures AllInUse(cx)
  {
    hide LocOk, PointersOk, GepNames, Shape, Reachable, ReversePostOrder, ExactTree;
    forall b: Block | b < |cx.blocks|
      ensures forall i :: 0 <= i < |cx.blocks[b].body| ==> AddressOnly(cx.allocas, cx.blocks[b].body[i])
      ensures forall o :: o in TermOperands(cx.blocks[b].term) ==> !IsSlot(cx.allocas, o)
    {
      assert BlockUsesOk(inp.g, fn.blocks, inp.loc, fn.slots, b);
    }
  }

  lemma StoredResolves(fn: Function, inp: Input, cx: Context, fr: Frontiers)
    requires AllStored(fn, inp) && cx.blocks == fn.blocks && cx.allocas == fn.slots && cx.g == inp.g
    requires SourceOk(cx) && GraphOk(cx) && PhisLeast(cx, fr) && Dominators.NoEdgeToEntry(cx.g)
    ensures LoadsResolved(cx)
  {
    StoredLoadsResolve(cx, fr);
    hide SourceOk, GraphOk, PhisLeast, StoreBefore, Dominators.NoEdgeToEntry, Reachable;
    forall d | IsLoad(cx, d)
      ensures StoreBefore(cx.g, cx.blocks, cx.loc[d].b, cx.loc[d].i, LoadedSlot(cx, d))
    {
      assert SlotLoad(inp.g, fn.blocks, fn.slots, cx.loc[d].b, cx.loc[d].i);
    }
  }

  /** One function after both passes. */
  lemma FunctionCleaned(fn: Function, inp: Input, fn1: Function, fn2: Function, defs: Definitions,
      isPure: FuncInfo.Marks)
    requires !fn.declared && InputOk(fn, inp) && InputTyped(fn, inp) && FunctionPromoted(fn, inp, fn1)
    requires TableOk(fn1.blocks, defs) && TableExact(fn1.blocks, defs)
    requires SweptFrom(fn1.blocks, fn2.blocks, defs, isPure)
    ensures Cleaned(fn, inp, fn2)
  {
    hide FunctionOk, LoadsStored, SameMeaning, SourceOk, GraphOk, IsResolver, Result, UnreachedResult, PhisLeast,
         InputTyped, TableOk, TableExact, Needed, Promotes, NoDangling, AllStored, ScalarsErased, LoadsResolved,
           AllInUse, Dominators.NoEdgeToEntry;
    var cx, f, fr :| PromotedIn(fn, inp, cx, f, fr, fn1.blocks);
    var m :| Needed(fn1.blocks, defs, isPure, m) && fn2.blocks == Sweep(fn1.blocks, m);
    InputPromotes(fn, inp, fn1.blocks, cx, f, fr);
    SweptDangling(fn, cx, f, fn1.blocks, fr, defs, isPure, m);
    if AllStored(fn, inp) {
      SweptScalars(fn, inp, fn1.blocks, cx, f, fr, defs, isPure, m);
    }
  }

  lemma SweptScalars(fn: Function, inp: Input, out: seq<BasicBlock>, cx: Context, f: Operand -> Operand, fr: Frontiers,
      defs: Definitions, isPure: FuncInfo.Marks, m: set<Instruction>)
    requires InputOk(fn, inp) && PromotedIn(fn, inp, cx, f, fr, out) && AllStored(fn, inp)
    requires TableExact(out, defs) && Needed(out, defs, isPure, m)
    ensures ScalarsErased(fn.slots, Sweep(out, m))
  {
    InputFacts(inp.g, inp.geps, fn.blocks, inp.loc, fn.slots);
    hide FunctionOk, LoadsStored, SourceOk, GraphOk, IsResolver, Result, UnreachedResult, PhisLeast, TableExact,
         Needed, LoadsResolved, AllInUse, StoreBefore, Reachable, ScalarAccess, Dominators.NoEdgeToEntry;
    InputInUse(fn, inp, cx);
    StoredResolves(fn, inp, cx, fr);
    forall it | InBlocks(Sweep(out, m), it)
      ensures !ScalarAccess(fn.slots, it)
    {
      ScalarsGone(cx, f, out, defs, isPure, m, it);
    }
  }

  /** P' has those instructions of P that a chain of uses connects with a terminator, a store or a call that
      may have an effect; the tables hold the definitions of P. */
  ghost predicate Eliminated(P: Program, defs: seq<Definitions>, ranks: seq<map<Name, nat>>, P': Program) {
    && FuncInfo.TablesOk(P, defs, ranks) && OnlyNeeded(P, defs, ranks, P')
    && forall f {:trigger defs[f]} :: 0 <= f < |P| ==>
      TableOk(P[f].blocks, defs[f]) && TableExact(P[f].blocks, defs[f])
  }

  /** The two passes together. They get through exactly if the dominator analysis gets through every
      function. Every call that returns in the original program, without having read a variable that
      nothing was stored to, then returns the same value and leaves the same memory and history in the
      optimised program. Nothing is asked of the program between the passes. */
  method Optimize(P: Program, inputs: seq<Input>) returns (ok: bool, P': Program)
    requires InputsOk(P, inputs) && InputsTyped(P, inputs)
    ensures ok <==> forall f :: 0 <= f < |P| && !P[f].declared ==> JoinsReachable(inputs[f].g)
    ensures ok ==> Optimised(P, P')
    ensures ok ==> exists P1, defs, ranks :: PromotedProgram(P, inputs, P1) && Eliminated(P1, defs, ranks, P')
    ensures ok ==> |P'| == |P| && forall f {:trigger P'[f]} :: 0 <= f < |P| ==>
              P'[f] == P[f].(blocks := P'[f].blocks) && (!P[f].declared ==> Cleaned(P[f], inputs[f], P'[f]))
  {
    hide InputOk, InputTyped, FunctionPromoted, PurityExact, SweptFrom, TableOk, TableExact, TableFor,
         CallFn, JoinsReachable, Cleaned, OnlyNeeded;
    ghost var tables, ranks;
    var P1;
    ok, P1 := PromoteProgram(P, inputs);
    P' := P1;
    if !ok {
      return;
    }
    tables, ranks := AllTables(P, inputs, P1, |P|);
    FormOfTables(P1, tables, ranks);
    var defs := CollectTables(P1, tables);
    var uses := CallSites(P1);
    var isPure, lists;
    P', isPure, lists := EliminateDeadCode(P1, defs, uses, ranks);
    assert Eliminated(P1, defs, ranks, P');
    forall w, k, f, args, h
      ensures OptimisedCall(CallFn(P, w, k, 0, f, args, h), CallFn(P', w, k, 0, f, args, h))
    {
      PromotionPreservesCalls(P, inputs, P1, w, k, 0, f, args, h);
    }
    forall f {:trigger P'[f]} | 0 <= f < |P|
      ensures P'[f] == P[f].(blocks := P'[f].blocks)
    {
      assert FunctionPromoted(P[f], inputs[f], P1[f]);
      PromotedMeans(P[f], inputs[f], P1[f]);
      assert P'[f] == P1[f].(blocks := P'[f].blocks);
    }
    forall f | 0 <= f < |P| && !P[f].declared
      ensures Cleaned(P[f], inputs[f], P'[f])
    {
      assert InputOk(P[f], inputs[f]) && InputTyped(P[f], inputs[f]) && FunctionPromoted(P[f], inputs[f], P1[f]);
      assert P'[f] == P'[f] && SweptFrom(P1[f].blocks, P'[f].blocks, defs[f], isPure);
      FunctionCleaned(P[f], inputs[f], P1[f], P'[f], defs[f], isPure);
    }
  }

  // ----- Names and calls looked up -----

  /** The instructions that the names stand for. */
  method CollectDefinitions(blocks: seq<BasicBlock>, ghost table: Definitions) returns (defs: Definitions)
    requires TableOk(blocks, table) && TableExact(blocks, table)
    ensures defs == table
  {
    defs := map[];
    for b := 0 to |blocks|
      invariant PartOf(defs, table)
      invariant forall c {:trigger blocks[c]} :: 0 <= c < b ==> BlockIn(blocks[c], defs)
    {
      defs := CollectBlock(blocks, b, table, defs);
    }
    forall d | d in table
      ensures d in defs
    {
      var b :| 0 <= b < |blocks| && InBlock(blocks[b], table[d]);
      assert BlockIn(blocks[b], defs);
    }
  }

  ghost predicate PartOf(defs: Definitions, table: Definitions) {
    forall d :: d in defs ==> d in table && defs[d] == table[d]
  }

  method CollectBlock(blocks: seq<BasicBlock>, b: nat, ghost table: Definitions, defs0: Definitions)
      returns (defs: Definitions)
    requires TableOk(blocks, table) && PartOf(defs0, table) && b < |blocks|
    ensures PartOf(defs, table) && BlockIn(blocks[b], defs) && forall d :: d in defs0 ==> d in defs
  {
    defs := defs0;
    for i := 0 to |blocks[b].body|
      invariant PartOf(defs, table) && forall d :: d in defs0 ==> d in defs
      invariant forall j :: 0 <= j < i && !blocks[b].body[j].Store? ==> blocks[b].body[j].dst in defs
    {
      var ins := blocks[b].body[i];
      if !ins.Store? {
        defs := defs[ins.dst := Plain(ins)];
      }
    }
    for k := 0 to |blocks[b].phis|
      invariant PartOf(defs, table) && forall d :: d in defs0 ==> d in defs
      invariant forall j :: 0 <= j < |blocks[b].body| && !blocks[b].body[j].Store? ==> blocks[b].body[j].dst in defs
      invariant forall j :: 0 <= j < k ==> blocks[b].phis[j].dst in defs
    {
      defs := defs[blocks[b].phis[k].dst := Join(blocks[b].phis[k])];
    }
  }

  ghost predicate BlockIn(bb: BasicBlock, defs: Definitions) {
    && (forall j :: 0 <= j < |bb.body| && !bb.body[j].Store? ==> bb.body[j].dst in defs)
    && (forall j :: 0 <= j < |bb.phis| ==> bb.phis[j].dst in defs)
  }

  method CollectTables(P: Program, ghost tables: seq<Definitions>) returns (defs: seq<Definitions>)
    requires |tables| == |P| && forall f :: 0 <= f < |P| ==>
             TableOk(P[f].blocks, tables[f]) && TableExact(P[f].blocks, tables[f])
    ensures defs == tables
  {
    hide TableOk, TableExact;
    defs := [];
    for f := 0 to |P|
      invariant defs == tables[..f]
    {
      var d := CollectDefinitions(P[f].blocks, tables[f]);
      defs := defs + [d];
    }
  }

  /** The callers of each function, from the calls. */
  method CallSites(P: Program) returns (uses: seq<seq<nat>>)
    ensures FuncInfo.UsesOk(P, uses)
  {
    uses := seq(|P|, f => []);
    for g := 0 to |P|
      invariant |uses| == |P|
      invariant forall f, c: nat {:trigger c in uses[f]} :: 0 <= f < |P| ==> (c in uses[f] <==> c < g && Calls(P, c, f))
    {
      uses := AddCaller(P, uses, g);
    }
    forall f, c: nat | 0 <= f < |P|
      ensures c in uses[f] <==> Calls(P, c, f)
    {
    }
  }

  /** A call of f among the instructions of g before position i of block b. */
  ghost predicate CallsBefore(P: Program, g: nat, f: nat, b: nat, i: nat) {
    exists c: nat, j: nat :: CallsAt(P, g, f, c, j) && (c < b || (c == b && j < i))
  }

  /** The lists hold what they held, and g where a call by g has been seen. */
  ghost predicate Seen(P: Program, uses0: seq<seq<nat>>, uses: seq<seq<nat>>, g: nat, b: nat, i: nat) {
    && |uses| == |uses0| == |P|
    && forall f, c: nat {:trigger c in uses[f]} :: 0 <= f < |P| ==>
      (c in uses[f] <==> c in uses0[f] || (c == g && CallsBefore(P, g, f, b, i)))
  }

  lemma SeenStep(P: Program, uses0: seq<seq<nat>>, uses: seq<seq<nat>>, g: nat, b: nat, i: nat)
    requires Seen(P, uses0, uses, g, b, i) && g < |P| && b < |P[g].blocks| && i < |P[g].blocks[b].body|
    ensures var ins := P[g].blocks[b].body[i];
            Seen(P, uses0, if ins.Call? && ins.callee < |P| then uses[ins.callee := uses[ins.callee] + [g]]
              else uses, g, b, i + 1)
  {
    forall f: nat
      ensures CallsBefore(P, g, f, b, i + 1) <==> CallsBefore(P, g, f, b, i) || CallsAt(P, g, f, b, i)
    {
    }
    hide CallsBefore;
    var ins := P[g].blocks[b].body[i];
    var uses' := if ins.Call? && ins.callee < |P| then uses[ins.callee := uses[ins.callee] + [g]] else uses;
    forall f, c: nat | 0 <= f < |P|
      ensures c in uses'[f] <==> c in uses0[f] || (c == g && CallsBefore(P, g, f, b, i + 1))
    {
      assert c in uses[f] <==> c in uses0[f] || (c == g && CallsBefore(P, g, f, b, i));
    }
  }

  lemma SeenBlock(P: Program, uses0: seq<seq<nat>>, uses: seq<seq<nat>>, g: nat, b: nat)
    requires g < |P| && b < |P[g].blocks| && Seen(P, uses0, uses, g, b, |P[g].blocks[b].body|)
    ensures Seen(P, uses0, uses, g, b + 1, 0)
  {
    forall f: nat
      ensures CallsBefore(P, g, f, b + 1, 0) <==> CallsBefore(P, g, f, b, |P[g].blocks[b].body|)
    {
    }
    hide CallsBefore;
  }

  method AddCaller(P: Program, uses0: seq<seq<nat>>, g: nat) returns (uses: seq<seq<nat>>)
    requires |uses0| == |P| && g < |P|
    ensures |uses| == |P|
    ensures forall f, c: nat {:trigger c in uses[f]} :: 0 <= f < |P| ==>
            (c in uses[f] <==> c in uses0[f] || (c == g && Calls(P, g, f)))
  {
    uses := uses0;
    for b := 0 to |P[g].blocks|
      invariant Seen(P, uses0, uses, g, b, 0)
    {
      for i := 0 to |P[g].blocks[b].body|
        invariant Seen(P, uses0, uses, g, b, i)
      {
        SeenStep(P, uses0, uses, g, b, i);
        hide Seen;
        var ins := P[g].blocks[b].body[i];
        if ins.Call? && ins.callee < |P| {
          uses := uses[ins.callee := uses[ins.callee] + [g]];
        }
      }
      SeenBlock(P, uses0, uses, g, b);
    }
    forall f: nat
      ensures CallsBefore(P, g, f, |P[g].blocks|, 0) <==> Calls(P, g, f)
    {
    }
  }
}
