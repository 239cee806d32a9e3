/** What is left of promoted variables after Mem2Reg and dead code elimination: nothing. */
module Composition {
  import opened ControlFlow
  import opened Ir
  import opened Promotion
  import opened PromotionMeaning
  import opened PhiPlacement
  import opened StorePaths
  import opened Mem2RegRun
  import opened DeadCode

  /** A load, store or alloca of a promoted variable. */
  predicate ScalarAccess(allocas: set<Name>, it: Instruction) {
    match it
    case Plain(Alloca(a)) => a in allocas
    case Plain(Load(_, p)) => IsSlot(allocas, p)
    case Plain(Store(p, _)) => IsSlot(allocas, p)
    case _ => false
  }

  ghost predicate Names(it: Instruction, d: Name) {
    match it
    case Plain(ins) => Defines(ins, d)
    case Join(phi) => phi.dst == d
    case End(_) => false
  }

  /** The table holds exactly the definitions of the function. */
  ghost predicate TableExact(blocks: seq<BasicBlock>, defs: Definitions) {
    forall d :: d in defs ==> InBlocks(blocks, defs[d]) && Names(defs[d], d)
  }

  /** Every block is reachable, and variables occur only as addresses. */
  ghost predicate AllInUse(cx: Context) {
    && (forall b: Block :: b < |cx.blocks| ==> b in cx.t)
    && (forall b: Block {:trigger cx.blocks[b]} :: b < |cx.blocks| ==>
          && (forall i :: 0 <= i < |cx.blocks[b].body| ==> AddressOnly(cx.allocas, cx.blocks[b].body[i]))
          && (forall o :: o in TermOperands(cx.blocks[b].term) ==> !IsSlot(cx.allocas, o)))
  }

  ghost predicate LoadsResolved(cx: Context)
    requires SourceOk(cx)
  {
    forall d :: IsLoad(cx, d) ==> ReachLoad(cx, d).Some?
  }

  // ----- Operands of the promoted function -----

  lemma StoredValue(cx: Context, b: Block, i: nat)
    requires AllInUse(cx) && i < |Body(cx, b)| && Body(cx, b)[i].Store?
    ensures !IsSlot(cx.allocas, Body(cx, b)[i].val)
  {
    var ins := cx.blocks[b].body[i];
    assert AddressOnly(cx.allocas, ins);
    assert ins.val in Operands(ins);
  }

  lemma {:induction false} LastStoreNoSlot(cx: Context, b: Block, i: nat, x: Name)
    requires AllInUse(cx) && i <= |Body(cx, b)| && LastStore(Body(cx, b), i, x).Some?
    ensures !IsSlot(cx.allocas, LastStore(Body(cx, b), i, x).value)
  {
    if Body(cx, b)[i - 1].Store? && Body(cx, b)[i - 1].ptr == Ref(x) {
      StoredValue(cx, b, i - 1);
    } else {
      LastStoreNoSlot(cx, b, i - 1, x);
    }
  }

  /** What reaches a point is never the address of a variable. */
  lemma {:induction false} ReachNoSlot(cx: Context, b: Block, i: nat, x: Name)
    requires SourceOk(cx) && AllInUse(cx) && b in cx.t && i <= |Body(cx, b)| && ReachAt(cx, b, i, x).Some?
    ensures !IsSlot(cx.allocas, ReachAt(cx, b, i, x).value)
    decreases cx.id[ENTRY] - cx.id[b]
  {
    if LastStore(Body(cx, b), i, x).Some? {
      LastStoreNoSlot(cx, b, i, x);
    } else if HasPhi(cx, b, x) {
      assert !IsAlloca(cx, PhiName(b, x));
    } else {
      var d := cx.t[b];
      assert ReachAt(cx, b, i, x) == ReachIn(cx, b, x) == ReachOut(cx, d, x);
      ReachNoSlot(cx, d, |Body(cx, d)|, x);
    }
  }

  lemma {:induction false} ResolveNoSlot(cx: Context, o: Operand)
    requires SourceOk(cx) && AllInUse(cx) && !IsSlot(cx.allocas, o)
    ensures !IsSlot(cx.allocas, Resolve(cx, o))
    decreases Height(cx, o), Position(cx, o)
  {
    if o.Ref? && IsLoad(cx, o.name) && ReachLoad(cx, o.name).Some? {
      ReachLoadLower(cx, o.name);
      var l := cx.loc[o.name];
      ReachNoSlot(cx, l.b, l.i, LoadedSlot(cx, o.name));
      ResolveNoSlot(cx, ReachLoad(cx, o.name).value);
    }
  }

  /** An operand that stays: neither a variable's address nor a load of a variable. */
  ghost predicate Clean(cx: Context, o: Operand)
    requires SourceOk(cx)
  {
    !IsSlot(cx.allocas, o) && (o.Ref? ==> !IsLoad(cx, o.name))
  }

  lemma ResolvedClean(cx: Context, o: Operand)
    requires SourceOk(cx) && AllInUse(cx) && LoadsResolved(cx) && !IsSlot(cx.allocas, o)
    ensures Clean(cx, Resolve(cx, o))
  {
    ResolveFinal(cx, o);
    ResolveNoSlot(cx, o);
  }

  lemma {:induction false} DroppedFrom(allocas: set<Name>, body: seq<Instr>, ins: Instr)
    ensures ins in DropStores(allocas, body) <==> ins in body && !IsSlotStore(allocas, ins)
  {
    if body != [] {
      assert body == [body[0]] + body[1..];
      DroppedFrom(allocas, body[1..], ins);
    }
  }

  /** Where an instruction of the promoted function comes from. */
  lemma Origin(cx: Context, f: Operand -> Operand, out: seq<BasicBlock>, b: Block, ins: Instr) returns (i: nat)
    requires SourceOk(cx) && Result(cx, f, out) && b in cx.t && b < |out| && ins in out[b].body
    ensures i < |Body(cx, b)| && ins == MapInstr(f, Body(cx, b)[i]) && !IsSlotStore(cx.allocas, ins)
  {
    assert BlockResult(cx, f, out, b);
    DroppedFrom(cx.allocas, MapBody(f, Body(cx, b)), ins);
    i :| 0 <= i < |MapBody(f, Body(cx, b))| && MapBody(f, Body(cx, b))[i] == ins;
  }

  lemma PlainOperands(cx: Context, f: Operand -> Operand, b: Block, i: nat, o: Operand)
    requires SourceOk(cx) && AllInUse(cx) && LoadsResolved(cx) && IsResolver(cx, f) && i < |Body(cx, b)|
    requires var ins := MapInstr(f, Body(cx, b)[i]); o in Operands(ins) && !ScalarAccess(cx.allocas, Plain(ins))
    ensures Clean(cx, o)
  {
    var ins := cx.blocks[b].body[i];
    var o0 := SourceOperand(f, ins, o);
    assert AddressOnly(cx.allocas, ins);
    if IsSlot(cx.allocas, o0) {
      AllocaStays(cx, o0.name);
    }
    ResolvedClean(cx, o0);
  }

  lemma SourceOperand(f: Operand -> Operand, ins: Instr, o: Operand) returns (o0: Operand)
    requires o in Operands(MapInstr(f, ins))
    ensures o0 in Operands(ins) && o == f(o0)
  {
    var os, os' := Operands(ins), Operands(MapInstr(f, ins));
    assert |os'| == |os| && forall k :: 0 <= k < |os| ==> os'[k] == f(os[k]);
    var k :| 0 <= k < |os'| && os'[k] == o;
    o0 := os[k];
  }

  lemma PhiOperands(cx: Context, f: Operand -> Operand, out: seq<BasicBlock>, b: Block, phi: Phi, o: Operand)
    requires SourceOk(cx) && AllInUse(cx) && LoadsResolved(cx) && Result(cx, f, out) && b in cx.t && b < |out|
    requires phi in out[b].phis && o in PairOperands(phi.pairs)
    ensures Clean(cx, o)
  {
    assert BlockResult(cx, f, out, b);
    var k :| 0 <= k < |out[b].phis| && out[b].phis[k] == phi;
    assert PhiOk(cx, b, out[b].phis[k]);
    var j :| 0 <= j < |phi.pairs| && phi.pairs[j].0 == o;
    assert PairFrom(cx, b, phi.dst.slot, phi.pairs[j]);
    var p := phi.pairs[j].1;
    ReachNoSlot(cx, p, |Body(cx, p)|, phi.dst.slot);
    ResolvedClean(cx, ReachOut(cx, p, phi.dst.slot).value);
  }

  lemma TermOperandsClean(cx: Context, f: Operand -> Operand, out: seq<BasicBlock>, b: Block, o: Operand)
    requires SourceOk(cx) && AllInUse(cx) && LoadsResolved(cx) && IsResolver(cx, f) && Result(cx, f, out)
    requires b in cx.t && b < |out|
    requires o in TermOperands(out[b].term)
    ensures Clean(cx, o)
  {
    assert BlockResult(cx, f, out, b);
    var t := cx.blocks[b].term;
    var o0 := if t.CondBr? then t.cond else t.val;
    assert o0 in TermOperands(t) && o == f(o0);
    ResolvedClean(cx, o0);
  }

  lemma OperandsClean(cx: Context, f: Operand -> Operand, out: seq<BasicBlock>, it: Instruction, o: Operand)
    requires SourceOk(cx) && AllInUse(cx) && LoadsResolved(cx) && IsResolver(cx, f) && Result(cx, f, out)
    requires InBlocks(out, it) && !ScalarAccess(cx.allocas, it) && o in AllOperands(it)
    ensures Clean(cx, o)
  {
    hide SourceOk, LoadsResolved, IsResolver, Result, Clean;
    var b: Block :| b < |out| && InBlock(out[b], it);
    assert b in cx.t by { ResultSize(cx, f, out); }
    match it
    case Plain(ins) =>
      var i := Origin(cx, f, out, b, ins);
      PlainOperands(cx, f, b, i, o);
    case Join(phi) => PhiOperands(cx, f, out, b, phi, o);
    case End(t) => TermOperandsClean(cx, f, out, b, o);
  }

  lemma ResultSize(cx: Context, f: Operand -> Operand, out: seq<BasicBlock>)
    requires SourceOk(cx) && Result(cx, f, out)
    ensures |out| == |cx.blocks|
  {
  }

  // ----- What dead code elimination keeps -----

  /** A clean operand is not defined by an access to a variable. */
  lemma CleanDefinition(cx: Context, f: Operand -> Operand, out: seq<BasicBlock>, defs: Definitions, d: Name)
    requires SourceOk(cx) && AllInUse(cx) && LoadsResolved(cx) && IsResolver(cx, f) && Result(cx, f, out)
    requires TableExact(out, defs)
    requires d in defs && Clean(cx, Ref(d))
    ensures !ScalarAccess(cx.allocas, defs[d])
  {
    if defs[d].Plain? && defs[d].ins.Load? && IsSlot(cx.allocas, defs[d].ins.ptr) {
      LoadWasLoad(cx, f, out, defs[d].ins);
    }
  }

  lemma LoadWasLoad(cx: Context, f: Operand -> Operand, out: seq<BasicBlock>, ins: Instr)
    requires SourceOk(cx) && AllInUse(cx) && IsResolver(cx, f) && Result(cx, f, out)
    requires InBlocks(out, Plain(ins)) && ins.Load? && IsSlot(cx.allocas, ins.ptr)
    ensures IsLoad(cx, ins.dst)
  {
    var b: Block :| b < |out| && InBlock(out[b], Plain(ins));
    var i := Origin(cx, f, out, b, ins);
    var orig := Body(cx, b)[i];
    assert Accesses(cx, b, i) && PointerOk(cx, orig.ptr);
    assert f(orig.ptr) == orig.ptr;
    assert Located(cx, b, i);
  }

  /** After both passes no load, store or alloca of a promoted variable is left, if every block is
      reachable and every load has something reaching it. */
  lemma ScalarsGone(cx: Context, f: Operand -> Operand, out: seq<BasicBlock>, defs: Definitions,
      isPure: FuncInfo.Marks, m: set<Instruction>, it: Instruction)
    requires SourceOk(cx) && AllInUse(cx) && LoadsResolved(cx) && IsResolver(cx, f) && Result(cx, f, out)
    requires TableExact(out, defs) && Needed(out, defs, isPure, m)
    requires InBlocks(Sweep(out, m), it)
    ensures !ScalarAccess(cx.allocas, it)
  {
    hide SourceOk, AllInUse, LoadsResolved, IsResolver, Result, Clean, ScalarAccess;
    var c := set x | x in m && InBlocks(out, x) && !ScalarAccess(cx.allocas, x);
    forall x | CriticalIn(out, isPure, x)
      ensures x in c
    {
      CriticalNoAccess(cx, f, out, isPure, x);
    }
    forall x | x in c
      ensures OperandsIn(defs, c, x)
    {
      assert OperandsIn(defs, m, x);
      forall o | o in AllOperands(x) && o.Ref? && o.name in defs
        ensures defs[o.name] in c
      {
        OperandsClean(cx, f, out, x, o);
        CleanDefinition(cx, f, out, defs, o.name);
      }
    }
    assert Closed(out, defs, isPure, c);
    SweepKeeps(out, defs, isPure, m, it);
  }

  lemma CriticalNoAccess(cx: Context, f: Operand -> Operand, out: seq<BasicBlock>, isPure: FuncInfo.Marks,
      it: Instruction)
    requires SourceOk(cx) && AllInUse(cx) && Result(cx, f, out) && InBlocks(out, it) && Critical(isPure, it)
    ensures !ScalarAccess(cx.allocas, it)
  {
    if it.Plain? && it.ins.Store? {
      var b: Block :| b < |out| && InBlock(out[b], it);
      var i := Origin(cx, f, out, b, it.ins);
    }
  }

  /** The same with the conditions on loads put as paths: every load has a store to its variable on
      some path to it. */
  lemma StoredLoadsResolve(cx: Context, fr: Frontiers)
    requires SourceOk(cx) && GraphOk(cx) && PhisLeast(cx, fr) && Dominators.NoEdgeToEntry(cx.g)
    ensures LoadsResolved(cx) <==>
            forall d {:trigger IsLoad(cx, d)} :: IsLoad(cx, d) ==>
              StoreBefore(cx.g, cx.blocks, cx.loc[d].b, cx.loc[d].i, LoadedSlot(cx, d))
  {
    EntryHasNoPredecessor(cx);
    hide GraphOk, SourceOk, PhisLeast, StoreBefore, Dominators.NoEdgeToEntry;
    forall d | IsLoad(cx, d)
      ensures ReachLoad(cx, d).Some? <==> StoreBefore(cx.g, cx.blocks, cx.loc[d].b, cx.loc[d].i, LoadedSlot(cx, d))
    {
      ReachesIffStored(cx, fr, cx.loc[d].b, cx.loc[d].i, LoadedSlot(cx, d));
    }
  }
}
