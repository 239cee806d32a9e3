/** Mem2Reg keeps the form that dead code elimination relies on: every name still has one definition,
    and addresses still come from allocas, globals, arguments, getelementptr and loads. */
module PromotedForm {
  import opened Arithmetic
  import opened ControlFlow
  import opened DominatorTree
  import Dominators
  import opened Ir
  import opened Programs
  import opened Promotion
  import opened PromotionMeaning
  import opened PhiPlacement
  import opened StorePaths
  import opened Composition
  import opened Purity
  import opened FuncInfo

  // ----- Typing of the source -----

  ghost predicate StoresPointer(fn: Function, x: Name, b: Block, i: nat) {
    && b < |fn.blocks| && i < |fn.blocks[b].body|
    && fn.blocks[b].body[i].Store? && fn.blocks[b].body[i].ptr == Ref(x) && PointerTyped(fn, fn.blocks[b].body[i].val)
  }

  /** A variable that holds an address. */
  ghost predicate PointerSlot(fn: Function, x: Name) {
    exists b, i :: StoresPointer(fn, x, b, i)
  }

  /** A variable holds an address only for an array parameter: it is set once, from an argument, in
      the entry block. Of all instructions only allocas, getelementptr and loads make addresses. */
  ghost predicate InstrTyped(fn: Function, b: Block, ins: Instr) {
    && (ins.Store? && ins.ptr.Ref? && PointerSlot(fn, ins.ptr.name) ==> b == ENTRY && ins.val.Arg?)
    && (!ins.Store? && ins.dst in fn.pointers ==>
          || ins.Alloca? || ins.Gep?
          || (ins.Load? && (IsSlot(fn.slots, ins.ptr) ==> PointerSlot(fn, ins.ptr.name))))
    && (ins.Gep? ==> PointerTyped(fn, ins.base))
  }

  ghost predicate FunctionTyped(fn: Function) {
    && (forall d :: d in fn.pointers ==> d.Tmp?)
    && (forall b, i {:trigger fn.blocks[b].body[i]} :: 0 <= b < |fn.blocks| && 0 <= i < |fn.blocks[b].body| ==>
          InstrTyped(fn, b, fn.blocks[b].body[i]))
  }

  /** An instruction that get_first_addr looks behind. */
  predicate IsComputed(ins: Instr) {
    !ins.Alloca? && !ins.Load?
  }

  /** The address d, used at position i of an unreachable block b, does not go round in circles: it is an
      alloca or a load, comes from reachable code, or was computed earlier in the block. */
  ghost predicate EarlyAddress(fn: Function, g: Graph, loc: map<Name, Loc>, b: Block, i: nat, d: Name) {
    d in loc && loc[d].b < |fn.blocks| && loc[d].i < |fn.blocks[loc[d].b].body|
    && (IsComputed(fn.blocks[loc[d].b].body[loc[d].i]) ==> Reachable(g, loc[d].b) || (loc[d].b == b && loc[d].i < i))
  }

  ghost predicate UnreachedInstrOk(fn: Function, g: Graph, loc: map<Name, Loc>, b: Block, i: nat, ins: Instr) {
    forall o :: o in Operands(ins) && o.Ref? ==>
      o.name in loc && (o.name in fn.pointers ==> EarlyAddress(fn, g, loc, b, i, o.name))
  }

  ghost predicate UnreachedBlockOk(fn: Function, g: Graph, loc: map<Name, Loc>, b: Block)
    requires b < |fn.blocks|
  {
    && (forall i :: 0 <= i < |fn.blocks[b].body| ==> UnreachedInstrOk(fn, g, loc, b, i, fn.blocks[b].body[i]))
    && (forall o :: o in TermOperands(fn.blocks[b].term) && o.Ref? ==> o.name in loc)
  }

  /** What is asked of unreachable blocks, where dominance says nothing: operands are results of the
      function, and addresses are not used before they are computed. */
  ghost predicate UnreachedOk(fn: Function, g: Graph, loc: map<Name, Loc>) {
    forall b: Block {:trigger fn.blocks[b]} :: b < |fn.blocks| && !Reachable(g, b) ==> UnreachedBlockOk(fn, g, loc, b)
  }

  /** The setting of one function: what Mem2Reg was given and what it has made of it. */
  ghost predicate Promotes(fn: Function, cx: Context, f: Operand -> Operand, out: seq<BasicBlock>, fr: Frontiers) {
    && SourceOk(cx) && GraphOk(cx) && PhisLeast(cx, fr) && Dominators.NoEdgeToEntry(cx.g)
    && IsResolver(cx, f) && Result(cx, f, out) && UnreachedResult(cx, f, out)
    && cx.blocks == fn.blocks && cx.allocas == fn.slots && FunctionTyped(fn) && UnreachedOk(fn, cx.g, cx.loc)
  }

  // ----- Variables that hold addresses -----

  lemma {:induction false} StoreOf(body: seq<Instr>, i: nat, x: Name) returns (j: nat)
    requires i <= |body| && LastStore(body, i, x).Some?
    ensures j < i && body[j].Store? && body[j].ptr == Ref(x) && LastStore(body, i, x) == Some(body[j].val)
  {
    if body[i - 1].Store? && body[i - 1].ptr == Ref(x) {
      j := i - 1;
    } else {
      j := StoreOf(body, i - 1, x);
    }
  }

  lemma PointerStoredInEntry(fn: Function, b: Block, x: Name)
    requires FunctionTyped(fn) && PointerSlot(fn, x) && Stores(fn.blocks, b, x)
    ensures b == ENTRY
  {
    var j := StoreOf(fn.blocks[b].body, |fn.blocks[b].body|, x);
    assert InstrTyped(fn, b, fn.blocks[b].body[j]);
  }

  lemma EntryFrontier(cx: Context, b: Block)
    requires Dominators.NoEdgeToEntry(cx.g)
    ensures !InFrontier(cx.g, ENTRY, b)
  {
    assert forall w :: WalkTo(cx.g, w, ENTRY, b) ==> ENTRY in w by {
      forall w | WalkTo(cx.g, w, ENTRY, b)
        ensures ENTRY in w
      {
        assert w[0] == ENTRY;
      }
    }
  }

  /** They get no phis: the frontier of the entry block is empty. */
  lemma NoPointerPhi(fn: Function, cx: Context, f: Operand -> Operand, out: seq<BasicBlock>, fr: Frontiers, b: Block,
      x: Name)
    requires Promotes(fn, cx, f, out, fr) && PointerSlot(fn, x)
    ensures !HasPhi(cx, b, x)
  {
    hide SourceOk, FunctionTyped, PointerSlot, IsResolver, Result, UnreachedResult, UnreachedOk,
         Dominators.NoEdgeToEntry, InFrontier, ReversePostOrder, ExactTree, Valid;
    if x in cx.allocas {
      assert ClosedFor(cx.blocks, fr, x, {}) by {
        forall d, c | d in fr && Stores(cx.blocks, d, x) && c in fr[d]
          ensures false
        {
          PointerStoredInEntry(fn, d, x);
          assert c in cx.t;
          EntryFrontier(cx, c);
        }
      }
      assert PhiBlocks(cx, x) <= {};
      assert b in cx.phis && HasPhi(cx, b, x) ==> b in PhiBlocks(cx, x);
    }
  }

  /** What may reach a use of x: an argument if x holds an address, and no address otherwise. */
  ghost predicate ValueTyped(fn: Function, x: Name, v: Operand) {
    if PointerSlot(fn, x) then v.Arg? else !PointerTyped(fn, v)
  }

  lemma {:induction false} ReachTyped(fn: Function, cx: Context, f: Operand -> Operand, out: seq<BasicBlock>,
      fr: Frontiers, b: Block, i: nat, x: Name)
    requires Promotes(fn, cx, f, out, fr) && b in cx.t && i <= |Body(cx, b)| && ReachAt(cx, b, i, x).Some?
    ensures ValueTyped(fn, x, ReachAt(cx, b, i, x).value)
    decreases cx.id[ENTRY] - cx.id[b]
  {
    hide Promotion.UsesOk, LocOk, PointersOk, IsResolver, Result, PhisLeast, Dominators.NoEdgeToEntry,
         ReversePostOrder, ExactTree;
    if LastStore(Body(cx, b), i, x).Some? {
      var j := StoreOf(Body(cx, b), i, x);
      StoreTyped(fn, b, j, x);
    } else if HasPhi(cx, b, x) {
      if PointerSlot(fn, x) { NoPointerPhi(fn, cx, f, out, fr, b, x); }
      assert ReachAt(cx, b, i, x).value == Ref(PhiName(b, x));
    } else {
      var d := cx.t[b];
      assert ReachAt(cx, b, i, x) == ReachIn(cx, b, x) == ReachOut(cx, d, x);
      ReachTyped(fn, cx, f, out, fr, d, |Body(cx, d)|, x);
    }
  }

  lemma StoreTyped(fn: Function, b: Block, j: nat, x: Name)
    requires FunctionTyped(fn) && b < |fn.blocks| && j < |fn.blocks[b].body|
    requires fn.blocks[b].body[j].Store? && fn.blocks[b].body[j].ptr == Ref(x)
    ensures ValueTyped(fn, x, fn.blocks[b].body[j].val)
  {
    assert InstrTyped(fn, b, fn.blocks[b].body[j]);
    if PointerTyped(fn, fn.blocks[b].body[j].val) { assert StoresPointer(fn, x, b, j); }
  }

  ghost predicate PointerName(fn: Function, o: Operand) {
    o.Ref? && o.name in fn.pointers
  }

  /** What is no address does not become a computed one. */
  lemma {:induction false} ResolvedScalar(fn: Function, cx: Context, f: Operand -> Operand, out: seq<BasicBlock>,
      fr: Frontiers, o: Operand)
    requires Promotes(fn, cx, f, out, fr) && !PointerName(fn, o)
    ensures !PointerName(fn, Resolve(cx, o))
    decreases Height(cx, o), Position(cx, o)
  {
    hide Promotion.UsesOk, LocOk, PointersOk, IsResolver, Result, PhisLeast, Dominators.NoEdgeToEntry, FunctionTyped,
         GraphOk;
    if o.Ref? && IsLoad(cx, o.name) && ReachLoad(cx, o.name).Some? {
      var l := cx.loc[o.name];
      ReachLoadLower(cx, o.name);
      ReachTyped(fn, cx, f, out, fr, l.b, l.i, LoadedSlot(cx, o.name));
      ResolvedScalar(fn, cx, f, out, fr, ReachLoad(cx, o.name).value);
    }
  }

  /** An address stays what it is, or becomes an argument. */
  lemma ResolvedPointer(fn: Function, cx: Context, f: Operand -> Operand, out: seq<BasicBlock>, fr: Frontiers,
      o: Operand)
    requires Promotes(fn, cx, f, out, fr) && PointerTyped(fn, o)
    ensures Resolve(cx, o) == o || Resolve(cx, o).Arg?
  {
    hide Promotion.UsesOk, LocOk, PointersOk, IsResolver, Result, PhisLeast, Dominators.NoEdgeToEntry, GraphOk;
    if o.Ref? && IsLoad(cx, o.name) && ReachLoad(cx, o.name).Some? {
      var l := cx.loc[o.name];
      ReachTyped(fn, cx, f, out, fr, l.b, l.i, LoadedSlot(cx, o.name));
      assert InstrTyped(fn, l.b, fn.blocks[l.b].body[l.i]);
      LoadDefines(cx, o.name);
    }
  }

  lemma LoadDefines(cx: Context, d: Name)
    requires SourceOk(cx) && IsLoad(cx, d)
    ensures cx.blocks[cx.loc[d].b].body[cx.loc[d].i].dst == d
  {
  }

  // ----- Definitions of the result -----

  /** Where an instruction of the result comes from. */
  lemma SourceInstr(cx: Context, f: Operand -> Operand, out: seq<BasicBlock>, b: Block, ins: Instr) returns (i: nat)
    requires SourceOk(cx) && Result(cx, f, out) && UnreachedResult(cx, f, out) && b < |out| && ins in out[b].body
    ensures i < |Body(cx, b)| && ins == MapInstr(f, Body(cx, b)[i])
  {
    if b in cx.t {
      i := Origin(cx, f, out, b, ins);
    } else {
      assert UnreachedBlock(cx, f, out, b);
      i :| 0 <= i < |out[b].body| && out[b].body[i] == ins;
    }
  }

  /** Where a source definition stands in the result. */
  lemma DefinitionKept(cx: Context, f: Operand -> Operand, out: seq<BasicBlock>, d: Name)
    requires SourceOk(cx) && Result(cx, f, out) && UnreachedResult(cx, f, out) && d in cx.loc
    ensures var l := cx.loc[d];
            && l.b < |out| && l.i < |Body(cx, l.b)| && Defines(Body(cx, l.b)[l.i], d)
            && MapInstr(f, Body(cx, l.b)[l.i]) in out[l.b].body
  {
    var l := cx.loc[d];
    assert IsDefinition(cx, d, l);
    var body := MapBody(f, cx.blocks[l.b].body);
    assert body[l.i] == MapInstr(f, cx.blocks[l.b].body[l.i]);
    if l.b in cx.t {
      assert BlockResult(cx, f, out, l.b);
      DroppedFrom(cx.allocas, body, body[l.i]);
    } else {
      assert UnreachedBlock(cx, f, out, l.b);
    }
  }

  ghost predicate PhiAt(out: seq<BasicBlock>, d: Name, k: nat) {
    d.PhiName? && d.block < |out| && k < |out[d.block].phis| && out[d.block].phis[k].dst == d
  }

  ghost function NamedPhi(out: seq<BasicBlock>, d: Name): Phi
    requires exists k: nat :: PhiAt(out, d, k)
  {
    var k: nat :| PhiAt(out, d, k);
    out[d.block].phis[k]
  }

  /** The definitions of the result by name. */
  ghost function PromotedTable(cx: Context, f: Operand -> Operand, out: seq<BasicBlock>): Definitions
    requires SourceOk(cx)
  {
    var phis := set b: Block, k: nat | b < |out| && k < |out[b].phis| && PhiAt(out, out[b].phis[k].dst, k) ::
      out[b].phis[k].dst;
    map d | d in cx.loc.Keys + phis ::
      if d in cx.loc then Plain(MapInstr(f, Body(cx, cx.loc[d].b)[cx.loc[d].i]))
      else Join(NamedPhi(out, d))
  }

  /** Static single assignment is kept: one table holds every definition of the result, and nothing else. */
  lemma PromotionKeepsSsa(cx: Context, f: Operand -> Operand, out: seq<BasicBlock>)
    requires SourceOk(cx) && Result(cx, f, out) && UnreachedResult(cx, f, out)
    ensures TableOk(out, PromotedTable(cx, f, out)) && TableExact(out, PromotedTable(cx, f, out))
  {
    var defs := PromotedTable(cx, f, out);
    hide Promotion.UsesOk, PointersOk;
    forall b, i | 0 <= b < |out| && 0 <= i < |out[b].body| && !out[b].body[i].Store?
      ensures out[b].body[i].dst in defs && defs[out[b].body[i].dst] == Plain(out[b].body[i])
    {
      SourceOfDefinition(cx, f, out, b, out[b].body[i]);
    }
    forall b, k | 0 <= b < |out| && 0 <= k < |out[b].phis|
      ensures out[b].phis[k].dst in defs && defs[out[b].phis[k].dst] == Join(out[b].phis[k])
    {
      PhiNamedOnce(cx, f, out, b, k);
    }
    forall d | d in defs
      ensures InBlocks(out, defs[d]) && Names(defs[d], d)
    {
      if d in cx.loc {
        DefinitionKept(cx, f, out, d);
        assert InBlock(out[cx.loc[d].b], defs[d]);
      } else {
        assert InBlock(out[d.block], defs[d]);
      }
    }
  }

  lemma SourceOfDefinition(cx: Context, f: Operand -> Operand, out: seq<BasicBlock>, b: Block, ins: Instr)
    requires SourceOk(cx) && Result(cx, f, out) && UnreachedResult(cx, f, out) && b < |out| && ins in out[b].body
    requires !ins.Store?
    ensures ins.dst in cx.loc && cx.loc[ins.dst].b == b && cx.loc[ins.dst].i < |Body(cx, b)|
    ensures ins == MapInstr(f, Body(cx, b)[cx.loc[ins.dst].i])
  {
    var i := SourceInstr(cx, f, out, b, ins);
    assert Located(cx, b, i);
  }

  lemma PhiNamedOnce(cx: Context, f: Operand -> Operand, out: seq<BasicBlock>, b: Block, k: nat)
    requires SourceOk(cx) && Result(cx, f, out) && UnreachedResult(cx, f, out) && b < |out| && k < |out[b].phis|
    ensures var d := out[b].phis[k].dst;
            PhiAt(out, d, k) && d !in cx.loc && NamedPhi(out, d) == out[b].phis[k]
  {
    var d := out[b].phis[k].dst;
    PhisOfResult(cx, f, out, b);
    hide SourceOk, Result, PhiOk, HasPhi, NamedPhi;
    assert d.PhiName? && d.block == b by { PhiDst(cx, b, out[b].phis[k]); }
    assert d !in cx.loc by { PhiUndefined(cx, d); }
    assert PhiAt(out, d, k);
    assert NamedPhi(out, d) == out[b].phis[k] by { NamedPhiIs(out, d, k); }
  }

  lemma PhisOfResult(cx: Context, f: Operand -> Operand, out: seq<BasicBlock>, b: Block)
    requires SourceOk(cx) && Result(cx, f, out) && UnreachedResult(cx, f, out) && b < |out|
    ensures Distinct(out[b].phis) && forall k :: 0 <= k < |out[b].phis| ==> PhiOk(cx, b, out[b].phis[k])
  {
    hide SourceOk, PhiOk;
    if b in cx.t {
      assert BlockResult(cx, f, out, b);
    } else {
      assert UnreachedBlock(cx, f, out, b);
    }
  }

  lemma PhiDst(cx: Context, b: Block, phi: Phi)
    requires SourceOk(cx) && PhiOk(cx, b, phi)
    ensures phi.dst.PhiName? && phi.dst.block == b
  {
  }

  lemma PhiUndefined(cx: Context, d: Name)
    requires SourceOk(cx) && d.PhiName?
    ensures d !in cx.loc
  {
  }

  lemma NamedPhiIs(out: seq<BasicBlock>, d: Name, k: nat)
    requires PhiAt(out, d, k) && Distinct(out[d.block].phis)
    ensures NamedPhi(out, d) == out[d.block].phis[k]
  {
    var j: nat :| PhiAt(out, d, j) && NamedPhi(out, d) == out[d.block].phis[j];
  }

  // ----- Form -----

  /** The table of a name that the source defines. */
  lemma TableAt(cx: Context, f: Operand -> Operand, out: seq<BasicBlock>, defs: Definitions, d: Name)
    requires SourceOk(cx) && Result(cx, f, out) && UnreachedResult(cx, f, out) && TableOk(out, defs) && d in cx.loc
    ensures cx.loc[d].i < |Body(cx, cx.loc[d].b)|
    ensures d in defs && defs[d] == Plain(MapInstr(f, Body(cx, cx.loc[d].b)[cx.loc[d].i]))
  {
    DefinitionKept(cx, f, out, d);
    var l := cx.loc[d];
    var i :| 0 <= i < |out[l.b].body| && out[l.b].body[i] == MapInstr(f, Body(cx, l.b)[l.i]);
  }

  /** The form of an instruction of the result. */
  lemma FormKept(fn: Function, cx: Context, f: Operand -> Operand, out: seq<BasicBlock>, fr: Frontiers,
      defs: Definitions, b: Block, ins: Instr)
    requires Promotes(fn, cx, f, out, fr) && TableOk(out, defs) && b < |out| && ins in out[b].body
    ensures ins.Load? || ins.Store? ==> AddressForm(defs, ins.ptr)
    ensures ins.Gep? ==> AddressForm(defs, ins.base)
  {
    hide PhisLeast, UnreachedOk, Dominators.NoEdgeToEntry, AddressForm, TableOk, FunctionTyped, GraphOk, SourceOk,
         Result, IsResolver;
    ResultSize(cx, f, out);
    var i := SourceInstr(cx, f, out, b, ins);
    if ins.Load? || ins.Store? {
      AddressKept(fn, cx, f, out, fr, defs, b, i);
    } else if ins.Gep? {
      GepKept(fn, cx, f, out, fr, defs, b, i);
    }
  }

  lemma GepKept(fn: Function, cx: Context, f: Operand -> Operand, out: seq<BasicBlock>, fr: Frontiers,
      defs: Definitions, b: Block, i: nat)
    requires Promotes(fn, cx, f, out, fr) && TableOk(out, defs) && b < |out| && i < |Body(cx, b)| && Body(cx, b)[i].Gep?
    ensures AddressForm(defs, f(Body(cx, b)[i].base))
  {
    var o := Body(cx, b)[i].base;
    assert o in Operands(Body(cx, b)[i]);
    OperandLocated(fn, cx, f, out, fr, b, i, o);
    TypedAt(fn, b, i);
    hide PhisLeast, UnreachedOk, Dominators.NoEdgeToEntry, TableOk, FunctionTyped, GraphOk, SourceOk, Result;
    ResolvedPointer(fn, cx, f, out, fr, o);
    if !f(o).Arg? { BaseKept(fn, cx, f, out, fr, defs, o); }
  }

  /** Operands are results of the function. */
  lemma OperandLocated(fn: Function, cx: Context, f: Operand -> Operand, out: seq<BasicBlock>, fr: Frontiers, b: Block,
      i: nat, o: Operand)
    requires Promotes(fn, cx, f, out, fr) && b < |out| && i < |Body(cx, b)| && o in Operands(Body(cx, b)[i])
    ensures o.Ref? ==> o.name in cx.loc
    ensures b !in cx.t && PointerName(fn, o) ==> EarlyAddress(fn, cx.g, cx.loc, b, i, o.name)
  {
    if b in cx.t {
      UsesAt(cx, b, i, o);
    } else {
      hide SourceOk, PhisLeast, IsResolver, Result, UnreachedResult, FunctionTyped, Dominators.NoEdgeToEntry,
           ReversePostOrder, ExactTree, Valid, TreeOk, Reachable, EarlyAddress;
      assert UnreachedBlockOk(fn, cx.g, cx.loc, b);
      assert UnreachedInstrOk(fn, cx.g, cx.loc, b, i, fn.blocks[b].body[i]);
    }
  }

  lemma TypedAt(fn: Function, b: Block, i: nat)
    requires FunctionTyped(fn) && b < |fn.blocks| && i < |fn.blocks[b].body|
    ensures InstrTyped(fn, b, fn.blocks[b].body[i])
  {
  }

  lemma AddressKept(fn: Function, cx: Context, f: Operand -> Operand, out: seq<BasicBlock>, fr: Frontiers,
      defs: Definitions, b: Block, i: nat)
    requires Promotes(fn, cx, f, out, fr) && TableOk(out, defs) && Accesses(cx, b, i)
    ensures AddressForm(defs, f(Body(cx, b)[i].ptr))
  {
    hide PhisLeast, UnreachedOk, Dominators.NoEdgeToEntry, TableOk, FunctionTyped, Result;
    var p := Body(cx, b)[i].ptr;
    assert PointerOk(cx, p) && f(p) == Resolve(cx, p);
    if p.Ref? { TableAt(cx, f, out, defs, p.name); }
  }

  lemma BaseKept(fn: Function, cx: Context, f: Operand -> Operand, out: seq<BasicBlock>, fr: Frontiers,
      defs: Definitions, o: Operand)
    requires Promotes(fn, cx, f, out, fr) && TableOk(out, defs) && PointerTyped(fn, o) && (o.Ref? ==> o.name in cx.loc)
    ensures AddressForm(defs, o)
  {
    hide PhisLeast, UnreachedOk, Dominators.NoEdgeToEntry, TableOk, Result;
    if o.Ref? {
      TableAt(cx, f, out, defs, o.name);
      var l := cx.loc[o.name];
      assert IsDefinition(cx, o.name, l);
      assert InstrTyped(fn, l.b, fn.blocks[l.b].body[l.i]);
    }
  }

  // ----- Addresses come from earlier addresses -----

  function Longest(blocks: seq<BasicBlock>): (n: nat)
    ensures forall b :: 0 <= b < |blocks| ==> |blocks[b].body| <= n
  {
    if blocks == [] then 0
    else
      var n := Longest(blocks[..|blocks| - 1]);
      var m := |blocks[|blocks| - 1].body|;
      if m > n then m else n
  }

  function Digits(a: nat, m: nat, i: nat): nat {
    a * m + i
  }

  function Defining(cx: Context, d: Name): Option<Instr> {
    if d in cx.loc && cx.loc[d].i < |Body(cx, cx.loc[d].b)| then Some(Body(cx, cx.loc[d].b)[cx.loc[d].i]) else None
  }

  /** Blocks in dominance order, unreachable ones last. */
  ghost function Depth(cx: Context, b: Block): nat
    requires TreeOk(cx)
  {
    if b in cx.t then cx.id[ENTRY] - cx.id[b] else cx.id[ENTRY] + 1
  }

  predicate IsComputedName(cx: Context, d: Name) {
    Defining(cx, d).Some? && IsComputed(Defining(cx, d).value)
  }

  /** Computed addresses in the order of their blocks. */
  ghost function RankOf(cx: Context, d: Name): nat
    requires TreeOk(cx)
  {
    if IsComputedName(cx, d) then 1 + Digits(Depth(cx, cx.loc[d].b), Longest(cx.blocks) + 1, cx.loc[d].i) else 0
  }

  ghost function Ranks(cx: Context, defs: Definitions): map<Name, nat>
    requires TreeOk(cx)
  {
    map d | d in defs :: RankOf(cx, d)
  }

  lemma Lexicographic(a: nat, b: nat, m: nat, i: nat, j: nat)
    requires a < b && i < m
    ensures Digits(a, m, i) < Digits(b, m, j)
  {
    MulAtLeast(b - a, m);
    assert (b - a) * m == b * m - a * m;
  }

  lemma RankLess(cx: Context, d: Name, e: Name)
    requires TreeOk(cx) && IsComputedName(cx, d) && e in cx.loc
    requires var k, l := Depth(cx, cx.loc[e].b), Depth(cx, cx.loc[d].b); k < l || (k == l && cx.loc[e].i < cx.loc[d].i)
    ensures RankOf(cx, e) < RankOf(cx, d)
  {
    if IsComputedName(cx, e) {
      var k, l, m := Depth(cx, cx.loc[e].b), Depth(cx, cx.loc[d].b), Longest(cx.blocks) + 1;
      LongestBounds(cx.blocks, cx.loc[e].b);
      hide Digits, Longest, Depth;
      if k < l {
        Lexicographic(k, l, m, cx.loc[e].i, cx.loc[d].i);
      } else {
        LastDigit(l, m, cx.loc[e].i, cx.loc[d].i);
      }
    }
  }

  lemma LastDigit(a: nat, m: nat, i: nat, j: nat)
    requires i < j
    ensures Digits(a, m, i) < Digits(a, m, j)
  {
  }

  /** What is available was defined before. */
  lemma RankRises(cx: Context, d: Name, e: Name)
    requires TreeOk(cx) && IsComputedName(cx, d) && cx.loc[d].b in cx.t && Available(cx, cx.loc[d].b, cx.loc[d].i, e)
    ensures RankOf(cx, e) < RankOf(cx, d)
  {
    hide RankOf;
    if cx.loc[e].b != cx.loc[d].b { ChainRises(cx.id, cx.t, cx.loc[e].b, cx.loc[d].b); }
    RankLess(cx, d, e);
  }

  lemma RankZero(cx: Context, d: Name, e: Name)
    requires TreeOk(cx) && IsComputedName(cx, d) && !IsComputedName(cx, e)
    ensures RankOf(cx, e) < RankOf(cx, d)
  {
  }

  /** The same in unreachable blocks. */
  lemma EarlyRankRises(fn: Function, cx: Context, d: Name, e: Name)
    requires TreeOk(cx) && (forall b: Block :: b in cx.t <==> Reachable(cx.g, b)) && cx.blocks == fn.blocks
    requires IsComputedName(cx, d) && cx.loc[d].b !in cx.t
    requires EarlyAddress(fn, cx.g, cx.loc, cx.loc[d].b, cx.loc[d].i, e)
    ensures RankOf(cx, e) < RankOf(cx, d)
  {
    hide RankOf, Reachable;
    if IsComputedName(cx, e) {
      RankLess(cx, d, e);
    } else {
      RankZero(cx, d, e);
    }
  }

  lemma LongestBounds(blocks: seq<BasicBlock>, b: nat)
    requires b < |blocks|
    ensures |blocks[b].body| <= Longest(blocks)
  {
  }

  /** An address that an instruction of the result uses is one that the source uses there. */
  lemma PointerUse(fn: Function, cx: Context, f: Operand -> Operand, out: seq<BasicBlock>, fr: Frontiers, b: Block,
      i: nat, o: Operand)
    requires Promotes(fn, cx, f, out, fr) && b < |out| && i < |Body(cx, b)|
    requires o in Operands(MapInstr(f, Body(cx, b)[i])) && PointerName(fn, o)
    ensures o in Operands(Body(cx, b)[i])
  {
    hide PhisLeast, UnreachedOk, Dominators.NoEdgeToEntry, FunctionTyped, Result, Promotion.UsesOk, LocOk, PointersOk;
    var o0 := SourceOperand(f, Body(cx, b)[i], o);
    if !PointerName(fn, o0) {
      ResolvedScalar(fn, cx, f, out, fr, o0);
      assert false;
    } else {
      ResolvedPointer(fn, cx, f, out, fr, o0);
    }
  }

  lemma PointerRises(fn: Function, cx: Context, f: Operand -> Operand, out: seq<BasicBlock>, fr: Frontiers, d: Name,
      o: Operand)
    requires Promotes(fn, cx, f, out, fr) && d in cx.loc && cx.loc[d].b < |out| && IsComputedName(cx, d)
    requires o in Operands(Defining(cx, d).value) && PointerName(fn, o)
    ensures RankOf(cx, o.name) < RankOf(cx, d)
  {
    var l := cx.loc[d];
    OperandLocated(fn, cx, f, out, fr, l.b, l.i, o);
    if l.b in cx.t {
      UsesAt(cx, l.b, l.i, o);
      TreeIsReachable(cx);
      hide SourceOk, GraphOk, Available, IsResolver, Result;
      RankRises(cx, d, o.name);
    } else {
      TreeIsReachable(cx);
      hide SourceOk, GraphOk, IsResolver, Result, EarlyAddress;
      EarlyRankRises(fn, cx, d, o.name);
    }
  }

  lemma TreeIsReachable(cx: Context)
    requires GraphOk(cx)
    ensures TreeOk(cx) && forall b: Block :: b in cx.t <==> Reachable(cx.g, b)
  {
  }

  /** Phis are given no addresses. */
  lemma PhiScalar(fn: Function, cx: Context, f: Operand -> Operand, out: seq<BasicBlock>, fr: Frontiers, b: Block,
      phi: Phi, o: Operand)
    requires Promotes(fn, cx, f, out, fr) && b < |out| && phi in out[b].phis && o in PairOperands(phi.pairs)
    ensures !PointerName(fn, o)
  {
    hide *;
    PromotesFacts(fn, cx, f, out, fr);
    PhisOfResult(cx, f, out, b);
    var k :| 0 <= k < |out[b].phis| && out[b].phis[k] == phi;
    var p := PhiSource(cx, b, phi, o);
    PhiValueScalar(fn, cx, f, out, fr, b, p, phi.dst.slot);
  }

  lemma PhiValueScalar(fn: Function, cx: Context, f: Operand -> Operand, out: seq<BasicBlock>, fr: Frontiers, b: Block,
      p: Block, x: Name)
    requires Promotes(fn, cx, f, out, fr) && p in cx.t && HasPhi(cx, b, x) && ReachOut(cx, p, x).Some?
    ensures !PointerName(fn, Resolve(cx, ReachOut(cx, p, x).value))
  {
    ReachOutIs(cx, p, x);
    hide *;
    ReachTyped(fn, cx, f, out, fr, p, |Body(cx, p)|, x);
    if PointerSlot(fn, x) {
      NoPointerPhi(fn, cx, f, out, fr, b, x);
      assert false;
    }
    ScalarIsNoPointer(fn, x, ReachOut(cx, p, x).value);
    ResolvedScalar(fn, cx, f, out, fr, ReachOut(cx, p, x).value);
  }

  lemma ScalarIsNoPointer(fn: Function, x: Name, v: Operand)
    requires ValueTyped(fn, x, v) && !PointerSlot(fn, x)
    ensures !PointerName(fn, v)
  {
  }

  lemma ReachOutIs(cx: Context, p: Block, x: Name)
    requires TreeOk(cx) && p in cx.t
    ensures ReachOut(cx, p, x) == ReachAt(cx, p, |Body(cx, p)|, x)
  {
  }

  /** The predecessor whose value a phi takes. */
  lemma PhiSource(cx: Context, b: Block, phi: Phi, o: Operand) returns (p: Block)
    requires SourceOk(cx) && PhiOk(cx, b, phi) && o in PairOperands(phi.pairs)
    ensures phi.dst.PhiName? && HasPhi(cx, b, phi.dst.slot)
    ensures p in cx.t && ReachOut(cx, p, phi.dst.slot).Some? && o == Resolve(cx, ReachOut(cx, p, phi.dst.slot).value)
  {
    hide SourceOk, ReachOut, Resolve;
    var j :| 0 <= j < |phi.pairs| && phi.pairs[j].0 == o;
    p := phi.pairs[j].1;
    assert PairFrom(cx, b, phi.dst.slot, phi.pairs[j]);
  }

  lemma StepRises(fn: Function, cx: Context, f: Operand -> Operand, out: seq<BasicBlock>, fr: Frontiers,
      defs: Definitions, d: Name, o: Operand)
    requires Promotes(fn, cx, f, out, fr) && TableExact(out, defs) && d in defs
    requires o in AllOperands(defs[d]) && o.Ref? && IsAddressStep(fn, defs[d], o)
    ensures TreeOk(cx) && RankOf(cx, o.name) < RankOf(cx, d)
  {
    hide Promotes, RankOf;
    PromotesFacts(fn, cx, f, out, fr);
    var b: Block :| b < |out| && InBlock(out[b], defs[d]);
    match defs[d]
    case Plain(ins) =>
      PlainStepRises(fn, cx, f, out, fr, b, ins, o);
    case Join(phi) =>
      PhiScalar(fn, cx, f, out, fr, b, phi, o);
    case End(_) =>
  }

  lemma PlainStepRises(fn: Function, cx: Context, f: Operand -> Operand, out: seq<BasicBlock>, fr: Frontiers, b: Block,
      ins: Instr, o: Operand)
    requires Promotes(fn, cx, f, out, fr) && b < |out| && ins in out[b].body && !ins.Store?
    requires o in Operands(ins) && o.Ref? && IsAddressStep(fn, Plain(ins), o)
    ensures TreeOk(cx) && RankOf(cx, o.name) < RankOf(cx, ins.dst)
  {
    hide Promotes, RankOf, Longest, SourceOk, Result, UnreachedResult;
    PromotesFacts(fn, cx, f, out, fr);
    SourceTree(cx);
    SourceOfDefinition(cx, f, out, b, ins);
    var i := cx.loc[ins.dst].i;
    if ins.Gep? { GepBase(fn, cx, f, out, fr, b, i); }
    PointerUse(fn, cx, f, out, fr, b, i, o);
    PointerRises(fn, cx, f, out, fr, ins.dst, o);
  }

  lemma GepBase(fn: Function, cx: Context, f: Operand -> Operand, out: seq<BasicBlock>, fr: Frontiers, b: Block, i: nat)
    requires Promotes(fn, cx, f, out, fr) && b < |out| && i < |Body(cx, b)| && Body(cx, b)[i].Gep?
    ensures var o := f(Body(cx, b)[i].base); o.Ref? ==> PointerName(fn, o)
  {
    hide PhisLeast, UnreachedOk, Dominators.NoEdgeToEntry, Promotion.UsesOk, PointersOk, GraphOk, Result;
    assert InstrTyped(fn, b, fn.blocks[b].body[i]);
    ResolvedPointer(fn, cx, f, out, fr, Body(cx, b)[i].base);
  }

  /** The promoted function has the form that dead code elimination asks for, with any exact table
      of its definitions. */
  lemma FormPreserved(fn: Function, cx: Context, f: Operand -> Operand, out: seq<BasicBlock>, fr: Frontiers,
      defs: Definitions)
    requires Promotes(fn, cx, f, out, fr) && TableOk(out, defs) && TableExact(out, defs)
    ensures FunctionForm(fn.(blocks := out), defs) && Ranked(fn.(blocks := out), defs, Ranks(cx, defs))
  {
    hide Promotes, TableExact, AddressForm, IsAddressStep, RankOf;
    assert SourceOk(cx) by { PromotesFacts(fn, cx, f, out, fr); }
    var fn' := fn.(blocks := out);
    forall b, i | 0 <= b < |out| && 0 <= i < |out[b].body|
      ensures InstrOk(defs, out[b].body[i])
    {
      FormKept(fn, cx, f, out, fr, defs, b, out[b].body[i]);
    }
    forall d, o | d in defs && o in AllOperands(defs[d]) && o.Ref? && o.name in defs && IsAddressStep(fn', defs[d], o)
      ensures RankOf(cx, o.name) < RankOf(cx, d)
    {
      SameStep(fn, out, defs[d], o);
      StepRises(fn, cx, f, out, fr, defs, d, o);
    }
  }

  lemma SameStep(fn: Function, out: seq<BasicBlock>, d: Instruction, o: Operand)
    ensures IsAddressStep(fn.(blocks := out), d, o) <==> IsAddressStep(fn, d, o)
  {
  }

  lemma PromotesFacts(fn: Function, cx: Context, f: Operand -> Operand, out: seq<BasicBlock>, fr: Frontiers)
    requires Promotes(fn, cx, f, out, fr)
    ensures SourceOk(cx) && Result(cx, f, out) && UnreachedResult(cx, f, out) && |out| == |cx.blocks|
  {
  }

  // ----- Every operand is defined -----

  /** A result of the source, or a phi that was placed. */
  ghost predicate DefinedName(cx: Context, o: Operand) {
    o.Ref? ==> o.name in cx.loc || (o.name.PhiName? && o.name.block in cx.t && HasPhi(cx, o.name.block, o.name.slot))
  }

  lemma {:induction false} ReachDefined(cx: Context, b: Block, i: nat, x: Name)
    requires SourceOk(cx) && b in cx.t && i <= |Body(cx, b)| && ReachAt(cx, b, i, x).Some?
    ensures DefinedName(cx, ReachAt(cx, b, i, x).value)
    decreases cx.id[ENTRY] - cx.id[b]
  {
    if LastStore(Body(cx, b), i, x).Some? {
      var j := StoreOf(Body(cx, b), i, x);
      UsesAt(cx, b, j, Body(cx, b)[j].val);
    } else if HasPhi(cx, b, x) {
      assert ReachAt(cx, b, i, x).value == Ref(PhiName(b, x));
    } else {
      var d := cx.t[b];
      assert ReachAt(cx, b, i, x) == ReachIn(cx, b, x) == ReachOut(cx, d, x);
      hide LocOk, PointersOk, Promotion.UsesOk;
      ReachDefined(cx, d, |Body(cx, d)|, x);
    }
  }

  lemma {:induction false} ResolveDefined(cx: Context, o: Operand)
    requires SourceOk(cx) && DefinedName(cx, o)
    ensures DefinedName(cx, Resolve(cx, o))
    decreases Height(cx, o), Position(cx, o)
  {
    hide LocOk, PointersOk, Promotion.UsesOk, DefinedName;
    if o.Ref? && IsLoad(cx, o.name) && ReachLoad(cx, o.name).Some? {
      var l := cx.loc[o.name];
      ReachLoadLower(cx, o.name);
      ReachDefined(cx, l.b, l.i, LoadedSlot(cx, o.name));
      ResolveDefined(cx, ReachLoad(cx, o.name).value);
    }
  }

  lemma TermLocated(fn: Function, cx: Context, f: Operand -> Operand, out: seq<BasicBlock>, fr: Frontiers, b: Block,
      o: Operand)
    requires Promotes(fn, cx, f, out, fr) && b < |out| && o in TermOperands(cx.blocks[b].term)
    ensures o.Ref? ==> o.name in cx.loc
  {
    if b in cx.t {
      assert TermUsesOk(cx, b);
    } else {
      hide SourceOk, PhisLeast, IsResolver, Result, UnreachedResult, FunctionTyped, Dominators.NoEdgeToEntry,
           ReversePostOrder, ExactTree, Valid, TreeOk, Reachable, EarlyAddress;
      assert UnreachedBlockOk(fn, cx.g, cx.loc, b);
    }
  }

  /** The operands of the result that were operands of the source. */
  lemma PlainDefined(fn: Function, cx: Context, f: Operand -> Operand, out: seq<BasicBlock>, fr: Frontiers, b: Block,
      ins: Instr, o: Operand)
    requires Promotes(fn, cx, f, out, fr) && b < |out| && ins in out[b].body && o in Operands(ins)
    ensures DefinedName(cx, o)
  {
    hide PhisLeast, UnreachedOk, FunctionTyped, GraphOk, Dominators.NoEdgeToEntry;
    var i := SourceInstr(cx, f, out, b, ins);
    var o0 := SourceOperand(f, Body(cx, b)[i], o);
    OperandLocated(fn, cx, f, out, fr, b, i, o0);
    hide SourceOk, Result, UnreachedResult;
    ResolveDefined(cx, o0);
  }

  lemma TermDefined(fn: Function, cx: Context, f: Operand -> Operand, out: seq<BasicBlock>, fr: Frontiers, b: Block,
      o: Operand)
    requires Promotes(fn, cx, f, out, fr) && b < |out| && o in TermOperands(out[b].term)
    ensures DefinedName(cx, o)
  {
    hide PhisLeast, UnreachedOk, FunctionTyped, GraphOk, Dominators.NoEdgeToEntry;
    if b in cx.t { assert BlockResult(cx, f, out, b); } else { assert UnreachedBlock(cx, f, out, b); }
    var s := cx.blocks[b].term;
    var o0 := if s.CondBr? then s.cond else s.val;
    assert o0 in TermOperands(s) && o == f(o0);
    TermLocated(fn, cx, f, out, fr, b, o0);
    hide SourceOk, Result, UnreachedResult;
    ResolveDefined(cx, o0);
  }

  lemma PhiDefined(fn: Function, cx: Context, f: Operand -> Operand, out: seq<BasicBlock>, fr: Frontiers, b: Block,
      phi: Phi, o: Operand)
    requires Promotes(fn, cx, f, out, fr) && b < |out| && phi in out[b].phis && o in PairOperands(phi.pairs)
    ensures DefinedName(cx, o)
  {
    hide *;
    PromotesFacts(fn, cx, f, out, fr);
    PhisOfResult(cx, f, out, b);
    var k :| 0 <= k < |out[b].phis| && out[b].phis[k] == phi;
    var p := PhiSource(cx, b, phi, o);
    SourceTree(cx);
    ReachOutIs(cx, p, phi.dst.slot);
    ReachDefined(cx, p, |Body(cx, p)|, phi.dst.slot);
    ResolveDefined(cx, ReachOut(cx, p, phi.dst.slot).value);
  }

  lemma SourceTree(cx: Context)
    requires SourceOk(cx)
    ensures TreeOk(cx)
  {
  }

  lemma NameInTable(fn: Function, cx: Context, f: Operand -> Operand, out: seq<BasicBlock>, fr: Frontiers,
      defs: Definitions, o: Operand)
    requires Promotes(fn, cx, f, out, fr) && TableOk(out, defs) && DefinedName(cx, o) && o.Ref?
    ensures o.name in defs
  {
    if o.name in cx.loc {
      TableAt(cx, f, out, defs, o.name);
    } else {
      hide PhisLeast, UnreachedOk, FunctionTyped, GraphOk, Dominators.NoEdgeToEntry, LocOk, PointersOk,
           Promotion.UsesOk;
      var b := o.name.block;
      assert BlockResult(cx, f, out, b);
      assert HasPhiNamed(out[b].phis, o.name);
      var k :| 0 <= k < |out[b].phis| && out[b].phis[k].dst == o.name;
    }
  }

  /** Every operand of the result that is a result is one of an instruction of the result. */
  lemma OperandsDefined(fn: Function, cx: Context, f: Operand -> Operand, out: seq<BasicBlock>, fr: Frontiers,
      defs: Definitions, it: Instruction, o: Operand)
    requires Promotes(fn, cx, f, out, fr) && TableOk(out, defs) && InBlocks(out, it) && o in AllOperands(it) && o.Ref?
    ensures o.name in defs
  {
    hide Promotes, TableOk, DefinedName;
    var b: Block :| b < |out| && InBlock(out[b], it);
    match it
    case Plain(ins) => PlainDefined(fn, cx, f, out, fr, b, ins, o); NameInTable(fn, cx, f, out, fr, defs, o);
    case Join(phi) => PhiDefined(fn, cx, f, out, fr, b, phi, o); NameInTable(fn, cx, f, out, fr, defs, o);
    case End(_) => TermDefined(fn, cx, f, out, fr, b, o); NameInTable(fn, cx, f, out, fr, defs, o);
  }
}
