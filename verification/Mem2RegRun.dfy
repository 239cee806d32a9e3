/** Mem2Reg on a whole function: dominators, phi placement and renaming put together, and what
    the result means. */
module Mem2RegRun {
  import opened ControlFlow
  import opened DominatorTree
  import Dominators
  import opened Ir
  import opened Promotion
  import opened PromotionMeaning
  import opened PhiPlacement
  import opened StorePaths
  import opened Renaming
  import opened Mem2Reg

  // ----- What is asked of the input -----

  /** The function before any analysis. */
  function Bare(g: Graph, blocks: seq<BasicBlock>, loc: map<Name, Loc>, allocas: set<Name>): Context {
    Context(g, [], map[], map[], blocks, loc, allocas, map[])
  }

  /** The definition of an operand comes before its use on every path. */
  ghost predicate UseOk(g: Graph, loc: map<Name, Loc>, b: Block, i: nat, o: Operand) {
    o.Ref? ==>
      && o.name.Tmp? && o.name in loc
      && if loc[o.name].b == b then loc[o.name].i < i else Dominates(g, loc[o.name].b, b)
  }

  /** A promoted variable occurs only as the address of a load or store. */
  ghost predicate AddressOnly(allocas: set<Name>, ins: Instr) {
    forall o :: o in Operands(ins) && IsSlot(allocas, o) ==>
      (ins.Load? || (ins.Store? && ins.val != o)) && ins.ptr == o
  }

  ghost predicate BlockUsesOk(g: Graph, blocks: seq<BasicBlock>, loc: map<Name, Loc>, allocas: set<Name>, b: Block)
    requires b < |blocks|
  {
    && (forall i, o :: 0 <= i < |blocks[b].body| && o in Operands(blocks[b].body[i]) ==> UseOk(g, loc, b, i, o))
    && (forall o :: o in TermOperands(blocks[b].term) ==> UseOk(g, loc, b, |blocks[b].body|, o) && !IsSlot(allocas, o))
    && (forall i :: 0 <= i < |blocks[b].body| ==> AddressOnly(allocas, blocks[b].body[i]))
  }

  /** Names of getelementptr results. */
  ghost predicate GepNames(blocks: seq<BasicBlock>, loc: map<Name, Loc>, geps: set<Name>) {
    forall d :: d in geps <==>
      d in loc && loc[d].b < |blocks| && loc[d].i < |blocks[loc[d].b].body| && blocks[loc[d].b].body[loc[d].i].Gep?
  }

  /** A function as the builder delivers it: static single assignment, no phis, no edge back to the
      entry, and memory accesses through allocas, globals and getelementptr results only. */
  ghost predicate FunctionOk(g: Graph, geps: set<Name>, blocks: seq<BasicBlock>, loc: map<Name, Loc>,
      allocas: set<Name>) {
    && Shape(g, blocks) && Dominators.NoEdgeToEntry(g)
    && (forall b :: 0 <= b < |blocks| ==> blocks[b].phis == [])
    && LocOk(Bare(g, blocks, loc, allocas))
    && (forall a :: a in allocas ==> IsAlloca(Bare(g, blocks, loc, allocas), a))
    && PointersOk(Bare(g, blocks, loc, allocas)) && GepNames(blocks, loc, geps)
    && (forall b: Block {:trigger BlockUsesOk(g, blocks, loc, allocas, b)} :: b < |blocks| && Reachable(g, b) ==>
          BlockUsesOk(g, blocks, loc, allocas, b))
  }

  /** The graph is the one the terminators span. */
  ghost predicate Shape(g: Graph, blocks: seq<BasicBlock>) {
    && Valid(g) && |blocks| == |g.succs|
    && (forall b :: 0 <= b < |blocks| ==> g.succs[b] == Targets(blocks[b].term))
  }

  /** No load is uninitialised on every path, unless nothing at all is stored to its variable. */
  ghost predicate LoadsStored(g: Graph, blocks: seq<BasicBlock>, allocas: set<Name>) {
    forall b: Block, i: nat {:trigger SlotLoad(g, blocks, allocas, b, i)} ::
      SlotLoad(g, blocks, allocas, b, i) && (exists c :: Stores(blocks, c, blocks[b].body[i].ptr.name)) ==>
        StoreBefore(g, blocks, b, i, blocks[b].body[i].ptr.name)
  }

  ghost predicate SlotLoad(g: Graph, blocks: seq<BasicBlock>, allocas: set<Name>, b: Block, i: nat) {
    b < |blocks| && Reachable(g, b) && i < |blocks[b].body| && blocks[b].body[i].Load?
      && IsSlot(allocas, blocks[b].body[i].ptr)
  }

  // ----- From the analyses to the setting of the walk -----

  ghost function Analysed(g: Graph, order: seq<Block>, id: Numbering, t: Tree, blocks: seq<BasicBlock>,
                          loc: map<Name, Loc>, allocas: set<Name>, has: Placement): Context {
    Context(g, order, id, t, blocks, loc, allocas, map b | b in Blocks(|blocks|) ::
      set x | x in allocas && (b, x) in has)
  }

  ghost function PhiDsts(blocks: seq<BasicBlock>): (r: seq<seq<Name>>)
    ensures |r| == |blocks| && forall b :: 0 <= b < |blocks| ==> r[b] == DstNames(blocks[b].phis)
  {
    seq(|blocks|, b requires 0 <= b < |blocks| => DstNames(blocks[b].phis))
  }

  ghost function DstNames(phis: seq<Phi>): (r: seq<Name>)
    ensures |r| == |phis| && forall k :: 0 <= k < |phis| ==> r[k] == phis[k].dst
  {
    seq(|phis|, k requires 0 <= k < |phis| => phis[k].dst)
  }

  /** What the dominator analysis delivers. */
  ghost predicate AnalysisOk(g: Graph, order: seq<Block>, id: Numbering, t: Tree, f: Frontiers,
      children: map<Block, set<Block>>) {
    && ReversePostOrder(g, order, id) && ExactTree(g, id, t)
    && (forall b: Block :: b in t <==> Reachable(g, b))
    && (forall x, b :: x in f && b in t ==> (b in f[x] <==> InFrontier(g, x, b)))
    && Dominators.FrontiersComputed(g, id, t, f) && Dominators.ChildrenComputed(g, t, children, |g.succs|)
  }

  /** What phi placement delivers. */
  ghost predicate PlacementOk(orig: seq<BasicBlock>, blocks: seq<BasicBlock>, allocas: set<Name>, f: Frontiers,
                              phi2val: map<Name, Name>, has: Placement) {
    && PhisPlaced(orig, blocks, has) && Phi2Val(phi2val, has)
    && (forall x :: x in allocas ==> LeastFor(orig, f, x, BlocksWith(has, x)))
    && (forall x :: x !in allocas ==> BlocksWith(has, x) == {})
  }

  lemma UseTransport(cx: Context, b: Block, i: nat, o: Operand)
    requires TreeOk(cx) && ExactTree(cx.g, cx.id, cx.t) && b in cx.t && UseOk(cx.g, cx.loc, b, i, o)
    ensures SourceOperandOk(cx, b, i, o)
  {
  }

  lemma AnalysedTree(g: Graph, order: seq<Block>, id: Numbering, t: Tree, blocks: seq<BasicBlock>,
                     loc: map<Name, Loc>, allocas: set<Name>, has: Placement)
    requires Shape(g, blocks)
    requires ReversePostOrder(g, order, id) && ExactTree(g, id, t) && forall b: Block :: b in t <==> Reachable(g, b)
    ensures GraphOk(Analysed(g, order, id, t, blocks, loc, allocas, has))
  {
    forall b | b in t
      ensures b < |blocks|
    {
      ReachableInGraph(g, b);
    }
  }

  lemma AnalysedUses(g: Graph, geps: set<Name>, order: seq<Block>, id: Numbering, t: Tree, blocks: seq<BasicBlock>,
                     loc: map<Name, Loc>, allocas: set<Name>, has: Placement)
    requires FunctionOk(g, geps, blocks, loc, allocas) && GraphOk(Analysed(g, order, id, t, blocks, loc, allocas, has))
    ensures UsesOk(Analysed(g, order, id, t, blocks, loc, allocas, has))
  {
    hide LocOk, PointersOk, GepNames;
    var cx := Analysed(g, order, id, t, blocks, loc, allocas, has);
    forall b, i | b in cx.t && 0 <= i < |Body(cx, b)|
      ensures InstrUsesOk(cx, b, i)
    {
      assert BlockUsesOk(g, blocks, loc, allocas, b);
      forall o | o in Operands(Body(cx, b)[i])
        ensures SourceOperandOk(cx, b, i, o)
      {
        UseTransport(cx, b, i, o);
      }
    }
    forall b | b in cx.t
      ensures TermUsesOk(cx, b)
    {
      assert BlockUsesOk(g, blocks, loc, allocas, b);
      forall o | o in TermOperands(cx.blocks[b].term)
        ensures SourceOperandOk(cx, b, |Body(cx, b)|, o)
      {
        UseTransport(cx, b, |Body(cx, b)|, o);
      }
    }
  }

  lemma AnalysedSource(g: Graph, geps: set<Name>, order: seq<Block>, id: Numbering, t: Tree, blocks: seq<BasicBlock>,
                       loc: map<Name, Loc>, allocas: set<Name>, has: Placement)
    requires FunctionOk(g, geps, blocks, loc, allocas) && GraphOk(Analysed(g, order, id, t, blocks, loc, allocas, has))
    ensures SourceOk(Analysed(g, order, id, t, blocks, loc, allocas, has))
    ensures GepsOk(Analysed(g, order, id, t, blocks, loc, allocas, has), geps)
  {
    AnalysedUses(g, geps, order, id, t, blocks, loc, allocas, has);
    hide UsesOk, BlockUsesOk, Shape, GraphOk, LocOk, PointersOk, IsAlloca, GepNames, Dominators.NoEdgeToEntry;
    var src, cx := Bare(g, blocks, loc, allocas), Analysed(g, order, id, t, blocks, loc, allocas, has);
    SameDefinitions(src, cx);
    PointersAreSlots(cx, geps);
    GraphHasTree(cx);
  }

  lemma GraphHasTree(cx: Context)
    requires GraphOk(cx)
    ensures TreeOk(cx)
  {
  }

  /** What does not speak of the tree carries over. */
  lemma SameDefinitions(src: Context, cx: Context)
    requires cx.blocks == src.blocks && cx.loc == src.loc && cx.allocas == src.allocas
    requires LocOk(src) && PointersOk(src) && forall a :: a in src.allocas ==> IsAlloca(src, a)
    ensures LocOk(cx) && PointersOk(cx) && forall a :: a in cx.allocas ==> IsAlloca(cx, a)
  {
    forall b: Block, i: nat
      ensures Located(cx, b, i)
    {
      assert Located(src, b, i);
    }
    forall b: Block, i: nat | Accesses(cx, b, i)
      ensures PointerOk(cx, Body(cx, b)[i].ptr)
    {
      assert Accesses(src, b, i);
    }
    forall d | d in cx.loc
      ensures IsDefinition(cx, d, cx.loc[d])
    {
      assert IsDefinition(src, d, src.loc[d]);
    }
  }

  lemma PointersAreSlots(cx: Context, geps: set<Name>)
    requires PointersOk(cx) && GepNames(cx.blocks, cx.loc, geps) && forall a :: a in cx.allocas ==> IsAlloca(cx, a)
    ensures GepsOk(cx, geps)
  {
    forall b: Block, i: nat | Accesses(cx, b, i)
      ensures IsSlot(cx.allocas, Body(cx, b)[i].ptr) <==> IsValidPtr(geps, Body(cx, b)[i].ptr)
    {
      assert PointerOk(cx, Body(cx, b)[i].ptr);
    }
  }

  lemma PhisOfAnalysed(g: Graph, order: seq<Block>, id: Numbering, t: Tree, orig: seq<BasicBlock>,
      blocks: seq<BasicBlock>, loc: map<Name, Loc>, allocas: set<Name>, f: Frontiers, phi2val: map<Name, Name>,
      has: Placement)
    requires PlacementOk(orig, blocks, allocas, f, phi2val, has) && FrontiersInside(f, |orig|)
    ensures var cx := Analysed(g, order, id, t, orig, loc, allocas, has);
            && (forall b: Block, x: Name :: HasPhi(cx, b, x) <==> (b, x) in has)
            && (forall x :: x in allocas ==> LeastFor(orig, f, x, PhiBlocks(cx, x)))
            && (forall b, x :: HasPhi(cx, b, x) ==> x in allocas && StoredSomewhere(cx, x))
  {
    var cx := Analysed(g, order, id, t, orig, loc, allocas, has);
    forall b: Block, x: Name
      ensures HasPhi(cx, b, x) <==> (b, x) in has
      ensures (b, x) in has ==> StoredSomewhere(cx, x)
    {
      if (b, x) in has {
        assert b in BlocksWith(has, x);
        LeastInside(orig, f, x, BlocksWith(has, x));
        assert x in allocas && b in Blocks(|orig|);
      }
    }
    forall x | x in allocas
      ensures PhiBlocks(cx, x) == BlocksWith(has, x)
    {
      forall b: Block
        ensures b in PhiBlocks(cx, x) <==> b in BlocksWith(has, x)
      {
        BlocksWithAdd(has, b, x, x);
      }
    }
  }

  lemma LeastInside(orig: seq<BasicBlock>, f: Frontiers, x: Name, q: set<Block>)
    requires LeastFor(orig, f, x, q) && FrontiersInside(f, |orig|)
    ensures q <= Blocks(|orig|)
    ensures q != {} ==> exists c: Block :: c < |orig| && LastStore(orig[c].body, |orig[c].body|, x).Some?
  {
    assert ClosedFor(orig, f, x, Blocks(|orig|));
    if forall c: Block :: c < |orig| ==> !Stores(orig, c, x) {
      assert ClosedFor(orig, f, x, {});
    } else {
      var c: Block :| c < |orig| && Stores(orig, c, x);
      assert LastStore(orig[c].body, |orig[c].body|, x).Some?;
    }
  }

  lemma FrontiersStayInside(g: Graph, id: Numbering, t: Tree, f: Frontiers)
    requires Dominators.FrontiersComputed(g, id, t, f) && Valid(g)
    ensures FrontiersInside(f, |g.succs|)
  {
    forall d, b | d in f && b in f[d]
      ensures b < |g.succs|
    {
      var p :| OnRun(g, id, t, d, p, b);
    }
  }

  lemma FrontiersStayReachable(g: Graph, id: Numbering, t: Tree, f: Frontiers)
    requires Dominators.FrontiersComputed(g, id, t, f)
    ensures forall x, b :: x in f && x in t && b in f[x] ==> b in t
  {
    forall x, b | x in f && x in t && b in f[x]
      ensures b in t
    {
      var p :| OnRun(g, id, t, x, p, b);
    }
  }

  /** Each load of a variable that is stored to finds something on its stack. */
  lemma AnalysedLoads(cx: Context, f: Frontiers)
    requires GraphOk(cx) && SourceOk(cx) && PhisLeast(cx, f) && LoadsStored(cx.g, cx.blocks, cx.allocas)
    requires Dominators.NoEdgeToEntry(cx.g)
    ensures LoadsReached(cx)
  {
    hide GraphOk, SourceOk, PhisLeast, LoadsStored, StoredSomewhere, LoadedSlot, IsLoad, ReachLoad,
         Dominators.NoEdgeToEntry;
    forall d | IsLoad(cx, d) && StoredSomewhere(cx, LoadedSlot(cx, d))
      ensures ReachLoad(cx, d).Some?
    {
      AnalysedLoad(cx, f, d);
    }
  }

  lemma AnalysedLoad(cx: Context, f: Frontiers, d: Name)
    requires GraphOk(cx) && SourceOk(cx) && PhisLeast(cx, f) && LoadsStored(cx.g, cx.blocks, cx.allocas)
    requires Dominators.NoEdgeToEntry(cx.g) && IsLoad(cx, d) && StoredSomewhere(cx, LoadedSlot(cx, d))
    ensures ReachLoad(cx, d).Some?
  {
    var l, x := cx.loc[d], LoadedSlot(cx, d);
    assert StoreBefore(cx.g, cx.blocks, l.b, l.i, x) by {
      hide SourceOk, PhisLeast, Dominators.NoEdgeToEntry, StoreBefore;
      var c :| 0 <= c < |cx.blocks| && LastStore(cx.blocks[c].body, |cx.blocks[c].body|, x).Some?;
      assert Stores(cx.blocks, c, x);
      assert SlotLoad(cx.g, cx.blocks, cx.allocas, l.b, l.i);
    }
    EntryHasNoPredecessor(cx);
    hide GraphOk, SourceOk, PhisLeast, LoadsStored, Dominators.NoEdgeToEntry, StoreBefore;
    ReachesIffStored(cx, f, l.b, l.i, x);
  }

  lemma EntryHasNoPredecessor(cx: Context)
    requires GraphOk(cx) && Dominators.NoEdgeToEntry(cx.g)
    ensures forall p :: p in cx.t ==> !Edge(cx.g, p, ENTRY)
  {
  }

  lemma DstsOfAnalysed(cx: Context, orig: seq<BasicBlock>, blocks: seq<BasicBlock>, phi2val: map<Name, Name>,
      has: Placement)
    requires cx.blocks == orig && PhisPlaced(orig, blocks, has) && Phi2Val(phi2val, has)
    requires forall b: Block, x: Name :: HasPhi(cx, b, x) <==> (b, x) in has
    requires forall b, x :: HasPhi(cx, b, x) ==> x in cx.allocas
    ensures DstsOk(cx, PhiDsts(blocks)) && PhiNames(phi2val, PhiDsts(blocks))
  {
    var dsts := PhiDsts(blocks);
    forall b | 0 <= b < |dsts|
      ensures BlockDstsOk(cx, dsts[b], b)
    {
      assert EmptyPhis(blocks[b].phis, b, has);
      forall k | 0 <= k < |dsts[b]|
        ensures dsts[b][k].PhiName? && dsts[b][k].block == b && dsts[b][k].slot in cx.allocas
        ensures HasPhi(cx, b, dsts[b][k].slot)
      {
        assert dsts[b][k] == blocks[b].phis[k].dst;
      }
      forall x | HasPhi(cx, b, x)
        ensures PhiName(b, x) in dsts[b]
      {
        assert HasPhiNamed(blocks[b].phis, PhiName(b, x));
        var k :| 0 <= k < |blocks[b].phis| && blocks[b].phis[k].dst == PhiName(b, x);
        assert dsts[b][k] == PhiName(b, x);
      }
    }
    forall b, k | 0 <= b < |dsts| && 0 <= k < |dsts[b]| && dsts[b][k].PhiName?
      ensures dsts[b][k] in phi2val && phi2val[dsts[b][k]] == dsts[b][k].slot
    {
      assert EmptyPhis(blocks[b].phis, b, has);
      assert dsts[b][k] == blocks[b].phis[k].dst;
      assert (b, dsts[b][k].slot) in has;
    }
  }

  lemma ViewBegins(cx: Context, blocks: seq<BasicBlock>, f: Operand -> Operand, has: Placement)
    requires PhisPlaced(cx.blocks, blocks, has) && forall o :: f(o) == o
    ensures View(cx, f, blocks, {})
  {
    forall b | 0 <= b < |blocks|
      ensures ViewBlock(cx, f, blocks, {}, b)
    {
      IdentityBody(f, blocks[b].body);
    }
  }

  lemma IdentityBody(f: Operand -> Operand, body: seq<Instr>)
    requires forall o :: f(o) == o
    ensures MapBody(f, body) == body
  {
    forall i | 0 <= i < |body|
      ensures MapInstr(f, body[i]) == body[i]
    {
      IdentityInstr(f, body[i]);
    }
  }

  lemma IdentityInstr(f: Operand -> Operand, ins: Instr)
    requires forall o :: f(o) == o
    ensures MapInstr(f, ins) == ins
  {
    match ins
    case Gep(d, b, idxs) => assert MapAll(f, idxs) == idxs;
    case Op(d, c, args) => assert MapAll(f, args) == args;
    case Call(d, c, args) => assert MapAll(f, args) == args;
    case _ =>
  }

  lemma WalkBegins(cx: Context, blocks: seq<BasicBlock>, f: Operand -> Operand, has: Placement)
    requires SourceOk(cx) && PhisPlaced(cx.blocks, blocks, has) && (forall o :: f(o) == o)
    ensures WalkInv(cx, PhiDsts(blocks), blocks, map[], f, {}, {}, {})
  {
    hide SourceOk;
    ViewBegins(cx, blocks, f, has);
    var dsts := PhiDsts(blocks);
    forall b | 0 <= b < |blocks|
      ensures PhiViewBlock(cx, dsts[b], blocks[b].phis, b, {}, ENTRY, {})
    {
      assert EmptyPhis(blocks[b].phis, b, has);
    }
  }

  lemma EntryReady(cx: Context)
    requires SourceOk(cx)
    ensures Ready(cx, {}, ENTRY) && StacksInherit(cx, map[], ENTRY)
  {
    forall c | OnChain(cx.id, cx.t, c, ENTRY)
      ensures c == ENTRY
    {
    }
  }

  lemma WholeTree(cx: Context)
    requires TreeOk(cx)
    ensures forall b :: b in Subtree(cx, ENTRY) <==> b in cx.t
  {
    forall b | b in cx.t
      ensures b in Subtree(cx, ENTRY)
    {
      EntryOnChain(cx.id, cx.t, b);
    }
  }

  // ----- From the end of the walk to the result -----

  lemma WalkResult(cx: Context, dsts: seq<seq<Name>>, blocks: seq<BasicBlock>, vs: Stacks, f: Operand -> Operand,
                   done: set<Name>, entered: set<Block>, finished: set<Block>)
    requires WalkInv(cx, dsts, blocks, vs, f, done, entered, finished) && DstsOk(cx, dsts)
    requires (forall b :: b in cx.t <==> b in entered) && forall b :: b in cx.t ==> b in finished
    ensures IsResolver(cx, f) && Result(cx, f, blocks) && UnreachedResult(cx, f, blocks)
  {
    forall b: Block | b < |blocks| && b !in cx.t
      ensures UnreachedBlock(cx, f, blocks, b)
    {
      assert ViewBlock(cx, f, blocks, finished, b);
      assert PhiViewBlock(cx, dsts[b], blocks[b].phis, b, entered, ENTRY, {});
      assert BlockDstsOk(cx, dsts[b], b);
      ResultPhis(cx, dsts[b], blocks[b].phis, b, entered);
    }
    forall b | b in cx.t
      ensures BlockResult(cx, f, blocks, b)
    {
      assert ViewBlock(cx, f, blocks, finished, b);
      assert PhiViewBlock(cx, dsts[b], blocks[b].phis, b, entered, ENTRY, {});
      assert BlockDstsOk(cx, dsts[b], b);
      ResultPhis(cx, dsts[b], blocks[b].phis, b, entered);
    }
    WalkResolver(cx, f, done, entered);
  }

  lemma ResultPhis(cx: Context, d: seq<Name>, phis: seq<Phi>, b: Block, entered: set<Block>)
    requires SourceOk(cx) && PhiViewBlock(cx, d, phis, b, entered, ENTRY, {}) && BlockDstsOk(cx, d, b)
    requires forall c :: c in cx.t ==> c in entered
    ensures PhisOk(cx, b, phis)
  {
    forall k | 0 <= k < |phis|
      ensures PhiOk(cx, b, phis[k])
    {
      assert d[k] == phis[k].dst;
    }
    forall x | HasPhi(cx, b, x)
      ensures HasPhiNamed(phis, PhiName(b, x))
    {
      var k :| 0 <= k < |d| && d[k] == PhiName(b, x);
      assert phis[k].dst == PhiName(b, x);
    }
    forall j, k | 0 <= j < k < |phis|
      ensures phis[j].dst != phis[k].dst
    {
      assert d[j] != d[k];
    }
  }

  lemma WalkResolver(cx: Context, f: Operand -> Operand, done: set<Name>, entered: set<Block>)
    requires SourceOk(cx) && IsPart(cx, done, f) && DoneUpTo(cx, done, entered, ENTRY, 0)
    requires forall b :: b in cx.t ==> b in entered
    ensures IsResolver(cx, f)
  {
    forall o
      ensures f(o) == Resolve(cx, o)
    {
      if o.Ref? && Resolvable(cx, o.name) {
        assert o.name in done;
      }
    }
  }

  // ----- One function -----

  lemma SettingBegins(g: Graph, geps: set<Name>, order: seq<Block>, id: Numbering, t: Tree, f: Frontiers,
      children: map<Block, set<Block>>, orig: seq<BasicBlock>, blocks: seq<BasicBlock>, loc: map<Name, Loc>,
      allocas: set<Name>, phi2val: map<Name, Name>, has: Placement)
    requires FunctionOk(g, geps, orig, loc, allocas) && LoadsStored(g, orig, allocas)
    requires AnalysisOk(g, order, id, t, f, children) && PlacementOk(orig, blocks, allocas, f, phi2val, has)
    ensures var cx := Analysed(g, order, id, t, orig, loc, allocas, has);
            && Setting(cx, PhiDsts(blocks), phi2val, geps, children) && PhisLeast(cx, f)
  {
    var cx := Analysed(g, order, id, t, orig, loc, allocas, has);
    hide FunctionOk, LoadsStored, GraphOk, SourceOk, PhisPlaced, Phi2Val, LeastFor, ReversePostOrder, ExactTree,
         Dominators.FrontiersComputed, Dominators.ChildrenComputed, InFrontier, Shape, Dominators.NoEdgeToEntry;
    InputFacts(g, geps, orig, loc, allocas);
    FrontiersStayInside(g, id, t, f);
    FrontiersStayReachable(g, id, t, f);
    AnalysedTree(g, order, id, t, orig, loc, allocas, has);
    AnalysedSource(g, geps, order, id, t, orig, loc, allocas, has);
    PhisOfAnalysed(g, order, id, t, orig, blocks, loc, allocas, f, phi2val, has);
    AnalysedLoads(cx, f);
    DstsOfAnalysed(cx, orig, blocks, phi2val, has);
    ChildrenOfAnalysed(cx, children);
  }

  lemma InputFacts(g: Graph, geps: set<Name>, blocks: seq<BasicBlock>, loc: map<Name, Loc>, allocas: set<Name>)
    requires FunctionOk(g, geps, blocks, loc, allocas)
    ensures Shape(g, blocks) && Valid(g) && |blocks| == |g.succs| && Dominators.NoEdgeToEntry(g)
    ensures forall b :: 0 <= b < |blocks| ==> blocks[b].phis == []
  {
  }

  lemma ChildrenOfAnalysed(cx: Context, children: map<Block, set<Block>>)
    requires GraphOk(cx) && Dominators.ChildrenComputed(cx.g, cx.t, children, |cx.g.succs|)
    ensures ChildrenOk(cx, children)
  {
    TreeInside(cx);
    hide GraphOk, Dominators.ChildrenComputed, ChildrenAre;
    forall b | b in cx.t
      ensures ChildrenAre(cx.t, children, b)
    {
      ChildrenOf(cx.g, cx.t, children, b);
    }
  }

  lemma ChildrenOf(g: Graph, t: Tree, children: map<Block, set<Block>>, b: Block)
    requires Dominators.ChildrenComputed(g, t, children, |g.succs|) && b < |g.succs| && forall c :: c in t ==>
             c < |g.succs|
    ensures ChildrenAre(t, children, b)
  {
  }

  lemma TreeInside(cx: Context)
    requires GraphOk(cx)
    ensures forall b :: b in cx.t ==> b < |cx.g.succs|
  {
  }

  /** `is_valid_ptr` tells stores to variables from all others. */
  lemma StoresPlaced(g: Graph, geps: set<Name>, blocks: seq<BasicBlock>, loc: map<Name, Loc>, allocas: set<Name>)
    requires FunctionOk(g, geps, blocks, loc, allocas)
    ensures forall b, i :: 0 <= b < |blocks| && 0 <= i < |blocks[b].body| && blocks[b].body[i].Store? ==>
              (IsValidPtr(geps, blocks[b].body[i].ptr) <==> IsSlot(allocas, blocks[b].body[i].ptr))
  {
    var src := Bare(g, blocks, loc, allocas);
    PointersAreSlots(src, geps);
    forall b, i | 0 <= b < |blocks| && 0 <= i < |blocks[b].body| && blocks[b].body[i].Store?
      ensures IsValidPtr(geps, blocks[b].body[i].ptr) <==> IsSlot(allocas, blocks[b].body[i].ptr)
    {
      assert Accesses(src, b, i);
    }
  }

  /** The result has the meaning of the input, whatever calls do. */
  ghost predicate SameMeaning(allocas: set<Name>, blocks: seq<BasicBlock>, out: seq<BasicBlock>) {
    forall fr: Frame, fr': Frame, fuel: nat, h: Heap {:trigger RunsAgree(fr, fr', blocks, out, fuel, h)} ::
      fr.allocas == allocas && FramesAgree(fr, fr') ==> RunsAgree(fr, fr', blocks, out, fuel, h)
  }

  ghost predicate RunsAgree(fr: Frame, fr': Frame, blocks: seq<BasicBlock>, out: seq<BasicBlock>, fuel: nat, h: Heap) {
    OutcomesAgree(Run(fr, blocks, fuel, ENTRY, None, Start(h), []), Run(fr', out, fuel, ENTRY, None, Start(h), []))
  }

  lemma ResultMeans(cx: Context, f: Frontiers, subst: Operand -> Operand, out: seq<BasicBlock>)
    requires SourceOk(cx) && GraphOk(cx) && PhisLeast(cx, f) && Dominators.NoEdgeToEntry(cx.g)
    requires IsResolver(cx, subst) && Result(cx, subst, out)
    ensures SameMeaning(cx.allocas, cx.blocks, out)
  {
    LeastIsClosed(cx, f);
    EntryHasNoPredecessor(cx);
    hide SourceOk, GraphOk, PhisClosed, PhisLeast, IsResolver, Result, FramesAgree;
    forall fr: Frame, fr': Frame, fuel: nat, h: Heap | fr.allocas == cx.allocas && FramesAgree(fr, fr')
      ensures RunsAgree(fr, fr', cx.blocks, out, fuel, h)
    {
      PromotionPreservesRuns(cx, subst, fr, fr', out, fuel, h);
    }
  }

  /** What one function becomes; `ok` is false if the dominator analysis throws. */
  method PromoteFunction(g: Graph, geps: set<Name>, blocks: seq<BasicBlock>, ghost loc: map<Name, Loc>,
      ghost allocas: set<Name>)
    returns (ok: bool, out: seq<BasicBlock>, ghost cx: Context, ghost subst: Operand -> Operand)
    requires FunctionOk(g, geps, blocks, loc, allocas) && LoadsStored(g, blocks, allocas)
    ensures ok <==> JoinsReachable(g)
    ensures ok ==> SameMeaning(allocas, blocks, out)
    ensures ok ==> cx.g == g && cx.blocks == blocks && cx.loc == loc && cx.allocas == allocas
    ensures ok ==> SourceOk(cx) && GraphOk(cx) && IsResolver(cx, subst) && Result(cx, subst, out)
    ensures ok ==> UnreachedResult(cx, subst, out)
    ensures ok ==> exists f :: PhisLeast(cx, f)
  {
    hide *;
    InputFacts(g, geps, blocks, loc, allocas);
    StoresPlaced(g, geps, blocks, loc, allocas);
    out, subst := blocks, o => o;
    cx := Bare(g, blocks, loc, allocas);
    var a := new Dominators.Analysis(g);
    ok := a.Run();
    if ok {
      AnalysisDelivers(g, a.order, a.id, a.idom, a.frontier, a.children);
      FrontiersStayInside(g, a.id, a.idom, a.frontier);
      var p := new Pass(g, geps, a.frontier, a.children, blocks);
      ghost var has := p.GeneratePhi(allocas);
      PlacementDelivers(blocks, p.blocks, allocas, a.frontier, p.phi2val, has);
      SettingBegins(g, geps, a.order, a.id, a.idom, a.frontier, a.children, blocks, p.blocks, loc, allocas, p.phi2val,
        has);
      cx := Analysed(g, a.order, a.id, a.idom, blocks, loc, allocas, has);
      AnalysedFields(g, a.order, a.id, a.idom, blocks, loc, allocas, has);
      ghost var dsts := PhiDsts(p.blocks);
      SettingFacts(cx, dsts, p.phi2val, geps, a.children);
      WalkBegins(cx, p.blocks, p.subst, has);
      EntryReady(cx);
      p.Rename(ENTRY, cx, dsts);
      WholeTree(cx);
      WalkResult(cx, dsts, p.blocks, p.valStack, p.subst, p.done, p.entered, p.finished);
      ResultMeans(cx, a.frontier, p.subst, p.blocks);
      out, subst := p.blocks, p.subst;
    }
  }

  lemma AnalysedFields(g: Graph, order: seq<Block>, id: Numbering, t: Tree, blocks: seq<BasicBlock>,
                       loc: map<Name, Loc>, allocas: set<Name>, has: Placement)
    ensures var cx := Analysed(g, order, id, t, blocks, loc, allocas, has);
            cx.g == g && cx.blocks == blocks && cx.loc == loc && cx.allocas == allocas
  {
  }

  lemma AnalysisDelivers(g: Graph, order: seq<Block>, id: Numbering, t: Tree, f: Frontiers,
      children: map<Block, set<Block>>)
    requires ReversePostOrder(g, order, id) && ExactTree(g, id, t)
    requires forall b: Block :: b in t <==> Reachable(g, b)
    requires forall x, b :: x in f && b in t ==> (b in f[x] <==> InFrontier(g, x, b))
    requires Dominators.FrontiersComputed(g, id, t, f) && Dominators.ChildrenComputed(g, t, children, |g.succs|)
    ensures AnalysisOk(g, order, id, t, f, children)
  {
  }

  lemma PlacementDelivers(orig: seq<BasicBlock>, blocks: seq<BasicBlock>, allocas: set<Name>, f: Frontiers,
                          phi2val: map<Name, Name>, has: Placement)
    requires PhisPlaced(orig, blocks, has) && Phi2Val(phi2val, has)
    requires forall x :: x in allocas ==> LeastFor(orig, f, x, BlocksWith(has, x))
    requires forall x :: x !in allocas ==> BlocksWith(has, x) == {}
    ensures PlacementOk(orig, blocks, allocas, f, phi2val, has)
  {
  }
}
