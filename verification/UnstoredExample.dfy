/** A load that no path stores to: what Mem2Reg does here is not defined in C++. */
module UnstoredExample {
  import opened ControlFlow
  import opened DominatorTree
  import opened Ir
  import opened Promotion
  import opened PhiPlacement
  import opened StorePaths
  import opened Renaming
  import opened Mem2RegRun

  // int x; if (c()) { x = 1; return 0; } return x;

  const X := Tmp(0)
  const TEST := Tmp(1)
  const VALUE := Tmp(2)

  const ENTRY_BODY := [Alloca(X), Call(TEST, 0, [])]
  const STORE_BODY := [Store(Ref(X), Imm(1))]
  const LOAD_BODY := [Load(VALUE, Ref(X))]

  const BLOCKS := [
    BasicBlock([], ENTRY_BODY, CondBr(Ref(TEST), 1, 2)),
    BasicBlock([], STORE_BODY, Ret(Imm(0))),
    BasicBlock([], LOAD_BODY, Ret(Ref(VALUE)))]

  const G := Graph([[1, 2], [], []], [[], [0], [0]])
  const LOC: map<Name, Loc> := map[X := Loc(0, 0), TEST := Loc(0, 1), VALUE := Loc(2, 0)]

  lemma Edges(a: Block, b: Block)
    ensures Edge(G, a, b) <==> a == 0 && (b == 1 || b == 2)
  {
  }

  lemma GraphShape()
    ensures Shape(G, BLOCKS) && forall b :: !Edge(G, b, ENTRY)
  {
    forall a: Block, b: Block
      ensures Edge(G, a, b) <==> b < 3 && a in G.preds[b]
    {
      Edges(a, b);
    }
  }

  lemma EntryDominates(b: Block)
    ensures Dominates(G, ENTRY, b)
  {
    forall w | WalkTo(G, w, ENTRY, b)
      ensures ENTRY in w
    {
      assert w[0] == ENTRY;
    }
  }

  lemma Uses(b: Block)
    requires b < 3
    ensures BlockUsesOk(G, BLOCKS, LOC, {X}, b)
  {
    EntryDominates(b);
    hide Dominates;
    assert BLOCKS[b].body == [ENTRY_BODY, STORE_BODY, LOAD_BODY][b];
  }

  lemma Definitions()
    ensures var src := Bare(G, BLOCKS, LOC, {X});
            LocOk(src) && IsAlloca(src, X) && PointersOk(src) && GepNames(BLOCKS, LOC, {})
  {
    var src := Bare(G, BLOCKS, LOC, {X});
    forall b: Block, i: nat
      ensures Located(src, b, i)
    {
      if b < 3 { assert Body(src, b) == [ENTRY_BODY, STORE_BODY, LOAD_BODY][b]; }
    }
    forall b: Block, i: nat | Accesses(src, b, i)
      ensures PointerOk(src, Body(src, b)[i].ptr)
    {
      assert Body(src, b) == [ENTRY_BODY, STORE_BODY, LOAD_BODY][b];
    }
  }

  lemma OneStores(b: Block)
    ensures Stores(BLOCKS, b, X) ==> b == 1
  {
    if b == 0 {
      var body := BLOCKS[b].body;
      assert body == ENTRY_BODY && |body| == 2;
      assert LastStore(body, 1, X) == LastStore(body, 0, X) == None;
    } else if b == 2 {
      var body := BLOCKS[b].body;
      assert body == LOAD_BODY && |body| == 1;
      assert LastStore(body, 0, X) == None;
    }
  }

  lemma NothingStored(b: Block)
    ensures forall w :: WalkTo(G, w, ENTRY, b) ==> !StoredAlong(BLOCKS, w, X)
    ensures !StoreBefore(G, BLOCKS, 2, 0, X)
  {
    forall w, k, c | WalkTo(G, w, ENTRY, c)
      ensures !StoreOn(BLOCKS, w, k, X)
    {
      if StoreOn(BLOCKS, w, k, X) {
        OneStores(w[k]);
        assert Edge(G, w[k], w[k + 1]);
        Edges(w[k], w[k + 1]);
      }
    }
  }

  /** What the analyses and the phi placement may have made of the function. */
  ghost predicate Analysed(cx: Context, f: Frontiers) {
    && cx.g == G && cx.blocks == BLOCKS && cx.loc == LOC && cx.allocas == {X}
    && SourceOk(cx) && GraphOk(cx) && PhisLeast(cx, f)
  }

  /** There is a stack for x, be it empty, once a block has been visited that stores to x or has a phi
      for x: pops do not take the stack itself away. */
  ghost predicate HasStack(cx: Context, visited: seq<Block>, x: Name) {
    exists b :: b in visited && (Stores(cx.blocks, b, x) || HasPhi(cx, b, x))
  }

  lemma NoPhiAtEntry(cx: Context, f: Frontiers)
    requires Analysed(cx, f)
    ensures ENTRY in cx.t && !HasPhi(cx, ENTRY, X)
  {
    assert ENTRY in cx.t by { assert WalkTo(G, [ENTRY], ENTRY, ENTRY); }
    NothingStored(ENTRY);
    if HasPhi(cx, ENTRY, X) { PhiMeansStore(cx, f, ENTRY, X); }
  }

  /** Both other blocks are children of the entry in the dominator tree, so either may be visited first. */
  lemma Children(cx: Context, f: Frontiers, b: Block)
    requires Analysed(cx, f) && (b == 1 || b == 2)
    ensures b in cx.t && cx.t[b] == ENTRY
  {
    hide LocOk, PointersOk, UsesOk, PhisLeast, ReversePostOrder, Valid;
    Edges(0, b);
    assert WalkTo(G, [0, b], ENTRY, b);
    ExactTreeGivesImmediateDominators(G, cx.id, cx.t, cx.t[b], b);
    assert cx.t[b] in [0, b];
  }

  lemma WellFormed()
    ensures FunctionOk(G, {}, BLOCKS, LOC, {X})
  {
    GraphShape();
    Definitions();
    forall b: Block | b < 3
      ensures BlockUsesOk(G, BLOCKS, LOC, {X}, b)
    {
      Uses(b);
    }
  }

  lemma BlockOneStores()
    ensures Stores(BLOCKS, 1, X) && !Stores(BLOCKS, 0, X)
  {
    OneStores(0);
    assert LastStore(STORE_BODY, 1, X) == Some(Imm(1)) && BLOCKS[1].body == STORE_BODY;
  }

  lemma NotStoredBefore()
    ensures !LoadsStored(G, BLOCKS, {X})
  {
    BlockOneStores();
    NothingStored(2);
    Edges(0, 2);
    assert WalkTo(G, [0, 2], ENTRY, 2);
    hide StoreBefore, Stores;
    assert SlotLoad(G, BLOCKS, {X}, 2, 0);
  }

  lemma StackMade(cx: Context, f: Frontiers)
    requires Analysed(cx, f)
    ensures HasStack(cx, [ENTRY, 1], X) && !HasStack(cx, [ENTRY], X)
  {
    hide GraphOk, SourceOk, PhisLeast, Stores, HasPhi;
    BlockOneStores();
    NoPhiAtEntry(cx, f);
  }

  lemma NothingReaches(cx: Context, f: Frontiers)
    requires Analysed(cx, f)
    ensures IsLoad(cx, VALUE) && cx.loc[VALUE] == Loc(2, 0) && ReachLoad(cx, VALUE) == None
  {
    hide StoreBefore, ReversePostOrder, ExactTree, PhisLeast, Reachable;
    GraphShape();
    NothingStored(2);
    Children(cx, f, 2);
    ReachesIffStored(cx, f, 2, 0, X);
  }

  /** The function is well formed. Blocks 1 and 2 are the children of the entry. If block 1 is visited
      before block 2, there is a stack for the variable at the load in block 2, and it is empty, wherever
      phis have been placed; if block 2 comes first, there is none and the load stays. */
  lemma StackEmptyAtLoad(cx: Context, f: Frontiers)
    ensures FunctionOk(G, {}, BLOCKS, LOC, {X}) && !LoadsStored(G, BLOCKS, {X})
    ensures Analysed(cx, f) ==>
              && 1 in cx.t && 2 in cx.t && cx.t[1] == cx.t[2] == ENTRY
              && HasStack(cx, [ENTRY, 1], X) && !HasStack(cx, [ENTRY], X)
              && IsLoad(cx, VALUE) && cx.loc[VALUE] == Loc(2, 0) && ReachLoad(cx, VALUE) == None
  {
    hide *;
    WellFormed();
    NotStoredBefore();
    if Analysed(cx, f) {
      Children(cx, f, 1);
      Children(cx, f, 2);
      StackMade(cx, f);
      NothingReaches(cx, f);
    }
  }
}
