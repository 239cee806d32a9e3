/** What reaches a point exists exactly if some path from the entry stores to the variable before
    it: no load that could be initialised finds an empty stack, and no other load is replaced. */
module StorePaths {
  import opened ControlFlow
  import opened DominatorTree
  import opened Ir
  import opened Promotion
  import opened PhiPlacement

  /** Block w[k] of the path stores to x and is followed by another block of the path. */
  ghost predicate StoreOn(blocks: seq<BasicBlock>, w: seq<Block>, k: nat, x: Name) {
    k < |w| - 1 && Stores(blocks, w[k], x)
  }

  /** Some path from the entry stores to x before it gets to position i of b. */
  ghost predicate StoreBefore(g: Graph, blocks: seq<BasicBlock>, b: Block, i: nat, x: Name) {
    && b < |blocks| && i <= |blocks[b].body|
    && exists w :: WalkTo(g, w, ENTRY, b) && (LastStore(blocks[b].body, i, x).Some? || StoredAlong(blocks, w, x))
  }

  ghost predicate StoredAlong(blocks: seq<BasicBlock>, w: seq<Block>, x: Name) {
    exists k :: StoreOn(blocks, w, k, x)
  }

  /** In each reachable block exactly the iterated frontier has phis; reachable blocks have no others in
      their frontiers. */
  ghost predicate PhisLeast(cx: Context, f: Frontiers) {
    && FrontiersInside(f, |cx.blocks|)
    && (forall x, b :: x in f && b in cx.t ==> (b in f[x] <==> InFrontier(cx.g, x, b)))
    && (forall x, b :: x in f && x in cx.t && b in f[x] ==> b in cx.t)
    && (forall x :: x in cx.allocas ==> LeastFor(cx.blocks, f, x, PhiBlocks(cx, x)))
    && (forall b, x :: HasPhi(cx, b, x) ==> x in cx.allocas)
  }

  ghost function PhiBlocks(cx: Context, x: Name): set<Block> {
    set b | b in cx.phis && HasPhi(cx, b, x)
  }

  lemma LeastIsClosed(cx: Context, f: Frontiers)
    requires GraphOk(cx) && PhisLeast(cx, f)
    ensures PhisClosed(cx)
  {
    forall d, b, x | InFrontier(cx.g, d, b) && d in cx.t && b in cx.t && x in cx.allocas && HasDef(cx, d, x)
      ensures HasPhi(cx, b, x)
    {
      assert d in f && b in f[d];
      assert Stores(cx.blocks, d, x) || d in PhiBlocks(cx, x);
      assert b in PhiBlocks(cx, x);
    }
  }

  // ----- A phi means a store on the way -----

  /** The blocks that some path from the entry reaches with a store to x behind it, and all
      unreachable ones. */
  ghost function Behind(cx: Context, x: Name): set<Block> {
    set b | b in Blocks(|cx.blocks|) && (Reachable(cx.g, b) ==> StoredOnWay(cx, b, x))
  }

  ghost predicate StoredOnWay(cx: Context, b: Block, x: Name) {
    exists w :: WalkTo(cx.g, w, ENTRY, b) && StoredAlong(cx.blocks, w, x)
  }

  lemma BehindClosed(cx: Context, f: Frontiers, x: Name)
    requires GraphOk(cx) && PhisLeast(cx, f)
    ensures ClosedFor(cx.blocks, f, x, Behind(cx, x))
  {
    forall d, b | d in f && (Stores(cx.blocks, d, x) || d in Behind(cx, x)) && b in f[d]
      ensures b in Behind(cx, x)
    {
      if Reachable(cx.g, b) {
        assert b in cx.t && InFrontier(cx.g, d, b);
        FrontierCarries(cx, d, b, x);
      }
    }
  }

  /** A path through d carries on what was stored up to the end of d. */
  lemma Carries(cx: Context, w: seq<Block>, b: Block, k: nat, d: Block, x: Name)
    requires WalkTo(cx.g, w, ENTRY, b) && k < |w| - 1 && w[k] == d
    requires Stores(cx.blocks, d, x) || StoredOnWay(cx, d, x)
    ensures StoredOnWay(cx, b, x)
  {
    if Stores(cx.blocks, d, x) {
      assert StoreOn(cx.blocks, w, k, x);
    } else {
      var v :| WalkTo(cx.g, v, ENTRY, d) && StoredAlong(cx.blocks, v, x);
      var j :| StoreOn(cx.blocks, v, j, x);
      SuffixWalk(cx.g, w, ENTRY, b, k);
      JoinWalks(cx.g, v, w[k..], ENTRY, d, b);
      assert StoreOn(cx.blocks, v + w[k..][1..], j, x);
    }
  }

  /** A block in the frontier of d has a path through d. */
  lemma FrontierCarries(cx: Context, d: Block, b: Block, x: Name)
    requires InFrontier(cx.g, d, b) && (Stores(cx.blocks, d, x) || d in Behind(cx, x))
    ensures StoredOnWay(cx, b, x)
  {
    var p :| Edge(cx.g, p, b) && Reachable(cx.g, p) && Dominates(cx.g, d, p);
    var w :| WalkTo(cx.g, w, ENTRY, p);
    assert d in w;
    var k :| 0 <= k < |w| && w[k] == d;
    PrefixWalk(cx.g, w, ENTRY, p, k);
    assert Reachable(cx.g, d) by { assert WalkTo(cx.g, w[..k + 1], ENTRY, d); }
    ExtendWalk(cx.g, w, ENTRY, p, b);
    Carries(cx, w + [b], b, k, d, x);
  }

  lemma PhiMeansStore(cx: Context, f: Frontiers, b: Block, x: Name)
    requires GraphOk(cx) && PhisLeast(cx, f) && b in cx.t && HasPhi(cx, b, x)
    ensures StoredOnWay(cx, b, x)
  {
    BehindClosed(cx, f, x);
    assert b in PhiBlocks(cx, x);
    assert b in Behind(cx, x);
  }

  /** A path to the immediate dominator can be continued. */
  lemma ParentCarries(cx: Context, b: Block, x: Name)
    requires GraphOk(cx) && b in cx.t && b != ENTRY
    requires StoreBefore(cx.g, cx.blocks, cx.t[b], |Body(cx, cx.t[b])|, x)
    ensures StoredOnWay(cx, b, x)
  {
    hide *;
    ParentDominates(cx, b);
    var w, k := WalkThrough(cx.g, cx.t[b], b);
    StoredBehind(cx, cx.t[b], x);
    Carries(cx, w, b, k, cx.t[b], x);
  }

  lemma ParentDominates(cx: Context, b: Block)
    requires GraphOk(cx) && b in cx.t && b != ENTRY
    ensures TreeOk(cx) && cx.t[b] in cx.t && StrictlyDominates(cx.g, cx.t[b], b) && Reachable(cx.g, b)
  {
    hide Valid, ReversePostOrder, ExactTree, Dominates, Reachable, Targets;
    StrictMeansParentChain(cx.g, cx.id, cx.t, cx.t[b], b);
  }

  lemma WalkThrough(g: Graph, d: Block, b: Block) returns (w: seq<Block>, k: nat)
    requires StrictlyDominates(g, d, b) && Reachable(g, b)
    ensures WalkTo(g, w, ENTRY, b) && k < |w| - 1 && w[k] == d
  {
    w :| WalkTo(g, w, ENTRY, b);
    assert d in w;
    k :| 0 <= k < |w| && w[k] == d;
    assert w[|w| - 1] == b;
  }

  lemma StoredBehind(cx: Context, d: Block, x: Name)
    requires TreeOk(cx) && d in cx.t && StoreBefore(cx.g, cx.blocks, d, |Body(cx, d)|, x)
    ensures Stores(cx.blocks, d, x) || StoredOnWay(cx, d, x)
  {
  }

  lemma {:induction false} ReachMeansStore(cx: Context, f: Frontiers, b: Block, i: nat, x: Name)
    requires GraphOk(cx) && PhisLeast(cx, f) && b in cx.t && i <= |Body(cx, b)| && ReachAt(cx, b, i, x).Some?
    ensures StoreBefore(cx.g, cx.blocks, b, i, x)
    decreases cx.id[ENTRY] - cx.id[b]
  {
    if LastStore(Body(cx, b), i, x).Some? {
      var w :| WalkTo(cx.g, w, ENTRY, b);
    } else if HasPhi(cx, b, x) {
      PhiMeansStore(cx, f, b, x);
    } else {
      var d := cx.t[b];
      assert ReachAt(cx, b, i, x) == ReachIn(cx, b, x) == ReachOut(cx, d, x);
      ReachMeansStore(cx, f, d, |Body(cx, d)|, x);
      ParentCarries(cx, b, x);
    }
  }

  // ----- A store on the way reaches -----

  /** Once something has been stored on a path, something reaches the end of each later block. */
  lemma {:induction false} WalkReaches(cx: Context, w: seq<Block>, b: Block, k: nat, x: Name)
    requires GraphOk(cx) && PhisClosed(cx) && x in cx.allocas && (forall p :: p in cx.t ==> !Edge(cx.g, p, ENTRY))
    requires WalkTo(cx.g, w, ENTRY, b) && k < |w| && Stores(cx.blocks, w[k], x)
    ensures b in cx.t && ReachOut(cx, b, x).Some?
    decreases |w|
  {
    assert Reachable(cx.g, b);
    if k < |w| - 1 {
      var p := w[|w| - 2];
      assert Edge(cx.g, w[|w| - 2], w[|w| - 2 + 1]);
      PrefixWalk(cx.g, w, ENTRY, b, |w| - 2);
      WalkReaches(cx, w[..|w| - 1], p, k, x);
      EdgeReaches(cx, p, b, x);
    }
  }

  lemma EdgeReaches(cx: Context, p: Block, b: Block, x: Name)
    requires GraphOk(cx) && PhisClosed(cx) && x in cx.allocas && (forall q :: q in cx.t ==> !Edge(cx.g, q, ENTRY))
    requires p in cx.t && Edge(cx.g, p, b) && ReachOut(cx, p, x).Some?
    ensures b in cx.t && ReachIn(cx, b, x).Some? && ReachOut(cx, b, x).Some?
  {
    hide PhisClosed, Valid, ReversePostOrder, ExactTree, Reachable, HasPhi;
    assert b != ENTRY;
    EdgeLemma(cx, p, b, x);
    LaterReaches(cx, b, |Body(cx, b)|, x);
  }

  lemma LaterReaches(cx: Context, b: Block, i: nat, x: Name)
    requires TreeOk(cx) && b in cx.t && i <= |Body(cx, b)| && ReachIn(cx, b, x).Some?
    ensures ReachAt(cx, b, i, x).Some?
  {}

  lemma StoreReaches(cx: Context, b: Block, i: nat, x: Name)
    requires GraphOk(cx) && PhisClosed(cx) && x in cx.allocas && (forall p :: p in cx.t ==> !Edge(cx.g, p, ENTRY))
    requires b in cx.t && i <= |Body(cx, b)| && StoreBefore(cx.g, cx.blocks, b, i, x)
    ensures ReachAt(cx, b, i, x).Some?
  {
    if LastStore(Body(cx, b), i, x).None? {
      var w :| WalkTo(cx.g, w, ENTRY, b) && StoredAlong(cx.blocks, w, x);
      var k :| StoreOn(cx.blocks, w, k, x);
      var p := w[|w| - 2];
      assert Edge(cx.g, w[|w| - 2], w[|w| - 2 + 1]);
      PrefixWalk(cx.g, w, ENTRY, b, |w| - 2);
      WalkReaches(cx, w[..|w| - 1], p, k, x);
      EdgeReaches(cx, p, b, x);
    }
  }

  /** The value stack of x is non-empty at (b, i) if and only if some path from the entry stores to
      x before (b, i). */
  lemma ReachesIffStored(cx: Context, f: Frontiers, b: Block, i: nat, x: Name)
    requires GraphOk(cx) && PhisLeast(cx, f) && x in cx.allocas && (forall p :: p in cx.t ==> !Edge(cx.g, p, ENTRY))
    requires b in cx.t && i <= |Body(cx, b)|
    ensures ReachAt(cx, b, i, x).Some? <==> StoreBefore(cx.g, cx.blocks, b, i, x)
  {
    LeastIsClosed(cx, f);
    if ReachAt(cx, b, i, x).Some? {
      ReachMeansStore(cx, f, b, i, x);
    }
    if StoreBefore(cx.g, cx.blocks, b, i, x) {
      StoreReaches(cx, b, i, x);
    }
  }
}
