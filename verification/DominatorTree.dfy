/** The theory behind the dominator fixpoint: trees of tentative immediate dominators whose
    parents always carry a larger post-order number. */
module DominatorTree {
  import opened ControlFlow

  /** Post-order numbers of the visited blocks. */
  type Numbering = map<Block, nat>

  /** Tentative immediate dominators; a block whose pointer is still null has no entry. */
  type Tree = map<Block, Block>

  /** `order` lists the numbered blocks by their number. */
  ghost predicate Numbered(order: seq<Block>, id: Numbering) {
    && (forall i :: 0 <= i < |order| ==> order[i] in id && id[order[i]] == i)
    && (forall x :: x in id ==> id[x] < |order| && order[id[x]] == x)
  }

  /** What the depth-first visit delivers: `order` lists the reachable blocks from the largest
      post-order number, which is the entry's, down to 0, and every other block has a
      predecessor that was numbered later. */
  ghost predicate ReversePostOrder(g: Graph, order: seq<Block>, id: Numbering) {
    && (forall i :: 0 <= i < |order| ==> order[i] in id && id[order[i]] == |order| - 1 - i)
    && (forall x :: x in id ==> id[x] < |order| && order[|order| - 1 - id[x]] == x)
    && (forall x: Block :: x in id <==> Reachable(g, x))
    && ENTRY in id && id[ENTRY] == |order| - 1
    && (forall x {:trigger HasLaterPredecessor(g, id, x)} :: x in id && x != ENTRY ==> HasLaterPredecessor(g, id, x))
  }

  ghost predicate HasLaterPredecessor(g: Graph, id: Numbering, x: Block)
    requires x in id
  {
    exists p :: p in id && Edge(g, p, x) && id[p] > id[x]
  }

  ghost predicate Rising(id: Numbering, t: Tree) {
    && ENTRY in t && t[ENTRY] == ENTRY
    && (forall x :: x in t ==> x in id)
    && (forall x :: x in t ==> id[x] <= id[ENTRY])
    && (forall x {:trigger t[x]} :: x in t && x != ENTRY ==> t[x] in t && id[x] < id[t[x]])
  }

  /** `a` lies on the chain of tentative immediate dominators that starts at `b`. */
  ghost predicate OnChain(id: Numbering, t: Tree, a: Block, b: Block)
    requires Rising(id, t) && b in t
    decreases id[ENTRY] - id[b]
  {
    a == b || (b != ENTRY && OnChain(id, t, a, t[b]))
  }

  lemma {:induction false} ChainRises(id: Numbering, t: Tree, a: Block, b: Block)
    requires Rising(id, t) && b in t && OnChain(id, t, a, b)
    ensures a in t && id[b] <= id[a] && (a != b ==> id[b] < id[a])
    decreases id[ENTRY] - id[b]
  {
    if a != b {
      ChainRises(id, t, a, t[b]);
    }
  }

  lemma {:induction false} ChainTransitive(id: Numbering, t: Tree, a: Block, b: Block, c: Block)
    requires Rising(id, t) && b in t && c in t
    requires OnChain(id, t, a, b) && OnChain(id, t, b, c)
    ensures OnChain(id, t, a, c)
    decreases id[ENTRY] - id[c]
  {
    if b != c {
      ChainTransitive(id, t, a, b, t[c]);
    }
  }

  /** Two blocks of one chain are ordered by their numbers. */
  lemma {:induction false} ChainLinear(id: Numbering, t: Tree, a: Block, b: Block, c: Block)
    requires Rising(id, t) && c in t && a in id && b in id
    requires OnChain(id, t, a, c) && OnChain(id, t, b, c) && id[b] <= id[a]
    ensures b in t && OnChain(id, t, a, b)
    decreases id[ENTRY] - id[c]
  {
    if b == c {
    } else if a == c {
      ChainRises(id, t, b, c);
      assert false;
    } else {
      ChainLinear(id, t, a, b, t[c]);
    }
  }

  lemma {:induction false} EntryOnChain(id: Numbering, t: Tree, b: Block)
    requires Rising(id, t) && b in t
    ensures OnChain(id, t, ENTRY, b)
    decreases id[ENTRY] - id[b]
  {
    if b != ENTRY {
      EntryOnChain(id, t, t[b]);
    }
  }

  /** `a` is on the chain of every predecessor of `c` that already has a pointer. */
  ghost predicate CommonAncestor(g: Graph, id: Numbering, t: Tree, a: Block, c: Block)
    requires Rising(id, t)
  {
    forall p :: p in t && Edge(g, p, c) ==> OnChain(id, t, a, p)
  }

  /** The nearest of the common ancestors: what repeated `intersect` computes. */
  ghost predicate NearestCommonAncestor(g: Graph, id: Numbering, t: Tree, w: Block, c: Block)
    requires Rising(id, t)
  {
    && w in t
    && CommonAncestor(g, id, t, w, c)
    && forall y :: CommonAncestor(g, id, t, y, c) ==> OnChain(id, t, y, w)
  }

  // ----- The invariants of the fixpoint iteration -----

  /** All true dominators of a block stay on its chain. */
  ghost predicate KeepsDominators(g: Graph, id: Numbering, t: Tree)
    requires Rising(id, t)
  {
    forall d, b :: b in t && Dominates(g, d, b) ==> OnChain(id, t, d, b)
  }

  /** A walk from `a` to `b` through blocks numbered no later than `a`. */
  ghost predicate LowWalk(g: Graph, id: Numbering, p: seq<Block>, a: Block, b: Block)
    requires a in id
  {
    WalkTo(g, p, a, b) && forall x :: x in p ==> x in id && id[x] <= id[a]
  }

  ghost predicate ReachesLow(g: Graph, id: Numbering, a: Block, b: Block)
    requires a in id
  {
    exists p :: LowWalk(g, id, p, a, b)
  }

  /** A tentative immediate dominator reaches its block from below. */
  ghost predicate LowParents(g: Graph, id: Numbering, t: Tree)
    requires Rising(id, t)
  {
    forall c :: c in t && c != ENTRY ==> ReachesLow(g, id, t[c], c)
  }

  /** No update moves a pointer downwards: common ancestors of the predecessors are on the chain. */
  ghost predicate OnlyUpwards(g: Graph, id: Numbering, t: Tree)
    requires Rising(id, t)
  {
    forall c, y :: c in t && c != ENTRY && CommonAncestor(g, id, t, y, c) ==> OnChain(id, t, y, t[c])
  }

  /** Blocks numbered above `level` are those the current pass has processed. */
  ghost predicate ForwardEdges(g: Graph, id: Numbering, t: Tree, level: int)
    requires Rising(id, t)
  {
    forall c, p :: c in t && p in t && ForwardEdge(g, id, t, level, p, c) ==> OnChain(id, t, t[c], p)
  }

  ghost predicate ForwardEdge(g: Graph, id: Numbering, t: Tree, level: int, p: Block, c: Block)
    requires Rising(id, t) && c in t && p in t
  {
    c != ENTRY && Edge(g, p, c) && id[c] < id[p] && (level < id[c] || id[t[c]] <= level)
  }

  /** Each block of the tree has a predecessor in it with a larger number. */
  ghost predicate ForwardPredecessors(g: Graph, id: Numbering, t: Tree)
    requires Rising(id, t)
  {
    forall c {:trigger HasForwardPredecessor(g, id, t, c)} :: c in t && c != ENTRY ==>
      HasForwardPredecessor(g, id, t, c)
  }

  ghost predicate HasForwardPredecessor(g: Graph, id: Numbering, t: Tree, c: Block)
    requires Rising(id, t) && c in id
  {
    exists p :: p in t && Edge(g, p, c) && id[c] < id[p]
  }

  ghost predicate Invariant(g: Graph, id: Numbering, t: Tree, level: int) {
    && Rising(id, t)
    && KeepsDominators(g, id, t)
    && LowParents(g, id, t)
    && OnlyUpwards(g, id, t)
    && ForwardEdges(g, id, t, level)
  }

  lemma {:induction false} ChainReachesLow(g: Graph, id: Numbering, t: Tree, a: Block, b: Block)
    requires Rising(id, t) && LowParents(g, id, t) && b in t && OnChain(id, t, a, b)
    ensures a in t && ReachesLow(g, id, a, b)
    decreases id[ENTRY] - id[b]
  {
    if a == b {
      assert LowWalk(g, id, [a], a, b);
    } else {
      var m := t[b];
      ChainReachesLow(g, id, t, a, m);
      ChainRises(id, t, a, m);
      var p :| LowWalk(g, id, p, a, m);
      var q :| LowWalk(g, id, q, m, b);
      JoinWalks(g, p, q, a, m, b);
      assert LowWalk(g, id, p + q[1..], a, b);
    }
  }

  /** A dominator of `c` above a chain element `b` of `c` dominates `b` too: otherwise a path
      avoiding it to `b` continues to `c` through blocks numbered below it. */
  lemma HigherDominatorDominatesChain(g: Graph, id: Numbering, t: Tree, d: Block, b: Block, c: Block)
    requires Rising(id, t) && LowParents(g, id, t) && c in t && OnChain(id, t, b, c)
    requires Dominates(g, d, c) && d in id && b in id && id[b] < id[d]
    ensures Dominates(g, d, b)
  {
    ChainReachesLow(g, id, t, b, c);
    var q :| LowWalk(g, id, q, b, c);
    forall w | WalkTo(g, w, ENTRY, b)
      ensures d in w
    {
      JoinWalks(g, w, q, ENTRY, b, c);
      assert d in w + q[1..];
      assert d !in q;
    }
  }

  // ----- One update of the pass: b's pointer becomes w -----

  /** The update is legal: b is not the entry, w is the nearest common ancestor of its
      processed predecessors, one of which is numbered above b. */
  ghost predicate Update(g: Graph, id: Numbering, t: Tree, b: Block, w: Block)
    requires Rising(id, t)
  {
    && b in id && b != ENTRY && id[b] <= id[ENTRY]
    && NearestCommonAncestor(g, id, t, w, b)
    && HasForwardPredecessor(g, id, t, b)
  }

  lemma UpdateRises(g: Graph, id: Numbering, t: Tree, b: Block, w: Block)
    requires Rising(id, t) && Update(g, id, t, b, w)
    ensures id[b] < id[w] && Rising(id, t[b := w])
  {
    var p :| p in t && Edge(g, p, b) && id[b] < id[p];
    ChainRises(id, t, w, p);
  }

  /** Chains that avoid b do not change. */
  lemma {:induction false} ChainFrame(id: Numbering, t: Tree, t': Tree, b: Block, a: Block, c: Block)
    requires Rising(id, t) && Rising(id, t') && c in t && c in t' && b in id
    requires b in t' && t' == t[b := t'[b]]
    requires b !in t || !OnChain(id, t, b, c)
    ensures OnChain(id, t, a, c) <==> OnChain(id, t', a, c)
    decreases id[ENTRY] - id[c]
  {
    if c != ENTRY && c != b {
      if b !in t { NotOnChain(id, t, b, t[c]); }
      ChainFrame(id, t, t', b, a, t[c]);
    }
  }

  lemma {:induction false} NotOnChain(id: Numbering, t: Tree, b: Block, c: Block)
    requires Rising(id, t) && c in t && b !in t
    ensures !OnChain(id, t, b, c)
    decreases id[ENTRY] - id[c]
  {
    if c != ENTRY { NotOnChain(id, t, b, t[c]); }
  }

  /** Chains above b do not change. */
  lemma {:induction false} ChainAboveFrame(id: Numbering, t: Tree, t': Tree, b: Block, a: Block, c: Block)
    requires Rising(id, t) && Rising(id, t') && c in t && b in id && id[b] < id[c]
    requires b in t' && t' == t[b := t'[b]]
    ensures OnChain(id, t, a, c) <==> OnChain(id, t', a, c)
    decreases id[ENTRY] - id[c]
  {
    if c != ENTRY {
      ChainAboveFrame(id, t, t', b, a, t[c]);
    }
  }

  /** Below and at b chains keep their elements. */
  lemma {:induction false} ChainBelowFrame(id: Numbering, t: Tree, t': Tree, b: Block, a: Block, c: Block)
    requires Rising(id, t) && Rising(id, t') && c in t && b in t' && a in id && b in id
    requires t' == t[b := t'[b]] && id[a] <= id[b]
    ensures OnChain(id, t, a, c) <==> OnChain(id, t', a, c)
    decreases id[ENTRY] - id[c]
  {
    if c == b {
      if a != b && b != ENTRY {
        if b in t && OnChain(id, t, a, t[b]) { ChainRises(id, t, a, t[b]); }
        if OnChain(id, t', a, t'[b]) { ChainRises(id, t', a, t'[b]); }
      }
    } else if c != ENTRY {
      ChainBelowFrame(id, t, t', b, a, t[c]);
    }
  }

  /** b itself now continues at w. */
  lemma NewChain(g: Graph, id: Numbering, t: Tree, b: Block, w: Block, a: Block)
    requires Rising(id, t) && Update(g, id, t, b, w) && Rising(id, t[b := w])
    ensures OnChain(id, t[b := w], a, b) <==> a == b || OnChain(id, t, a, w)
  {
    UpdateRises(g, id, t, b, w);
    ChainAboveFrame(id, t, t[b := w], b, a, w);
  }

  /** An update only removes elements from the chains of blocks that had one. */
  lemma {:induction false} ChainShrinks(g: Graph, id: Numbering, t: Tree, b: Block, w: Block, a: Block, c: Block,
      level: int)
    requires b in id && level == id[b] && Invariant(g, id, t, level) && Update(g, id, t, b, w) && Rising(id, t[b := w])
    requires c in t && OnChain(id, t[b := w], a, c)
    ensures OnChain(id, t, a, c)
    decreases id[ENTRY] - id[c]
  {
    if a != c {
      if c == b {
        NewChain(g, id, t, b, w, a);
        assert OnChain(id, t, w, t[b]);
        ChainTransitive(id, t, a, w, t[b]);
      } else {
        ChainShrinks(g, id, t, b, w, a, t[c], level);
      }
    }
  }

  /** What stays on the chain of c if it was above b. */
  lemma ChainThroughB(id: Numbering, t: Tree, t': Tree, b: Block, a: Block, c: Block)
    requires Rising(id, t) && Rising(id, t') && c in t && b in t && b in id && b in t'
    requires t' == t[b := t'[b]] && OnChain(id, t, b, c) && OnChain(id, t', a, b)
    ensures OnChain(id, t', a, c)
  {
    ChainBelowFrame(id, t, t', b, b, c);
    ChainTransitive(id, t', a, b, c);
  }

  lemma UpdateKeepsDominators(g: Graph, id: Numbering, t: Tree, b: Block, w: Block, level: int)
    requires b in id && level == id[b] && Invariant(g, id, t, level) && Update(g, id, t, b, w) && Rising(id, t[b := w])
    requires Numbers(g, id)
    ensures KeepsDominators(g, id, t[b := w])
  {
    var t' := t[b := w];
    forall d, c | c in t' && Dominates(g, d, c)
      ensures OnChain(id, t', d, c)
    {
      if c == b {
        DominatorOfB(g, id, t, b, w, d);
      } else if b !in t || !OnChain(id, t, b, c) {
        ChainFrame(id, t, t', b, d, c);
      } else {
        ChainRises(id, t, d, c);
        if id[d] <= id[b] {
          ChainBelowFrame(id, t, t', b, d, c);
        } else {
          HigherDominatorDominatesChain(g, id, t, d, b, c);
          DominatorOfB(g, id, t, b, w, d);
          ChainThroughB(id, t, t', b, d, c);
        }
      }
    }
  }

  /** Every numbered block is reachable. */
  ghost predicate Numbers(g: Graph, id: Numbering) {
    forall x :: x in id ==> Reachable(g, x)
  }

  lemma DominatorOfB(g: Graph, id: Numbering, t: Tree, b: Block, w: Block, d: Block)
    requires Rising(id, t) && KeepsDominators(g, id, t) && Update(g, id, t, b, w) && Rising(id, t[b := w])
    requires Dominates(g, d, b)
    ensures OnChain(id, t[b := w], d, b)
  {
    if d != b {
      forall p | p in t && Edge(g, p, b)
        ensures OnChain(id, t, d, p)
      {
        DominatesPredecessor(g, d, p, b);
      }
      assert CommonAncestor(g, id, t, d, b);
      NewChain(g, id, t, b, w, d);
    }
  }

  lemma UpdateLowParents(g: Graph, id: Numbering, t: Tree, b: Block, w: Block)
    requires Rising(id, t) && LowParents(g, id, t) && Update(g, id, t, b, w) && Rising(id, t[b := w])
    ensures LowParents(g, id, t[b := w])
  {
    var p :| p in t && Edge(g, p, b) && id[b] < id[p];
    ChainReachesLow(g, id, t, w, p);
    ChainRises(id, t, w, p);
    var q :| LowWalk(g, id, q, w, p);
    ExtendWalk(g, q, w, p, b);
    assert LowWalk(g, id, q + [b], w, b);
  }

  lemma UpdateOnlyUpwards(g: Graph, id: Numbering, t: Tree, b: Block, w: Block, level: int)
    requires b in id && level == id[b] && Invariant(g, id, t, level) && Update(g, id, t, b, w) && Rising(id, t[b := w])
    requires ForwardPredecessors(g, id, t)
    ensures OnlyUpwards(g, id, t[b := w])
  {
    var t' := t[b := w];
    forall c, y | c in t' && c != ENTRY && CommonAncestor(g, id, t', y, c)
      ensures OnChain(id, t', y, t'[c])
    {
      CommonAncestorShrinks(g, id, t, b, w, y, c, level);
      if c == b {
        NewChain(g, id, t, b, w, y);
        UpdateRises(g, id, t, b, w);
        ChainAboveFrame(id, t, t', b, y, w);
      } else if b !in t || !OnChain(id, t, b, t[c]) {
        ChainFrame(id, t, t', b, y, t[c]);
      } else {
        ChainRises(id, t, y, t[c]);
        if id[y] <= id[b] {
          ChainBelowFrame(id, t, t', b, y, t[c]);
        } else {
          assert HasForwardPredecessor(g, id, t, c);
          var p :| p in t && Edge(g, p, c) && id[c] < id[p];
          assert ForwardEdge(g, id, t, level, p, c) by { ChainRises(id, t, b, t[c]); }
          assert OnChain(id, t, t[c], p);
          ChainTransitive(id, t, b, t[c], p);
          ChainBelowFrame(id, t, t', b, b, p);
          ChainLinear(id, t', y, b, p);
          ChainThroughB(id, t, t', b, y, t[c]);
        }
      }
    }
  }

  lemma CommonAncestorShrinks(g: Graph, id: Numbering, t: Tree, b: Block, w: Block, y: Block, c: Block, level: int)
    requires b in id && level == id[b] && Invariant(g, id, t, level) && Update(g, id, t, b, w) && Rising(id, t[b := w])
    requires CommonAncestor(g, id, t[b := w], y, c)
    ensures CommonAncestor(g, id, t, y, c)
  {
    forall p | p in t && Edge(g, p, c)
      ensures OnChain(id, t, y, p)
    {
      ChainShrinks(g, id, t, b, w, y, p, level);
    }
  }

  lemma UpdateForwardEdge(g: Graph, id: Numbering, t: Tree, b: Block, w: Block, p: Block, c: Block, level: int,
      next: int)
    requires b in id && level == id[b] && next == level - 1 && Rising(id, t) && ForwardEdges(g, id, t, level)
    requires NearestCommonAncestor(g, id, t, w, b) && id[b] < id[w] && Rising(id, t[b := w])
    requires Injective(id) && TopDown(id, t, b)
    requires c in t[b := w] && p in t[b := w] && ForwardEdge(g, id, t[b := w], next, p, c)
    ensures OnChain(id, t[b := w], t[b := w][c], p)
  {
    var t' := t[b := w];
    assert p in t;
    if c == b {
      ChainAboveFrame(id, t, t', b, w, p);
    } else {
      assert ForwardEdge(g, id, t, level, p, c);
      if id[b] < id[c] {
        ChainAboveFrame(id, t, t', b, t[c], p);
      } else {
        ChainBelowFrame(id, t, t', b, t[c], p);
      }
    }
  }

  lemma UpdateForwardEdges(g: Graph, id: Numbering, t: Tree, b: Block, w: Block, level: int, next: int)
    requires b in id && level == id[b] && next == level - 1 && Rising(id, t) && ForwardEdges(g, id, t, level)
    requires NearestCommonAncestor(g, id, t, w, b) && id[b] < id[w] && Rising(id, t[b := w])
    requires Injective(id) && TopDown(id, t, b)
    ensures ForwardEdges(g, id, t[b := w], next)
  {
    var t' := t[b := w];
    forall c, p | c in t' && p in t' && ForwardEdge(g, id, t', next, p, c)
      ensures OnChain(id, t', t'[c], p)
    {
      UpdateForwardEdge(g, id, t, b, w, p, c, level, next);
    }
  }

  /** A pass reaches b only after every block numbered above it; in the first pass no block
      numbered below has a pointer yet. */
  ghost predicate TopDown(id: Numbering, t: Tree, b: Block)
    requires Rising(id, t) && b in id
  {
    b in t || forall x :: x in t ==> id[b] < id[x]
  }

  ghost predicate Injective(id: Numbering) {
    forall x, y :: x in id && y in id && id[x] == id[y] ==> x == y
  }

  /** One step of a pass keeps all invariants and moves b's pointer to a larger number. */
  lemma UpdateStep(g: Graph, id: Numbering, t: Tree, b: Block, w: Block, level: int, next: int)
    requires b in id && level == id[b] && next == level - 1 && Invariant(g, id, t, level) && Update(g, id, t, b, w)
    requires Numbers(g, id)
    requires Injective(id) && TopDown(id, t, b)
    requires ForwardPredecessors(g, id, t)
    ensures Invariant(g, id, t[b := w], next)
    ensures b in t && w != t[b] ==> id[t[b]] < id[w]
  {
    UpdateRises(g, id, t, b, w);
    UpdateKeepsDominators(g, id, t, b, w, level);
    UpdateLowParents(g, id, t, b, w);
    UpdateOnlyUpwards(g, id, t, b, w, level);
    UpdateForwardEdges(g, id, t, b, w, level, next);
    if b in t {
      ChainRises(id, t, w, t[b]);
    }
  }

  /** Pointers are set from the largest number down. */
  ghost predicate UpClosed(id: Numbering, t: Tree) {
    forall x, y :: x in t && x in id && y in id && id[x] <= id[y] ==> y in t
  }

  lemma UpClosedForward(g: Graph, order: seq<Block>, id: Numbering, t: Tree)
    requires ReversePostOrder(g, order, id) && Rising(id, t) && UpClosed(id, t)
    ensures ForwardPredecessors(g, id, t)
  {
    forall c | c in t && c != ENTRY
      ensures HasForwardPredecessor(g, id, t, c)
    {
      assert HasLaterPredecessor(g, id, c);
      var p :| p in id && Edge(g, p, c) && id[p] > id[c];
      assert p in t;
    }
  }

  /** How far the pointers of the listed blocks may still move up. */
  ghost function Slack(order: seq<Block>, id: Numbering, t: Tree, top: nat): nat {
    if order == [] then 0 else BlockSlack(id, t, top, order[0]) + Slack(order[1..], id, t, top)
  }

  ghost function BlockSlack(id: Numbering, t: Tree, top: nat, x: Block): nat {
    if x in t && t[x] in id && id[t[x]] <= top then top - id[t[x]] else top + 1
  }

  lemma {:induction false} SlackDecreases(order: seq<Block>, id: Numbering, t: Tree, t': Tree, top: nat, b: Block)
    requires t' == t[b := if b in t' then t'[b] else b]
    requires BlockSlack(id, t', top, b) < BlockSlack(id, t, top, b)
    ensures Slack(order, id, t', top) <= Slack(order, id, t, top)
    ensures b in order ==> Slack(order, id, t', top) < Slack(order, id, t, top)
  {
    if order != [] {
      SlackDecreases(order[1..], id, t, t', top, b);
    }
  }

  // ----- The fixpoint -----

  /** At a fixpoint the elements of a chain are dominators: they lie on every path. */
  lemma {:induction false} ChainOnPath(g: Graph, id: Numbering, t: Tree, p: seq<Block>, a: Block, b: Block)
    requires Rising(id, t) && b in t && OnChain(id, t, a, b)
    requires forall x :: x in id ==> x in t
    requires forall x: Block :: Reachable(g, x) ==> x in id
    requires forall c :: c in t && c != ENTRY ==> CommonAncestor(g, id, t, t[c], c)
    requires WalkTo(g, p, ENTRY, b)
    ensures a in p
    decreases |p|
  {
    if a != b {
      if |p| > 1 {
        var q := p[..|p| - 1];
        var m := p[|p| - 2];
        PrefixWalk(g, p, ENTRY, b, |p| - 2);
        assert Edge(g, m, p[|p| - 2 + 1]);
        assert Reachable(g, m);
        assert OnChain(id, t, t[b], m);
        ChainTransitive(id, t, a, t[b], m);
        ChainOnPath(g, id, t, q, a, m);
      }
    }
  }

  /** Every numbered block has a pointer, and no update would change one. */
  ghost predicate Fixpoint(g: Graph, id: Numbering, t: Tree) {
    && Rising(id, t)
    && (forall x :: x in id ==> x in t)
    && (forall c :: c in t && c != ENTRY ==> CommonAncestor(g, id, t, t[c], c))
  }

  /** A fixpoint that lost no true dominator on the way. */
  ghost predicate Settled(g: Graph, id: Numbering, t: Tree) {
    Fixpoint(g, id, t) && KeepsDominators(g, id, t)
  }

  /** Chains are exactly the sets of dominators. */
  ghost predicate ExactTree(g: Graph, id: Numbering, t: Tree) {
    && Rising(id, t)
    && (forall x :: x in id ==> x in t)
    && (forall a, b :: b in t ==> (Dominates(g, a, b) <==> OnChain(id, t, a, b)))
  }

  /** The result of the iteration: a fixpoint that kept all true dominators describes dominance
      exactly. */
  lemma FixpointIsExact(g: Graph, order: seq<Block>, id: Numbering, t: Tree)
    requires ReversePostOrder(g, order, id) && Settled(g, id, t)
    ensures ExactTree(g, id, t)
  {
    forall a, b | b in t && OnChain(id, t, a, b)
      ensures Dominates(g, a, b)
    {
      forall p | WalkTo(g, p, ENTRY, b)
        ensures a in p
      {
        ChainOnPath(g, id, t, p, a, b);
      }
    }
  }

  lemma StrictMeansParentChain(g: Graph, id: Numbering, t: Tree, a: Block, b: Block)
    requires ExactTree(g, id, t) && b in t && b != ENTRY
    ensures t[b] in t
    ensures StrictlyDominates(g, a, b) <==> OnChain(id, t, a, t[b])
  {
    assert Dominates(g, a, b) <==> OnChain(id, t, a, b);
    if OnChain(id, t, a, t[b]) {
      ChainRises(id, t, a, t[b]);
    }
  }

  /** Pointers of an exact tree are the immediate dominators, and nothing else is. */
  lemma ExactTreeGivesImmediateDominators(g: Graph, id: Numbering, t: Tree, a: Block, b: Block)
    requires ExactTree(g, id, t) && b in t && b != ENTRY
    ensures IsImmediateDominator(g, a, b) <==> a == t[b]
  {
    var d := t[b];
    StrictMeansParentChain(g, id, t, d, b);
    forall c | StrictlyDominates(g, c, b)
      ensures Dominates(g, c, d)
    {
      StrictMeansParentChain(g, id, t, c, b);
    }
    if IsImmediateDominator(g, a, b) {
      StrictMeansParentChain(g, id, t, a, b);
      ChainRises(id, t, a, d);
      assert Dominates(g, d, a) <==> OnChain(id, t, d, a);
      ChainRises(id, t, d, a);
    }
  }

  lemma EntryHasNoStrictDominator(g: Graph, a: Block)
    ensures !StrictlyDominates(g, a, ENTRY)
  {
    assert WalkTo(g, [ENTRY], ENTRY, ENTRY);
    assert Dominates(g, a, ENTRY) ==> a in [ENTRY];
  }

  // ----- Dominance frontiers -----

  /** `x` is visited by a runner walk that starts at the predecessor `p` of the join `b`. A null
      pointer equals only a null pointer, so an unreachable join marks just its predecessors. */
  ghost predicate OnRun(g: Graph, id: Numbering, t: Tree, x: Block, p: Block, b: Block)
    requires Rising(id, t)
  {
    && b < |g.preds| && |g.preds[b]| >= 2 && p in g.preds[b]
    && if p in t then b in t && OnChain(id, t, x, p) && !OnChain(id, t, x, t[b]) else x == p
  }

  ghost predicate Marked(g: Graph, id: Numbering, t: Tree, x: Block, b: Block)
    requires Rising(id, t)
  {
    exists p :: OnRun(g, id, t, x, p, b)
  }

  /** No reachable join has an unreachable predecessor. */
  ghost predicate JoinsReachable(g: Graph) {
    forall p: Block, b: Block :: Edge(g, p, b) && Reachable(g, b) && b < |g.preds| && |g.preds[b]| >= 2 ==>
      Reachable(g, p)
  }

  /** The only predecessor of a block is its immediate dominator. */
  lemma SinglePredecessor(g: Graph, order: seq<Block>, id: Numbering, t: Tree, p: Block, b: Block)
    requires Valid(g) && ReversePostOrder(g, order, id) && ExactTree(g, id, t)
    requires b in id && b != ENTRY && Edge(g, p, b) && |g.preds[b]| < 2 && p in t
    ensures t[b] == p
  {
    OnlyEdge(g, p, b);
    assert HasLaterPredecessor(g, id, b);
    OnlyEdgeIsParent(g, id, t, p, b);
  }

  lemma OnlyEdge(g: Graph, p: Block, b: Block)
    requires Valid(g) && Edge(g, p, b) && |g.preds[b]| < 2
    ensures forall q :: Edge(g, q, b) ==> q == p
  {
    forall q | Edge(g, q, b)
      ensures q == p
    {
      assert q in g.preds[b] && p in g.preds[b];
    }
  }

  lemma OnlyEdgeIsParent(g: Graph, id: Numbering, t: Tree, p: Block, b: Block)
    requires ExactTree(g, id, t) && b in id && b != ENTRY && p in t
    requires Edge(g, p, b) && (forall q :: Edge(g, q, b) ==> q == p) && HasLaterPredecessor(g, id, b)
    ensures t[b] == p
  {
    OnlyWayIn(g, p, b);
    StrictMeansParentChain(g, id, t, p, b);
    StrictMeansParentChain(g, id, t, t[b], b);
    DominatesPredecessor(g, t[b], p, b);
    ChainRises(id, t, p, t[b]);
    ChainRises(id, t, t[b], p);
  }

  lemma OnlyWayIn(g: Graph, p: Block, b: Block)
    requires b != ENTRY && forall q :: Edge(g, q, b) ==> q == p
    ensures Dominates(g, p, b)
  {
    forall w | WalkTo(g, w, ENTRY, b)
      ensures p in w
    {
      var k := |w| - 2;
      assert Edge(g, w[k], w[k + 1]);
    }
  }

  /** A join other than the entry is marked exactly for the blocks whose frontier it is in,
      although blocks with a single predecessor are never looked at. */
  lemma MarkedIsFrontier(g: Graph, order: seq<Block>, id: Numbering, t: Tree, x: Block, b: Block)
    requires Valid(g) && ReversePostOrder(g, order, id) && ExactTree(g, id, t) && JoinsReachable(g)
    requires b in id && b != ENTRY
    ensures Marked(g, id, t, x, b) <==> InFrontier(g, x, b)
  {
    StrictMeansParentChain(g, id, t, x, b);
    if Marked(g, id, t, x, b) {
      var p :| OnRun(g, id, t, x, p, b);
      assert Edge(g, p, b) && Reachable(g, p) && Dominates(g, x, p);
    }
    if InFrontier(g, x, b) {
      var p :| Edge(g, p, b) && Reachable(g, p) && Dominates(g, x, p);
      assert p in t && OnChain(id, t, x, p);
      if |g.preds[b]| < 2 {
        SinglePredecessor(g, order, id, t, p, b);
      }
      assert OnRun(g, id, t, x, p, b);
    }
  }

  /** The computed frontiers are the textbook ones if and only if no edge returns to the entry:
      the walk stops at the entry's pointer to itself, so the entry is never marked as its own
      frontier. */
  lemma FrontiersExactIff(g: Graph, order: seq<Block>, id: Numbering, t: Tree)
    requires Valid(g) && ReversePostOrder(g, order, id) && ExactTree(g, id, t) && JoinsReachable(g)
    ensures (forall x, b :: b in id ==> (Marked(g, id, t, x, b) <==> InFrontier(g, x, b)))
       <==> (forall p :: Edge(g, p, ENTRY) ==> !Reachable(g, p))
  {
    if forall p :: Edge(g, p, ENTRY) ==> !Reachable(g, p) {
      forall x, b | b in id
        ensures Marked(g, id, t, x, b) <==> InFrontier(g, x, b)
      {
        if b != ENTRY {
          MarkedIsFrontier(g, order, id, t, x, b);
        } else {
          EntryReachable(g);
          assert forall p :: OnRun(g, id, t, x, p, ENTRY) ==> Edge(g, p, ENTRY);
        }
      }
    } else {
      var p :| Edge(g, p, ENTRY) && Reachable(g, p);
      EntryHasNoStrictDominator(g, ENTRY);
      EntryOnChain(id, t, p);
      assert Dominates(g, ENTRY, p);
      assert InFrontier(g, ENTRY, ENTRY);
      assert OnChain(id, t, ENTRY, t[ENTRY]);
      assert forall q :: OnRun(g, id, t, ENTRY, q, ENTRY) ==> Edge(g, q, ENTRY) && Reachable(g, q);
    }
  }

  /** Two blocks in a ring through the entry. */
  const RING := Graph([[1], [0]], [[1], [0]])

  /** Whatever the tree, the entry is in its own frontier here and is not marked. */
  lemma RingMissed(id: Numbering, t: Tree)
    requires Rising(id, t)
    ensures Valid(RING) && JoinsReachable(RING)
    ensures InFrontier(RING, ENTRY, ENTRY) && !Marked(RING, id, t, ENTRY, ENTRY)
  {
    forall a: Block, b: Block
      ensures Edge(RING, a, b) <==> (a == 0 && b == 1) || (a == 1 && b == 0)
      ensures b < 2 && a in RING.preds[b] <==> (a == 0 && b == 1) || (a == 1 && b == 0)
    {
    }
    assert WalkTo(RING, [0, 1], ENTRY, 1);
    EntryHasNoStrictDominator(RING, ENTRY);
    forall w | WalkTo(RING, w, ENTRY, 1)
      ensures ENTRY in w
    {
      assert w[0] == ENTRY;
    }
    assert Edge(RING, 1, ENTRY) && Reachable(RING, 1) && Dominates(RING, ENTRY, 1);
  }
}
