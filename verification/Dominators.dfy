/** The dominator analysis of one function: depth-first numbering, the iterative fixpoint over
    immediate dominators, dominance frontiers and the children of the dominator tree. */
module Dominators {
  import opened ControlFlow
  import opened DominatorTree

  function Reversed(s: seq<Block>): (r: seq<Block>)
    ensures |r| == |s| && forall i :: 0 <= i < |s| ==> r[i] == s[|s| - 1 - i]
  {
    if s == [] then [] else Reversed(s[1..]) + [s[0]]
  }

  lemma TakeAll(s: seq<Block>)
    ensures s[..|s|] == s
  {
  }

  // ----- Invariants of the depth-first visit -----

  /** `parent` records through which edge a block was first reached. A block is numbered before
      its parent, and once a block is numbered all its successors have been visited. */
  ghost predicate Search(g: Graph, order: seq<Block>, id: Numbering, parent: Tree, visited: set<Block>) {
    && Numbered(order, id)
    && (forall x :: x in id ==> x in visited)
    && (forall x :: x in visited ==> x < |g.succs| && Reachable(g, x))
    && (forall x :: x in visited && x != ENTRY ==> x in parent)
    && ParentsLater(g, id, parent, visited) && SuccessorsSeen(g, id, visited)
  }

  ghost predicate ParentsLater(g: Graph, id: Numbering, parent: Tree, visited: set<Block>) {
    forall x {:trigger parent[x]} :: x in parent ==>
      && parent[x] in visited && Edge(g, parent[x], x)
      && (parent[x] in id ==> x in id && id[x] < id[parent[x]])
  }

  ghost predicate SuccessorsSeen(g: Graph, id: Numbering, visited: set<Block>) {
    forall x, y :: x in id && Edge(g, x, y) ==> y in visited
  }

  /** What the visit of `root` leaves as it was: earlier numbers, earlier parents, and the
      blocks that were open. Of the blocks it reached only those in `open` have no number yet. */
  ghost predicate Extends(root: Block, open: set<Block>,
                          order: seq<Block>, id: Numbering, parent: Tree, visited: set<Block>,
                          order': seq<Block>, id': Numbering, parent': Tree, visited': set<Block>) {
    && order <= order'
    && visited <= visited'
    && (forall x :: x in id ==> x in id')
    && (forall x :: x in visited' && x !in visited && x !in open ==> x in id')
    && (forall x :: x in visited && x in id' ==> x in id)
    && (forall x {:trigger parent'[x]} :: x in parent' ==>
          if x in parent then parent'[x] == parent[x] else x == root || parent'[x] == root || parent'[x] !in visited)
    && (forall x :: x in parent ==> x in parent')
  }

  /** The open block `bb` and its children: those are all numbered. */
  ghost predicate OpenBlock(bb: Block, id: Numbering, parent: Tree, visited: set<Block>) {
    && bb in visited && bb !in id
    && (forall x :: x in parent && parent[x] == bb ==> x in id)
  }

  lemma SearchStep(g: Graph, order: seq<Block>, id: Numbering, parent: Tree, visited: set<Block>, bb: Block, k: nat)
    requires Valid(g) && Search(g, order, id, parent, visited) && bb in visited
    requires bb < |g.succs| && k < |g.succs[bb]|
    ensures g.succs[bb][k] < |g.succs| && Edge(g, bb, g.succs[bb][k]) && Reachable(g, g.succs[bb][k])
  {
    assert Edge(g, bb, g.succs[bb][k]);
    ReachableStep(g, bb, g.succs[bb][k]);
  }

  lemma OpenSearch(g: Graph, bb: Block, from: Block, order: seq<Block>, id: Numbering, parent: Tree, parent1: Tree,
      visited: set<Block>)
    requires Search(g, order, id, parent, visited) && (forall x :: x in parent ==> x in visited)
    requires parent1 == if bb == ENTRY then parent else parent[bb := from]
    requires bb < |g.succs| && bb !in visited && Reachable(g, bb)
    requires bb != ENTRY ==> from in visited && from !in id && Edge(g, from, bb)
    ensures Search(g, order, id, parent1, visited + {bb})
    ensures OpenBlock(bb, id, parent1, visited + {bb})
    ensures Extends(bb, {bb}, order, id, parent, visited, order, id, parent1, visited + {bb})
    ensures forall x :: x in parent1 ==> x in visited + {bb}
  {
  }

  lemma ChildSearch(bb: Block, s: Block,
                    order0: seq<Block>, id0: Numbering, parent0: Tree, visited0: set<Block>,
                    order: seq<Block>, id: Numbering, parent: Tree, visited: set<Block>,
                    order': seq<Block>, id': Numbering, parent': Tree, visited': set<Block>)
    requires Extends(bb, {}, order0, id0, parent0, visited0, order, id, parent, visited)
    requires Extends(s, {}, order, id, parent, visited, order', id', parent', visited')
    requires OpenBlock(bb, id, parent, visited) && s in id'
    requires s !in visited && s !in parent && s in parent' && parent'[s] == bb
    ensures OpenBlock(bb, id', parent', visited')
    ensures Extends(bb, {}, order0, id0, parent0, visited0, order', id', parent', visited')
  {
  }

  lemma SeenGrows(succs: seq<Block>, k: nat, visited: set<Block>, visited': set<Block>)
    requires k < |succs| && visited <= visited' && succs[k] in visited'
    requires forall x :: x in succs[..k] ==> x in visited
    ensures forall x :: x in succs[..k + 1] ==> x in visited'
  {
    assert succs[..k + 1] == succs[..k] + [succs[k]];
  }

  lemma SuccessorExtends(bb: Block,
                         order: seq<Block>, id: Numbering, parent0: Tree, visited0: set<Block>, parent1: Tree,
                         order': seq<Block>, id': Numbering, parent': Tree, visited': set<Block>)
    requires Extends(bb, {bb}, order, id, parent0, visited0, order, id, parent1, visited0 + {bb})
    requires Extends(bb, {}, order, id, parent1, visited0 + {bb}, order', id', parent', visited')
    ensures Extends(bb, {bb}, order, id, parent0, visited0, order', id', parent', visited')
  {
  }

  lemma CloseSearch(g: Graph, bb: Block, order: seq<Block>, id: Numbering, parent: Tree, visited: set<Block>)
    requires Search(g, order, id, parent, visited) && OpenBlock(bb, id, parent, visited)
    requires bb < |g.succs| && forall s :: s in g.succs[bb] ==> s in visited
    requires bb in parent ==> parent[bb] !in id && parent[bb] != bb
    ensures Search(g, order + [bb], id[bb := |order|], parent, visited)
  {
    hide Numbered, Reachable, Edge, ParentsLater, SuccessorsSeen;
    CloseNumbered(bb, order, id);
    CloseParents(g, bb, order, id, parent, visited);
    CloseSeen(g, bb, order, id, visited);
  }

  lemma CloseNumbered(bb: Block, order: seq<Block>, id: Numbering)
    requires Numbered(order, id) && bb !in id
    ensures Numbered(order + [bb], id[bb := |order|])
  {
  }

  lemma CloseParents(g: Graph, bb: Block, order: seq<Block>, id: Numbering, parent: Tree, visited: set<Block>)
    requires Numbered(order, id) && ParentsLater(g, id, parent, visited) && OpenBlock(bb, id, parent, visited)
    requires bb in parent ==> parent[bb] !in id && parent[bb] != bb
    ensures ParentsLater(g, id[bb := |order|], parent, visited)
  {
    hide Edge, Numbered;
    NumbersBelow(order, id);
  }

  lemma NumbersBelow(order: seq<Block>, id: Numbering)
    requires Numbered(order, id)
    ensures forall x :: x in id ==> id[x] < |order|
  {
  }

  lemma CloseSeen(g: Graph, bb: Block, order: seq<Block>, id: Numbering, visited: set<Block>)
    requires SuccessorsSeen(g, id, visited) && bb < |g.succs| && forall s :: s in g.succs[bb] ==> s in visited
    ensures SuccessorsSeen(g, id[bb := |order|], visited)
  {
  }

  lemma CloseExtends(bb: Block,
                     order0: seq<Block>, id0: Numbering, parent0: Tree, visited0: set<Block>,
                     order: seq<Block>, id: Numbering, parent: Tree, visited: set<Block>)
    requires Extends(bb, {bb}, order0, id0, parent0, visited0, order, id, parent, visited)
    requires bb !in visited0
    ensures Extends(bb, {}, order0, id0, parent0, visited0, order + [bb], id[bb := |order|], parent, visited)
  {
  }

  /** After the visit of the entry nothing is open: exactly the reachable blocks are numbered. */
  lemma SearchComplete(g: Graph, order: seq<Block>, id: Numbering, parent: Tree, visited: set<Block>)
    requires Search(g, order, id, parent, visited)
    requires (forall x :: x in visited ==> x in id) && ENTRY in id && order != [] && order[|order| - 1] == ENTRY
    ensures ReversePostOrder(g, Reversed(order), id)
  {
    forall x: Block | Reachable(g, x)
      ensures x in id
    {
      var p :| WalkTo(g, p, ENTRY, x);
      ClosedContains(g, visited, p, x);
      assert x in p;
    }
    forall x | x in id && x != ENTRY
      ensures HasLaterPredecessor(g, id, x)
    {
      assert parent[x] in id && Edge(g, parent[x], x);
    }
    ReversedNumbers(order, id);
  }

  lemma ReversedNumbers(order: seq<Block>, id: Numbering)
    requires Numbered(order, id)
    ensures var r := Reversed(order);
            && (forall i :: 0 <= i < |r| ==> r[i] in id && id[r[i]] == |r| - 1 - i)
            && (forall x :: x in id ==> id[x] < |r| && r[|r| - 1 - id[x]] == x)
  {
  }

  // ----- The fixpoint iteration -----

  /** Both fingers are on their chains, and no common ancestor has been passed. */
  ghost predicate Fingers(id: Numbering, t: Tree, bb1: Block, bb2: Block, finger1: Block, finger2: Block) {
    && Rising(id, t) && bb1 in t && bb2 in t && finger1 in t && finger2 in t
    && OnChain(id, t, finger1, bb1) && OnChain(id, t, finger2, bb2)
    && forall y :: OnChain(id, t, y, bb1) && OnChain(id, t, y, bb2) ==>
         OnChain(id, t, y, finger1) && OnChain(id, t, y, finger2)
  }

  lemma FingerStep(id: Numbering, t: Tree, bb1: Block, bb2: Block, finger1: Block, finger2: Block)
    requires Fingers(id, t, bb1, bb2, finger1, finger2) && id[finger1] < id[finger2]
    ensures finger1 != ENTRY && id[finger1] < id[t[finger1]]
    ensures Fingers(id, t, bb1, bb2, t[finger1], finger2)
    ensures Fingers(id, t, bb2, bb1, finger2, t[finger1])
  {
    var up := t[finger1];
    ChainTransitive(id, t, up, finger1, bb1);
    forall y | OnChain(id, t, y, bb1) && OnChain(id, t, y, bb2)
      ensures OnChain(id, t, y, up)
    {
      ChainRises(id, t, y, finger2);
    }
  }

  lemma InitialTree(g: Graph, order: seq<Block>, id: Numbering)
    requires ReversePostOrder(g, order, id)
    ensures PassState(g, order, id, map[ENTRY := ENTRY], map[ENTRY := ENTRY], 0, |order| - 1, false)
  {
    assert order[..0] == [];
    assert WalkTo(g, [ENTRY], ENTRY, ENTRY);
    assert forall d :: Dominates(g, d, ENTRY) ==> d in [ENTRY];
  }

  /** Blocks above `bb` have pointers when the pass reaches it. */
  ghost predicate Above(id: Numbering, t: Tree, bb: Block)
    requires bb in id
  {
    forall y :: y in id && id[bb] < id[y] ==> y in t
  }

  lemma AboveGivesForward(g: Graph, order: seq<Block>, id: Numbering, t: Tree, bb: Block, level: int)
    requires ReversePostOrder(g, order, id) && Invariant(g, id, t, level) && bb in id && bb != ENTRY && Above(id, t, bb)
    ensures Rising(id, t) && HasForwardPredecessor(g, id, t, bb) && Reachable(g, bb)
  {
    assert HasLaterPredecessor(g, id, bb);
    var p :| p in id && Edge(g, p, bb) && id[p] > id[bb];
    assert p in t;
  }

  lemma NumbersInjective(g: Graph, order: seq<Block>, id: Numbering)
    requires ReversePostOrder(g, order, id)
    ensures Injective(id) && Numbers(g, id)
  {
    forall x, y | x in id && y in id && id[x] == id[y]
      ensures x == y
    {
      assert order[|order| - 1 - id[x]] == x && order[|order| - 1 - id[y]] == y;
    }
  }

  lemma PassStep(g: Graph, order: seq<Block>, id: Numbering, t: Tree, b: Block, w: Block, level: int, next: int)
    requires ReversePostOrder(g, order, id) && b in id && b != ENTRY && level == id[b] && next == level - 1
    requires Invariant(g, id, t, level) && UpClosed(id, t) && Above(id, t, b)
    requires NearestCommonAncestor(g, id, t, w, b)
    ensures Invariant(g, id, t[b := w], next) && UpClosed(id, t[b := w])
    ensures b in t && w != t[b] ==> id[t[b]] < id[w]
  {
    AboveGivesForward(g, order, id, t, b, level);
    NumbersInjective(g, order, id);
    UpClosedForward(g, order, id, t);
    assert id[b] <= id[ENTRY];
    UpdateStep(g, id, t, b, w, level, next);
  }

  lemma PassStepSlack(g: Graph, order: seq<Block>, id: Numbering, t: Tree, b: Block, w: Block)
    requires ReversePostOrder(g, order, id) && b in id && w in id
    requires b in t ==> t[b] in id && id[t[b]] < id[w]
    ensures Slack(order, id, t[b := w], |order|) < Slack(order, id, t, |order|)
  {
    assert order[|order| - 1 - id[b]] == b;
    SlackDecreases(order, id, t, t[b := w], |order|, b);
  }

  /** Every listed block but the entry has a common ancestor of its predecessors as its pointer. */
  ghost predicate Stable(g: Graph, id: Numbering, t: Tree, order: seq<Block>) {
    && Rising(id, t)
    && forall j :: 0 <= j < |order| && order[j] != ENTRY ==>
         order[j] in t && CommonAncestor(g, id, t, t[order[j]], order[j])
  }

  /** The first i blocks of the order have been processed in a pass that started from `t0`. */
  ghost predicate PassState(g: Graph, order: seq<Block>, id: Numbering, t0: Tree, t: Tree,
                            i: nat, level: int, changed: bool) {
    && i <= |order|
    && Invariant(g, id, t, level) && UpClosed(id, t)
    && (forall j :: 0 <= j < i ==> order[j] in t)
    && (if changed then Slack(order, id, t, |order|) < Slack(order, id, t0, |order|)
        else t == t0 && Stable(g, id, t, order[..i]))
  }

  lemma PassReaches(g: Graph, order: seq<Block>, id: Numbering, t0: Tree, t: Tree, i: nat, level: int, changed: bool)
    requires ReversePostOrder(g, order, id) && i < |order| && level == |order| - 1 - i
    requires PassState(g, order, id, t0, t, i, level, changed)
    ensures order[i] in id && id[order[i]] == level && Above(id, t, order[i])
    ensures Invariant(g, id, t, level) && UpClosed(id, t)
  {
    AboveAt(g, order, id, t, i);
  }

  /** What one iteration of the pass may do to the tree. */
  ghost predicate Iteration(g: Graph, id: Numbering, t: Tree, t': Tree, b: Block, was: bool, changed: bool) {
    if b == ENTRY then t' == t && changed == was
    else
      && Rising(id, t) && b in t' && t' == t[b := t'[b]]
      && NearestCommonAncestor(g, id, t, t'[b], b)
      && (changed <==> was || b !in t || t'[b] != t[b])
  }

  lemma IterationInvariant(g: Graph, order: seq<Block>, id: Numbering, t: Tree, t': Tree, b: Block,
                           was: bool, changed: bool, level: int, next: int)
    requires ReversePostOrder(g, order, id) && b in id && level == id[b] && next == level - 1
    requires Invariant(g, id, t, level) && UpClosed(id, t) && Above(id, t, b)
    requires Iteration(g, id, t, t', b, was, changed)
    ensures Invariant(g, id, t', next) && UpClosed(id, t') && b in t'
  {
    NumbersInjective(g, order, id);
    if b == ENTRY {
      EntryStep(g, id, t, level, next);
    } else {
      PassStep(g, order, id, t, b, t'[b], level, next);
    }
  }

  lemma IterationSlack(g: Graph, order: seq<Block>, id: Numbering, t: Tree, t': Tree, b: Block,
                       was: bool, changed: bool, level: int)
    requires ReversePostOrder(g, order, id) && b in id && level == id[b]
    requires Invariant(g, id, t, level) && UpClosed(id, t) && Above(id, t, b)
    requires Iteration(g, id, t, t', b, was, changed)
    ensures t' == t || Slack(order, id, t', |order|) < Slack(order, id, t, |order|)
    ensures !changed ==> t' == t
    ensures changed && !was ==> Slack(order, id, t', |order|) < Slack(order, id, t, |order|)
    ensures !changed && b != ENTRY ==> b in t && CommonAncestor(g, id, t, t[b], b)
  {
    if b != ENTRY {
      var w := t'[b];
      if b !in t || w != t[b] {
        PassStep(g, order, id, t, b, w, level, level - 1);
        PassStepSlack(g, order, id, t, b, w);
      }
    }
  }

  lemma PassAdvance(g: Graph, order: seq<Block>, id: Numbering, t0: Tree, t: Tree, i: nat, level: int, was: bool,
                    t': Tree, next: int, changed: bool)
    requires ReversePostOrder(g, order, id) && i < |order| && level == |order| - 1 - i && next == level - 1
    requires PassState(g, order, id, t0, t, i, level, was)
    requires Iteration(g, id, t, t', order[i], was, changed)
    ensures PassState(g, order, id, t0, t', i + 1, next, changed)
  {
    PassReaches(g, order, id, t0, t, i, level, was);
    IterationInvariant(g, order, id, t, t', order[i], was, changed, level, next);
    IterationSlack(g, order, id, t, t', order[i], was, changed, level);
    if !changed {
      StableStep(g, id, t, order, i);
    }
  }

  lemma PassEnd(g: Graph, order: seq<Block>, id: Numbering, t0: Tree, t: Tree, level: int, changed: bool)
    requires ReversePostOrder(g, order, id) && level == -1
    requires PassState(g, order, id, t0, t, |order|, level, changed)
    ensures PassState(g, order, id, t, t, 0, |order| - 1, false)
    ensures !changed ==> t == t0 && Settled(g, id, t)
    ensures changed ==> Slack(order, id, t, |order|) < Slack(order, id, t0, |order|)
  {
    PassComplete(g, order, id, t, level);
    if !changed {
      TakeAll(order);
      StableIsFixpoint(g, order, id, t);
    }
  }

  lemma EntryStep(g: Graph, id: Numbering, t: Tree, level: int, next: int)
    requires ENTRY in id && level == id[ENTRY] && next == level - 1 && Invariant(g, id, t, level)
    requires Injective(id)
    ensures Invariant(g, id, t, next)
  {
    forall c, p | c in t && p in t && ForwardEdge(g, id, t, next, p, c)
      ensures OnChain(id, t, t[c], p)
    {
      assert ForwardEdge(g, id, t, level, p, c);
    }
  }

  lemma PassComplete(g: Graph, order: seq<Block>, id: Numbering, t: Tree, level: int)
    requires ReversePostOrder(g, order, id) && level == -1 && Invariant(g, id, t, level)
    requires forall j :: 0 <= j < |order| ==> order[j] in t
    ensures Invariant(g, id, t, |order| - 1) && forall x :: x in id ==> x in t
  {
    forall c, p | c in t && p in t && ForwardEdge(g, id, t, |order| - 1, p, c)
      ensures OnChain(id, t, t[c], p)
    {
      assert ForwardEdge(g, id, t, level, p, c);
    }
    forall x | x in id
      ensures x in t
    {
      assert order[|order| - 1 - id[x]] in t;
    }
  }

  lemma StableIsFixpoint(g: Graph, order: seq<Block>, id: Numbering, t: Tree)
    requires ReversePostOrder(g, order, id) && Rising(id, t) && Stable(g, id, t, order)
    requires forall x :: x in id ==> x in t
    ensures Fixpoint(g, id, t)
  {
    forall c | c in t && c != ENTRY
      ensures CommonAncestor(g, id, t, t[c], c)
    {
      assert order[|order| - 1 - id[c]] == c;
    }
  }

  lemma AboveAt(g: Graph, order: seq<Block>, id: Numbering, t: Tree, i: nat)
    requires ReversePostOrder(g, order, id) && i < |order|
    requires forall j :: 0 <= j < i ==> order[j] in t
    ensures order[i] in id && id[order[i]] == |order| - 1 - i && Above(id, t, order[i])
  {
    forall y | y in id && id[order[i]] < id[y]
      ensures y in t
    {
      assert order[|order| - 1 - id[y]] == y;
    }
  }

  lemma StableStep(g: Graph, id: Numbering, t: Tree, order: seq<Block>, i: nat)
    requires i < |order| && Stable(g, id, t, order[..i]) && order[i] in t
    requires order[i] != ENTRY ==> CommonAncestor(g, id, t, t[order[i]], order[i])
    ensures Stable(g, id, t, order[..i + 1])
  {
    hide CommonAncestor;
    var o := order[..i + 1];
    forall j | 0 <= j < |o| && o[j] != ENTRY
      ensures o[j] in t && CommonAncestor(g, id, t, t[o[j]], o[j])
    {
      if j < i {
        assert o[j] == order[..i][j];
      }
    }
  }

  /** `y` is on the chain of each listed block that has a pointer. */
  ghost predicate Ancestor(id: Numbering, t: Tree, y: Block, preds: seq<Block>)
    requires Rising(id, t)
  {
    forall p :: p in preds && p in t ==> OnChain(id, t, y, p)
  }

  lemma AncestorStep(id: Numbering, t: Tree, pre: Block, preds: seq<Block>, j: nat, w: Block, w': Block)
    requires Rising(id, t) && j < |preds| && pre in t && w in t && w' in t
    requires OnChain(id, t, w, pre) && Ancestor(id, t, w, preds[..j])
    requires forall y :: OnChain(id, t, y, pre) && Ancestor(id, t, y, preds[..j]) ==> OnChain(id, t, y, w)
    requires OnChain(id, t, w', w)
    requires preds[j] in t && preds[j] != pre ==>
        OnChain(id, t, w', preds[j])
        && forall y :: OnChain(id, t, y, preds[j]) && OnChain(id, t, y, w) ==> OnChain(id, t, y, w')
    requires preds[j] !in t || preds[j] == pre ==> w' == w
    ensures OnChain(id, t, w', pre) && Ancestor(id, t, w', preds[..j + 1])
    ensures forall y :: OnChain(id, t, y, pre) && Ancestor(id, t, y, preds[..j + 1]) ==> OnChain(id, t, y, w')
  {
    hide Rising, OnChain;
    assert preds[..j + 1] == preds[..j] + [preds[j]];
    ChainTransitive(id, t, w', w, pre);
    forall p | p in preds[..j + 1] && p in t
      ensures OnChain(id, t, w', p)
    {
      if p in preds[..j] {
        ChainTransitive(id, t, w', w, p);
      }
    }
    forall y | OnChain(id, t, y, pre) && Ancestor(id, t, y, preds[..j + 1])
      ensures OnChain(id, t, y, w')
    {
      assert Ancestor(id, t, y, preds[..j]);
    }
  }

  lemma ForwardIsListed(g: Graph, id: Numbering, t: Tree, b: Block)
    requires Valid(g) && Rising(id, t) && b < |g.succs| && b in id && HasForwardPredecessor(g, id, t, b)
    ensures exists j :: 0 <= j < |g.preds[b]| && g.preds[b][j] in t
  {
    var p :| p in t && Edge(g, p, b);
    assert p in g.preds[b];
  }

  lemma AncestorsOfAll(g: Graph, id: Numbering, t: Tree, pre: Block, w: Block, b: Block)
    requires Valid(g) && Rising(id, t) && b < |g.succs| && pre in t && pre in g.preds[b] && w in t
    requires Ancestor(id, t, w, g.preds[b])
    requires forall y :: OnChain(id, t, y, pre) && Ancestor(id, t, y, g.preds[b]) ==> OnChain(id, t, y, w)
    ensures NearestCommonAncestor(g, id, t, w, b)
  {
    forall p | p in t && Edge(g, p, b)
      ensures OnChain(id, t, w, p)
    {
      assert p in g.preds[b];
    }
    forall y | CommonAncestor(g, id, t, y, b)
      ensures OnChain(id, t, y, w)
    {
      assert Edge(g, pre, b);
      assert Ancestor(id, t, y, g.preds[b]);
    }
  }

  // ----- Dominance frontiers and the dominator tree -----

  /** A block pointer of the source that may be null. */
  datatype Pointer = Null | At(block: Block)

  type Frontiers = map<Block, set<Block>>

  /** The walk from the predecessor p of the join bb has reached `runner`. */
  ghost predicate WalkState(id: Numbering, t: Tree, p: Block, bb: Block, f0: Frontiers, f: Frontiers, runner: Pointer) {
    && Rising(id, t) && p in f0 && (forall x :: x in f <==> x in f0)
    && (p in t ==> bb in t)
    && if p in t then
         && runner.At? && runner.block in t && (forall x :: x in t ==> x in f0)
         && OnChain(id, t, runner.block, p) && OnChain(id, t, t[bb], runner.block)
         && forall x :: x in f0 ==>
              f[x] == f0[x] + (if OnChain(id, t, x, p) && !OnChain(id, t, x, runner.block) then {bb} else {})
       else
         || (runner == At(p) && f == f0)
         || (runner == Null && f == f0[p := f0[p] + {bb}])
  }

  ghost function WalkRank(id: Numbering, t: Tree, runner: Pointer): nat {
    if runner.Null? then 0
    else if runner.block in id && ENTRY in id && runner.block in t && id[runner.block] <= id[ENTRY]
      then id[ENTRY] - id[runner.block] + 1
    else 1
  }

  /** Exactly the blocks on the run of edge p -> bb have been marked with bb. */
  ghost predicate RunMarked(g: Graph, id: Numbering, t: Tree, p: Block, bb: Block, f0: Frontiers, f: Frontiers) {
    && Rising(id, t)
    && (forall x :: x in f <==> x in f0)
    && forall x, b :: x in f0 ==> (b in f[x] <==> b in f0[x] || (b == bb && OnRun(g, id, t, x, p, bb)))
  }

  lemma WalkBegins(g: Graph, id: Numbering, t: Tree, p: Block, bb: Block, f: Frontiers)
    requires Valid(g) && ExactTree(g, id, t) && Edge(g, p, bb) && (p in t ==> bb in t)
    requires p in f && forall x :: x in t ==> x in f
    ensures WalkState(id, t, p, bb, f, f, At(p))
  {
    if p in t {
      if bb == ENTRY {
        EntryOnChain(id, t, p);
      } else {
        StrictMeansParentChain(g, id, t, t[bb], bb);
        DominatesPredecessor(g, t[bb], p, bb);
      }
    }
  }

  ghost function PointerOf(t: Tree, x: Block): Pointer {
    if x in t then At(t[x]) else Null
  }

  lemma RunnerClimbs(id: Numbering, t: Tree, p: Block, bb: Block, runner: Block)
    requires Rising(id, t) && p in t && runner in t && bb in t && runner != t[bb]
    requires OnChain(id, t, runner, p) && OnChain(id, t, t[bb], runner)
    ensures runner != ENTRY && t[runner] in t && id[runner] < id[t[runner]]
    ensures OnChain(id, t, t[runner], p) && OnChain(id, t, t[bb], t[runner])
    ensures forall x :: OnChain(id, t, x, runner) <==> x == runner || OnChain(id, t, x, t[runner])
    ensures !OnChain(id, t, runner, t[runner])
  {
    var up := t[runner];
    ChainTransitive(id, t, up, runner, p);
    if OnChain(id, t, runner, up) {
      ChainRises(id, t, runner, up);
    }
  }

  lemma WalkAdvances(id: Numbering, t: Tree, p: Block, bb: Block, f0: Frontiers, f: Frontiers, runner: Pointer)
    requires WalkState(id, t, p, bb, f0, f, runner) && runner != PointerOf(t, bb) && !runner.Null?
    ensures runner.block in f
    ensures WalkState(id, t, p, bb, f0, f[runner.block := f[runner.block] + {bb}], PointerOf(t, runner.block))
    ensures WalkRank(id, t, PointerOf(t, runner.block)) < WalkRank(id, t, runner)
  {
    if p in t {
      RunnerClimbs(id, t, p, bb, runner.block);
    }
  }

  lemma WalkThrows(id: Numbering, t: Tree, p: Block, bb: Block, f0: Frontiers, f: Frontiers)
    requires WalkState(id, t, p, bb, f0, f, Null) && PointerOf(t, bb) != Null
    ensures p !in t && bb in t
  {
  }

  lemma WalkEnds(g: Graph, id: Numbering, t: Tree, p: Block, bb: Block, f0: Frontiers, f: Frontiers)
    requires Valid(g) && WalkState(id, t, p, bb, f0, f, PointerOf(t, bb))
    requires Edge(g, p, bb) && |g.preds[bb]| >= 2
    ensures RunMarked(g, id, t, p, bb, f0, f)
    ensures p in t || bb !in t
  {
    if bb in t {
      assert t[bb] in t;
    }
  }

  /** The frontiers after the first `bi` blocks and the first `pi` predecessors of block `bi`. */
  ghost predicate MarkedUpTo(g: Graph, id: Numbering, t: Tree, f: Frontiers, bi: nat, pi: nat) {
    && Rising(id, t)
    && (forall x: Block :: x in f <==> x < |g.succs|)
    && forall x, b :: x in f ==> (b in f[x] <==> MarkedBefore(g, id, t, x, b, bi, pi))
  }

  ghost predicate MarkedBefore(g: Graph, id: Numbering, t: Tree, x: Block, b: Block, bi: nat, pi: nat)
    requires Rising(id, t)
  {
    || (b < bi && Marked(g, id, t, x, b))
    || (b == bi < |g.preds| && exists k :: 0 <= k < pi && k < |g.preds[b]| && OnRun(g, id, t, x, g.preds[b][k], b))
  }

  /** No walk has met a null pointer: the joins seen so far have no unreachable predecessor. */
  ghost predicate JoinsSeen(g: Graph, id: Numbering, t: Tree, bi: nat, pi: nat) {
    forall b: nat, k: nat :: SeenJoinEdge(g, t, bi, pi, b, k) ==> g.preds[b][k] in t
  }

  ghost predicate SeenJoinEdge(g: Graph, t: Tree, bi: nat, pi: nat, b: nat, k: nat) {
    && b < |g.preds| && k < |g.preds[b]| && |g.preds[b]| >= 2
    && (b < bi || (b == bi && k < pi)) && b in t
  }

  lemma MarksStep(g: Graph, id: Numbering, t: Tree, f0: Frontiers, f: Frontiers, bi: nat, pi: nat)
    requires MarkedUpTo(g, id, t, f0, bi, pi)
    requires bi < |g.preds| && pi < |g.preds[bi]|
    requires RunMarked(g, id, t, g.preds[bi][pi], bi, f0, f)
    ensures MarkedUpTo(g, id, t, f, bi, pi + 1)
  {
    forall x: Block, b: Block | x in f
      ensures b in f[x] <==> MarkedBefore(g, id, t, x, b, bi, pi + 1)
    {
      assert b in f0[x] <==> MarkedBefore(g, id, t, x, b, bi, pi);
    }
  }

  lemma MarksBlockEnd(g: Graph, id: Numbering, t: Tree, f: Frontiers, bi: nat, pi: nat)
    requires MarkedUpTo(g, id, t, f, bi, pi)
    requires bi < |g.preds| && (pi == |g.preds[bi]| || (|g.preds[bi]| < 2 && pi == 0))
    ensures MarkedUpTo(g, id, t, f, bi + 1, 0)
  {
    forall x: Block, b: Block | x in f
      ensures b in f[x] <==> MarkedBefore(g, id, t, x, b, bi + 1, 0)
    {
      assert b in f[x] <==> MarkedBefore(g, id, t, x, b, bi, pi);
      if b == bi && Marked(g, id, t, x, b) {
        var p :| OnRun(g, id, t, x, p, b);
        var k :| 0 <= k < |g.preds[b]| && g.preds[b][k] == p;
      }
    }
  }

  /** The computed frontiers: exactly the marks of the runner walks. */
  ghost predicate FrontiersComputed(g: Graph, id: Numbering, t: Tree, f: Frontiers) {
    && Rising(id, t)
    && (forall x: Block :: x in f <==> x < |g.succs|)
    && forall x, b :: x in f ==> (b in f[x] <==> Marked(g, id, t, x, b))
  }

  lemma MarksComplete(g: Graph, order: seq<Block>, id: Numbering, t: Tree, f: Frontiers)
    requires Valid(g) && ReversePostOrder(g, order, id) && ExactTree(g, id, t)
    requires MarkedUpTo(g, id, t, f, |g.preds|, 0) && JoinsSeen(g, id, t, |g.preds|, 0)
    ensures FrontiersComputed(g, id, t, f) && JoinsReachable(g)
  {
    forall x: Block, b: Block | x in f
      ensures b in f[x] <==> Marked(g, id, t, x, b)
    {
      assert b in f[x] <==> MarkedBefore(g, id, t, x, b, |g.preds|, 0);
    }
    forall p: Block, b: Block | Edge(g, p, b) && Reachable(g, b) && |g.preds[b]| >= 2
      ensures Reachable(g, p)
    {
      assert p in g.preds[b];
      var k :| 0 <= k < |g.preds[b]| && g.preds[b][k] == p;
      assert b in t && p in t;
    }
  }

  lemma EdgeFacts(g: Graph, order: seq<Block>, id: Numbering, t: Tree, f: Frontiers, bb: Block, pi: nat)
    requires Valid(g) && ReversePostOrder(g, order, id) && ExactTree(g, id, t)
    requires bb < |g.preds| && pi < |g.preds[bb]| && MarkedUpTo(g, id, t, f, bb, pi)
    ensures Edge(g, g.preds[bb][pi], bb) && g.preds[bb][pi] in f
    ensures g.preds[bb][pi] in t ==> bb in t
    ensures forall x :: x in t ==> x in f
  {
    var p := g.preds[bb][pi];
    assert p in g.preds[bb];
    if p in t {
      ReachableStep(g, p, bb);
    }
    forall x | x in t
      ensures x < |g.succs|
    {
      ReachableInGraph(g, x);
    }
  }

  lemma JoinsStep(g: Graph, id: Numbering, t: Tree, bi: nat, pi: nat)
    requires JoinsSeen(g, id, t, bi, pi) && bi < |g.preds| && pi < |g.preds[bi]|
    requires bi in t ==> g.preds[bi][pi] in t
    ensures JoinsSeen(g, id, t, bi, pi + 1)
  {
    forall b: nat, k: nat | SeenJoinEdge(g, t, bi, pi + 1, b, k)
      ensures g.preds[b][k] in t
    {
      assert (b == bi && k == pi) || SeenJoinEdge(g, t, bi, pi, b, k);
    }
  }

  lemma JoinsBlockEnd(g: Graph, id: Numbering, t: Tree, bi: nat, pi: nat)
    requires JoinsSeen(g, id, t, bi, pi)
    requires bi < |g.preds| && (pi == |g.preds[bi]| || |g.preds[bi]| < 2)
    ensures JoinsSeen(g, id, t, bi + 1, 0)
  {
    forall b: nat, k: nat | SeenJoinEdge(g, t, bi + 1, 0, b, k)
      ensures g.preds[b][k] in t
    {
      assert SeenJoinEdge(g, t, bi, pi, b, k);
    }
  }

  lemma NothingMarked(g: Graph, id: Numbering, t: Tree, f: Frontiers)
    requires Valid(g) && ExactTree(g, id, t) && f == map b | b in Blocks(|g.succs|) :: {}
    ensures MarkedUpTo(g, id, t, f, 0, 0) && JoinsSeen(g, id, t, 0, 0)
  {
  }

  lemma ThrowWitness(g: Graph, order: seq<Block>, id: Numbering, t: Tree, p: Block, b: Block)
    requires Valid(g) && ReversePostOrder(g, order, id) && ExactTree(g, id, t)
    requires Edge(g, p, b) && |g.preds[b]| >= 2 && b in t && p !in t
    ensures !JoinsReachable(g)
  {
    assert b in id && p !in id;
  }

  /** The children of the dominator tree, read off the pointers. */
  ghost predicate ChildrenComputed(g: Graph, t: Tree, c: map<Block, set<Block>>, n: nat) {
    && (forall x: Block :: x in c <==> x < |g.succs|)
    && forall x, b :: x in c ==> (b in c[x] <==> b < n && b in t && t[b] == x && b != x)
  }

  lemma TreeFacts(g: Graph, order: seq<Block>, id: Numbering, t: Tree)
    requires Valid(g) && ReversePostOrder(g, order, id) && ExactTree(g, id, t)
    ensures forall b: Block :: b in t <==> Reachable(g, b)
    ensures forall a, b :: b in t && b != ENTRY ==> (IsImmediateDominator(g, a, b) <==> t[b] == a)
    ensures forall x :: x in t ==> x < |g.succs| && t[x] < |g.succs|
  {
    forall a, b | b in t && b != ENTRY
      ensures IsImmediateDominator(g, a, b) <==> t[b] == a
    {
      ExactTreeGivesImmediateDominators(g, id, t, a, b);
    }
    forall x | x in t
      ensures x < |g.succs| && t[x] < |g.succs|
    {
      ReachableInGraph(g, x);
      ReachableInGraph(g, t[x]);
    }
  }

  /** No (reachable) edge returns to the entry block. */
  ghost predicate NoEdgeToEntry(g: Graph) {
    forall p :: Edge(g, p, ENTRY) ==> !Reachable(g, p)
  }

  lemma FrontierFacts(g: Graph, order: seq<Block>, id: Numbering, t: Tree, f: Frontiers)
    requires Valid(g) && ReversePostOrder(g, order, id) && ExactTree(g, id, t) && JoinsReachable(g)
    requires FrontiersComputed(g, id, t, f)
    ensures NoEdgeToEntry(g) ==> forall x, b :: x in f && b in t ==> (b in f[x] <==> InFrontier(g, x, b))
  {
    FrontiersExactIff(g, order, id, t);
  }

  class Analysis {
    const g: Graph
    var order: seq<Block>                  // reverse_post_order_
    var id: Numbering                      // post_order_id_
    var idom: Tree                         // idom_, a null pointer being an absent key
    var frontier: map<Block, set<Block>>   // dom_frontier_
    var children: map<Block, set<Block>>   // dom_tree_succ_blocks_
    ghost var parent: Tree

    constructor (g: Graph)
      requires Valid(g)
      ensures this.g == g
      ensures frontier == map b | b in Blocks(|g.succs|) :: {}
      ensures children == frontier
    {
      this.g := g;
      order, id, idom, parent := [], map[], map[], map[];
      frontier := map b | b in Blocks(|g.succs|) :: {};
      children := map b | b in Blocks(|g.succs|) :: {};
    }

    /** The recursive depth-first visit; `visited` is the set the source passes by reference. */
    method PostOrderVisit(bb: Block, visited0: set<Block>, ghost from: Block) returns (visited: set<Block>)
      requires Valid(g) && Search(g, order, id, parent, visited0)
      requires bb < |g.succs| && bb !in visited0 && Reachable(g, bb)
      requires forall x :: x in parent ==> x in visited0
      requires bb != ENTRY ==> ENTRY in visited0 && from in visited0 && from !in id && Edge(g, from, bb)
      modifies this`order, this`id, this`parent
      ensures Search(g, order, id, parent, visited)
      ensures forall x :: x in parent ==> x in visited
      ensures Extends(bb, {}, old(order), old(id), old(parent), visited0, order, id, parent, visited)
      ensures bb in id && bb in visited && order != [] && order[|order| - 1] == bb
      ensures bb != ENTRY ==> bb in parent && parent[bb] == from
      decreases Blocks(|g.succs|) - visited0, 1
    {
      ghost var parent1 := if bb == ENTRY then parent else parent[bb := from];
      OpenSearch(g, bb, from, order, id, parent, parent1, visited0);
      parent := parent1;
      visited := VisitSuccessors(bb, visited0 + {bb});
      AssignNumber(bb, old(order), old(id), old(parent), parent1, visited0, visited);
    }

    /** The end of the visit: the block gets the next number. */
    method AssignNumber(bb: Block, ghost order0: seq<Block>, ghost id0: Numbering, ghost parent0: Tree,
                        ghost parent1: Tree, ghost visited0: set<Block>, ghost visited: set<Block>)
      requires Search(g, order, id, parent, visited) && OpenBlock(bb, id, parent, visited)
      requires Extends(bb, {bb}, order0, id0, parent0, visited0, order0, id0, parent1, visited0 + {bb})
      requires Extends(bb, {}, order0, id0, parent1, visited0 + {bb}, order, id, parent, visited)
      requires bb < |g.succs| && bb !in visited0 && forall x :: x in g.succs[bb] ==> x in visited
      requires bb in parent ==> parent[bb] !in id && parent[bb] != bb
      modifies this`order, this`id
      ensures id == old(id)[bb := |old(order)|] && order == old(order) + [bb]
      ensures Search(g, order, id, parent, visited)
      ensures Extends(bb, {}, order0, id0, parent0, visited0, order, id, parent, visited)
    {
      SuccessorExtends(bb, order0, id0, parent0, visited0, parent1, order, id, parent, visited);
      CloseSearch(g, bb, order, id, parent, visited);
      CloseExtends(bb, order0, id0, parent0, visited0, order, id, parent, visited);
      id := id[bb := |order|];
      order := order + [bb];
    }

    /** The loop of the visit over the successors of the open block `bb`. */
    method VisitSuccessors(bb: Block, visited0: set<Block>) returns (visited: set<Block>)
      requires Valid(g) && Search(g, order, id, parent, visited0)
      requires bb < |g.succs| && ENTRY in visited0 && OpenBlock(bb, id, parent, visited0)
      requires forall x :: x in parent ==> x in visited0
      modifies this`order, this`id, this`parent
      ensures Search(g, order, id, parent, visited)
      ensures forall x :: x in parent ==> x in visited
      ensures Extends(bb, {}, old(order), old(id), old(parent), visited0, order, id, parent, visited)
      ensures OpenBlock(bb, id, parent, visited)
      ensures forall x :: x in g.succs[bb] ==> x in visited
      decreases Blocks(|g.succs|) - visited0, 2
    {
      visited := visited0;
      var succs := g.succs[bb];
      for k := 0 to |succs|
        invariant Search(g, order, id, parent, visited)
        invariant forall x :: x in parent ==> x in visited
        invariant OpenBlock(bb, id, parent, visited)
        invariant Extends(bb, {}, old(order), old(id), old(parent), visited0, order, id, parent, visited)
        invariant ENTRY in visited && forall x :: x in succs[..k] ==> x in visited
      {
        var s := succs[k];
        ghost var order1, id1, parent1, visited1 := order, id, parent, visited;
        if s !in visited {
          SearchStep(g, order, id, parent, visited, bb, k);
          visited := PostOrderVisit(s, visited, bb);
          ChildSearch(bb, s, old(order), old(id), old(parent), visited0,
                      order1, id1, parent1, visited1, order, id, parent, visited);
        }
        SeenGrows(succs, k, visited1, visited);
      }
      TakeAll(succs);
    }

    method CreateReversePostOrder()
      requires Valid(g)
      modifies this`order, this`id, this`parent
      ensures ReversePostOrder(g, order, id)
    {
      order, id, parent := [], map[], map[];
      EntryReachable(g);
      var visited := PostOrderVisit(ENTRY, {}, ENTRY);
      SearchComplete(g, order, id, parent, visited);
      order := Reversed(order);
    }

    /** The nearest common ancestor of two blocks, by two fingers that climb to equal numbers. */
    method Intersect(bb1: Block, bb2: Block) returns (finger1: Block)
      requires Rising(id, idom) && bb1 in idom && bb2 in idom && Injective(id)
      ensures finger1 in idom && OnChain(id, idom, finger1, bb1) && OnChain(id, idom, finger1, bb2)
      ensures forall y :: OnChain(id, idom, y, bb1) && OnChain(id, idom, y, bb2) ==> OnChain(id, idom, y, finger1)
    {
      finger1 := bb1;
      var finger2 := bb2;
      while finger1 != finger2
        invariant Fingers(id, idom, bb1, bb2, finger1, finger2)
        decreases 2 * id[ENTRY] - id[finger1] - id[finger2]
      {
        ghost var before := id[finger1] + id[finger2];
        while id[finger1] < id[finger2]
          invariant Fingers(id, idom, bb1, bb2, finger1, finger2)
          invariant before <= id[finger1] + id[finger2]
          invariant before == id[finger1] + id[finger2] ==> finger1 != finger2
          decreases id[ENTRY] - id[finger1]
        {
          FingerStep(id, idom, bb1, bb2, finger1, finger2);
          finger1 := idom[finger1];
        }
        while id[finger2] < id[finger1]
          invariant Fingers(id, idom, bb1, bb2, finger1, finger2)
          invariant before <= id[finger1] + id[finger2]
          invariant before == id[finger1] + id[finger2] ==> id[finger2] < id[finger1]
          decreases id[ENTRY] - id[finger2]
        {
          FingerStep(id, idom, bb2, bb1, finger2, finger1);
          finger2 := idom[finger2];
        }
      }
    }

    /** The search for a first predecessor whose pointer is set. */
    method FirstProcessed(preds: seq<Block>) returns (k: nat)
      ensures k <= |preds| && (k < |preds| ==> preds[k] in idom)
      ensures forall j :: 0 <= j < k ==> preds[j] !in idom
    {
      k := 0;
      while k < |preds| && preds[k] !in idom
        invariant k <= |preds| && forall j :: 0 <= j < k ==> preds[j] !in idom
      {
        k := k + 1;
      }
    }

    /** The new pointer of `bb` in a pass: its first processed predecessor, intersected with all
        other processed ones. */
    method NewIdom(bb: Block) returns (newIdom: Block)
      requires Valid(g) && Rising(id, idom) && Injective(id)
      requires bb in id && bb < |g.succs| && HasForwardPredecessor(g, id, idom, bb)
      ensures NearestCommonAncestor(g, id, idom, newIdom, bb)
    {
      var preds := g.preds[bb];
      ForwardIsListed(g, id, idom, bb);
      var k := FirstProcessed(preds);
      var pre := preds[k];
      newIdom := pre;
      for j := 0 to |preds|
        invariant newIdom in idom && OnChain(id, idom, newIdom, pre)
        invariant Ancestor(id, idom, newIdom, preds[..j])
        invariant forall y :: OnChain(id, idom, y, pre) && Ancestor(id, idom, y, preds[..j]) ==>
                  OnChain(id, idom, y, newIdom)
      {
        ghost var w := newIdom;
        if preds[j] != pre && preds[j] in idom {
          newIdom := Intersect(preds[j], newIdom);
        }
        AncestorStep(id, idom, pre, preds, j, w, newIdom);
      }
      TakeAll(preds);
      AncestorsOfAll(g, id, idom, pre, newIdom, bb);
    }

    /** The loop body of a pass for one block other than the entry. */
    method UpdateBlock(bb: Block, ghost level: int, ghost next: int) returns (changed: bool)
      requires Valid(g) && ReversePostOrder(g, order, id) && bb in id && bb != ENTRY
      requires level == id[bb] && next == level - 1
      requires Invariant(g, id, idom, level) && UpClosed(id, idom) && Above(id, idom, bb)
      modifies this`idom
      ensures bb in idom && idom == old(idom)[bb := idom[bb]]
      ensures NearestCommonAncestor(g, id, old(idom), idom[bb], bb)
      ensures changed <==> bb !in old(idom) || idom[bb] != old(idom)[bb]
    {
      hide *;
      NumbersInjective(g, order, id);
      AboveGivesForward(g, order, id, idom, bb, level);
      ReachableInGraph(g, bb);
      var newIdom := NewIdom(bb);
      changed := bb !in idom || idom[bb] != newIdom;
      if changed {
        idom := idom[bb := newIdom];
      }
    }

    /** One pass over the reverse post-order. */
    method Pass() returns (changed: bool)
      requires Valid(g) && ReversePostOrder(g, order, id)
      requires PassState(g, order, id, idom, idom, 0, |order| - 1, false)
      modifies this`idom
      ensures PassState(g, order, id, idom, idom, 0, |order| - 1, false)
      ensures !changed ==> idom == old(idom) && Settled(g, id, idom)
      ensures changed ==> Slack(order, id, idom, |order|) < Slack(order, id, old(idom), |order|)
    {
      hide *;
      changed := false;
      ghost var level := |order| - 1;
      for i := 0 to |order|
        invariant level == |order| - 1 - i
        invariant PassState(g, order, id, old(idom), idom, i, level, changed)
      {
        var bb := order[i];
        ghost var t, next, was := idom, level - 1, changed;
        PassReaches(g, order, id, old(idom), t, i, level, was);
        if bb != ENTRY {
          var c := UpdateBlock(bb, level, next);
          if c {
            changed := true;
          }
        }
        PassAdvance(g, order, id, old(idom), t, i, level, was, idom, next, changed);
        level := next;
      }
      PassEnd(g, order, id, old(idom), idom, level, changed);
    }

    method CreateIdom()
      requires Valid(g) && ReversePostOrder(g, order, id)
      modifies this`idom
      ensures ExactTree(g, id, idom)
    {
      hide *;
      idom := map[ENTRY := ENTRY];
      InitialTree(g, order, id);
      var changed := true;
      while changed
        invariant PassState(g, order, id, idom, idom, 0, |order| - 1, false)
        invariant !changed ==> Settled(g, id, idom)
        decreases Slack(order, id, idom, |order|), changed
      {
        changed := Pass();
      }
      FixpointIsExact(g, order, id, idom);
    }

    /** `get_idom` for a block of the function. */
    function GetIdom(x: Block): (r: Pointer)
      reads this
      ensures r == PointerOf(idom, x)
    {
      if x in idom then At(idom[x]) else Null
    }

    /** The walk from one predecessor `p` of the join `bb`. It returns false where `idom_.at`
        throws because the runner has become a null pointer. */
    method WalkFrontier(p: Block, bb: Block) returns (ok: bool)
      requires Valid(g) && ExactTree(g, id, idom) && Edge(g, p, bb) && |g.preds[bb]| >= 2
      requires (p in idom ==> bb in idom) && p in frontier && forall x :: x in idom ==> x in frontier
      modifies this`frontier
      ensures ok <==> p in idom || bb !in idom
      ensures ok ==> RunMarked(g, id, idom, p, bb, old(frontier), frontier)
    {
      hide *;
      var runner := At(p);
      WalkBegins(g, id, idom, p, bb, frontier);
      while runner != GetIdom(bb)
        invariant WalkState(id, idom, p, bb, old(frontier), frontier, runner)
        decreases WalkRank(id, idom, runner)
      {
        if runner.Null? {
          WalkThrows(id, idom, p, bb, old(frontier), frontier);
          return false;
        }
        WalkAdvances(id, idom, p, bb, old(frontier), frontier, runner);
        var x := runner.block;
        frontier := frontier[x := frontier[x] + {bb}];
        runner := GetIdom(x);
      }
      WalkEnds(g, id, idom, p, bb, old(frontier), frontier);
      return true;
    }

    /** The predecessors of one join. */
    method MarkJoin(bb: Block) returns (ok: bool)
      requires Valid(g) && ReversePostOrder(g, order, id) && ExactTree(g, id, idom) && bb < |g.preds|
      requires |g.preds[bb]| >= 2
      requires MarkedUpTo(g, id, idom, frontier, bb, 0) && JoinsSeen(g, id, idom, bb, 0)
      modifies this`frontier
      ensures ok ==> MarkedUpTo(g, id, idom, frontier, bb + 1, 0) && JoinsSeen(g, id, idom, bb + 1, 0)
      ensures !ok ==> !JoinsReachable(g)
    {
      hide *;
      var preds := g.preds[bb];
      for pi := 0 to |preds|
        invariant MarkedUpTo(g, id, idom, frontier, bb, pi) && JoinsSeen(g, id, idom, bb, pi)
      {
        var p := preds[pi];
        ghost var f0 := frontier;
        EdgeFacts(g, order, id, idom, frontier, bb, pi);
        ok := WalkFrontier(p, bb);
        if !ok {
          ThrowWitness(g, order, id, idom, p, bb);
          return;
        }
        MarksStep(g, id, idom, f0, frontier, bb, pi);
        JoinsStep(g, id, idom, bb, pi);
      }
      MarksBlockEnd(g, id, idom, frontier, bb, |preds|);
      JoinsBlockEnd(g, id, idom, bb, |preds|);
      ok := true;
    }

    method CreateDominanceFrontier() returns (ok: bool)
      requires Valid(g) && ReversePostOrder(g, order, id) && ExactTree(g, id, idom)
      requires frontier == map b | b in Blocks(|g.succs|) :: {}
      modifies this`frontier
      ensures ok <==> JoinsReachable(g)
      ensures ok ==> FrontiersComputed(g, id, idom, frontier)
    {
      hide *;
      NothingMarked(g, id, idom, frontier);
      for bb := 0 to |g.preds|
        invariant MarkedUpTo(g, id, idom, frontier, bb, 0) && JoinsSeen(g, id, idom, bb, 0)
      {
        if |g.preds[bb]| >= 2 {
          ok := MarkJoin(bb);
          if !ok {
            return;
          }
        } else {
          MarksBlockEnd(g, id, idom, frontier, bb, 0);
          JoinsBlockEnd(g, id, idom, bb, 0);
        }
      }
      MarksComplete(g, order, id, idom, frontier);
      ok := true;
    }

    method CreateDomTreeSucc()
      requires Valid(g) && (forall x :: x in idom ==> x < |g.succs| && idom[x] < |g.succs|)
      requires children == map b | b in Blocks(|g.succs|) :: {}
      modifies this`children
      ensures ChildrenComputed(g, idom, children, |g.succs|)
    {
      for bb := 0 to |g.succs|
        invariant ChildrenComputed(g, idom, children, bb)
      {
        // For an unreachable block the source files it under the null key, which nobody reads.
        if bb in idom && idom[bb] != bb {
          children := children[idom[bb] := children[idom[bb]] + {bb}];
        }
      }
    }

    /** The pass for one function. It returns false exactly where the source leaves
        `create_dominance_frontier` by an exception. */
    method Run() returns (ok: bool)
      requires Valid(g)
      modifies this
      ensures ok <==> JoinsReachable(g)
      ensures ReversePostOrder(g, order, id) && ExactTree(g, id, idom)
      ensures forall b: Block :: b in idom <==> Reachable(g, b)
      ensures forall a, b :: b in idom && b != ENTRY ==> (IsImmediateDominator(g, a, b) <==> idom[b] == a)
      ensures ok ==> FrontiersComputed(g, id, idom, frontier)
      ensures ok && NoEdgeToEntry(g) ==>
                forall x, b :: x in frontier && b in idom ==> (b in frontier[x] <==> InFrontier(g, x, b))
      ensures ok ==> ChildrenComputed(g, idom, children, |g.succs|)
    {
      hide *;
      frontier := map b | b in Blocks(|g.succs|) :: {};
      children := map b | b in Blocks(|g.succs|) :: {};
      CreateReversePostOrder();
      CreateIdom();
      TreeFacts(g, order, id, idom);
      ok := CreateDominanceFrontier();
      if ok {
        CreateDomTreeSucc();
        FrontierFacts(g, order, id, idom, frontier);
      }
    }
  }
}
