/** Control-flow graphs, paths from the entry block, and dominance as a statement about paths. */
module ControlFlow {

  /** A basic block is its position in the function's block list. */
  type Block = nat

  /** `get_entry_block` is the first block of the list. */
  const ENTRY: Block := 0

  /** The predecessor and successor lists kept by the blocks, multiplicity included. */
  datatype Graph = Graph(succs: seq<seq<Block>>, preds: seq<seq<Block>>)

  /** The blocks of a function with n of them. */
  function Blocks(n: nat): (r: set<Block>)
    ensures forall b: Block :: b in r <==> b < n
  {
    if n == 0 then {} else Blocks(n - 1) + {n - 1}
  }

  ghost predicate Edge(g: Graph, a: Block, b: Block) {
    a < |g.succs| && b in g.succs[a]
  }

  /** A non-empty function whose two kinds of list record the same edges between its own blocks. */
  ghost predicate Valid(g: Graph) {
    && 0 < |g.succs| == |g.preds|
    && (forall a: Block, b: Block :: Edge(g, a, b) ==> b < |g.succs|)
    && (forall a: Block, b: Block :: Edge(g, a, b) ==> a in g.preds[b])
    && (forall a: Block, b: Block :: b < |g.preds| && a in g.preds[b] ==> Edge(g, a, b))
  }

  ghost predicate Walk(g: Graph, p: seq<Block>) {
    forall i :: 0 <= i < |p| - 1 ==> Edge(g, p[i], p[i + 1])
  }

  ghost predicate WalkTo(g: Graph, p: seq<Block>, a: Block, b: Block) {
    |p| > 0 && p[0] == a && p[|p| - 1] == b && Walk(g, p)
  }

  ghost predicate Reachable(g: Graph, b: Block) {
    exists p :: WalkTo(g, p, ENTRY, b)
  }

  /** Every path from the entry to `b` runs through `a`. */
  ghost predicate Dominates(g: Graph, a: Block, b: Block) {
    forall p :: WalkTo(g, p, ENTRY, b) ==> a in p
  }

  ghost predicate StrictlyDominates(g: Graph, a: Block, b: Block) {
    a != b && Dominates(g, a, b)
  }

  /** The textbook definition: the strict dominator that all other strict dominators dominate. */
  ghost predicate IsImmediateDominator(g: Graph, a: Block, b: Block) {
    && StrictlyDominates(g, a, b)
    && forall c :: StrictlyDominates(g, c, b) ==> Dominates(g, c, a)
  }

  /** The textbook dominance frontier: `x` dominates a (reachable) predecessor of `b` but not strictly `b` itself. */
  ghost predicate InFrontier(g: Graph, x: Block, b: Block) {
    && (exists p :: Edge(g, p, b) && Reachable(g, p) && Dominates(g, x, p))
    && !StrictlyDominates(g, x, b)
  }

  lemma ExtendWalk(g: Graph, p: seq<Block>, a: Block, b: Block, c: Block)
    requires WalkTo(g, p, a, b) && Edge(g, b, c)
    ensures WalkTo(g, p + [c], a, c)
  {
    var q := p + [c];
    forall i | 0 <= i < |q| - 1
      ensures Edge(g, q[i], q[i + 1])
    {
      if i < |p| - 1 {
        assert q[i] == p[i] && q[i + 1] == p[i + 1];
      }
    }
  }

  lemma JoinWalks(g: Graph, p: seq<Block>, q: seq<Block>, a: Block, b: Block, c: Block)
    requires WalkTo(g, p, a, b) && WalkTo(g, q, b, c)
    ensures WalkTo(g, p + q[1..], a, c)
    ensures forall x :: x in p + q[1..] ==> x in p || x in q
  {
    var r := p + q[1..];
    forall i | 0 <= i < |r| - 1
      ensures Edge(g, r[i], r[i + 1])
    {
      if i < |p| - 1 {
        assert r[i] == p[i] && r[i + 1] == p[i + 1];
      } else {
        assert r[i] == q[i - (|p| - 1)] && r[i + 1] == q[i - (|p| - 1) + 1];
      }
    }
  }

  lemma PrefixWalk(g: Graph, p: seq<Block>, a: Block, b: Block, k: nat)
    requires WalkTo(g, p, a, b) && k < |p|
    ensures WalkTo(g, p[..k + 1], a, p[k])
  {
    var q := p[..k + 1];
    forall i | 0 <= i < |q| - 1
      ensures Edge(g, q[i], q[i + 1])
    {
      assert q[i] == p[i] && q[i + 1] == p[i + 1];
    }
  }

  lemma SuffixWalk(g: Graph, p: seq<Block>, a: Block, b: Block, k: nat)
    requires WalkTo(g, p, a, b) && k < |p|
    ensures WalkTo(g, p[k..], p[k], b)
  {
    var q := p[k..];
    forall i | 0 <= i < |q| - 1
      ensures Edge(g, q[i], q[i + 1])
    {
      assert q[i] == p[k + i] && q[i + 1] == p[k + i + 1];
    }
  }

  lemma EntryReachable(g: Graph)
    ensures Reachable(g, ENTRY)
  {
    assert WalkTo(g, [ENTRY], ENTRY, ENTRY);
  }

  lemma ReachableStep(g: Graph, a: Block, b: Block)
    requires Reachable(g, a) && Edge(g, a, b)
    ensures Reachable(g, b)
  {
    var p :| WalkTo(g, p, ENTRY, a);
    ExtendWalk(g, p, ENTRY, a, b);
  }

  /** A set that holds the entry and is closed under successors holds every reachable block. */
  lemma ClosedContains(g: Graph, s: set<Block>, p: seq<Block>, b: Block)
    requires ENTRY in s && forall x, y :: x in s && Edge(g, x, y) ==> y in s
    requires WalkTo(g, p, ENTRY, b)
    ensures forall x :: x in p ==> x in s
  {
    var k := 0;
    while k < |p| - 1
      invariant 0 <= k < |p|
      invariant forall i :: 0 <= i <= k ==> p[i] in s
    {
      assert Edge(g, p[k], p[k + 1]);
      k := k + 1;
    }
  }

  lemma ReachableInGraph(g: Graph, b: Block)
    requires Valid(g) && Reachable(g, b)
    ensures b < |g.succs|
  {
    var p :| WalkTo(g, p, ENTRY, b);
    if |p| > 1 {
      assert Edge(g, p[|p| - 2], p[|p| - 2 + 1]);
    }
  }

  /** A strict dominator of `b` dominates each reachable predecessor of `b`. */
  lemma DominatesPredecessor(g: Graph, d: Block, p: Block, b: Block)
    requires StrictlyDominates(g, d, b) && Edge(g, p, b)
    ensures Dominates(g, d, p)
  {
    forall w | WalkTo(g, w, ENTRY, p)
      ensures d in w
    {
      ExtendWalk(g, w, ENTRY, p, b);
      assert d in w + [b];
    }
  }
}
