/** Phi placement: the worklist of Mem2Reg over dominance frontiers. */
module PhiPlacement {
  import opened ControlFlow
  import opened Ir
  import opened Promotion

  type Frontiers = map<Block, set<Block>>

  /** The pairs of `bb_has_var_phi`. */
  type Placement = set<(Block, Name)>

  /** The block stores to x. */
  predicate Stores(blocks: seq<BasicBlock>, b: Block, x: Name) {
    b < |blocks| && LastStore(blocks[b].body, |blocks[b].body|, x).Some?
  }

  /** `q` contains the frontier of every block that stores to x and of each of its members. */
  ghost predicate ClosedFor(blocks: seq<BasicBlock>, f: Frontiers, x: Name, q: set<Block>) {
    forall d, b :: d in f && (Stores(blocks, d, x) || d in q) && b in f[d] ==> b in q
  }

  /** The blocks with a phi for x are the least closed set: the iterated dominance frontier. */
  ghost predicate LeastFor(blocks: seq<BasicBlock>, f: Frontiers, x: Name, q: set<Block>) {
    && ClosedFor(blocks, f, x, q)
    && forall r :: ClosedFor(blocks, f, x, r) ==> q <= r
  }

  /** Every frontier block is a block of the function. */
  ghost predicate FrontiersInside(f: Frontiers, n: nat) {
    && (forall d: Block :: d in f <==> d < n)
    && forall d, b :: d in f && b in f[d] ==> b < n
  }

  // ----- The worklist for one variable -----

  ghost predicate Work(blocks: seq<BasicBlock>, f: Frontiers, x: Name, work: seq<Block>, i: nat, q: set<Block>) {
    && i <= |work|
    && (forall j :: 0 <= j < |work| ==> work[j] in f && (Stores(blocks, work[j], x) || work[j] in q))
    && (forall d :: d in f && (Stores(blocks, d, x) || d in q) ==> d in work)
    && (forall j, b :: 0 <= j < i && b in f[work[j]] ==> b in q)
    && (forall b :: b in q ==> b in f)
    && forall r :: ClosedFor(blocks, f, x, r) ==> q <= r
  }

  lemma WorkDone(blocks: seq<BasicBlock>, f: Frontiers, x: Name, work: seq<Block>, q: set<Block>)
    requires Work(blocks, f, x, work, |work|, q)
    ensures LeastFor(blocks, f, x, q)
  {
    forall d, b | d in f && (Stores(blocks, d, x) || d in q) && b in f[d]
      ensures b in q
    {
      var j :| 0 <= j < |work| && work[j] == d;
    }
  }

  /** Inside the step for work[i]: the frontier blocks not in `rest` have been dealt with. */
  ghost predicate FrontierStep(blocks: seq<BasicBlock>, f: Frontiers, x: Name, work: seq<Block>, i: nat, q: set<Block>,
      rest: set<Block>) {
    && i < |work| && Work(blocks, f, x, work, i, q)
    && rest <= f[work[i]]
    && forall b :: b in f[work[i]] && b !in rest ==> b in q
  }

  lemma StepBegins(blocks: seq<BasicBlock>, f: Frontiers, x: Name, work: seq<Block>, i: nat, q: set<Block>)
    requires i < |work| && Work(blocks, f, x, work, i, q)
    ensures work[i] in f && FrontierStep(blocks, f, x, work, i, q, f[work[i]])
  {
  }

  lemma StepOld(blocks: seq<BasicBlock>, f: Frontiers, x: Name, work: seq<Block>, i: nat, q: set<Block>,
      rest: set<Block>, b: Block)
    requires FrontierStep(blocks, f, x, work, i, q, rest) && b in q
    ensures FrontierStep(blocks, f, x, work, i, q, rest - {b})
  {
  }

  lemma StepNew(blocks: seq<BasicBlock>, f: Frontiers, x: Name, n: nat, work: seq<Block>, i: nat, q: set<Block>,
      rest: set<Block>, b: Block)
    requires FrontierStep(blocks, f, x, work, i, q, rest) && b in rest && FrontiersInside(f, n)
    ensures FrontierStep(blocks, f, x, work + [b], i, q + {b}, rest - {b})
    ensures b < n
  {
    var w := work + [b];
    forall r | ClosedFor(blocks, f, x, r)
      ensures q + {b} <= r
    {
      assert work[i] in f && (Stores(blocks, work[i], x) || work[i] in r);
    }
    forall d | d in f && (Stores(blocks, d, x) || d in q + {b})
      ensures d in w
    {
      assert d == b || d in work;
    }
    forall j, c | 0 <= j < i && c in f[w[j]]
      ensures c in q + {b}
    {
      assert w[j] == work[j];
    }
    assert w[i] == work[i];
  }

  lemma StepEnds(blocks: seq<BasicBlock>, f: Frontiers, x: Name, work: seq<Block>, i: nat, q: set<Block>)
    requires FrontierStep(blocks, f, x, work, i, q, {})
    ensures Work(blocks, f, x, work, i + 1, q)
  {
  }
}
