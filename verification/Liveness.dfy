/** Which blocks of a lowered function are reachable, read off the statement, and when the dominator
    analysis gets through: exactly if no jump or end of unreachable code leads back to reachable code. */
module Liveness {
  import opened ControlFlow
  import opened DominatorTree
  import opened Ir
  import opened SysY
  import opened Lowering
  import opened Builder

  // ----- On the statement -----

  /** Some path of the lowered code gets to the end of the statement. */
  predicate Reaches(s: Stmt) {
    match s
    case Block(items) => ItemsReach(items)
    case If(_, t, e) => e.None? || Reaches(t) || Reaches(e.value)
    case Return(_) => false
    case Break => false
    case Continue => false
    case _ => true
  }

  predicate ItemsReach(items: Items) {
    match items
    case Done => true
    case Item(h, t) => Reaches(h) && ItemsReach(t)
  }

  /** The builder goes on behind the statement, in a block that no path reaches. */
  predicate Stranded(s: Stmt) {
    !Closes(s) && !Reaches(s)
  }

  /** A jump to the surrounding loop is emitted. */
  predicate JumpsOut(s: Stmt) {
    match s
    case Block(items) => ItemsJumpOut(items)
    case If(_, t, e) => JumpsOut(t) || (e.Some? && JumpsOut(e.value))
    case Break => true
    case Continue => true
    case _ => false
  }

  predicate ItemsJumpOut(items: Items) {
    match items
    case Done => false
    case Item(h, t) => JumpsOut(h) || (!Closes(h) && ItemsJumpOut(t))
  }

  /** No unreachable code leads back to reachable code: neither by falling off the end of a branch or
      of a loop body, nor by break or continue. */
  predicate NoDeadEdge(s: Stmt) {
    match s
    case Block(items) => ItemsNoDeadEdge(items)
    case If(_, t, e) =>
      && NoDeadEdge(t) && (Stranded(t) ==> e.Some? && !Reaches(e.value))
      && (e.Some? ==> NoDeadEdge(e.value) && (Stranded(e.value) ==> !Reaches(t)))
    case While(_, b) => NoDeadEdge(b) && !Stranded(b)
    case _ => true
  }

  predicate ItemsNoDeadEdge(items: Items) {
    match items
    case Done => true
    case Item(h, t) =>
      NoDeadEdge(h) && (Closes(h) || if Reaches(h) then ItemsNoDeadEdge(t) else !ItemsJumpOut(t))
  }

  lemma {:induction false} ClosesNoReach(s: Stmt)
    ensures Closes(s) ==> !Reaches(s)
  {
    if s.Block? { ItemsCloseNoReach(s.items); }
  }

  lemma {:induction false} ItemsCloseNoReach(items: Items)
    ensures ItemsClose(items) ==> !ItemsReach(items)
  {
    if items.Item? {
      ClosesNoReach(items.head);
      ItemsCloseNoReach(items.tail);
    }
  }

  /** No if has branches that both jump away, so everything that is emitted is reached. */
  predicate AllReached(s: Stmt) {
    match s
    case Block(items) => ItemsAllReached(items)
    case If(_, t, e) => Reaches(s) && AllReached(t) && (e.Some? ==> AllReached(e.value))
    case While(_, b) => AllReached(b)
    case _ => true
  }

  predicate ItemsAllReached(items: Items) {
    match items
    case Done => true
    case Item(h, t) => AllReached(h) && (Closes(h) || ItemsAllReached(t))
  }

  /** Such code has no unreachable part that could lead anywhere. */
  lemma {:induction false} AllReachedIsLive(s: Stmt)
    requires AllReached(s)
    ensures (Closes(s) || Reaches(s)) && NoDeadEdge(s)
  {
    match s
    case Block(items) => ItemsAllReachedLive(items);
    case If(_, t, e) =>
      AllReachedIsLive(t);
      if e.Some? { AllReachedIsLive(e.value); }
    case While(_, b) => AllReachedIsLive(b);
    case _ =>
  }

  lemma {:induction false} ItemsAllReachedLive(items: Items)
    requires ItemsAllReached(items)
    ensures (ItemsClose(items) || ItemsReach(items)) && ItemsNoDeadEdge(items)
  {
    if items.Item? {
      AllReachedIsLive(items.head);
      ClosesNoReach(items.head);
      if !Closes(items.head) { ItemsAllReachedLive(items.tail); }
    }
  }

  // ----- On the code -----

  /** Block b of the code is unreachable although the code's start is reachable. */
  predicate IsDead(s: Stmt, c: Code, lo: nat, b: Block)
    decreases s
  {
    match s
    case Block(items) => ItemsDead(items, c, lo, b)
    case If(_, t, e) =>
      && c.Choice?
      && var l := lo + 3 + OrSize(c.cond);
         || (b == c.mergeBB && !Reaches(s)) || IsDead(t, c.thenCode, l, b)
         || (e.Some? && IsDead(e.value, c.elseCode, l + CodeSize(c.thenCode), b))
    case While(_, body) => c.Loop? && IsDead(body, c.body, lo + 3 + OrSize(c.cond), b)
    case _ => false
  }

  predicate ItemsDead(items: Items, c: Code, lo: nat, b: Block)
    decreases items
  {
    match items
    case Done => false
    case Item(h, t) =>
      && c.Sequence?
      && var l := lo + CodeSize(c.first);
         || IsDead(h, c.first, lo, b)
         || if Reaches(h) then ItemsDead(t, c.rest, l, b) else l <= b < l + CodeSize(c.rest)
  }

  lemma {:induction false} DeadInside(s: Stmt, c: Code, lo: nat, b: Block)
    requires Placed(c, lo) && IsDead(s, c, lo, b)
    ensures lo <= b < lo + CodeSize(c)
    decreases s
  {
    match s
    case Block(items) => ItemsDeadInside(items, c, lo, b);
    case If(_, t, e) =>
      var l := lo + 3 + OrSize(c.cond);
      if IsDead(t, c.thenCode, l, b) {
        DeadInside(t, c.thenCode, l, b);
      } else if e.Some? && IsDead(e.value, c.elseCode, l + CodeSize(c.thenCode), b) {
        DeadInside(e.value, c.elseCode, l + CodeSize(c.thenCode), b);
      }
    case While(_, body) => DeadInside(body, c.body, lo + 3 + OrSize(c.cond), b);
    case _ =>
  }

  lemma {:induction false} ItemsDeadInside(items: Items, c: Code, lo: nat, b: Block)
    requires Placed(c, lo) && ItemsDead(items, c, lo, b)
    ensures lo <= b < lo + CodeSize(c)
    decreases items
  {
    match items
    case Done =>
    case Item(h, t) =>
      if IsDead(h, c.first, lo, b) {
        DeadInside(h, c.first, lo, b);
      } else if Reaches(h) {
        ItemsDeadInside(t, c.rest, lo + CodeSize(c.first), b);
      }
  }

  // ----- Edges of a condition -----

  /** Block a is p's or one of the blocks from lo up to hi. */
  predicate Within(a: Block, p: Point, lo: nat, hi: nat) {
    a == p.b || lo <= a < hi
  }

  predicate AllTargets(g: Cfg, a: Block, lo: nat, hi: nat, t: Block, f: Block) {
    a < |g| && forall s :: s in TermTargets(g[a]) ==> lo <= s < hi || s == t || s == f
  }

  /** Block a of a condition leads to blocks of the condition or to its targets. */
  ghost predicate EdgesOk(g: Cfg, p: Point, lo: nat, hi: nat, t: Block, f: Block, end: Block) {
    Within(end, p, lo, hi) && forall b :: Within(b, p, lo, hi) && b != end ==> AllTargets(g, b, lo, hi, t, f)
  }

  lemma AndTaken(g: Cfg, a: LAnd, c: AndCode, p: Point, f: Block, lo: nat)
    requires a.LAndMore? && AndAt(g, a, c, p, f) && AndPlaced(c, lo)
    ensures c.AndMore? && AndAt(g, a.left, c.left, p, f) && AndPlaced(c.left, lo + 1)
    ensures AndSize(c) == 1 + AndSize(c.left)
    ensures TestAt(g, LAndType(a.left), c.left.val, c.test, c.zext, lo, f, c.left.end) && c.end.b == lo
  {
    hide TestAt, LeafAt;
    LeafSameBlock(g, a.exp, At(c.trueBB, 0), c.val, c.end);
  }

  lemma OrTaken(g: Cfg, o: LOr, c: OrCode, p: Point, t: Block, f: Block, lo: nat)
    requires o.LOrMore? && OrAt(g, o, c, p, t, f) && OrPlaced(c, lo)
    ensures c.OrMore? && OrAt(g, o.left, c.left, p, t, lo) && OrPlaced(c.left, lo + 1)
    ensures AndAt(g, o.land, c.right, At(lo, 0), f) && AndPlaced(c.right, lo + 1 + OrSize(c.left))
    ensures c.end == c.right.end
    ensures TestAt(g, LOrType(o.left), c.left.val, c.test, c.zext, t, lo, c.left.end)
    ensures OrSize(c) == 1 + OrSize(c.left) + AndSize(c.right)
  {
    hide TestAt, AndAt;
  }

  lemma {:induction false} AndEdges(g: Cfg, a: LAnd, c: AndCode, p: Point, t: Block, f: Block, lo: nat)
    requires AndAt(g, a, c, p, f) && AndPlaced(c, lo) && p.b < lo && lo + AndSize(c) <= |g|
    ensures EdgesOk(g, p, lo, lo + AndSize(c), t, f, c.end.b)
    decreases a
  {
    if a.LAndMore? {
      hide *;
      AndTaken(g, a, c, p, f, lo);
      AndEdges(g, a.left, c.left, p, t, f, lo + 1);
      TestEdges(g, LAndType(a.left), c.left.val, c.test, c.zext, lo, f, c.left.end);
      AndBlocks(g, c.left.end.b, p, lo, lo + AndSize(c), t, f);
    } else {
      hide *;
      AndOneEnd(g, a, c, p, f);
      NoEdges(g, p, lo, t, f);
    }
  }

  lemma NoEdges(g: Cfg, p: Point, lo: nat, t: Block, f: Block)
    requires p.b < lo
    ensures EdgesOk(g, p, lo, lo, t, f, p.b)
  {
    hide AllTargets;
  }

  /** The left operand in the blocks from lo + 1 on, the right one in the new block lo. */
  lemma AndBlocks(g: Cfg, leftEnd: Block, p: Point, lo: nat, hi: nat, t: Block, f: Block)
    requires p.b < lo < hi <= |g| && leftEnd < |g| && TermTargets(g[leftEnd]) == [lo, f]
    requires EdgesOk(g, p, lo + 1, hi, t, f, leftEnd)
    ensures EdgesOk(g, p, lo, hi, t, f, lo)
  {
    hide TermTargets;
    forall b | Within(b, p, lo, hi) && b != lo
      ensures AllTargets(g, b, lo, hi, t, f)
    {
      if b != leftEnd { assert AllTargets(g, b, lo + 1, hi, t, f); }
    }
  }

  lemma {:induction false} OrEdges(g: Cfg, o: LOr, c: OrCode, p: Point, t: Block, f: Block, lo: nat, hi: nat)
    requires OrAt(g, o, c, p, t, f) && OrPlaced(c, lo) && p.b < lo && hi == lo + OrSize(c) <= |g|
    ensures EdgesOk(g, p, lo, hi, t, f, c.end.b)
    decreases o, 1
  {
    if o.LOrOne? {
      hide EdgesOk, AndAt, AndPlaced;
      AndEdges(g, o.land, c.land, p, t, f, lo);
    } else {
      hide *;
      OrMoreEdges(g, o, c, p, t, f, lo, hi);
    }
  }

  lemma {:induction false} OrMoreEdges(g: Cfg, o: LOr, c: OrCode, p: Point, t: Block, f: Block, lo: nat, hi: nat)
    requires o.LOrMore? && OrAt(g, o, c, p, t, f) && OrPlaced(c, lo) && p.b < lo && hi == lo + OrSize(c) <= |g|
    ensures EdgesOk(g, p, lo, hi, t, f, c.end.b)
    decreases o, 0
  {
    hide *;
    OrTaken(g, o, c, p, t, f, lo);
    var mid := lo + 1 + OrSize(c.left);
    OrEdges(g, o.left, c.left, p, t, lo, lo + 1, mid);
    AndEdges(g, o.land, c.right, At(lo, 0), t, f, mid);
    TestEdges(g, LOrType(o.left), c.left.val, c.test, c.zext, t, lo, c.left.end);
    OrBlocks(g, c.left.end.b, p, lo, mid, hi, t, f, c.end.b);
  }

  lemma TestEdges(g: Cfg, ty: Type, v: Operand, test: Name, zext: Name, t: Block, f: Block, p: Point)
    requires TestAt(g, ty, v, test, zext, t, f, p)
    ensures p.b < |g| && TermTargets(g[p.b]) == [t, f]
  {
  }

  /** The left operand in the blocks up to mid, the right one in the new block lo and those from mid on. */
  lemma OrBlocks(g: Cfg, leftEnd: Block, p: Point, lo: nat, mid: nat, hi: nat, t: Block, f: Block, end: Block)
    requires p.b < lo < mid <= hi <= |g| && leftEnd < |g| && TermTargets(g[leftEnd]) == [t, lo]
    requires EdgesOk(g, p, lo + 1, mid, t, lo, leftEnd) && EdgesOk(g, At(lo, 0), mid, hi, t, f, end)
    ensures EdgesOk(g, p, lo, hi, t, f, end)
  {
    hide TermTargets;
    forall b | Within(b, p, lo, hi) && b != end
      ensures AllTargets(g, b, lo, hi, t, f)
    {
      if b == leftEnd {
      } else if Within(b, p, lo + 1, mid) {
        assert AllTargets(g, b, lo + 1, mid, t, lo);
      } else {
        assert AllTargets(g, b, mid, hi, t, f);
      }
    }
  }

  /** A condition with its final branch, in p's block and the blocks from lo up to hi. */
  ghost predicate CondCode(g: Cfg, o: LOr, c: OrCode, test: Name, p: Point, t: Block, f: Block, lo: nat, hi: nat) {
    && OrAt(g, o, c, p, t, f) && BranchAt(g, LOrType(o), c.val, test, t, f, c.end)
    && OrPlaced(c, lo) && p.b < lo && hi == lo + OrSize(c) <= |g|
  }

  lemma CondParts(g: Cfg, o: LOr, c: OrCode, test: Name, p: Point, t: Block, f: Block, lo: nat, hi: nat)
    requires CondCode(g, o, c, test, p, t, f, lo, hi)
    ensures OrAt(g, o, c, p, t, f) && OrPlaced(c, lo) && p.b < lo && hi == lo + OrSize(c) <= |g|
    ensures c.end.b < |g| && TermTargets(g[c.end.b]) == [t, f]
  {
    hide OrAt, OrPlaced, OrSize, Has;
  }

  lemma CondEdges(g: Cfg, o: LOr, c: OrCode, test: Name, p: Point, t: Block, f: Block, lo: nat, hi: nat)
    requires CondCode(g, o, c, test, p, t, f, lo, hi)
    ensures forall b :: Within(b, p, lo, hi) ==> AllTargets(g, b, lo, hi, t, f)
  {
    hide CondCode, OrAt, OrPlaced, OrSize, TermTargets;
    CondParts(g, o, c, test, p, t, f, lo, hi);
    OrEdges(g, o, c, p, t, f, lo, hi);
  }

  // ----- Unreachable blocks -----

  predicate Covered(a: Block, p: Point, lo: nat, hi: nat, e: Exit) {
    Within(a, p, lo, hi) && (e.Falls? ==> a != e.p.b)
  }

  /** All targets of block a are reachable. */
  predicate StaysLive(g: Cfg, dead: set<Block>, a: Block) {
    a < |g| && forall s :: s in TermTargets(g[a]) ==> s !in dead
  }

  /** Block a leads to a reachable block. */
  predicate LeadsBack(g: Cfg, dead: set<Block>, a: Block) {
    a < |g| && exists s :: s in TermTargets(g[a]) && s !in dead
  }

  /** Some unreachable block of the code leads to a reachable one. */
  ghost predicate Crosses(g: Cfg, dead: set<Block>, p: Point, lo: nat, hi: nat, e: Exit) {
    exists a: Block :: Covered(a, p, lo, hi, e) && a in dead && LeadsBack(g, dead, a)
  }

  /** No reachable block of the code leads to an unreachable one. */
  ghost predicate LiveClosed(g: Cfg, dead: set<Block>, p: Point, lo: nat, hi: nat, e: Exit) {
    forall a: Block :: Covered(a, p, lo, hi, e) && a !in dead ==> StaysLive(g, dead, a)
  }

  ghost predicate Divided(dead: set<Block>, s: Stmt, c: Code, lo: nat) {
    forall b: Block :: lo <= b < lo + CodeSize(c) ==> (b in dead <==> IsDead(s, c, lo, b))
  }

  ghost predicate ItemsDivided(dead: set<Block>, items: Items, c: Code, lo: nat) {
    forall b: Block :: lo <= b < lo + CodeSize(c) ==> (b in dead <==> ItemsDead(items, c, lo, b))
  }

  predicate AllDead(dead: set<Block>, lo: nat, hi: nat) {
    forall b: Block :: lo <= b < hi ==> b in dead
  }

  predicate NoneDead(dead: set<Block>, lo: nat, hi: nat) {
    forall b: Block :: lo <= b < hi ==> b !in dead
  }

  /** The targets of the surrounding loop are reachable. */
  predicate JumpsLive(dead: set<Block>, jumps: Option<Jumps>) {
    jumps.Some? && jumps.value.testBB !in dead && jumps.value.afterBB !in dead
  }

  predicate JumpsDead(dead: set<Block>, jumps: Option<Jumps>) {
    jumps.None? || (jumps.value.testBB in dead && jumps.value.afterBB in dead)
  }

  /** What is claimed of code whose start is reachable. */
  ghost predicate LiveResult(g: Cfg, dead: set<Block>, p: Point, lo: nat, hi: nat, e: Exit, closes: bool,
      reaches: bool, clean: bool) {
    && (e.Falls? <==> !closes) && (e.Falls? ==> Within(e.p.b, p, lo, hi) && (e.p.b in dead <==> !reaches))
    && LiveClosed(g, dead, p, lo, hi, e) && (Crosses(g, dead, p, lo, hi, e) <==> !clean)
  }

  /** What is claimed of code whose start is unreachable. */
  ghost predicate DeadResult(g: Cfg, dead: set<Block>, p: Point, lo: nat, hi: nat, e: Exit, closes: bool,
      crosses: bool) {
    && (e.Falls? <==> !closes) && (e.Falls? ==> Within(e.p.b, p, lo, hi))
    && (Crosses(g, dead, p, lo, hi, e) <==> crosses)
  }

  // ----- Pieces of code in a row -----

  /** The blocks of two pieces of code in a row. */
  lemma JoinCovered(p: Point, lo: nat, mid: nat, hi: nat, q: Point, e: Exit, a: Block)
    requires p.b < lo <= mid <= hi && Within(q.b, p, lo, mid) && (e.Falls? ==> Within(e.p.b, q, mid, hi))
    ensures Covered(a, p, lo, hi, e) <==> Covered(a, p, lo, mid, Falls(q)) || Covered(a, q, mid, hi, e)
  {
  }

  lemma JoinCrosses(g: Cfg, dead: set<Block>, p: Point, lo: nat, mid: nat, hi: nat, q: Point, e: Exit)
    requires p.b < lo <= mid <= hi && Within(q.b, p, lo, mid) && (e.Falls? ==> Within(e.p.b, q, mid, hi))
    ensures Crosses(g, dead, p, lo, hi, e) <==>
            Crosses(g, dead, p, lo, mid, Falls(q)) || Crosses(g, dead, q, mid, hi, e)
    ensures LiveClosed(g, dead, p, lo, hi, e) <==>
            LiveClosed(g, dead, p, lo, mid, Falls(q)) && LiveClosed(g, dead, q, mid, hi, e)
    ensures e.Falls? ==> Within(e.p.b, p, lo, hi)
  {
    forall a: Block
      ensures Covered(a, p, lo, hi, e) <==> Covered(a, p, lo, mid, Falls(q)) || Covered(a, q, mid, hi, e)
    {
      JoinCovered(p, lo, mid, hi, q, e, a);
    }
    hide Covered, LeadsBack, StaysLive;
    if Crosses(g, dead, p, lo, mid, Falls(q)) {
      var a: Block :| Covered(a, p, lo, mid, Falls(q)) && a in dead && LeadsBack(g, dead, a);
      assert Covered(a, p, lo, hi, e);
    }
    if Crosses(g, dead, q, mid, hi, e) {
      var a: Block :| Covered(a, q, mid, hi, e) && a in dead && LeadsBack(g, dead, a);
      assert Covered(a, p, lo, hi, e);
    }
  }

  /** A branch of an if or the body of a loop, which goes on at `next` where it falls off its end. */
  lemma EndCrosses(g: Cfg, dead: set<Block>, p: Point, lo: nat, hi: nat, e: Exit, next: Block)
    requires e.Falls? ==> Within(e.p.b, p, lo, hi) && Ends(g, e.p, Br(next))
    ensures Crosses(g, dead, p, lo, hi, Closed) <==>
            Crosses(g, dead, p, lo, hi, e) || (e.Falls? && e.p.b in dead && next !in dead)
    ensures LiveClosed(g, dead, p, lo, hi, Closed) <==>
            LiveClosed(g, dead, p, lo, hi, e) && (e.Falls? && e.p.b !in dead ==> next !in dead)
  {
    if e.Falls? {
      assert TermTargets(g[e.p.b]) == [next];
      assert LeadsBack(g, dead, e.p.b) <==> next !in dead by {
        if next !in dead { assert next in TermTargets(g[e.p.b]); }
      }
      assert StaysLive(g, dead, e.p.b) <==> next !in dead by {
        assert next in TermTargets(g[e.p.b]);
      }
      hide LeadsBack, StaysLive;
      assert Covered(e.p.b, p, lo, hi, Closed);
      forall a: Block
        ensures Covered(a, p, lo, hi, Closed) <==> Covered(a, p, lo, hi, e) || a == e.p.b
      {
      }
      hide Covered;
      if Crosses(g, dead, p, lo, hi, e) {
        var a: Block :| Covered(a, p, lo, hi, e) && a in dead && LeadsBack(g, dead, a);
        assert Covered(a, p, lo, hi, Closed);
      }
    }
  }

  lemma JumpCrosses(g: Cfg, dead: set<Block>, p: Point, lo: nat, next: Block)
    requires Ends(g, p, Br(next))
    ensures Crosses(g, dead, p, lo, lo, Closed) <==> p.b in dead && next !in dead
    ensures LiveClosed(g, dead, p, lo, lo, Closed) <==> (p.b !in dead ==> next !in dead)
  {
    assert TermTargets(g[p.b]) == [next];
    assert next in TermTargets(g[p.b]);
    assert Covered(p.b, p, lo, lo, Closed);
    if p.b in dead && next !in dead { assert LeadsBack(g, dead, p.b); }
  }

  lemma UniformBlocks(g: Cfg, p: Point, lo: nat, hi: nat, t: Block, f: Block, dead: set<Block>)
    requires forall b :: Within(b, p, lo, hi) ==> AllTargets(g, b, lo, hi, t, f)
    requires (p.b in dead && t in dead && f in dead && AllDead(dead, lo, hi))
             || (p.b !in dead && t !in dead && f !in dead && NoneDead(dead, lo, hi))
    ensures !Crosses(g, dead, p, lo, hi, Closed) && LiveClosed(g, dead, p, lo, hi, Closed)
  {
    hide TermTargets;
    forall a: Block | Covered(a, p, lo, hi, Closed)
      ensures a in dead ==> !LeadsBack(g, dead, a)
      ensures a !in dead ==> StaysLive(g, dead, a)
    {
      assert AllTargets(g, a, lo, hi, t, f);
    }
  }

  lemma IfParts(g: Cfg, dead: set<Block>, p: Point, lo: nat, c1: nat, t1: nat, hi: nat)
    requires p.b < lo && lo + 3 <= c1 <= t1 <= hi
    ensures var e := Falls(At(lo + 2, 0));
            && (Crosses(g, dead, p, lo, hi, e) <==>
                  || Crosses(g, dead, p, lo + 3, c1, Closed) || Crosses(g, dead, At(lo, 0), c1, t1, Closed)
                  || Crosses(g, dead, At(lo + 1, 0), t1, hi, Closed))
            && (LiveClosed(g, dead, p, lo, hi, e) <==>
                  && LiveClosed(g, dead, p, lo + 3, c1, Closed) && LiveClosed(g, dead, At(lo, 0), c1, t1, Closed)
                  && LiveClosed(g, dead, At(lo + 1, 0), t1, hi, Closed))
  {
    var e := Falls(At(lo + 2, 0));
    forall a: Block
      ensures Covered(a, p, lo, hi, e) <==>
              || Covered(a, p, lo + 3, c1, Closed) || Covered(a, At(lo, 0), c1, t1, Closed)
              || Covered(a, At(lo + 1, 0), t1, hi, Closed)
    {
    }
    hide Covered, LeadsBack, StaysLive;
    UnionCrosses(g, dead, p, lo, hi, e, p, lo + 3, c1);
    UnionCrosses(g, dead, p, lo, hi, e, At(lo, 0), c1, t1);
    UnionCrosses(g, dead, p, lo, hi, e, At(lo + 1, 0), t1, hi);
  }

  lemma LoopParts(g: Cfg, dead: set<Block>, p: Point, lo: nat, c1: nat, hi: nat)
    requires p.b < lo && lo + 3 <= c1 <= hi
    ensures var e := Falls(At(lo + 2, 0));
            && (Crosses(g, dead, p, lo, hi, e) <==>
                  || Crosses(g, dead, p, lo, lo, Closed) || Crosses(g, dead, At(lo, 0), lo + 3, c1, Closed)
                  || Crosses(g, dead, At(lo + 1, 0), c1, hi, Closed))
            && (LiveClosed(g, dead, p, lo, hi, e) <==>
                  && LiveClosed(g, dead, p, lo, lo, Closed) && LiveClosed(g, dead, At(lo, 0), lo + 3, c1, Closed)
                  && LiveClosed(g, dead, At(lo + 1, 0), c1, hi, Closed))
  {
    var e := Falls(At(lo + 2, 0));
    forall a: Block
      ensures Covered(a, p, lo, hi, e) <==>
              || Covered(a, p, lo, lo, Closed) || Covered(a, At(lo, 0), lo + 3, c1, Closed)
              || Covered(a, At(lo + 1, 0), c1, hi, Closed)
    {
    }
    hide Covered, LeadsBack, StaysLive;
    UnionCrosses(g, dead, p, lo, hi, e, p, lo, lo);
    UnionCrosses(g, dead, p, lo, hi, e, At(lo, 0), lo + 3, c1);
    UnionCrosses(g, dead, p, lo, hi, e, At(lo + 1, 0), c1, hi);
  }

  lemma UnionCrosses(g: Cfg, dead: set<Block>, p: Point, lo: nat, hi: nat, e: Exit, q: Point, l: nat, h: nat)
    requires forall a: Block :: Covered(a, q, l, h, Closed) ==> Covered(a, p, lo, hi, e)
    ensures Crosses(g, dead, q, l, h, Closed) ==> Crosses(g, dead, p, lo, hi, e)
  {
    if Crosses(g, dead, q, l, h, Closed) {
      var a: Block :| Covered(a, q, l, h, Closed) && a in dead && LeadsBack(g, dead, a);
      assert Covered(a, p, lo, hi, e);
    }
  }

  lemma DeadIsClosed(g: Cfg, dead: set<Block>, p: Point, lo: nat, hi: nat, e: Exit)
    requires p.b in dead && AllDead(dead, lo, hi)
    ensures LiveClosed(g, dead, p, lo, hi, e)
    ensures e.Falls? && Within(e.p.b, p, lo, hi) ==> e.p.b in dead
  {
  }

  /** The code of a statement, in p's block and the blocks from lo up to hi. */
  ghost predicate CodeAt(g: Cfg, s: Stmt, c: Code, p: Point, jumps: Option<Jumps>, lo: nat, hi: nat) {
    StmtAt(g, s, c, p, jumps) && Placed(c, lo) && p.b < lo && hi == lo + CodeSize(c) <= |g|
  }

  ghost predicate ItemsCodeAt(g: Cfg, items: Items, c: Code, p: Point, jumps: Option<Jumps>, lo: nat, hi: nat) {
    ItemsAt(g, items, c, p, jumps) && Placed(c, lo) && p.b < lo && hi == lo + CodeSize(c) <= |g|
  }

  /** A branch of an if or the body of a loop. */
  ghost predicate BranchCode(g: Cfg, s: Stmt, c: Code, b: Block, next: Block, jumps: Option<Jumps>, lo: nat, hi: nat) {
    CodeAt(g, s, c, At(b, 0), jumps, lo, hi) && GoesTo(g, c, At(b, 0), next)
  }

  ghost predicate IfCode(g: Cfg, s: Stmt, c: Code, p: Point, jumps: Option<Jumps>, lo: nat, c1: nat, t1: nat, hi: nat)
    requires s.If? && c.Choice?
  {
    && p.b < lo && lo + 3 <= c1 <= t1 <= hi <= |g|
    && CondCode(g, s.cond, c.cond, c.test, p, lo, lo + 1, lo + 3, c1)
    && BranchCode(g, s.thenStmt, c.thenCode, lo, lo + 2, jumps, c1, t1)
    && (if s.elseStmt.Some? then BranchCode(g, s.elseStmt.value, c.elseCode, lo + 1, lo + 2, jumps, t1, hi)
        else Ends(g, At(lo + 1, 0), Br(lo + 2)) && t1 == hi)
  }

  ghost predicate LoopCode(g: Cfg, s: Stmt, c: Code, p: Point, lo: nat, c1: nat, hi: nat)
    requires s.While? && c.Loop?
  {
    && p.b < lo && lo + 3 <= c1 <= hi <= |g| && Ends(g, p, Br(lo))
    && CondCode(g, s.cond, c.cond, c.test, At(lo, 0), lo + 1, lo + 2, lo + 3, c1)
    && BranchCode(g, s.body, c.body, lo + 1, lo, Some(Jumps(lo, lo + 2)), c1, hi)
  }

  lemma IfTaken(g: Cfg, s: Stmt, c: Code, p: Point, jumps: Option<Jumps>, lo: nat, hi: nat) returns (c1: nat, t1: nat)
    requires s.If? && CodeAt(g, s, c, p, jumps, lo, hi)
    ensures c.Choice? && EndOf(c, p) == Falls(At(lo + 2, 0)) && IfCode(g, s, c, p, jumps, lo, c1, t1, hi)
    ensures c1 == lo + 3 + OrSize(c.cond) && t1 == c1 + CodeSize(c.thenCode)
  {
    hide OrAt, BranchAt, OrPlaced, OrSize, StmtAt, Placed, CodeSize, GoesTo, EndOf, Ends;
    IfShape(g, s, c, p, jumps);
    IfPlaces(c, lo);
    c1 := lo + 3 + OrSize(c.cond);
    t1 := c1 + CodeSize(c.thenCode);
  }

  lemma IfShape(g: Cfg, s: Stmt, c: Code, p: Point, jumps: Option<Jumps>)
    requires s.If? && StmtAt(g, s, c, p, jumps)
    ensures c.Choice? && EndOf(c, p) == Falls(At(c.mergeBB, 0)) && OrAt(g, s.cond, c.cond, p, c.trueBB, c.falseBB)
    ensures BranchAt(g, LOrType(s.cond), c.cond.val, c.test, c.trueBB, c.falseBB, c.cond.end)
    ensures StmtAt(g, s.thenStmt, c.thenCode, At(c.trueBB, 0), jumps)
    ensures GoesTo(g, c.thenCode, At(c.trueBB, 0), c.mergeBB)
    ensures if s.elseStmt.Some? then
              && StmtAt(g, s.elseStmt.value, c.elseCode, At(c.falseBB, 0), jumps)
              && GoesTo(g, c.elseCode, At(c.falseBB, 0), c.mergeBB)
            else c.elseCode == Nothing && CodeSize(c.elseCode) == 0 && Ends(g, At(c.falseBB, 0), Br(c.mergeBB))
  {
    hide OrAt, BranchAt;
  }

  lemma IfPlaces(c: Code, lo: nat)
    requires c.Choice? && Placed(c, lo)
    ensures c.trueBB == lo && c.falseBB == lo + 1 && c.mergeBB == lo + 2 && OrPlaced(c.cond, lo + 3)
    ensures var c1 := lo + 3 + OrSize(c.cond);
            && Placed(c.thenCode, c1) && Placed(c.elseCode, c1 + CodeSize(c.thenCode))
            && lo + CodeSize(c) == c1 + CodeSize(c.thenCode) + CodeSize(c.elseCode)
  {
    hide OrPlaced, OrSize;
  }

  lemma LoopTaken(g: Cfg, s: Stmt, c: Code, p: Point, jumps: Option<Jumps>, lo: nat, hi: nat) returns (c1: nat)
    requires s.While? && CodeAt(g, s, c, p, jumps, lo, hi)
    ensures c.Loop? && EndOf(c, p) == Falls(At(lo + 2, 0)) && LoopCode(g, s, c, p, lo, c1, hi)
    ensures c1 == lo + 3 + OrSize(c.cond)
  {
    hide OrAt, BranchAt, OrPlaced, OrSize, StmtAt, Placed, CodeSize, GoesTo, EndOf, Ends;
    LoopShape(g, s, c, p, jumps);
    LoopPlaces(c, lo);
    c1 := lo + 3 + OrSize(c.cond);
  }

  lemma LoopShape(g: Cfg, s: Stmt, c: Code, p: Point, jumps: Option<Jumps>)
    requires s.While? && StmtAt(g, s, c, p, jumps)
    ensures c.Loop? && EndOf(c, p) == Falls(At(c.afterBB, 0)) && Ends(g, p, Br(c.testBB))
    ensures OrAt(g, s.cond, c.cond, At(c.testBB, 0), c.condBB, c.afterBB)
    ensures BranchAt(g, LOrType(s.cond), c.cond.val, c.test, c.condBB, c.afterBB, c.cond.end)
    ensures StmtAt(g, s.body, c.body, At(c.condBB, 0), Some(Jumps(c.testBB, c.afterBB)))
    ensures GoesTo(g, c.body, At(c.condBB, 0), c.testBB)
  {
    hide OrAt, BranchAt;
  }

  lemma LoopPlaces(c: Code, lo: nat)
    requires c.Loop? && Placed(c, lo)
    ensures c.testBB == lo && c.condBB == lo + 1 && c.afterBB == lo + 2 && OrPlaced(c.cond, lo + 3)
    ensures Placed(c.body, lo + 3 + OrSize(c.cond)) && lo + CodeSize(c) == lo + 3 + OrSize(c.cond) + CodeSize(c.body)
  {
    hide OrPlaced, OrSize;
  }

  lemma ItemsTaken(g: Cfg, items: Items, c: Code, p: Point, jumps: Option<Jumps>, lo: nat, hi: nat) returns (mid: nat)
    requires items.Item? && ItemsCodeAt(g, items, c, p, jumps, lo, hi)
    ensures c.Sequence? && mid == lo + CodeSize(c.first) && p.b < lo <= mid <= hi
    ensures CodeAt(g, items.head, c.first, p, jumps, lo, mid)
    ensures match EndOf(c.first, p)
            case Closed => mid == hi && EndOf(c, p) == Closed
            case Falls(q) =>
              && EndOf(c, p) == EndOf(c.rest, q)
              && (q.b < mid ==> ItemsCodeAt(g, items.tail, c.rest, q, jumps, mid, hi))
  {
    mid := lo + CodeSize(c.first);
  }

  // ----- Code that starts unreachable -----

  ghost predicate DeadStart(dead: set<Block>, p: Point, jumps: Option<Jumps>, lo: nat, hi: nat) {
    p.b in dead && AllDead(dead, lo, hi) && (JumpsLive(dead, jumps) || JumpsDead(dead, jumps))
  }

  lemma {:induction false} DeadStmt(g: Cfg, s: Stmt, c: Code, p: Point, jumps: Option<Jumps>, lo: nat, hi: nat,
      dead: set<Block>)
    requires CodeAt(g, s, c, p, jumps, lo, hi) && DeadStart(dead, p, jumps, lo, hi)
    ensures DeadResult(g, dead, p, lo, hi, EndOf(c, p), Closes(s), JumpsOut(s) && JumpsLive(dead, jumps))
    decreases s, 1
  {
    match s
    case Block(items) =>
      hide DeadStart, DeadResult, Placed, CodeSize, EndOf, JumpsLive;
      DeadItems(g, items, c, p, jumps, lo, hi, dead);
    case If(_, _, _) =>
      hide *;
      DeadIf(g, s, c, p, jumps, lo, hi, dead);
    case While(_, _) =>
      hide *;
      DeadWhile(g, s, c, p, jumps, lo, hi, dead);
    case _ =>
      hide *;
      DeadAtom(g, s, c, p, jumps, lo, hi, dead);
  }

  /** An atom is within its block, which it may end. */
  ghost predicate AtomShape(g: Cfg, s: Stmt, p: Point, e: Exit, jumps: Option<Jumps>) {
    && p.b < |g| && (e.Falls? <==> !Closes(s)) && (e.Falls? ==> e.p.b == p.b)
    && (s.Return? ==> TermTargets(g[p.b]) == [])
    && (s.Break? || s.Continue? ==>
          jumps.Some? && Ends(g, p, Br(if s.Break? then jumps.value.afterBB else jumps.value.testBB)))
  }

  lemma AtomCode(g: Cfg, s: Stmt, c: Code, p: Point, jumps: Option<Jumps>, lo: nat, hi: nat)
    requires CodeAt(g, s, c, p, jumps, lo, hi) && IsAtom(s)
    ensures AtomShape(g, s, p, EndOf(c, p), jumps) && c.Atom? && hi == lo && p.b < lo
  {
    hide ExpAt, StoresAt, Has;
    AtomSameBlock(g, s, c, p, jumps);
    if s.Return? && s.result.Some? {
      var v, q :| ExpAt(g, s.result.value, p, v, q) && Ends(g, q, Ret(v));
      ExpSameBlock(g, s.result.value, p, v, q);
    }
  }

  lemma DeadAtom(g: Cfg, s: Stmt, c: Code, p: Point, jumps: Option<Jumps>, lo: nat, hi: nat, dead: set<Block>)
    requires CodeAt(g, s, c, p, jumps, lo, hi) && IsAtom(s)
    requires DeadStart(dead, p, jumps, lo, hi)
    ensures DeadResult(g, dead, p, lo, hi, EndOf(c, p), Closes(s), JumpsOut(s) && JumpsLive(dead, jumps))
  {
    hide StmtAt, Placed, CodeSize, EndOf;
    AtomCode(g, s, c, p, jumps, lo, hi);
    if s.Break? || s.Continue? {
      JumpCrosses(g, dead, p, lo, if s.Break? then jumps.value.afterBB else jumps.value.testBB);
      hide Crosses;
    }
  }

  lemma {:induction false} DeadItems(g: Cfg, items: Items, c: Code, p: Point, jumps: Option<Jumps>, lo: nat, hi: nat,
      dead: set<Block>)
    requires ItemsCodeAt(g, items, c, p, jumps, lo, hi) && DeadStart(dead, p, jumps, lo, hi)
    ensures DeadResult(g, dead, p, lo, hi, EndOf(c, p), ItemsClose(items), ItemsJumpOut(items)
            && JumpsLive(dead, jumps))
    decreases items, 0
  {
    match items
    case Done =>
    case Item(h, t) =>
      var mid := ItemsTaken(g, items, c, p, jumps, lo, hi);
      hide ItemsCodeAt, CodeAt, Crosses, LiveClosed, EndOf, CodeSize, JumpsLive, JumpsDead;
      DeadStmt(g, h, c.first, p, jumps, lo, mid, dead);
      match EndOf(c.first, p)
      case Closed =>
      case Falls(q) =>
        DeadItems(g, t, c.rest, q, jumps, mid, hi, dead);
        JoinCrosses(g, dead, p, lo, mid, hi, q, EndOf(c.rest, q));
  }

  lemma {:induction false} DeadBranch(g: Cfg, s: Stmt, c: Code, b: Block, next: Block, jumps: Option<Jumps>, lo: nat,
      hi: nat, dead: set<Block>)
    requires BranchCode(g, s, c, b, next, jumps, lo, hi) && DeadStart(dead, At(b, 0), jumps, lo, hi) && next in dead
    ensures Crosses(g, dead, At(b, 0), lo, hi, Closed) <==> JumpsOut(s) && JumpsLive(dead, jumps)
    decreases s, 2
  {
    DeadStmt(g, s, c, At(b, 0), jumps, lo, hi, dead);
    hide Crosses, LiveClosed, CodeAt, EndOf, DeadStart, JumpsOut, JumpsLive;
    EndCrosses(g, dead, At(b, 0), lo, hi, EndOf(c, At(b, 0)), next);
  }

  lemma DeadCond(g: Cfg, o: LOr, c: OrCode, test: Name, p: Point, t: Block, f: Block, lo: nat, hi: nat,
      dead: set<Block>)
    requires CondCode(g, o, c, test, p, t, f, lo, hi) && p.b in dead && t in dead && f in dead && AllDead(dead, lo, hi)
    ensures !Crosses(g, dead, p, lo, hi, Closed)
  {
    CondEdges(g, o, c, test, p, t, f, lo, hi);
    hide *;
    UniformBlocks(g, p, lo, hi, t, f, dead);
  }

  lemma DeadParts(dead: set<Block>, p: Point, jumps: Option<Jumps>, lo: nat, c1: nat, t1: nat, hi: nat)
    requires DeadStart(dead, p, jumps, lo, hi) && lo + 3 <= c1 <= t1 <= hi
    ensures p.b in dead && lo in dead && lo + 1 in dead && lo + 2 in dead && AllDead(dead, lo + 3, c1)
    ensures DeadStart(dead, At(lo, 0), jumps, c1, t1) && DeadStart(dead, At(lo + 1, 0), jumps, t1, hi)
    ensures DeadStart(dead, At(lo + 1, 0), Some(Jumps(lo, lo + 2)), c1, hi) && !JumpsLive(dead, Some(Jumps(lo, lo + 2)))
  {
  }

  lemma {:induction false} DeadIf(g: Cfg, s: Stmt, c: Code, p: Point, jumps: Option<Jumps>, lo: nat, hi: nat,
      dead: set<Block>)
    requires s.If? && CodeAt(g, s, c, p, jumps, lo, hi) && DeadStart(dead, p, jumps, lo, hi)
    ensures DeadResult(g, dead, p, lo, hi, EndOf(c, p), Closes(s), JumpsOut(s) && JumpsLive(dead, jumps))
    decreases s, 0
  {
    hide CodeAt, CondCode, BranchCode, Crosses, LiveClosed, Ends, EndOf, OrSize, CodeSize, JumpsLive, JumpsDead;
    var c1, t1 := IfTaken(g, s, c, p, jumps, lo, hi);
    IfParts(g, dead, p, lo, c1, t1, hi);
    DeadParts(dead, p, jumps, lo, c1, t1, hi);
    hide AllDead, DeadStart;
    DeadCond(g, s.cond, c.cond, c.test, p, lo, lo + 1, lo + 3, c1, dead);
    DeadBranch(g, s.thenStmt, c.thenCode, lo, lo + 2, jumps, c1, t1, dead);
    if s.elseStmt.Some? {
      DeadBranch(g, s.elseStmt.value, c.elseCode, lo + 1, lo + 2, jumps, t1, hi, dead);
    } else {
      JumpCrosses(g, dead, At(lo + 1, 0), t1, lo + 2);
    }
  }

  lemma {:induction false} DeadWhile(g: Cfg, s: Stmt, c: Code, p: Point, jumps: Option<Jumps>, lo: nat, hi: nat,
      dead: set<Block>)
    requires s.While? && CodeAt(g, s, c, p, jumps, lo, hi) && DeadStart(dead, p, jumps, lo, hi)
    ensures DeadResult(g, dead, p, lo, hi, EndOf(c, p), Closes(s), JumpsOut(s) && JumpsLive(dead, jumps))
    decreases s, 0
  {
    hide CodeAt, CondCode, BranchCode, Crosses, LiveClosed, Ends, EndOf, OrSize, CodeSize;
    var c1 := LoopTaken(g, s, c, p, jumps, lo, hi);
    LoopParts(g, dead, p, lo, c1, hi);
    DeadParts(dead, p, jumps, lo, c1, c1, hi);
    hide AllDead, DeadStart, JumpsLive, JumpsDead;
    DeadCond(g, s.cond, c.cond, c.test, At(lo, 0), lo + 1, lo + 2, lo + 3, c1, dead);
    DeadBranch(g, s.body, c.body, lo + 1, lo, Some(Jumps(lo, lo + 2)), c1, hi, dead);
    JumpCrosses(g, dead, p, lo, lo);
  }

  // ----- Code that starts reachable -----

  predicate LiveStart(dead: set<Block>, p: Point, jumps: Option<Jumps>) {
    p.b !in dead && (jumps.None? || JumpsLive(dead, jumps))
  }

  lemma {:induction false} LiveStmt(g: Cfg, s: Stmt, c: Code, p: Point, jumps: Option<Jumps>, lo: nat, hi: nat,
      dead: set<Block>)
    requires CodeAt(g, s, c, p, jumps, lo, hi) && LiveStart(dead, p, jumps) && Divided(dead, s, c, lo)
    ensures LiveResult(g, dead, p, lo, hi, EndOf(c, p), Closes(s), Reaches(s), NoDeadEdge(s))
    decreases s, 1
  {
    match s
    case Block(items) =>
      hide LiveStart, LiveResult, Placed, CodeSize, EndOf;
      LiveItems(g, items, c, p, jumps, lo, hi, dead);
    case If(_, _, _) =>
      hide *;
      LiveIf(g, s, c, p, jumps, lo, hi, dead);
    case While(_, _) =>
      hide *;
      LiveWhile(g, s, c, p, jumps, lo, hi, dead);
    case _ =>
      hide *;
      LiveAtom(g, s, c, p, jumps, lo, hi, dead);
  }

  lemma LiveAtom(g: Cfg, s: Stmt, c: Code, p: Point, jumps: Option<Jumps>, lo: nat, hi: nat, dead: set<Block>)
    requires CodeAt(g, s, c, p, jumps, lo, hi) && IsAtom(s)
    requires LiveStart(dead, p, jumps)
    ensures LiveResult(g, dead, p, lo, hi, EndOf(c, p), Closes(s), Reaches(s), NoDeadEdge(s))
  {
    hide StmtAt, Placed, CodeSize, EndOf;
    AtomCode(g, s, c, p, jumps, lo, hi);
  }

  lemma {:induction false} LiveItems(g: Cfg, items: Items, c: Code, p: Point, jumps: Option<Jumps>, lo: nat, hi: nat,
      dead: set<Block>)
    requires ItemsCodeAt(g, items, c, p, jumps, lo, hi) && LiveStart(dead, p, jumps) && ItemsDivided(dead, items, c, lo)
    ensures LiveResult(g, dead, p, lo, hi, EndOf(c, p), ItemsClose(items), ItemsReach(items), ItemsNoDeadEdge(items))
    decreases items, 0
  {
    match items
    case Done =>
    case Item(h, t) =>
      var mid := ItemsTaken(g, items, c, p, jumps, lo, hi);
      HeadDivided(dead, h, t, c, lo, mid, hi);
      hide ItemsCodeAt, CodeAt, Crosses, LiveClosed, EndOf, CodeSize, Divided, ItemsDivided, AllDead;
      LiveStmt(g, h, c.first, p, jumps, lo, mid, dead);
      ClosesNoReach(h);
      match EndOf(c.first, p)
      case Closed =>
      case Falls(q) =>
        if Reaches(h) {
          LiveItems(g, t, c.rest, q, jumps, mid, hi, dead);
        } else {
          DeadItems(g, t, c.rest, q, jumps, mid, hi, dead);
          DeadIsClosed(g, dead, q, mid, hi, EndOf(c.rest, q));
          ItemsInLoop(g, t, c.rest, q, jumps, mid, hi);
        }
        JoinCrosses(g, dead, p, lo, mid, hi, q, EndOf(c.rest, q));
  }

  /** Only a loop has break and continue emitted. */
  lemma {:induction false} JumpsInLoop(g: Cfg, s: Stmt, c: Code, p: Point, jumps: Option<Jumps>)
    requires StmtAt(g, s, c, p, jumps) && JumpsOut(s)
    ensures jumps.Some?
    decreases s
  {
    match s
    case Block(items) => ItemsJumpInLoop(g, items, c, p, jumps);
    case If(_, t, e) =>
      if JumpsOut(t) {
        JumpsInLoop(g, t, c.thenCode, At(c.trueBB, 0), jumps);
      } else {
        JumpsInLoop(g, e.value, c.elseCode, At(c.falseBB, 0), jumps);
      }
    case _ =>
  }

  lemma {:induction false} ItemsJumpInLoop(g: Cfg, items: Items, c: Code, p: Point, jumps: Option<Jumps>)
    requires ItemsAt(g, items, c, p, jumps) && ItemsJumpOut(items)
    ensures jumps.Some?
    decreases items
  {
    if JumpsOut(items.head) {
      JumpsInLoop(g, items.head, c.first, p, jumps);
    } else {
      FallsUnlessCloses(g, items.head, c.first, p, jumps);
      ItemsJumpInLoop(g, items.tail, c.rest, EndOf(c.first, p).p, jumps);
    }
  }

  lemma {:induction false} FallsUnlessCloses(g: Cfg, s: Stmt, c: Code, p: Point, jumps: Option<Jumps>)
    requires StmtAt(g, s, c, p, jumps)
    ensures EndOf(c, p).Falls? <==> !Closes(s)
    decreases s
  {
    if s.Block? { ItemsFallUnlessClose(g, s.items, c, p, jumps); }
  }

  lemma {:induction false} ItemsFallUnlessClose(g: Cfg, items: Items, c: Code, p: Point, jumps: Option<Jumps>)
    requires ItemsAt(g, items, c, p, jumps)
    ensures EndOf(c, p).Falls? <==> !ItemsClose(items)
    decreases items
  {
    if items.Item? {
      FallsUnlessCloses(g, items.head, c.first, p, jumps);
      if EndOf(c.first, p).Falls? { ItemsFallUnlessClose(g, items.tail, c.rest, EndOf(c.first, p).p, jumps); }
    }
  }

  lemma ItemsInLoop(g: Cfg, items: Items, c: Code, p: Point, jumps: Option<Jumps>, lo: nat, hi: nat)
    requires ItemsCodeAt(g, items, c, p, jumps, lo, hi)
    ensures ItemsJumpOut(items) ==> jumps.Some?
  {
    if ItemsJumpOut(items) { ItemsJumpInLoop(g, items, c, p, jumps); }
  }

  lemma HeadDivided(dead: set<Block>, h: Stmt, t: Items, c: Code, lo: nat, mid: nat, hi: nat)
    requires c.Sequence? && Placed(c, lo) && ItemsDivided(dead, Item(h, t), c, lo)
    requires mid == lo + CodeSize(c.first) && hi == lo + CodeSize(c)
    ensures Divided(dead, h, c.first, lo)
    ensures if Reaches(h) then ItemsDivided(dead, t, c.rest, mid) else AllDead(dead, mid, hi)
  {
    forall b: Block | lo <= b < hi
      ensures b < mid ==> (ItemsDead(Item(h, t), c, lo, b) <==> IsDead(h, c.first, lo, b))
      ensures mid <= b && Reaches(h) ==> (ItemsDead(Item(h, t), c, lo, b) <==> ItemsDead(t, c.rest, mid, b))
      ensures mid <= b && !Reaches(h) ==> ItemsDead(Item(h, t), c, lo, b)
    {
      if Reaches(h) && ItemsDead(t, c.rest, mid, b) { ItemsDeadInside(t, c.rest, mid, b); }
      if IsDead(h, c.first, lo, b) { DeadInside(h, c.first, lo, b); }
    }
    hide ItemsDead, IsDead, Placed;
    forall b: Block | lo <= b < hi
      ensures b in dead <==> ItemsDead(Item(h, t), c, lo, b)
    {
    }
    if Reaches(h) {
      forall b: Block | mid <= b < mid + CodeSize(c.rest)
        ensures b in dead <==> ItemsDead(t, c.rest, mid, b)
      {
      }
    }
  }

  lemma {:induction false} LiveBranch(g: Cfg, s: Stmt, c: Code, b: Block, next: Block, jumps: Option<Jumps>, lo: nat,
      hi: nat, dead: set<Block>)
    requires BranchCode(g, s, c, b, next, jumps, lo, hi) && LiveStart(dead, At(b, 0), jumps) && Divided(dead, s, c, lo)
    requires Reaches(s) ==> next !in dead
    ensures Crosses(g, dead, At(b, 0), lo, hi, Closed) <==> !NoDeadEdge(s) || (Stranded(s) && next !in dead)
    ensures LiveClosed(g, dead, At(b, 0), lo, hi, Closed)
    decreases s, 2
  {
    LiveStmt(g, s, c, At(b, 0), jumps, lo, hi, dead);
    hide Crosses, LiveClosed, CodeAt, Divided, EndOf, NoDeadEdge, Reaches, Closes;
    EndCrosses(g, dead, At(b, 0), lo, hi, EndOf(c, At(b, 0)), next);
  }

  lemma LiveCond(g: Cfg, o: LOr, c: OrCode, test: Name, p: Point, t: Block, f: Block, lo: nat, hi: nat,
      dead: set<Block>)
    requires CondCode(g, o, c, test, p, t, f, lo, hi) && p.b !in dead && t !in dead && f !in dead
    requires NoneDead(dead, lo, hi)
    ensures !Crosses(g, dead, p, lo, hi, Closed) && LiveClosed(g, dead, p, lo, hi, Closed)
  {
    CondEdges(g, o, c, test, p, t, f, lo, hi);
    hide *;
    UniformBlocks(g, p, lo, hi, t, f, dead);
  }

  lemma {:induction false} LiveIf(g: Cfg, s: Stmt, c: Code, p: Point, jumps: Option<Jumps>, lo: nat, hi: nat,
      dead: set<Block>)
    requires s.If? && CodeAt(g, s, c, p, jumps, lo, hi) && LiveStart(dead, p, jumps) && Divided(dead, s, c, lo)
    ensures LiveResult(g, dead, p, lo, hi, EndOf(c, p), Closes(s), Reaches(s), NoDeadEdge(s))
    decreases s, 0
  {
    hide CodeAt, CondCode, BranchCode, Crosses, LiveClosed, Ends, EndOf, OrSize, CodeSize, Divided, NoneDead,
         JumpsLive, Placed;
    var c1, t1 := IfTaken(g, s, c, p, jumps, lo, hi);
    BranchesDivided(g, p, jumps, hi, dead, s, c, lo, c1, t1);
    IfParts(g, dead, p, lo, c1, t1, hi);
    assert p.b !in dead && LiveStart(dead, At(lo, 0), jumps) && LiveStart(dead, At(lo + 1, 0), jumps);
    hide LiveStart;
    LiveCond(g, s.cond, c.cond, c.test, p, lo, lo + 1, lo + 3, c1, dead);
    LiveBranch(g, s.thenStmt, c.thenCode, lo, lo + 2, jumps, c1, t1, dead);
    if s.elseStmt.Some? {
      LiveBranch(g, s.elseStmt.value, c.elseCode, lo + 1, lo + 2, jumps, t1, hi, dead);
    } else {
      JumpCrosses(g, dead, At(lo + 1, 0), t1, lo + 2);
    }
  }

  ghost predicate IfDead(s: Stmt, c: Code, lo: nat, b: Block)
    requires s.If? && c.Choice?
  {
    var c1 := lo + 3 + OrSize(c.cond);
    var t1 := c1 + CodeSize(c.thenCode);
    IsDead(s, c, lo, b) <==>
      if b == lo + 2 then !Reaches(s)
      else if c1 <= b < t1 then IsDead(s.thenStmt, c.thenCode, c1, b)
      else t1 <= b && s.elseStmt.Some? && IsDead(s.elseStmt.value, c.elseCode, t1, b)
  }

  lemma IfDeadIs(s: Stmt, c: Code, lo: nat, b: Block)
    requires s.If? && c.Choice? && Placed(c, lo)
    ensures IfDead(s, c, lo, b)
  {
    var c1 := lo + 3 + OrSize(c.cond);
    var t1 := c1 + CodeSize(c.thenCode);
    if IsDead(s.thenStmt, c.thenCode, c1, b) { DeadInside(s.thenStmt, c.thenCode, c1, b); }
    if s.elseStmt.Some? && IsDead(s.elseStmt.value, c.elseCode, t1, b) {
      DeadInside(s.elseStmt.value, c.elseCode, t1, b);
    }
  }

  lemma BranchesDivided(g: Cfg, p: Point, jumps: Option<Jumps>, hi: nat, dead: set<Block>, s: Stmt, c: Code,
                        lo: nat, c1: nat, t1: nat)
    requires s.If? && c.Choice? && CodeAt(g, s, c, p, jumps, lo, hi) && Divided(dead, s, c, lo)
    requires c1 == lo + 3 + OrSize(c.cond) && t1 == c1 + CodeSize(c.thenCode)
    ensures lo !in dead && lo + 1 !in dead && (lo + 2 in dead <==> !Reaches(s)) && NoneDead(dead, lo + 3, c1)
    ensures Divided(dead, s.thenStmt, c.thenCode, c1)
    ensures s.elseStmt.Some? ==> Divided(dead, s.elseStmt.value, c.elseCode, t1)
  {
    hide StmtAt;
    forall b: Block | lo <= b < lo + CodeSize(c)
      ensures IfDead(s, c, lo, b)
    {
      IfDeadIs(s, c, lo, b);
    }
    hide IsDead, Placed;
    assert IfDead(s, c, lo, lo) && IfDead(s, c, lo, lo + 1) && IfDead(s, c, lo, lo + 2);
    forall b: Block | lo + 3 <= b < lo + CodeSize(c)
      ensures b < c1 ==> b !in dead
      ensures c1 <= b < t1 ==> (b in dead <==> IsDead(s.thenStmt, c.thenCode, c1, b))
      ensures t1 <= b && s.elseStmt.Some? ==> (b in dead <==> IsDead(s.elseStmt.value, c.elseCode, t1, b))
    {
      assert IfDead(s, c, lo, b);
    }
  }

  lemma {:induction false} LiveWhile(g: Cfg, s: Stmt, c: Code, p: Point, jumps: Option<Jumps>, lo: nat, hi: nat,
      dead: set<Block>)
    requires s.While? && CodeAt(g, s, c, p, jumps, lo, hi) && LiveStart(dead, p, jumps) && Divided(dead, s, c, lo)
    ensures LiveResult(g, dead, p, lo, hi, EndOf(c, p), Closes(s), Reaches(s), NoDeadEdge(s))
    decreases s, 0
  {
    hide CodeAt, CondCode, BranchCode, Crosses, LiveClosed, Ends, EndOf, OrSize, CodeSize, Divided, NoneDead, Placed;
    var c1 := LoopTaken(g, s, c, p, jumps, lo, hi);
    BodyDivided(g, p, jumps, hi, dead, s, c, lo, c1);
    LoopParts(g, dead, p, lo, c1, hi);
    LoopStart(dead, lo);
    hide LiveStart, JumpsLive;
    LiveCond(g, s.cond, c.cond, c.test, At(lo, 0), lo + 1, lo + 2, lo + 3, c1, dead);
    LiveBranch(g, s.body, c.body, lo + 1, lo, Some(Jumps(lo, lo + 2)), c1, hi, dead);
    JumpCrosses(g, dead, p, lo, lo);
  }

  lemma LoopStart(dead: set<Block>, lo: nat)
    requires lo !in dead && lo + 1 !in dead && lo + 2 !in dead
    ensures LiveStart(dead, At(lo + 1, 0), Some(Jumps(lo, lo + 2)))
  {
  }

  lemma BodyDead(s: Stmt, c: Code, lo: nat, c1: nat, b: Block)
    requires s.While? && c.Loop? && Placed(c, lo) && c1 == lo + 3 + OrSize(c.cond)
    ensures IsDead(s, c, lo, b) <==> IsDead(s.body, c.body, c1, b)
    ensures IsDead(s, c, lo, b) ==> c1 <= b
  {
    if IsDead(s.body, c.body, c1, b) { DeadInside(s.body, c.body, c1, b); }
  }

  lemma BodyDivided(g: Cfg, p: Point, jumps: Option<Jumps>, hi: nat, dead: set<Block>, s: Stmt, c: Code, lo: nat,
      c1: nat)
    requires s.While? && c.Loop? && CodeAt(g, s, c, p, jumps, lo, hi) && Divided(dead, s, c, lo)
    requires c1 == lo + 3 + OrSize(c.cond)
    ensures lo !in dead && lo + 1 !in dead && lo + 2 !in dead && NoneDead(dead, lo + 3, c1)
    ensures Divided(dead, s.body, c.body, c1)
  {
    forall b: Block
      ensures IsDead(s, c, lo, b) <==> IsDead(s.body, c.body, c1, b)
      ensures IsDead(s, c, lo, b) ==> c1 <= b
    {
      BodyDead(s, c, lo, c1, b);
    }
    hide IsDead, Placed;
    assert lo in dead <==> IsDead(s, c, lo, lo);
    assert lo + 1 in dead <==> IsDead(s, c, lo, lo + 1);
    assert lo + 2 in dead <==> IsDead(s, c, lo, lo + 2);
  }

  // ----- What is reached -----

  /** Every block of r leads to blocks of r only. */
  ghost predicate EdgeClosed(g: Cfg, r: set<Block>) {
    forall a :: a in r ==> a < |g| && forall s :: s in TermTargets(g[a]) ==> s in r
  }

  predicate AllIn(r: set<Block>, lo: nat, hi: nat) {
    forall b: Block :: lo <= b < hi ==> b in r
  }

  lemma TargetsIn(g: Cfg, r: set<Block>, b: Block, t: Block, f: Block)
    requires EdgeClosed(g, r) && b in r && b < |g| && TermTargets(g[b]) == [t, f]
    ensures t in r && f in r
  {
    assert t in TermTargets(g[b]) && f in TermTargets(g[b]);
  }

  lemma {:induction false} AndReached(g: Cfg, a: LAnd, c: AndCode, p: Point, f: Block, lo: nat, r: set<Block>)
    requires AndAt(g, a, c, p, f) && AndPlaced(c, lo) && EdgeClosed(g, r) && p.b in r
    ensures AllIn(r, lo, lo + AndSize(c)) && c.end.b in r
    decreases a
  {
    if a.LAndMore? {
      hide *;
      AndTaken(g, a, c, p, f, lo);
      AndReached(g, a.left, c.left, p, f, lo + 1, r);
      TestEdges(g, LAndType(a.left), c.left.val, c.test, c.zext, lo, f, c.left.end);
      TargetsIn(g, r, c.left.end.b, lo, f);
      OneMoreIn(r, lo, lo + AndSize(c));
    } else {
      hide *;
      AndOneEnd(g, a, c, p, f);
      NoneIn(r, lo);
    }
  }

  lemma AndOneEnd(g: Cfg, a: LAnd, c: AndCode, p: Point, f: Block)
    requires AndAt(g, a, c, p, f) && a.LAndOne?
    ensures c.end.b == p.b && AndSize(c) == 0
  {
    LeafSameBlock(g, a.exp, p, c.leafVal, c.leafEnd);
    hide LeafAt;
  }

  lemma OneMoreIn(r: set<Block>, lo: nat, hi: nat)
    requires lo in r && AllIn(r, lo + 1, hi)
    ensures AllIn(r, lo, hi)
  {
  }

  lemma NoneIn(r: set<Block>, lo: nat)
    ensures AllIn(r, lo, lo)
  {
  }

  lemma {:induction false} OrReached(g: Cfg, o: LOr, c: OrCode, p: Point, t: Block, f: Block, lo: nat, r: set<Block>)
    requires OrAt(g, o, c, p, t, f) && OrPlaced(c, lo) && EdgeClosed(g, r) && p.b in r
    ensures AllIn(r, lo, lo + OrSize(c)) && c.end.b in r
    decreases o
  {
    if o.LOrOne? {
      hide AndAt, AndPlaced, EdgeClosed;
      AndReached(g, o.land, c.land, p, f, lo, r);
    } else {
      hide OrAt, AndAt, TestAt, OrPlaced, AndPlaced, EdgeClosed, OrSize, AndSize;
      OrTaken(g, o, c, p, t, f, lo);
      OrReached(g, o.left, c.left, p, t, lo, lo + 1, r);
      TestEdges(g, LOrType(o.left), c.left.val, c.test, c.zext, t, lo, c.left.end);
      TargetsIn(g, r, c.left.end.b, t, lo);
      AndReached(g, o.land, c.right, At(lo, 0), f, lo + 1 + OrSize(c.left), r);
    }
  }

  lemma BranchTargets(g: Cfg, ty: Type, v: Operand, test: Name, t: Block, f: Block, p: Point)
    requires BranchAt(g, ty, v, test, t, f, p)
    ensures p.b < |g| && TermTargets(g[p.b]) == [t, f]
  {
  }

  lemma CondReached(g: Cfg, o: LOr, c: OrCode, test: Name, p: Point, t: Block, f: Block, lo: nat, hi: nat,
      r: set<Block>)
    requires CondCode(g, o, c, test, p, t, f, lo, hi) && EdgeClosed(g, r) && p.b in r
    ensures t in r && f in r && AllIn(r, lo, hi)
  {
    hide EdgeClosed, OrAt, BranchAt, OrPlaced, OrSize;
    OrReached(g, o, c, p, t, f, lo, r);
    BranchTargets(g, LOrType(o), c.val, test, t, f, c.end);
    hide *;
    TargetsIn(g, r, c.end.b, t, f);
  }

  lemma NextIn(g: Cfg, r: set<Block>, p: Point, next: Block)
    requires EdgeClosed(g, r) && p.b in r && Ends(g, p, Br(next))
    ensures next in r
  {
    assert next in TermTargets(g[p.b]);
  }

  /** What is claimed of the blocks reached from the start of code. */
  ghost predicate ReachedResult(s: Stmt, c: Code, p: Point, lo: nat, hi: nat, r: set<Block>) {
    && (forall b: Block :: lo <= b < hi && !IsDead(s, c, lo, b) ==> b in r)
    && (EndOf(c, p).Falls? && Reaches(s) ==> EndOf(c, p).p.b in r)
  }

  ghost predicate ItemsReachedResult(items: Items, c: Code, p: Point, lo: nat, hi: nat, r: set<Block>) {
    && (forall b: Block :: lo <= b < hi && !ItemsDead(items, c, lo, b) ==> b in r)
    && (EndOf(c, p).Falls? && ItemsReach(items) ==> EndOf(c, p).p.b in r)
  }

  /** From a reachable start every block that is not dead is reached. */
  lemma {:induction false} ReachedStmt(g: Cfg, s: Stmt, c: Code, p: Point, jumps: Option<Jumps>, lo: nat, hi: nat,
      r: set<Block>)
    requires CodeAt(g, s, c, p, jumps, lo, hi) && EdgeClosed(g, r) && p.b in r
    ensures ReachedResult(s, c, p, lo, hi, r)
    decreases s, 1
  {
    match s
    case Block(items) =>
      hide EdgeClosed, Placed, CodeSize, EndOf;
      ReachedItems(g, items, c, p, jumps, lo, hi, r);
    case If(_, _, _) =>
      hide *;
      ReachedIf(g, s, c, p, jumps, lo, hi, r);
    case While(_, _) =>
      hide *;
      ReachedWhile(g, s, c, p, jumps, lo, hi, r);
    case _ =>
      hide EdgeClosed, StmtAt;
      AtomCode(g, s, c, p, jumps, lo, hi);
  }

  lemma {:induction false} ReachedItems(g: Cfg, items: Items, c: Code, p: Point, jumps: Option<Jumps>, lo: nat,
      hi: nat, r: set<Block>)
    requires ItemsCodeAt(g, items, c, p, jumps, lo, hi) && EdgeClosed(g, r) && p.b in r
    ensures ItemsReachedResult(items, c, p, lo, hi, r)
    decreases items, 0
  {
    if items.Item? {
      var mid := ItemsTaken(g, items, c, p, jumps, lo, hi);
      ItemsSize(g, items, c, p, jumps, lo, hi);
      hide ItemsCodeAt, CodeAt, EdgeClosed, EndOf, CodeSize, IsDead;
      ReachedStmt(g, items.head, c.first, p, jumps, lo, mid, r);
      ItemsEnd(g, items, c, p, jumps, lo, hi);
      if Reaches(items.head) && EndOf(c.first, p).Falls? {
        ReachedItems(g, items.tail, c.rest, EndOf(c.first, p).p, jumps, mid, hi, r);
      }
    }
  }

  lemma ItemsSize(g: Cfg, items: Items, c: Code, p: Point, jumps: Option<Jumps>, lo: nat, hi: nat)
    requires items.Item? && ItemsCodeAt(g, items, c, p, jumps, lo, hi)
    ensures c.Sequence? && hi == lo + CodeSize(c.first) + CodeSize(c.rest)
  {
  }

  /** The head falls into one of its own blocks, and closes if control cannot get to its end. */
  lemma ItemsEnd(g: Cfg, items: Items, c: Code, p: Point, jumps: Option<Jumps>, lo: nat, hi: nat)
    requires items.Item? && ItemsCodeAt(g, items, c, p, jumps, lo, hi)
    ensures c.Sequence? && (EndOf(c.first, p).Falls? ==> EndOf(c.first, p).p.b < lo + CodeSize(c.first))
    ensures Reaches(items.head) ==> EndOf(c.first, p).Falls?
  {
    FallsUnlessCloses(g, items.head, c.first, p, jumps);
    ClosesNoReach(items.head);
    if EndOf(c.first, p).Falls? { EndInside(g, items.head, c.first, p, jumps, lo); }
  }

  lemma {:induction false} EndInside(g: Cfg, s: Stmt, c: Code, p: Point, jumps: Option<Jumps>, lo: nat)
    requires StmtAt(g, s, c, p, jumps) && Placed(c, lo) && p.b < lo && EndOf(c, p).Falls?
    ensures EndOf(c, p).p.b < lo + CodeSize(c)
    decreases s
  {
    if s.Block? {
      ItemsEndInside(g, s.items, c, p, jumps, lo);
    } else if IsAtom(s) {
      AtomSameBlock(g, s, c, p, jumps);
    }
  }

  lemma {:induction false} ItemsEndInside(g: Cfg, items: Items, c: Code, p: Point, jumps: Option<Jumps>, lo: nat)
    requires ItemsAt(g, items, c, p, jumps) && Placed(c, lo) && p.b < lo && EndOf(c, p).Falls?
    ensures EndOf(c, p).p.b < lo + CodeSize(c)
    decreases items
  {
    if items.Item? {
      EndInside(g, items.head, c.first, p, jumps, lo);
      ItemsEndInside(g, items.tail, c.rest, EndOf(c.first, p).p, jumps, lo + CodeSize(c.first));
    }
  }

  lemma {:induction false} ReachedBranch(g: Cfg, s: Stmt, c: Code, b: Block, next: Block, jumps: Option<Jumps>,
      lo: nat, hi: nat, r: set<Block>)
    requires BranchCode(g, s, c, b, next, jumps, lo, hi) && EdgeClosed(g, r) && b in r
    ensures forall a: Block :: lo <= a < hi && !IsDead(s, c, lo, a) ==> a in r
    ensures Reaches(s) ==> next in r
    decreases s, 2
  {
    ReachedStmt(g, s, c, At(b, 0), jumps, lo, hi, r);
    if Reaches(s) { BranchFalls(g, s, c, b, next, jumps, lo, hi); }
    hide CodeAt, EdgeClosed, EndOf, Reaches, IsDead, Ends;
    if Reaches(s) { NextIn(g, r, EndOf(c, At(b, 0)).p, next); }
  }

  lemma BranchFalls(g: Cfg, s: Stmt, c: Code, b: Block, next: Block, jumps: Option<Jumps>, lo: nat, hi: nat)
    requires BranchCode(g, s, c, b, next, jumps, lo, hi) && Reaches(s)
    ensures EndOf(c, At(b, 0)).Falls? && Ends(g, EndOf(c, At(b, 0)).p, Br(next))
  {
    FallsUnlessCloses(g, s, c, At(b, 0), jumps);
    ClosesNoReach(s);
  }

  lemma {:induction false} ReachedIf(g: Cfg, s: Stmt, c: Code, p: Point, jumps: Option<Jumps>, lo: nat, hi: nat,
      r: set<Block>)
    requires s.If? && CodeAt(g, s, c, p, jumps, lo, hi) && EdgeClosed(g, r) && p.b in r
    ensures ReachedResult(s, c, p, lo, hi, r)
    decreases s, 0
  {
    hide CodeAt, CondCode, BranchCode, EdgeClosed, Ends, EndOf, OrSize, CodeSize, IsDead;
    var c1, t1 := IfTaken(g, s, c, p, jumps, lo, hi);
    CondReached(g, s.cond, c.cond, c.test, p, lo, lo + 1, lo + 3, c1, r);
    ReachedBranch(g, s.thenStmt, c.thenCode, lo, lo + 2, jumps, c1, t1, r);
    if s.elseStmt.Some? {
      ReachedBranch(g, s.elseStmt.value, c.elseCode, lo + 1, lo + 2, jumps, t1, hi, r);
    } else {
      NextIn(g, r, At(lo + 1, 0), lo + 2);
    }
    forall b: Block | lo <= b < hi && !IsDead(s, c, lo, b)
      ensures b in r
    {
      IfDeadAt(g, s, c, p, jumps, lo, hi, b);
    }
  }

  lemma IfDeadAt(g: Cfg, s: Stmt, c: Code, p: Point, jumps: Option<Jumps>, lo: nat, hi: nat, b: Block)
    requires s.If? && c.Choice? && CodeAt(g, s, c, p, jumps, lo, hi)
    ensures IfDead(s, c, lo, b)
  {
    IfDeadIs(s, c, lo, b);
  }

  lemma {:induction false} ReachedWhile(g: Cfg, s: Stmt, c: Code, p: Point, jumps: Option<Jumps>, lo: nat, hi: nat,
      r: set<Block>)
    requires s.While? && CodeAt(g, s, c, p, jumps, lo, hi) && EdgeClosed(g, r) && p.b in r
    ensures ReachedResult(s, c, p, lo, hi, r)
    decreases s, 0
  {
    hide CodeAt, CondCode, BranchCode, EdgeClosed, Ends, EndOf, OrSize, CodeSize, IsDead;
    var c1 := LoopTaken(g, s, c, p, jumps, lo, hi);
    NextIn(g, r, p, lo);
    CondReached(g, s.cond, c.cond, c.test, At(lo, 0), lo + 1, lo + 2, lo + 3, c1, r);
    ReachedBranch(g, s.body, c.body, lo + 1, lo, Some(Jumps(lo, lo + 2)), c1, hi, r);
    forall b: Block | lo <= b < hi && !IsDead(s, c, lo, b)
      ensures b in r
    {
      BodyDeadAt(g, s, c, p, jumps, lo, hi, c1, b);
    }
  }

  lemma BodyDeadAt(g: Cfg, s: Stmt, c: Code, p: Point, jumps: Option<Jumps>, lo: nat, hi: nat, c1: nat, b: Block)
    requires s.While? && c.Loop? && CodeAt(g, s, c, p, jumps, lo, hi) && c1 == lo + 3 + OrSize(c.cond)
    ensures IsDead(s, c, lo, b) <==> IsDead(s.body, c.body, c1, b)
  {
    BodyDead(s, c, lo, c1, b);
  }

  /** No block is dead. */
  lemma {:induction false} NothingDead(g: Cfg, s: Stmt, c: Code, p: Point, jumps: Option<Jumps>, lo: nat, b: Block)
    requires AllReached(s) && StmtAt(g, s, c, p, jumps)
    ensures !IsDead(s, c, lo, b)
    decreases s
  {
    hide OrAt, BranchAt, GoesTo, EndOf, ExpAt, StoresAt, Has, Ends, Reaches;
    match s
    case Block(items) => NoItemDead(g, items, c, p, jumps, lo, b);
    case If(_, t, e) =>
      var l := lo + 3 + OrSize(c.cond);
      NothingDead(g, t, c.thenCode, At(c.trueBB, 0), jumps, l, b);
      if e.Some? { NothingDead(g, e.value, c.elseCode, At(c.falseBB, 0), jumps, l + CodeSize(c.thenCode), b); }
    case While(_, body) =>
      NothingDead(g, body, c.body, At(c.condBB, 0), Some(Jumps(c.testBB, c.afterBB)), lo + 3 + OrSize(c.cond), b);
    case _ =>
  }

  lemma {:induction false} NoItemDead(g: Cfg, items: Items, c: Code, p: Point, jumps: Option<Jumps>, lo: nat, b: Block)
    requires ItemsAllReached(items) && ItemsAt(g, items, c, p, jumps)
    ensures !ItemsDead(items, c, lo, b)
    decreases items
  {
    hide StmtAt, EndOf, IsDead, Reaches, Closes, AllReached;
    match items
    case Done =>
    case Item(h, t) =>
      NothingDead(g, h, c.first, p, jumps, lo, b);
      AllReachedIsLive(h);
      ClosesNoReach(h);
      FallsUnlessCloses(g, h, c.first, p, jumps);
      match EndOf(c.first, p)
      case Closed => assert CodeSize(c.rest) == 0;
      case Falls(q) => NoItemDead(g, t, c.rest, q, jumps, lo + CodeSize(c.first), b);
  }

  /** Otherwise some block is. */
  lemma {:induction false} SomethingDead(g: Cfg, s: Stmt, c: Code, p: Point, jumps: Option<Jumps>, lo: nat)
      returns (b: Block)
    requires !AllReached(s) && StmtAt(g, s, c, p, jumps) && Placed(c, lo)
    ensures lo <= b < lo + CodeSize(c) && IsDead(s, c, lo, b)
    decreases s
  {
    hide OrAt, BranchAt, GoesTo, EndOf, ExpAt, StoresAt, Has, Ends;
    match s
    case Block(items) => b := SomeItemDead(g, items, c, p, jumps, lo);
    case If(_, t, e) =>
      var l := lo + 3 + OrSize(c.cond);
      if !Reaches(s) {
        b := c.mergeBB;
      } else if !AllReached(t) {
        b := SomethingDead(g, t, c.thenCode, At(c.trueBB, 0), jumps, l);
      } else {
        b := SomethingDead(g, e.value, c.elseCode, At(c.falseBB, 0), jumps, l + CodeSize(c.thenCode));
      }
    case While(_, body) =>
      var inner := Some(Jumps(c.testBB, c.afterBB));
      b := SomethingDead(g, body, c.body, At(c.condBB, 0), inner, lo + 3 + OrSize(c.cond));
    case _ =>
      assert false;
  }

  lemma {:induction false} SomeItemDead(g: Cfg, items: Items, c: Code, p: Point, jumps: Option<Jumps>, lo: nat)
      returns (b: Block)
    requires !ItemsAllReached(items) && ItemsAt(g, items, c, p, jumps) && Placed(c, lo)
    ensures lo <= b < lo + CodeSize(c) && ItemsDead(items, c, lo, b)
    decreases items
  {
    hide StmtAt, EndOf, IsDead, Reaches, Closes, AllReached;
    var h, t := items.head, items.tail;
    if !AllReached(h) {
      b := SomethingDead(g, h, c.first, p, jumps, lo);
    } else {
      AllReachedIsLive(h);
      FallsUnlessCloses(g, h, c.first, p, jumps);
      b := SomeItemDead(g, t, c.rest, EndOf(c.first, p).p, jumps, lo + CodeSize(c.first));
    }
  }

  // ----- The whole function -----

  /** The unreachable blocks of a function. */
  ghost function DeadBlocks(body: Stmt, c: Code): set<Block> {
    set b | b in Blocks(1 + CodeSize(c)) && b >= 1 && IsDead(body, c, 1, b)
  }

  ghost predicate WholeFunction(g: Cfg, succs: seq<seq<Block>>, preds: seq<seq<Block>>, n: nat, body: Stmt, c: Code,
      last: Terminator) {
    && ListsOk(g, succs, preds) && FunctionAt(g, n, body, c, last) && Placed(c, 1) && |g| == 1 + CodeSize(c)
    && (last.Ret? || last.RetVoid?)
  }

  lemma WholeDivided(body: Stmt, c: Code)
    ensures Divided(DeadBlocks(body, c), body, c, 1) && ENTRY !in DeadBlocks(body, c)
  {
    hide IsDead, CodeSize;
  }

  lemma EntryLive(dead: set<Block>, n: nat)
    requires ENTRY !in dead
    ensures LiveStart(dead, Start(n), None)
  {
  }

  lemma WholeEnd(g: Cfg, succs: seq<seq<Block>>, preds: seq<seq<Block>>, n: nat, body: Stmt, c: Code, last: Terminator)
    requires WholeFunction(g, succs, preds, n, body, c, last)
    ensures EndOf(c, Start(n)).Falls? ==> Ends(g, EndOf(c, Start(n)).p, last)
    ensures last.Ret? || last.RetVoid?
  {
    hide ListsOk, StmtAt, ParamsAt, Placed, CodeSize, EndOf, Ends;
  }

  lemma ResultParts(g: Cfg, dead: set<Block>, p: Point, lo: nat, hi: nat, e: Exit, closes: bool, reaches: bool,
      clean: bool)
    requires LiveResult(g, dead, p, lo, hi, e, closes, reaches, clean)
    ensures (e.Falls? ==> Within(e.p.b, p, lo, hi)) && LiveClosed(g, dead, p, lo, hi, e)
    ensures Crosses(g, dead, p, lo, hi, e) <==> !clean
  {
    hide LiveClosed, Crosses, Within;
  }

  lemma WholeResult(g: Cfg, succs: seq<seq<Block>>, preds: seq<seq<Block>>, n: nat, body: Stmt, c: Code,
      last: Terminator)
    requires WholeFunction(g, succs, preds, n, body, c, last)
    ensures var p, dead := Start(n), DeadBlocks(body, c);
            ENTRY !in dead && LiveClosed(g, dead, p, 1, |g|, Closed)
              && (Crosses(g, dead, p, 1, |g|, Closed) <==> !NoDeadEdge(body))
  {
    hide *;
    var p, dead := Start(n), DeadBlocks(body, c);
    WholeCode(g, succs, preds, n, body, c, last);
    WholeDivided(body, c);
    EntryLive(dead, n);
    LiveStmt(g, body, c, p, None, 1, |g|, dead);
    ResultParts(g, dead, p, 1, |g|, EndOf(c, p), Closes(body), Reaches(body), NoDeadEdge(body));
    WholeEnd(g, succs, preds, n, body, c, last);
    LastCrosses(g, dead, p, 1, |g|, EndOf(c, p), last);
  }

  /** The return at the end leads nowhere. */
  lemma LastCrosses(g: Cfg, dead: set<Block>, p: Point, lo: nat, hi: nat, e: Exit, last: Terminator)
    requires e.Falls? ==> Within(e.p.b, p, lo, hi) && Ends(g, e.p, last) && (last.Ret? || last.RetVoid?)
    ensures Crosses(g, dead, p, lo, hi, Closed) <==> Crosses(g, dead, p, lo, hi, e)
    ensures LiveClosed(g, dead, p, lo, hi, Closed) <==> LiveClosed(g, dead, p, lo, hi, e)
  {
    if e.Falls? {
      assert TermTargets(g[e.p.b]) == [];
      assert !LeadsBack(g, dead, e.p.b) && StaysLive(g, dead, e.p.b);
      forall a: Block
        ensures Covered(a, p, lo, hi, Closed) <==> Covered(a, p, lo, hi, e) || a == e.p.b
      {
      }
      hide LeadsBack, StaysLive, Covered;
      if Crosses(g, dead, p, lo, hi, e) {
        var a: Block :| Covered(a, p, lo, hi, e) && a in dead && LeadsBack(g, dead, a);
        assert Covered(a, p, lo, hi, Closed);
      }
    }
  }

  lemma EdgeIsTarget(g: Cfg, succs: seq<seq<Block>>, preds: seq<seq<Block>>, a: Block, b: Block)
    requires ListsOk(g, succs, preds)
    ensures Edge(Graph(succs, preds), a, b) <==> a < |g| && b in TermTargets(g[a])
    ensures Edge(Graph(succs, preds), a, b) ==> ENTRY < b < |g| && a in preds[b]
  {
    if Edge(Graph(succs, preds), a, b) {
      assert multiset(succs[a])[b] == multiset(preds[b])[a];
      assert b in multiset(succs[a]);
    }
  }

  /** Exactly the blocks that are not dead are reachable. */
  lemma ReachableIsLive(g: Cfg, succs: seq<seq<Block>>, preds: seq<seq<Block>>, n: nat, body: Stmt, c: Code,
      last: Terminator, b: Block)
    requires WholeFunction(g, succs, preds, n, body, c, last)
    ensures Reachable(Graph(succs, preds), b) <==> b < |g| && b !in DeadBlocks(body, c)
  {
    var gr, dead := Graph(succs, preds), DeadBlocks(body, c);
    hide DeadBlocks, LiveClosed, Crosses, StmtAt, Placed, ListsOk, Walk, CodeSize;
    if Reachable(gr, b) {
      WholeResult(g, succs, preds, n, body, c, last);
      var w :| WalkTo(gr, w, ENTRY, b);
      WalkStaysLive(g, succs, preds, n, dead, w, b);
    } else if b < |g| && b !in dead {
      NotDeadReached(g, succs, preds, n, body, c, last, b);
    }
  }

  /** The blocks that some path reaches. */
  ghost function ReachedSet(g: Cfg, gr: Graph): (r: set<Block>)
    ensures forall a: Block :: a in r <==> a < |g| && Reachable(gr, a)
  {
    set a | a in Blocks(|g|) && Reachable(gr, a)
  }

  lemma NotDeadIn(g: Cfg, body: Stmt, c: Code, p: Point, r: set<Block>, b: Block)
    requires ReachedResult(body, c, p, 1, |g|, r) && b < |g| == 1 + CodeSize(c) && b !in DeadBlocks(body, c)
    ensures b == ENTRY || b in r
  {
    hide IsDead, CodeSize, EndOf, Reaches;
  }

  lemma NotDeadReached(g: Cfg, succs: seq<seq<Block>>, preds: seq<seq<Block>>, n: nat, body: Stmt, c: Code,
      last: Terminator, b: Block)
    requires WholeFunction(g, succs, preds, n, body, c, last) && b < |g| && b !in DeadBlocks(body, c)
    ensures Reachable(Graph(succs, preds), b)
  {
    hide *;
    var gr := Graph(succs, preds);
    var r := ReachedSet(g, gr);
    WholeLists(g, succs, preds, n, body, c, last);
    ReachedSetClosed(g, succs, preds, r);
    EntryReachable(gr);
    WholeCode(g, succs, preds, n, body, c, last);
    ReachedStmt(g, body, c, Start(n), None, 1, |g|, r);
    NotDeadIn(g, body, c, Start(n), r, b);
  }

  lemma WholeLists(g: Cfg, succs: seq<seq<Block>>, preds: seq<seq<Block>>, n: nat, body: Stmt, c: Code,
      last: Terminator)
    requires WholeFunction(g, succs, preds, n, body, c, last)
    ensures ListsOk(g, succs, preds) && ENTRY < |g| == 1 + CodeSize(c) && Start(n).b == ENTRY
  {
    hide ListsOk, FunctionAt, Placed, CodeSize;
  }

  lemma WholeCode(g: Cfg, succs: seq<seq<Block>>, preds: seq<seq<Block>>, n: nat, body: Stmt, c: Code, last: Terminator)
    requires WholeFunction(g, succs, preds, n, body, c, last)
    ensures CodeAt(g, body, c, Start(n), None, 1, |g|)
  {
    hide StmtAt, Placed, ListsOk, CodeSize;
  }

  lemma ReachedSetClosed(g: Cfg, succs: seq<seq<Block>>, preds: seq<seq<Block>>, r: set<Block>)
    requires ListsOk(g, succs, preds) && forall a: Block :: a in r <==> a < |g| && Reachable(Graph(succs, preds), a)
    ensures EdgeClosed(g, r)
  {
    var gr := Graph(succs, preds);
    hide Reachable, ListsOk;
    forall a | a in r
      ensures forall s :: s in TermTargets(g[a]) ==> s in r
    {
      forall s | s in TermTargets(g[a])
        ensures s in r
      {
        EdgeIsTarget(g, succs, preds, a, s);
        ReachableStep(gr, a, s);
      }
    }
  }

  lemma {:induction false} WalkStaysLive(g: Cfg, succs: seq<seq<Block>>, preds: seq<seq<Block>>, n: nat,
      dead: set<Block>, w: seq<Block>, b: Block)
    requires ListsOk(g, succs, preds) && WalkTo(Graph(succs, preds), w, ENTRY, b) && 0 < |g|
    requires ENTRY !in dead && LiveClosed(g, dead, Start(n), 1, |g|, Closed)
    ensures b < |g| && b !in dead
    decreases |w|
  {
    if |w| > 1 {
      var v, a := w[..|w| - 1], w[|w| - 2];
      assert Walk(Graph(succs, preds), v) && Edge(Graph(succs, preds), w[|w| - 2], w[|w| - 2 + 1]);
      WalkStaysLive(g, succs, preds, n, dead, v, a);
      EdgeIsTarget(g, succs, preds, a, b);
      assert Covered(a, Start(n), 1, |g|, Closed);
      assert StaysLive(g, dead, a);
    }
  }

  /** Dominator analysis gets through the lowered function exactly if no unreachable code of the body
      leads back to reachable code. */
  lemma JoinsReachableIff(g: Cfg, succs: seq<seq<Block>>, preds: seq<seq<Block>>, n: nat, body: Stmt, c: Code,
      last: Terminator)
    requires WholeFunction(g, succs, preds, n, body, c, last)
    ensures JoinsReachable(Graph(succs, preds)) <==> NoDeadEdge(body)
  {
    var gr, dead, p := Graph(succs, preds), DeadBlocks(body, c), Start(n);
    WholeResult(g, succs, preds, n, body, c, last);
    hide NoDeadEdge, DeadBlocks, StmtAt, Placed, ListsOk, Reachable, CodeSize, EndOf;
    if Crosses(g, dead, p, 1, |g|, Closed) {
      var a: Block :| Covered(a, p, 1, |g|, Closed) && a in dead && LeadsBack(g, dead, a);
      var s :| s in TermTargets(g[a]) && s !in dead;
      CrossingEdge(g, succs, preds, n, body, c, last, a, s);
    } else {
      forall a: Block, s: Block | Edge(gr, a, s) && Reachable(gr, s)
        ensures Reachable(gr, a)
      {
        NoCrossingEdge(g, succs, preds, n, body, c, last, a, s);
      }
    }
  }

  lemma CrossingEdge(g: Cfg, succs: seq<seq<Block>>, preds: seq<seq<Block>>, n: nat, body: Stmt, c: Code,
      last: Terminator, a: Block, s: Block)
    requires WholeFunction(g, succs, preds, n, body, c, last) && a < |g| && s in TermTargets(g[a])
    requires a in DeadBlocks(body, c) && s !in DeadBlocks(body, c)
    ensures !JoinsReachable(Graph(succs, preds))
  {
    hide FunctionAt, ListsOk, Placed, CodeSize, DeadBlocks, Reachable, JoinsReachable;
    EdgeIsTarget(g, succs, preds, a, s);
    ReachableIsLive(g, succs, preds, n, body, c, last, a);
    ReachableIsLive(g, succs, preds, n, body, c, last, s);
    DeadEdgeIsJoin(g, succs, preds, a, s);
  }

  lemma NoCrossingEdge(g: Cfg, succs: seq<seq<Block>>, preds: seq<seq<Block>>, n: nat, body: Stmt, c: Code,
      last: Terminator, a: Block, s: Block)
    requires WholeFunction(g, succs, preds, n, body, c, last)
    requires !Crosses(g, DeadBlocks(body, c), Start(n), 1, |g|, Closed)
    requires Edge(Graph(succs, preds), a, s) && Reachable(Graph(succs, preds), s)
    ensures Reachable(Graph(succs, preds), a)
  {
    var dead, p := DeadBlocks(body, c), Start(n);
    hide FunctionAt, ListsOk, Placed, CodeSize, DeadBlocks, Reachable;
    EdgeIsTarget(g, succs, preds, a, s);
    ReachableIsLive(g, succs, preds, n, body, c, last, a);
    ReachableIsLive(g, succs, preds, n, body, c, last, s);
    assert LeadsBack(g, dead, a) && Covered(a, p, 1, |g|, Closed);
  }

  /** A reachable block has a reachable predecessor, so an unreachable one makes it a join. */
  lemma DeadEdgeIsJoin(g: Cfg, succs: seq<seq<Block>>, preds: seq<seq<Block>>, a: Block, b: Block)
    requires ListsOk(g, succs, preds)
    requires var gr := Graph(succs, preds); Edge(gr, a, b) && !Reachable(gr, a) && Reachable(gr, b)
    ensures !JoinsReachable(Graph(succs, preds))
  {
    var gr := Graph(succs, preds);
    EdgeIsTarget(g, succs, preds, a, b);
    var w :| WalkTo(gr, w, ENTRY, b);
    var q := w[|w| - 2];
    assert Edge(gr, w[|w| - 2], w[|w| - 2 + 1]);
    PrefixWalk(gr, w, ENTRY, b, |w| - 2);
    EdgeIsTarget(g, succs, preds, q, b);
    hide ListsOk, Walk;
    TwoMembers(preds[b], a, q);
  }

  lemma TwoMembers(s: seq<Block>, a: Block, q: Block)
    requires a in s && q in s && a != q
    ensures |s| >= 2
  {
  }

  /** Every block of the function is reachable if and only if no if has branches that both jump away. */
  lemma AllReachedIff(g: Cfg, succs: seq<seq<Block>>, preds: seq<seq<Block>>, n: nat, body: Stmt, c: Code,
      last: Terminator)
    requires WholeFunction(g, succs, preds, n, body, c, last)
    ensures AllReached(body) <==> forall b: Block :: b < |g| ==> Reachable(Graph(succs, preds), b)
  {
    hide Reachable, StmtAt, ParamsAt, Placed, ListsOk, IsDead;
    if AllReached(body) {
      forall b: Block | b < |g|
        ensures Reachable(Graph(succs, preds), b)
      {
        NothingDead(g, body, c, Start(n), None, 1, b);
        ReachableIsLive(g, succs, preds, n, body, c, last, b);
      }
    } else {
      var b := SomethingDead(g, body, c, Start(n), None, 1);
      ReachableIsLive(g, succs, preds, n, body, c, last, b);
    }
  }
}
