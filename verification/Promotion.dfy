/** What Mem2Reg has to produce: for every point of a function the operand whose value a promoted
    variable has there, read off the dominator tree, and the rewriting that follows from it. */
module Promotion {
  import opened ControlFlow
  import opened DominatorTree
  import opened Ir

  /** Where a name is defined: the block and the position in its body. */
  datatype Loc = Loc(b: Block, i: nat)

  /** A function before promotion with its dominator tree; `phis` says for which variables each
      block has been given a phi. */
  datatype Context = Context(
    g: Graph,
    order: seq<Block>,
    id: Numbering,
    t: Tree,
    blocks: seq<BasicBlock>,
    loc: map<Name, Loc>,
    allocas: set<Name>,
    phis: map<Block, set<Name>>)

  function Body(cx: Context, b: Block): seq<Instr> {
    if b < |cx.blocks| then cx.blocks[b].body else []
  }

  /** The pointers form a tree over blocks of the function. */
  ghost predicate TreeOk(cx: Context) {
    && Rising(cx.id, cx.t)
    && (forall b :: b in cx.t ==> b < |cx.blocks|)
  }

  /** The tree is the dominator tree of the graph that the terminators span. */
  ghost predicate GraphOk(cx: Context) {
    && TreeOk(cx)
    && Valid(cx.g)
    && ReversePostOrder(cx.g, cx.order, cx.id)
    && ExactTree(cx.g, cx.id, cx.t)
    && |cx.blocks| == |cx.g.succs|
    && (forall b :: 0 <= b < |cx.blocks| ==> cx.g.succs[b] == Targets(cx.blocks[b].term))
    && (forall b: Block :: b in cx.t <==> Reachable(cx.g, b))
  }

  /** `loc` finds every definition, so no name is defined twice; names are not phi names yet. */
  ghost predicate LocOk(cx: Context) {
    && (forall d :: d in cx.loc ==> d.Tmp? && IsDefinition(cx, d, cx.loc[d]))
    && (forall b: Block, i: nat {:trigger Located(cx, b, i)} :: Located(cx, b, i))
  }

  ghost predicate Located(cx: Context, b: Block, i: nat) {
    i < |Body(cx, b)| && !Body(cx, b)[i].Store? ==>
      Body(cx, b)[i].dst in cx.loc && cx.loc[Body(cx, b)[i].dst] == Loc(b, i)
  }

  ghost predicate IsDefinition(cx: Context, d: Name, l: Loc) {
    l.b < |cx.blocks| && l.i < |cx.blocks[l.b].body| && Defines(cx.blocks[l.b].body[l.i], d)
  }

  /** The definition of `d` comes before position `i` of block `b` on every path. */
  ghost predicate Available(cx: Context, b: Block, i: nat, d: Name)
    requires TreeOk(cx) && b in cx.t
  {
    d in cx.loc &&
    if cx.loc[d].b == b then cx.loc[d].i < i else OnChain(cx.id, cx.t, cx.loc[d].b, b)
  }

  /** The same for operands of the result, where phis of a block count from its start. */
  ghost predicate Usable(cx: Context, b: Block, i: nat, o: Operand)
    requires TreeOk(cx) && b in cx.t
  {
    match o
    case Ref(PhiName(c, x)) => OnChain(cx.id, cx.t, c, b)
    case Ref(Tmp(n)) => Available(cx, b, i, Tmp(n))
    case _ => true
  }

  /** Static single assignment: uses in reachable blocks come after the definition. */
  ghost predicate UsesOk(cx: Context)
    requires TreeOk(cx)
  {
    && (forall b, i {:trigger InstrUsesOk(cx, b, i)} :: b in cx.t && 0 <= i < |Body(cx, b)| ==> InstrUsesOk(cx, b, i))
    && (forall b {:trigger TermUsesOk(cx, b)} :: b in cx.t ==> TermUsesOk(cx, b))
  }

  ghost predicate InstrUsesOk(cx: Context, b: Block, i: nat)
    requires TreeOk(cx) && b in cx.t && i < |Body(cx, b)|
  {
    forall o :: o in Operands(Body(cx, b)[i]) ==> SourceOperandOk(cx, b, i, o)
  }

  ghost predicate TermUsesOk(cx: Context, b: Block)
    requires TreeOk(cx) && b in cx.t
  {
    forall o :: o in TermOperands(cx.blocks[b].term) ==> SourceOperandOk(cx, b, |Body(cx, b)|, o)
  }

  ghost predicate SourceOperandOk(cx: Context, b: Block, i: nat, o: Operand)
    requires TreeOk(cx) && b in cx.t
  {
    o.Ref? ==> o.name.Tmp? && Available(cx, b, i, o.name)
  }

  ghost predicate IsAlloca(cx: Context, a: Name) {
    && a in cx.loc && cx.loc[a].b < |cx.blocks| && cx.loc[a].i < |cx.blocks[cx.loc[a].b].body|
    && cx.blocks[cx.loc[a].b].body[cx.loc[a].i].Alloca?
  }

  /** `is_valid_ptr` tells allocas from all other pointers that are loaded from or stored to: those
      are globals and results of getelementptr. */
  ghost predicate PointerOk(cx: Context, p: Operand) {
    match p
    case Global(_) => true
    case Ref(d) =>
      || d in cx.allocas
      || (d in cx.loc && cx.loc[d].b < |cx.blocks| && cx.loc[d].i < |cx.blocks[cx.loc[d].b].body|
          && cx.blocks[cx.loc[d].b].body[cx.loc[d].i].Gep?)
    case _ => false
  }

  ghost predicate PointersOk(cx: Context) {
    forall b: Block, i: nat {:trigger Accesses(cx, b, i)} :: Accesses(cx, b, i) ==> PointerOk(cx, Body(cx, b)[i].ptr)
  }

  ghost predicate Accesses(cx: Context, b: Block, i: nat) {
    i < |Body(cx, b)| && (Body(cx, b)[i].Load? || Body(cx, b)[i].Store?)
  }

  /** A function as the builder delivers it. */
  ghost predicate SourceOk(cx: Context) {
    && TreeOk(cx)
    && LocOk(cx)
    && UsesOk(cx)
    && (forall b :: 0 <= b < |cx.blocks| ==> cx.blocks[b].phis == [])
    && (forall a :: a in cx.allocas ==> IsAlloca(cx, a))
    && PointersOk(cx)
  }

  // ----- Reaching values -----

  /** The operand stored to `x` by the last of the first `i` instructions that does so. */
  function LastStore(body: seq<Instr>, i: nat, x: Name): Option<Operand>
    requires i <= |body|
  {
    if i == 0 then None
    else if body[i - 1].Store? && body[i - 1].ptr == Ref(x) then Some(body[i - 1].val)
    else LastStore(body, i - 1, x)
  }

  ghost predicate HasPhi(cx: Context, b: Block, x: Name) {
    b in cx.phis && x in cx.phis[b]
  }

  /** The operand that reaches position `i` of `b` for `x`: the top of x's stack there. */
  ghost function ReachAt(cx: Context, b: Block, i: nat, x: Name): Option<Operand>
    requires TreeOk(cx) && b in cx.t && i <= |Body(cx, b)|
    decreases cx.id[ENTRY] - cx.id[b], 1
  {
    var s := LastStore(Body(cx, b), i, x);
    if s.Some? then s else ReachIn(cx, b, x)
  }

  /** The operand that reaches the start of `b`, behind its phis. */
  ghost function ReachIn(cx: Context, b: Block, x: Name): Option<Operand>
    requires TreeOk(cx) && b in cx.t
    decreases cx.id[ENTRY] - cx.id[b], 0
  {
    if HasPhi(cx, b, x) then Some(Ref(PhiName(b, x)))
    else if b == ENTRY then None
    else ReachOut(cx, cx.t[b], x)
  }

  ghost function ReachOut(cx: Context, b: Block, x: Name): Option<Operand>
    requires TreeOk(cx) && b in cx.t
    decreases cx.id[ENTRY] - cx.id[b], 2
  {
    ReachAt(cx, b, |Body(cx, b)|, x)
  }

  /** Points in dominance order: everything usable at (c, j) is usable at (b, i). */
  ghost predicate Before(cx: Context, c: Block, j: nat, b: Block, i: nat)
    requires TreeOk(cx) && b in cx.t
  {
    if c == b then j <= i else OnChain(cx.id, cx.t, c, b)
  }

  lemma UsableLater(cx: Context, c: Block, j: nat, b: Block, i: nat, o: Operand)
    requires TreeOk(cx) && b in cx.t && c in cx.t && Before(cx, c, j, b, i) && Usable(cx, c, j, o)
    ensures Usable(cx, b, i, o)
  {
    if c != b && o.Ref? {
      match o.name
      case PhiName(d, x) => ChainTransitive(cx.id, cx.t, d, c, b);
      case Tmp(n) =>
        var d := cx.loc[o.name].b;
        if d != c { ChainTransitive(cx.id, cx.t, d, c, b); }
        if d == b { ChainRises(cx.id, cx.t, b, c); ChainRises(cx.id, cx.t, c, b); }
    }
  }

  lemma {:induction false} LastStoreUsable(cx: Context, b: Block, i: nat, x: Name)
    requires SourceOk(cx) && b in cx.t && i <= |Body(cx, b)| && LastStore(Body(cx, b), i, x).Some?
    ensures Usable(cx, b, i, LastStore(Body(cx, b), i, x).value)
  {
    hide Usable;
    var ins := Body(cx, b)[i - 1];
    var o := LastStore(Body(cx, b), i, x).value;
    if ins.Store? && ins.ptr == Ref(x) {
      StoredUsable(cx, b, i - 1);
    } else {
      LastStoreUsable(cx, b, i - 1, x);
    }
    UsableLater(cx, b, i - 1, b, i, o);
  }

  lemma StoredUsable(cx: Context, b: Block, i: nat)
    requires SourceOk(cx) && b in cx.t && i < |Body(cx, b)| && Body(cx, b)[i].Store?
    ensures Usable(cx, b, i, Body(cx, b)[i].val)
  {
    assert InstrUsesOk(cx, b, i);
    assert Body(cx, b)[i].val in Operands(Body(cx, b)[i]);
  }

  /** A reaching operand is available where it reaches. */
  lemma {:induction false} ReachUsable(cx: Context, b: Block, i: nat, x: Name)
    requires SourceOk(cx) && b in cx.t && i <= |Body(cx, b)| && ReachAt(cx, b, i, x).Some?
    ensures Usable(cx, b, i, ReachAt(cx, b, i, x).value)
    decreases cx.id[ENTRY] - cx.id[b]
  {
    var o := ReachAt(cx, b, i, x).value;
    if LastStore(Body(cx, b), i, x).Some? {
      LastStoreUsable(cx, b, i, x);
    } else if HasPhi(cx, b, x) {
      assert o == Ref(PhiName(b, x));
    } else {
      var d := cx.t[b];
      assert ReachAt(cx, b, i, x) == ReachIn(cx, b, x) == ReachOut(cx, d, x);
      ReachUsable(cx, d, |Body(cx, d)|, x);
      ParentBefore(cx, b, i);
      UsableLater(cx, d, |Body(cx, d)|, b, i, o);
    }
  }

  lemma ParentBefore(cx: Context, b: Block, i: nat)
    requires TreeOk(cx) && b in cx.t && b != ENTRY
    ensures cx.t[b] in cx.t && cx.t[b] != b && Before(cx, cx.t[b], |Body(cx, cx.t[b])|, b, i)
  {
    assert OnChain(cx.id, cx.t, cx.t[b], cx.t[b]);
  }

  // ----- Resolving loads -----

  /** `d` is a load of the variable `x` in a reachable block. */
  ghost predicate IsLoad(cx: Context, d: Name) {
    && d in cx.loc && cx.loc[d].b in cx.t && cx.loc[d].b < |cx.blocks|
    && cx.loc[d].i < |cx.blocks[cx.loc[d].b].body|
    && var ins := cx.blocks[cx.loc[d].b].body[cx.loc[d].i];
       ins.Load? && IsSlot(cx.allocas, ins.ptr)
  }

  ghost function LoadedSlot(cx: Context, d: Name): Name
    requires IsLoad(cx, d)
  {
    cx.blocks[cx.loc[d].b].body[cx.loc[d].i].ptr.name
  }

  /** What reaches the load `d`. */
  ghost function ReachLoad(cx: Context, d: Name): Option<Operand>
    requires SourceOk(cx) && IsLoad(cx, d)
  {
    ReachAt(cx, cx.loc[d].b, cx.loc[d].i, LoadedSlot(cx, d))
  }

  ghost function Height(cx: Context, o: Operand): nat
    requires SourceOk(cx)
  {
    if o.Ref? && IsLoad(cx, o.name) then cx.id[ENTRY] - cx.id[cx.loc[o.name].b] + 1 else 0
  }

  ghost function Position(cx: Context, o: Operand): nat {
    if o.Ref? && IsLoad(cx, o.name) then cx.loc[o.name].i else 0
  }

  lemma ReachLoadLower(cx: Context, d: Name)
    requires SourceOk(cx) && IsLoad(cx, d) && ReachLoad(cx, d).Some?
    ensures var o := ReachLoad(cx, d).value;
            Height(cx, o) < Height(cx, Ref(d))
              || (Height(cx, o) == Height(cx, Ref(d)) && Position(cx, o) < Position(cx, Ref(d)))
  {
    var l := cx.loc[d];
    ReachUsable(cx, l.b, l.i, LoadedSlot(cx, d));
    var o := ReachLoad(cx, d).value;
    if o.Ref? && IsLoad(cx, o.name) && cx.loc[o.name].b != l.b {
      ChainRises(cx.id, cx.t, cx.loc[o.name].b, l.b);
    }
  }

  /** The operand that replaces `o`: loads of promoted variables give way to what reaches them. */
  ghost function Resolve(cx: Context, o: Operand): Operand
    requires SourceOk(cx)
    decreases Height(cx, o), Position(cx, o)
  {
    if o.Ref? && IsLoad(cx, o.name) && ReachLoad(cx, o.name).Some? then
      ReachLoadLower(cx, o.name);
      Resolve(cx, ReachLoad(cx, o.name).value)
    else o
  }

  lemma {:induction false} ResolveUsable(cx: Context, b: Block, i: nat, o: Operand)
    requires SourceOk(cx) && b in cx.t && Usable(cx, b, i, o)
    ensures Usable(cx, b, i, Resolve(cx, o))
    decreases Height(cx, o), Position(cx, o)
  {
    if o.Ref? && IsLoad(cx, o.name) && ReachLoad(cx, o.name).Some? {
      var l := cx.loc[o.name];
      var v := ReachLoad(cx, o.name).value;
      ReachLoadLower(cx, o.name);
      ReachUsable(cx, l.b, l.i, LoadedSlot(cx, o.name));
      UsableLater(cx, l.b, l.i, b, i, v);
      ResolveUsable(cx, b, i, v);
    }
  }

  /** Resolving leaves no load that could be resolved further. */
  lemma {:induction false} ResolveFinal(cx: Context, o: Operand)
    requires SourceOk(cx)
    ensures var r := Resolve(cx, o);
            !(r.Ref? && IsLoad(cx, r.name) && ReachLoad(cx, r.name).Some?)
    decreases Height(cx, o), Position(cx, o)
  {
    if o.Ref? && IsLoad(cx, o.name) && ReachLoad(cx, o.name).Some? {
      ReachLoadLower(cx, o.name);
      ResolveFinal(cx, ReachLoad(cx, o.name).value);
    }
  }

  // ----- The edge lemma -----

  ghost predicate HasDef(cx: Context, b: Block, x: Name) {
    HasPhi(cx, b, x) || LastStore(Body(cx, b), |Body(cx, b)|, x).Some?
  }

  /** Every block with a definition of the variable x has x's phi throughout its dominance frontier. */
  ghost predicate PhisClosed(cx: Context) {
    forall d, b, x :: InFrontier(cx.g, d, b) && d in cx.t && b in cx.t && x in cx.allocas && HasDef(cx, d, x) ==>
      HasPhi(cx, b, x)
  }

  /** Along an edge p -> b, what reaches the end of p meets a phi of b or is what b inherits from its
      immediate dominator. */
  lemma EdgeLemma(cx: Context, p: Block, b: Block, x: Name)
    requires GraphOk(cx) && PhisClosed(cx) && p in cx.t && Edge(cx.g, p, b) && x in cx.allocas
    ensures b in cx.t
    ensures b != ENTRY && !HasPhi(cx, b, x) ==> ReachOut(cx, cx.t[b], x) == ReachOut(cx, p, x)
  {
    ReachableStep(cx.g, p, b);
    if b != ENTRY {
      StrictMeansParentChain(cx.g, cx.id, cx.t, cx.t[b], b);
      DominatesPredecessor(cx.g, cx.t[b], p, b);
      EdgeClimb(cx, p, p, b, x);
    }
  }

  lemma {:induction false} EdgeClimb(cx: Context, p: Block, c: Block, b: Block, x: Name)
    requires GraphOk(cx) && PhisClosed(cx) && p in cx.t && b in cx.t && b != ENTRY && Edge(cx.g, p, b)
    requires x in cx.allocas
    requires c in cx.t && OnChain(cx.id, cx.t, c, p) && OnChain(cx.id, cx.t, cx.t[b], c)
    ensures HasPhi(cx, b, x) || ReachOut(cx, cx.t[b], x) == ReachOut(cx, c, x)
    decreases cx.id[ENTRY] - cx.id[c]
  {
    var top := cx.t[b];
    if c != top {
      RunnerUp(cx, p, c, top);
      if HasDef(cx, c, x) {
        StrictMeansParentChain(cx.g, cx.id, cx.t, c, b);
        if OnChain(cx.id, cx.t, c, top) { ChainRises(cx.id, cx.t, c, top); ChainRises(cx.id, cx.t, top, c); }
        assert Dominates(cx.g, c, p);
        assert InFrontier(cx.g, c, b);
      } else {
        PassesOn(cx, c, x);
        EdgeClimb(cx, p, cx.t[c], b, x);
      }
    }
  }

  lemma PassesOn(cx: Context, c: Block, x: Name)
    requires TreeOk(cx) && c in cx.t && c != ENTRY && !HasDef(cx, c, x)
    ensures cx.t[c] in cx.t && ReachOut(cx, c, x) == ReachOut(cx, cx.t[c], x)
  {
    assert ReachOut(cx, c, x) == ReachAt(cx, c, |Body(cx, c)|, x) == ReachIn(cx, c, x);
  }

  lemma RunnerUp(cx: Context, p: Block, c: Block, top: Block)
    requires TreeOk(cx) && p in cx.t && c in cx.t && c != top
    requires OnChain(cx.id, cx.t, c, p) && OnChain(cx.id, cx.t, top, c)
    ensures c != ENTRY && cx.t[c] in cx.t && OnChain(cx.id, cx.t, cx.t[c], p) && OnChain(cx.id, cx.t, top, cx.t[c])
  {
    ChainTransitive(cx.id, cx.t, cx.t[c], c, p);
  }
}
